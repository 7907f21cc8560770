/**
 * The upload gate: a table replaces the current triples only when it has
 * the columns `subject`, `predicate` and `object`.
 */
module Upload {
  import opened KnowledgeGraph

  /** A table read from an uploaded file: column names and rows of cells. */
  datatype Table = Table(columns: seq<string>, rows: seq<seq<string>>)

  datatype UploadOutcome = Loaded(triples: seq<Triple>) | Rejected(message: string)

  const RequiredColumns: seq<string> := ["subject", "predicate", "object"]
  const MissingColumns := "File must contain columns: subject, predicate, object."

  /** Every row has one cell per column. */
  predicate Rectangular(t: Table)
  {
    forall row :: row in t.rows ==> |row| == |t.columns|
  }

  predicate HasTripleColumns(t: Table)
  {
    forall c :: c in RequiredColumns ==> c in t.columns
  }

  /** Position of the first column called `name`. */
  function ColumnIndex(columns: seq<string>, name: string): (i: nat)
    requires name in columns
    ensures i < |columns| && columns[i] == name && name !in columns[..i]
  {
    if columns[0] == name then 0
    else
      assert name in columns[1..];
      1 + ColumnIndex(columns[1..], name)
  }

  /** The cell of row `i` in the column called `name`. */
  function Cell(t: Table, i: nat, name: string): string
    requires Rectangular(t) && i < |t.rows| && name in t.columns
  {
    assert t.rows[i] in t.rows;
    t.rows[i][ColumnIndex(t.columns, name)]
  }

  /** Reads the triples of an uploaded table, or rejects it. */
  function ReadTriples(t: Table): (outcome: UploadOutcome)
    requires Rectangular(t)
    ensures outcome.Loaded? <==> HasTripleColumns(t)
    ensures outcome.Rejected? ==> outcome.message == MissingColumns
    ensures outcome.Loaded? ==> |outcome.triples| == |t.rows|
    ensures outcome.Loaded? ==> forall i :: 0 <= i < |t.rows| ==>
      outcome.triples[i] == Triple(Cell(t, i, "subject"), Cell(t, i, "predicate"), Cell(t, i, "object"))
  {
    if HasTripleColumns(t) then
      assert "subject" in RequiredColumns && "predicate" in RequiredColumns && "object" in RequiredColumns;
      Loaded(seq(|t.rows|, i requires 0 <= i < |t.rows| =>
        Triple(Cell(t, i, "subject"), Cell(t, i, "predicate"), Cell(t, i, "object"))))
    else
      Rejected(MissingColumns)
  }

  /** The triples in use after an upload: replaced when it loaded, kept when it was rejected. */
  function TriplesAfterUpload(current: seq<Triple>, t: Table): (ts: seq<Triple>)
    requires Rectangular(t)
    ensures !HasTripleColumns(t) ==> ts == current
    ensures HasTripleColumns(t) ==> ts == ReadTriples(t).triples
  {
    match ReadTriples(t)
    case Loaded(triples) => triples
    case Rejected(_) => current
  }

  /** A table holding `ts` with the required columns in the given positions among `columns`. */
  function TableOf(ts: seq<Triple>, columns: seq<string>, s: nat, p: nat, o: nat): (t: Table)
    requires s < |columns| && p < |columns| && o < |columns|
    requires s != p && p != o && s != o
    ensures Rectangular(t)
  {
    Table(columns, seq(|ts|, i requires 0 <= i < |ts| =>
      seq(|columns|, j requires 0 <= j < |columns| =>
        if j == s then ts[i].subject else if j == p then ts[i].pred else if j == o then ts[i].obj else "")))
  }

  /** Triples written into a table, in whichever column order, are read back unchanged. */
  lemma ReadTriplesRoundTrip(ts: seq<Triple>, columns: seq<string>, s: nat, p: nat, o: nat)
    requires s < |columns| && p < |columns| && o < |columns|
    requires s != p && p != o && s != o
    requires columns[s] == "subject" && columns[p] == "predicate" && columns[o] == "object"
    requires NoDuplicates(columns)
    ensures ReadTriples(TableOf(ts, columns, s, p, o)) == Loaded(ts)
  {
    var t := TableOf(ts, columns, s, p, o);
    assert HasTripleColumns(t);
    var cs, cp, co := ColumnIndex(columns, "subject"), ColumnIndex(columns, "predicate"), ColumnIndex(columns, "object");
    assert cs == s && cp == p && co == o;
    var r := ReadTriples(t).triples;
    forall i | 0 <= i < |ts| ensures r[i] == ts[i] {
      assert Cell(t, i, "subject") == ts[i].subject;
      assert Cell(t, i, "predicate") == ts[i].pred;
      assert Cell(t, i, "object") == ts[i].obj;
    }
  }
}
