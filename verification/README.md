# KnowMap knowledge-graph retrieval and account simulation, modelled in Dafny

This project models the two pieces of logic of the KnowMap Streamlit
application:

- the **knowledge-graph retrieval core** of `pages/Knowledge_Graph.py`:
  building an undirected labelled graph from ordered
  (subject, predicate, object) triples and a label-to-text map; preparing
  the corpus (one document per node) and choosing the embedding backend;
  semantic search, which ranks node indices by descending score and keeps
  the first `top_k`; bounded neighbourhood expansion, a depth-limited
  frontier search that returns the induced subgraph around the matches;
  the upload gate that accepts a table only with `subject`, `predicate`
  and `object` columns; and the page's search action that chains these;
- the **simulated account state machine** of `app.py`: the session record
  with its user table, login, registration, the registration form's
  checks, and logout.

Files: `wrappers.dfy` (Option), `graph.dfy` (module `KnowledgeGraph`),
`ranking.dfy` (`Ranking`), `retrieval.dfy` (`Retrieval`),
`expansion.dfy` (`Expansion`), `upload.dfy` (`Upload`),
`search_page.dfy` (`SearchPage`), `corpus_cache.dfy` (`CorpusCache`),
`accounts.dfy` (`Accounts`).

How the source is represented:

- The graph is a class `Graph` whose fields the builder updates in place:
  the node labels in insertion order (the order the graph library lists
  them in), a map from label to its sentence list, and a map from
  unordered node pair to edge predicate. An unordered pair is a
  `set<Label>` of one or two labels; a self-loop `(A, p, A)` is the
  singleton `{A}`.
- `BuildGraph` is the source's loop; its result is tied to three fold
  functions (`NodeOrder`, `NodeSentences`, `EdgePredicates`), and lemmas
  say what those folds mean without reference to the loop.
- Embedding numerics are abstract. A backend is a tag (`Dense` model or
  `Sparse` TF-IDF vectorizer) and the scores of all nodes for the current
  query under a backend are a parameter `similarity: Backend -> seq<real>`.
- `argsort()[::-1]` is modelled by `ArgsortDescending`, a sort of the
  indices by descending score. Its contract, and every contract built on
  it, leaves the order of equal scores open, as the source's unstable
  sort does.
- `BuildSubgraphFromMatches` keeps the source's nested loops over sets.
  It is proved against `Ball`, the set reached after `d` rounds, and
  `Ball` is proved equal to "graph distance at most `d` from a seed".
- Each key of the session record is an `Option` field of class `Session`;
  `None` means the key is absent.

Behaviour notes (what the code does, where a reader might expect otherwise):

- The text map gives one string per label, so every node built from
  triples has exactly one sentence: `[text]`, or `[label]` without an entry.
- `semantic_search` treats only the empty string as an empty query. A
  query made of spaces is refused earlier, by the page's `q.strip()` check
  (`RunSearch`).
- Ties between equal scores are ordered by an unstable sort, then reversed,
  so no tie order is promised.
- `top_k` is applied as a Python slice `[:top_k]`; a negative value drops
  entries from the end (`TopIndices`).
- `depth` is used as `range(depth)`: a negative depth means zero rounds.
- Logout removes the user table from the session. The next page run puts
  back the two default accounts, so an account registered in that session
  can no longer log in (`LogoutForgetsRegistrations`).

## Model

| member | source | states |
|---|---|---|
| `KnowledgeGraph.NodeOrderIsLabels` | pages/Knowledge_Graph.py:99-103 | the nodes are exactly the subjects and objects of the triples, each listed once, and there are at most two per triple |
| `KnowledgeGraph.NodeSentencesAreFirstSeen` | pages/Knowledge_Graph.py:100-103 | every node has sentences `[text-map entry]`, or `[label]` when the label has no entry, whichever triple introduced it; later triples never change them |
| `KnowledgeGraph.EdgePairsAreTriplePairs` | pages/Knowledge_Graph.py:104-105 | every triple yields an edge between its subject and object, and no other edge exists |
| `KnowledgeGraph.EdgePredicatesFirstWins` | pages/Knowledge_Graph.py:104-105 | each triple's pair is an edge, and that edge carries the predicate of the first triple naming the unordered pair |
| `KnowledgeGraph.LaterTripleKeepsPredicate` | pages/Knowledge_Graph.py:104-105 | a later triple naming an already connected pair, in the same or the reverse direction, leaves all edge predicates unchanged |
| `KnowledgeGraph.BuildGraph` | pages/Knowledge_Graph.py:97-106 | the loop over the triples builds a fresh well-formed graph whose node order, node sentences and edge predicates are those of the triple folds |
| `KnowledgeGraph.Graph.AddNode` | pages/Knowledge_Graph.py:100-103 | adding an absent node appends it to the node order with its sentences and keeps the graph well formed; edges are untouched |
| `KnowledgeGraph.Graph.AddEdge` | pages/Knowledge_Graph.py:104-105 | adding an absent edge between two nodes records its predicate and changes nothing else |
| `KnowledgeGraph.Graph.Induced` | pages/Knowledge_Graph.py:153 | the induced copy lists each node of the kept set once, with its sentences, and keeps exactly the parent edges with both ends kept, with their predicates |
| `KnowledgeGraph.Filter` | pages/Knowledge_Graph.py:153 | the filtered list, the node listing of an induced copy, holds exactly the kept elements, no more entries than the original, and no duplicates when the original has none |
| `Ranking.ArgsortDescending` | pages/Knowledge_Graph.py:141 | the result lists every index of the scores exactly once, in non-increasing score order |
| `Ranking.TopIndices` | pages/Knowledge_Graph.py:141 | the selected indices are as many as the slice `[:top_k]` keeps (`min(top_k, n)` when `top_k >= 0`), are distinct and in non-increasing score order, and every index left out scores at most as much as every index selected |
| `Retrieval.Document` | pages/Knowledge_Graph.py:111 | a node's document starts with its label followed by `": "` |
| `Retrieval.PrepareCorpus` | pages/Knowledge_Graph.py:109-126 | given the graph's node list and sentence attributes, nodes and documents are parallel lists in that order, each document built from its node's label and sentences; exactly one of model and vectorizer is present, the model exactly when the dense library is available and loads; the vectorizer is fitted on the documents; the load-failure message appears exactly when the model fails |
| `Retrieval.DocumentOfBuiltNode` | pages/Knowledge_Graph.py:97-111 | for a graph built from triples, a node's document is its label, `": "`, and its text-map entry (or its label again) |
| `Retrieval.TopMatches` | pages/Knowledge_Graph.py:141-142 | the answer has as many pairs as the slice `[:top_k]` keeps, each a node with its own score, in non-increasing score order; with distinct labels no label repeats and no omitted node scores above the last one returned |
| `Retrieval.SemanticSearch` | pages/Knowledge_Graph.py:128-142 | an empty query, or no backend, gives `[]`; a present model is used whatever the vectorizer; otherwise the vectorizer's scores are used; the answer is a top-k answer for the chosen backend's scores |
| `Retrieval.SearchReturnsNodes` | pages/Knowledge_Graph.py:142 | every label a search returns is one of the searched nodes |
| `Expansion.BallGrows` | pages/Knowledge_Graph.py:145-152 | the reached node set always holds the seeds and only grows with the number of rounds |
| `Expansion.FrontierSuffices` | pages/Knowledge_Graph.py:147-152 | expanding only the nodes first reached in the previous round reaches the same nodes as expanding everything reached so far |
| `Expansion.BallWithinDistance` | pages/Knowledge_Graph.py:145-152 | every node reached after `d` rounds lies on a walk of at most `d` edges from a seed |
| `Expansion.DistanceWithinBall` | pages/Knowledge_Graph.py:145-152 | every node on a walk of at most `d` edges from a seed is reached after `d` rounds |
| `Expansion.BallIsDistance` | pages/Knowledge_Graph.py:145-152 | after `d` rounds the reached set is exactly the nodes at graph distance at most `d` from some seed |
| `Expansion.NeighborsOfAll` | pages/Knowledge_Graph.py:148-150 | the set gathered over the frontier is exactly the graph nodes adjacent to some frontier node (a self-loop counts) |
| `Expansion.BuildSubgraphFromMatches` | pages/Knowledge_Graph.py:144-153 | the loop runs `max(0, depth)` rounds and returns a fresh subgraph whose nodes are the graph's nodes within that many rounds of the matches (exactly the matches for depth 0), with their sentences, and exactly the parent edges between them with unchanged predicates |
| `Expansion.SunNeighbourhood` | pages/Knowledge_Graph.py:144-153 | from `(Sun, is_a, Star)` and `(Sun, related_to, Astrophysics)`, one round around `Sun` yields nodes `Sun`, `Star`, `Astrophysics` and both edges |
| `Upload.ReadTriples` | pages/Knowledge_Graph.py:186-194 | a table is accepted exactly when it has the columns `subject`, `predicate` and `object`; it then yields one triple per row taken from those columns in that order, and is otherwise rejected with the columns message |
| `Upload.TriplesAfterUpload` | pages/Knowledge_Graph.py:186-188 | the triples in use are replaced by the table's triples only when all three columns are present, and otherwise kept |
| `Upload.ReadTriplesRoundTrip` | pages/Knowledge_Graph.py:186-187 | triples written into a table, with the three columns at any positions, are read back unchanged |
| `SearchPage.RunSearch` | pages/Knowledge_Graph.py:213-229 | a blank query gives a warning and nothing else; otherwise the results are those of the search; no results give the no-matches warning; results give a fresh subgraph that contains every matched label, whose nodes are those within `depth` rounds of the matches with their sentences from the graph, and whose edges are exactly the graph's edges between two of them, with their predicates |
| `CorpusCache.PrepareCachedByFlag` | pages/Knowledge_Graph.py:108-109 | the cache as written: a hit on the backend flag returns the stored corpus and leaves the cache as it was, whatever graph is passed; a miss prepares the given graph's corpus (its nodes and documents, one backend, the model exactly when the library is present and loads) and adds it to the stored entries |
| `CorpusCache.StaleCorpusAfterDataChange` | pages/Knowledge_Graph.py:108-109 | after a run on uploaded triple `(A, r, B)`, a run on the graph of `(C, r, D)` is served the corpus listing `A` and `B`, so `A` can be returned though it is not a node |
| `CorpusCache.PrepareCached` | pages/Knowledge_Graph.py:108-126 | with the graph's content in the key, the corpus served lists exactly the given nodes, in order, with their own documents and one backend, and the cache stays sound and keeps its earlier entries |
| `CorpusCache.CachedCorpusMatchesGraph` | pages/Knowledge_Graph.py:197-198 | for a graph built from any triples, the content-keyed cache serves a corpus whose nodes are that graph's nodes and whose documents are label, `": "`, and text-map entry (or label) |
| `Accounts.RegistrationFormError` | app.py:78-83 | the form lets registration go ahead exactly when all four fields are non-empty and the password equals its confirmation; the mismatch message is given exactly when all fields are filled and the two differ |
| `Accounts.Session.Initialize` | app.py:9-17 | an absent user table becomes exactly the `admin` (role admin) and `user` (role editor) accounts, both with password `123`; an absent login flag becomes false with auth mode `login`; present keys are kept |
| `Accounts.Session.Login` | app.py:19-30 | login succeeds exactly when the user exists and the password matches; success sets the login flag, username, role, display name and the token `prefix + username`; failure changes nothing and says `Invalid username or password.` |
| `Accounts.Session.Register` | app.py:32-40 | a taken username fails with `Username already exists.` and changes nothing; a new one adds exactly that editor account with the given password and name, leaves the others untouched, and is then logged in |
| `Accounts.Session.SubmitRegistration` | app.py:77-88 | a form error is reported and changes nothing; with a valid form a taken username fails with `Username already exists.` and changes nothing; registration succeeds exactly for a valid form and a new username, adding that editor account and logging it in (login flag, username, role `editor`, display name, token), with the welcome prefixed by `Registration successful! `; the auth mode never changes |
| `Accounts.Session.Logout` | app.py:97-99 | every session key is cleared, the user table included, leaving only the login flag, set to false |
| `Accounts.LogoutForgetsRegistrations` | app.py:97-99 | whatever user table the session holds, registering a new account, logging out and the next page run leave the default table again: the new account no longer logs in, and no account added earlier in the session survives |

## Left out

- Embedding computation: loading the sentence-transformer model, encoding, TF-IDF fitting and transformation, cosine similarity and the linear kernel are floating-point numerics in foreign libraries. Scores are the abstract `similarity` parameter, backends are tags, and whether the dense library imports and the model loads are boolean parameters of `PrepareCorpus`.
- Scores are mathematical reals: NaN scores and floating-point rounding are not modelled.
- `ArgsortDescending`: fixes one order among equal scores (a new index goes after earlier ones with the same score); the library's unstable sort may order them differently. No contract mentions the tie order.
- `Retrieval.SemanticSearch`: distinct result labels and the bound on omitted nodes are promised only when the node list has no duplicates, which is always the case for a graph's node list.
- The clearing of the data cache after an upload, and the caching of anything but the corpus, are framework behaviour with no effect on the model.
- `visualize_graph` (network rendering, temporary file, HTML embedding) is I/O and display.
- Reading CSV and Excel files: the upload is modelled from the table it produces. Cells are strings; the library's typed cells (a year read as a number) and duplicated column names (the first one is used) are not modelled.
- The built-in demonstration triples and node texts (pages/Knowledge_Graph.py:26-95) are data, not logic, and are not reproduced.
- `Expansion.BuildSubgraphFromMatches`: a matched label that is not a node makes the graph library raise once there is a round to run; that case is excluded by its requires. Search results are nodes only when the corpus was prepared from the current graph, which the page's cache does not ensure (see Findings). With depth 0 such labels are dropped, as the subgraph call does.
- `SearchPage.RunSearch`: requires the corpus to list the nodes of the graph being searched. The page's cache as written can serve a corpus prepared from an earlier graph (see Findings), and then the subgraph extraction may raise; that run is not modelled.
- `KnowledgeGraph.Graph.Induced` and `Expansion.BuildSubgraphFromMatches`: the order in which the subgraph lists its nodes is not promised. The graph library lists the kept nodes in set iteration order when fewer than half of the nodes are kept, and in the parent's order otherwise; the model picks the parent's order. Only the rendering depends on it.
- `Retrieval.PrepareCorpus`: the TF-IDF fit raises when the documents yield no vocabulary (no nodes, or only stop words and one-character tokens, as in a lone document `A: A`); the page then stops with an error. The model always returns a fitted vectorizer.
- `Retrieval.SemanticSearch`: with no nodes (an uploaded table with headers and no rows), a non-blank query makes the dense path raise at the cosine-similarity call, which demands at least one sample (the TF-IDF path already raises at the fit, see above); the model answers `[]`, and `SearchPage.RunSearch` then gives the no-matches warning.
- pages/Triple_Extractor.py is a wrapper around an entity recogniser whose output is not available; pages/Dataset_Manager.py and pages/User_Profile.py are forms over the session with no rules beyond assignment.
- Streamlit widgets, `st.rerun`, success and error display calls, and the "must be logged in" guard at the top of each page.

## Findings

| source | as written | input that shows it | evidently intended | confidence | as-written member | corrected member |
|---|---|---|---|---|---|---|
| pages/Knowledge_Graph.py:108-109 | the corpus cache leaves the graph out of its key (`_graph`), so a cached corpus is served for whatever graph the page builds next; only a successful upload clears it | a run with an uploaded table holding `(A, r, B)`, then a run after the file is removed, on a graph built from `(C, r, D)`: the corpus served lists `A` and `B`, a search can return `A`, and with depth at least 1 the neighbour lookup of `A` raises | the corpus always belongs to the graph being searched, as if the graph's content were part of the key | high (not executed) | `CorpusCache.PrepareCachedByFlag`, `CorpusCache.StaleCorpusAfterDataChange` | `CorpusCache.PrepareCached`, `CorpusCache.CachedCorpusMatchesGraph` |
