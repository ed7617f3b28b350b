# DebateSearch pipeline, modelled in Dafny

DebateSearch builds a search index of debate-style texts. Stance-annotated
tweets come from SemEval 2016 Task 6, and comments from a Reddit dump.
The pipeline runs in four stages, and each is a Dafny module here:

- `FetchRedditSubset` (`fetch_reddit_subset.dfy`) — the acquisition script.
  It walks a stream of Reddit comments and keeps those from six target
  subreddits whose body is longer than 40 characters. It writes each kept
  comment as a five-field record and stops after 50000 records. An item that
  makes the filter raise is skipped.
- `BuildCorpus` (`build_corpus.dfy`) — the corpus builder.
  - SemEval rows are normalised into a canonical document shape. Byte-order
    marks are stripped, header rows and short rows are skipped, extra columns
    are rejoined with tabs, and tombstone or short bodies are rejected.
  - Reddit JSON lines are normalised in the same way. A line that fails to
    decode is skipped; a line that is not an object, or whose body is truthy
    but not a string, raises.
  - Each source is written to its own part-file, and the two part-files are
    merged, SemEval first.
- `IndexToEs` (`index_to_es.dfy`) — the indexer.
  - It creates the `debate_docs` index if it is absent.
  - It turns every decoded object of the merged corpus into a bulk action.
    The action's `_id` is the document's own truthy id, else
    `doc-<line number>`. The first decoded value that is not an object ends
    the upload.
  - It counts the per-document results of the streaming bulk upload.
- `App` (`app.dfy`) — the HTTP gateway.
  - `/index` validates the posted documents and sends them as one bulk body
    of action/document pairs.
  - `/search` builds a two-clause boosted `bool/should` query.
  - The backend's hits are mapped to response records. A record needs a
    `title` and a `url`, which the corpus builder's documents do not have,
    so the indexer's corpus cannot be served by `/search` as written: a hit
    on it makes the search answer with a server error.

Supporting modules:

- `Wrappers`: Option, Result, an aborted-or-finished `Stream`, and filter-map helpers.
- `Json`: decoded JSON values, Python truthiness, `dict.get`, and `str()` of a scalar.
- `Text`: `strip`, `lower`, `lstrip("\ufeff")`, `join` and `split`.
- `Files`: a text file as a class with a `present` flag and its lines.
- `Backend`: the search cluster as a class. It holds a map of index schemas
  and a log of every client call.

How the model is shaped:

- **Library calls are oracles.** `json.loads` and `csv.reader` are not
  modelled. A JSON line reaches the model already decoded, as
  `Option<Json.Value>` (`None` when decoding fails). A tab-separated row
  arrives as the `seq<string>` the reader split it into.
- **Exceptions in generators.** An exception that escapes a generator (a
  non-object line, a body that cannot be stripped) is modelled as a
  `Stream` with `aborted` set. The items yielded before it are kept.
- **Loops are methods.** The loops of the source are methods with
  invariants, proved against specification functions:
  - `write_jsonl`, the merge, the `total` counter, the bulk-body loop, the
    hit loop and the acquisition loop;
  - the specification functions are `SemEvalRows`, `FilesDocs`,
    `RedditLines`, `PartsContents`, `BulkBody`, `ToResponse` and `Selected`.
- **Lemmas state the program's promises:**
  - round trips: split/join, dumped document/validation, bulk body/reader,
    search body/reader;
  - the canonical shape of every emitted document;
  - the position of every action and of every bulk entry;
  - an iff for every filter;
  - the stopping point of the acquisition loop.

## Model

| member | source | states |
|---|---|---|
| `Text.StripBom` | indexer/build_corpus.py:44 | the result is the suffix of the field left after a run of leading U+FEFF marks, and it does not start with one |
| `Text.Strip` | indexer/build_corpus.py:51-53 | `str.strip()`: no longer than its input, and neither end of a non-empty result is whitespace |
| `Text.TrimLeft` | indexer/build_corpus.py:51-53 | the result is a suffix of the input, everything dropped is whitespace, and it does not start with whitespace; `StripEmpty` gives when nothing is left |
| `Text.TrimRight` | indexer/build_corpus.py:51-53 | the result is a prefix of the input, everything dropped is whitespace, and it does not end with whitespace |
| `Text.StripEmpty` | indexer/build_corpus.py:51-53 | a string strips to the empty string exactly when every character is whitespace |
| `Text.Lower` | indexer/build_corpus.py:45 | lower-casing keeps the length |
| `Text.LowerAt` | indexer/build_corpus.py:45 | lower-casing works character by character |
| `Text.LowerIdempotent` | indexer/build_corpus.py:45 | lower-casing an already lower-cased string changes nothing |
| `Text.Split` | indexer/build_corpus.py:40 | splitting on the tab delimiter gives at least one field, and no field contains a tab |
| `Text.Join` | indexer/build_corpus.py:50 | `sep.join(parts)`: a single part is returned unchanged and no part gives the empty string; `JoinSplit` shows splitting on the separator is undone by it |
| `Text.JoinSplit` | indexer/build_corpus.py:50 | joining the tab-split pieces of a string with single tabs gives back the string |
| `Text.SplitLeadingField` | indexer/build_corpus.py:40 | a tab-free field followed by a tab splits off as the first field |
| `Text.SplitPiecesAvoid` | indexer/build_corpus.py:40 | a character absent from a string is absent from every piece of its split |
| `Json.Get` | indexer/build_corpus.py:79 | `dict.get(key, default)`: the stored value when the key is present, the default otherwise |
| `Json.Truthy` | indexer/index_to_es.py:52 | the predicate is Python truthiness over decoded values; its contract states that `None` is never truthy |
| `Json.NatToString` | indexer/index_to_es.py:52 | `str()` of a line number is a non-empty string of decimal digits; `NatToStringInjective` shows different numbers render differently |
| `Json.NatToStringInjective` | indexer/index_to_es.py:52 | different line numbers have different decimal renderings |
| `Json.IntToString` | indexer/build_corpus.py:85 | `str()` of an int id is non-empty and starts with `-` exactly when the int is negative |
| `Json.Show` | indexer/build_corpus.py:85 | the f-string rendering of a string id is the string itself, and of a missing id `None` |
| `Files.TextFile.Contents` | indexer/build_corpus.py:108-110 | a reader finds the file's lines, and nothing when the file does not exist |
| `Files.TextFile.Truncate` | indexer/build_corpus.py:19 | opening for writing leaves an existing, empty file |
| `Files.TextFile.Append` | indexer/build_corpus.py:21 | writing a line appends exactly that line |
| `Backend.Cluster.Exists` | indexer/index_to_es.py:38 | the answer is whether the index exists; the call is logged and the indices are unchanged |
| `Backend.Cluster.Create` | indexer/index_to_es.py:39 | the index is added with the given schema and the call is logged |
| `Backend.Cluster.SendBulk` | backend/app.py:83 | a non-empty body is sent once and logged; the client refuses an empty body without sending |
| `Backend.Cluster.SendStreamingBulk` | indexer/index_to_es.py:63-69 | the upload is logged, and there is one result per action |
| `Backend.Cluster.SendSearch` | backend/app.py:96 | the request and the hits the backend returns are logged together |
| `BuildCorpus.DocToJson` | indexer/build_corpus.py:56-64 | the written object is a dict whose `id` is the document's id |
| `BuildCorpus.BodyAcceptedIffLongEnough` | indexer/build_corpus.py:51-54 | the non-empty, tombstone and length checks accept a body exactly when its stripped length is at least 10 |
| `BuildCorpus.BodyAccepted` | indexer/build_corpus.py:51-54 | an accepted body has at least 10 characters; `BodyAcceptedIffLongEnough` shows the three checks reduce to the stripped length being at least 10 |
| `BuildCorpus.CanonicalIdNonEmpty` | indexer/build_corpus.py:57 | every canonical document has a non-empty id, because it carries a `semeval-` or `reddit-` prefix |
| `BuildCorpus.NameLe` | indexer/build_corpus.py:31 | the order `sorted` uses on names puts a prefix first (so every name is ordered before itself); `NameLeTotal` shows any two names are comparable |
| `BuildCorpus.NameLeTotal` | indexer/build_corpus.py:31 | any two file names are ordered one way or the other |
| `BuildCorpus.InsertByName` | indexer/build_corpus.py:31 | inserting into a name-sorted list keeps it sorted and adds exactly that file |
| `BuildCorpus.SortByName` | indexer/build_corpus.py:31 | `sorted(...)` yields the same files, as a multiset, in ascending name order |
| `BuildCorpus.Matching` | indexer/build_corpus.py:31 | a file is kept exactly when it is in the directory and its name matches `*all-annotations*.txt`, and it is kept as many times as the listing holds it (a non-matching file not at all) |
| `BuildCorpus.OccursAt` | indexer/build_corpus.py:31 | the recursive substring test behind the glob's `*all-annotations*` holds exactly when some slice of the string is the marker |
| `BuildCorpus.MatchesPatternGlob` | indexer/build_corpus.py:31 | a name matches `*all-annotations*.txt` exactly when it is some text, `all-annotations`, some more text, then `.txt` |
| `BuildCorpus.Candidates` | indexer/build_corpus.py:31 | the candidate files are the matching files of the directory sorted by name, a permutation of them, so no file is loaded twice or dropped |
| `BuildCorpus.CleanRow` | indexer/build_corpus.py:44 | the row keeps its length, and every field loses its leading byte-order marks |
| `BuildCorpus.NormalizeRow` | indexer/build_corpus.py:42-65 | a row yields a document only when it has at least four fields, and the document's source is SemEval |
| `BuildCorpus.NormalizeRowSkips` | indexer/build_corpus.py:42-48 | an empty row, a header row (BOM-stripped first field lower-casing to `id` or `tweet id`) and a row of fewer than four fields yield nothing |
| `BuildCorpus.IsHeaderIgnoresCase` | indexer/build_corpus.py:45 | the header test ignores case, so `ID` and `Tweet Id` are headers as well; `NormalizeRowSkips` shows header rows yield nothing |
| `BuildCorpus.NumericIdNotHeader` | indexer/build_corpus.py:45 | a numeric tweet id is never taken for a header |
| `BuildCorpus.Tweet` | indexer/build_corpus.py:50 | a four-field row's tweet is its fourth field; `TweetIsJoin` covers longer rows, whose fields from the fourth on are joined by tabs |
| `BuildCorpus.NormalizeRowAccepts` | indexer/build_corpus.py:42-64 | a row yields a document iff it has four or more fields, is not a header, and its tweet passes the body checks; the document is `semeval-`+id with the tweet as body, target and stance from fields 2 and 3, and None for subreddit, created_utc and score |
| `BuildCorpus.TweetIsJoin` | indexer/build_corpus.py:50 | for four fields or more, the tweet is the fields from the fourth on joined by single tabs (for exactly four, the fourth field) |
| `BuildCorpus.NormalizeRowCanonical` | indexer/build_corpus.py:51-64 | every SemEval document is canonical |
| `BuildCorpus.SemEvalRows` | indexer/build_corpus.py:41-65 | a file's rows yield at most one document each; `ReadRows` proves the row loop computes it, and `SemEvalRowsAppend` that rows are handled independently |
| `BuildCorpus.SemEvalRowsAppend` | indexer/build_corpus.py:41-65 | rows are processed independently: the documents of `a + b` are those of `a`, then those of `b` |
| `BuildCorpus.SemEvalRowsSnoc` | indexer/build_corpus.py:41-65 | reading one more row adds that row's document, if any, at the end |
| `BuildCorpus.SemEvalRowsCanonical` | indexer/build_corpus.py:41-65 | every document the rows of a file yield is canonical and from SemEval |
| `BuildCorpus.FilesDocsAppend` | indexer/build_corpus.py:37-65 | the documents of several files are those of each file in turn |
| `BuildCorpus.FilesDocs` | indexer/build_corpus.py:37-41 | no file yields no document; `FilesDocsAppend` and `FilesDocsCanonical` give the documents of several files |
| `BuildCorpus.SemEvalDocs` | indexer/build_corpus.py:31-41 | an empty directory yields no document; `NoCandidatesNoDocs` extends this to a directory without a matching file |
| `BuildCorpus.FilesDocsSnoc` | indexer/build_corpus.py:37-41 | reading one more file adds that file's documents at the end |
| `BuildCorpus.FilesDocsCanonical` | indexer/build_corpus.py:37-65 | every document of the SemEval files is canonical and from SemEval |
| `BuildCorpus.NoCandidatesNoDocs` | indexer/build_corpus.py:31-34 | a directory without a matching file yields no document |
| `BuildCorpus.TabbedTweetReconstructed` | indexer/build_corpus.py:40-64 | a raw line `id TAB target TAB stance TAB tweet` whose accepted tweet holds tabs yields a document whose body is the tweet exactly as on the line |
| `BuildCorpus.TweetRowAccepted` | indexer/build_corpus.py:44-64 | three fields followed by the tab-pieces of an accepted tweet yield that tweet whole as the body |
| `BuildCorpus.RowWithTweet` | indexer/build_corpus.py:49-64 | a non-header row whose cleaned fields from the fourth on join to an accepted tweet yields the document for that tweet |
| `BuildCorpus.SplitTabbedLine` | indexer/build_corpus.py:40 | a line of three tab-free fields and a tweet splits into those three fields, then the pieces of the tweet |
| `BuildCorpus.CleanTweetPieces` | indexer/build_corpus.py:44 | the pieces of a tweet without byte-order marks come through BOM stripping untouched |
| `BuildCorpus.CleanRowKeeps` | indexer/build_corpus.py:44 | fields without byte-order marks are left as they are |
| `BuildCorpus.NormalizeLine` | indexer/build_corpus.py:74-93 | a line that fails to decode is skipped, and every emitted document's source is Reddit |
| `BuildCorpus.NormalizeLineRaises` | indexer/build_corpus.py:76-82 | a decoded line raises exactly when it is not a dict, or its body is truthy but not a string |
| `BuildCorpus.NormalizeLineEmits` | indexer/build_corpus.py:76-93 | a line yields a document iff it decodes to a dict whose body (empty when missing) is a string passing the body checks |
| `BuildCorpus.NormalizeLineFields` | indexer/build_corpus.py:79-93 | an emitted document has the line's string body untouched and accepted, the id `reddit-`+str(id), the line's subreddit and created_utc (None when missing), and its score, 0 only when the key is absent |
| `BuildCorpus.NormalizeLineCanonical` | indexer/build_corpus.py:80-93 | every Reddit document is canonical |
| `BuildCorpus.Collect` | indexer/build_corpus.py:74-93 | the generator yields only emitted documents, at most one per line, and raises exactly when some line raises |
| `BuildCorpus.CollectAppend` | indexer/build_corpus.py:74-93 | collecting `a + b` is collecting `a`, then `b` unless `a` raised |
| `BuildCorpus.Outcomes` | indexer/build_corpus.py:74-93 | each line is examined on its own, in file order |
| `BuildCorpus.OutcomesAppend` | indexer/build_corpus.py:74-93 | examining `a + b` examines `a`, then `b` |
| `BuildCorpus.RedditLines` | indexer/build_corpus.py:73-93 | at most one document per line, and the stream is aborted exactly when a line raises |
| `BuildCorpus.RedditLinesCanonical` | indexer/build_corpus.py:79-93 | every yielded Reddit document is canonical and from Reddit |
| `BuildCorpus.RedditLinesAppend` | indexer/build_corpus.py:74-93 | lines are processed in order and independently, up to the first that raises |
| `BuildCorpus.MalformedLineSkipped` | indexer/build_corpus.py:76-78 | a line that fails to decode, wherever it sits, changes nothing in the output |
| `BuildCorpus.LoadReddit` | indexer/build_corpus.py:70-72 | a missing Reddit file yields an empty, finished stream |
| `BuildCorpus.ReadRows` | indexer/build_corpus.py:41-65 | the loop over rows yields exactly the documents of `SemEvalRows` and bumps `total` once per document |
| `BuildCorpus.LoadSemEval` | indexer/build_corpus.py:25-65 | the generator yields the documents of the sorted matching files in order, and `total` is their number |
| `BuildCorpus.LoadFiles` | indexer/build_corpus.py:36-65 | the loop over files yields the documents of each file in turn, and `total` counts them |
| `BuildCorpus.WriteJsonl` | indexer/build_corpus.py:17-23 | the file is recreated holding exactly the yielded items in order; the count is their number, and none when the generator raised |
| `BuildCorpus.PartsContentsSnoc` | indexer/build_corpus.py:107-113 | merging one more part appends that part's lines |
| `BuildCorpus.PartsContents` | indexer/build_corpus.py:105-113 | no part gives no line; `PartsContentsSnoc` gives each further part's lines in order |
| `BuildCorpus.CopyLines` | indexer/build_corpus.py:110-113 | copying a part appends its lines in order and counts each one |
| `BuildCorpus.Merge` | indexer/build_corpus.py:105-113 | the merged file holds the lines of every existing part in order, a missing part contributing nothing, and `merged` is their number |
| `BuildCorpus.PartsContentsPair` | indexer/build_corpus.py:107 | merging the two parts gives the SemEval lines, then the Reddit lines |
| `BuildCorpus.Run` | indexer/build_corpus.py:95-114 | the part-files hold the SemEval and Reddit documents; the merged corpus is SemEval then Reddit, and its count is the sum of the two; when the Reddit stream raises, the run stops and the merged corpus is untouched |
| `BuildCorpus.CorpusCanonical` | indexer/build_corpus.py:56-64 | every document of the merged corpus is canonical |
| `IndexToEs.FallbackId` | indexer/index_to_es.py:52 | the fallback id is a string `doc-` followed by at least one character |
| `IndexToEs.FallbackIdsDistinct` | indexer/index_to_es.py:52 | different lines get different fallback ids |
| `IndexToEs.DocId` | indexer/index_to_es.py:52 | `_id` is the document's own id when that is truthy, the fallback for its line otherwise, and always truthy |
| `IndexToEs.ActionsFrom` | indexer/index_to_es.py:44-57 | at most one action per decoded line, and the generator raises exactly when a decoded line is not a dict |
| `IndexToEs.ActionsCount` | indexer/index_to_es.py:46-57 | when every decoded line is a dict, there is exactly one action per decoded line |
| `IndexToEs.LineActions` | indexer/index_to_es.py:46-57 | each line is mapped to its action, numbered by its physical line |
| `IndexToEs.Action` | indexer/index_to_es.py:53-57 | an action is a dict of exactly `_index`, `_id` and `_source`, carrying the given id and the decoded document |
| `IndexToEs.LineAction` | indexer/index_to_es.py:47-57 | a line has an action exactly when it decodes to a dict |
| `IndexToEs.Actions` | indexer/index_to_es.py:44-57 | the generator raises exactly when some decoded line is not a dict; `ActionsCount` and `ActionAt` give the count and position of the actions |
| `IndexToEs.ActionsOfLines` | indexer/index_to_es.py:46-57 | the actions are those of the decoded lines in file order, skipped lines using up their numbers |
| `IndexToEs.ActionAt` | indexer/index_to_es.py:46-57 | the decoded line j becomes the action after those of the decoded lines before it; it targets `debate_docs` under its own truthy id or `doc-<j's line number>`, with the document unchanged as `_source` |
| `IndexToEs.AllObjectsTail` | indexer/index_to_es.py:46-52 | dropping the first line keeps every decoded line a dict |
| `IndexToEs.ActionsUpToRaise` | indexer/index_to_es.py:46-52 | a decoded line that is not a dict ends the stream with the actions of the lines before it |
| `IndexToEs.Sent` | indexer/index_to_es.py:63-69 | without a raise every action is sent; with one, only whole chunks of 1000 handed over before it are sent, so between 1 and 1000 actions are lost (none when there were none) |
| `IndexToEs.SentLosesFullChunk` | indexer/index_to_es.py:63-69 | a raise right after exactly 1000 actions sends nothing, since the full chunk is only handed over when the next action arrives |
| `IndexToEs.EnsureIndex` | indexer/index_to_es.py:37-42 | the index exists afterwards; it is created with the mapping only when it was absent, otherwise the indices are unchanged (so a second call is a no-op) |
| `IndexToEs.Run` | indexer/index_to_es.py:59-72 | one existence check, a creation only if absent, and one streaming upload of the sent actions; `total` counts every result, successful or not, and equals the number of decoded lines, with none when a line raised |
| `IndexToEs.Encoded` | indexer/index_to_es.py:44-50 | reading the corpus back gives one decoded line per document |
| `IndexToEs.IdActions` | indexer/index_to_es.py:53-57 | one action per document |
| `IndexToEs.IdActionsAt` | indexer/index_to_es.py:53-57 | action i indexes document i, unchanged, under its id |
| `IndexToEs.CorpusActions` | indexer/index_to_es.py:44-57 | documents with non-empty ids are indexed in order under their own ids, without a fallback and without a raise |
| `IndexToEs.CorpusHitNotServed` | backend/app.py:98-105 | a hit on any document of the builder's corpus cannot be read into a response record, since the corpus carries no `title`; `/search` then answers with a server error |
| `IndexToEs.MergedCorpusIndexed` | indexer/index_to_es.py:44-57 | indexing the corpus the builder writes gives one action per document, in corpus order, each under the document's own id |
| `App.EnsureIndex` | backend/app.py:47-49 | the index exists afterwards; it is created with the mapping only when it was absent, otherwise the indices are unchanged |
| `App.StrField` | backend/app.py:51-57 | a field is read as a string exactly when the key is present with a string value |
| `App.ParseDocIn` | backend/app.py:51-57 | a value validates as a document iff it is a dict holding all six fields as strings; the document holds those strings |
| `App.ParseDump` | backend/app.py:81 | a dumped document validates back to itself |
| `App.Dump` | backend/app.py:81 | the dump carries the document's id as a string; `ParseDump` shows all six fields validate back to the document |
| `App.ParseDocs` | backend/app.py:76 | a list validates iff every element does, into one document per element in order |
| `App.BulkBody` | backend/app.py:77-82 | the bulk body for n documents has 2n entries |
| `App.Header` | backend/app.py:80 | the action line is a dict under `index` naming the document's id; `BulkBodyAt` places it before the document |
| `App.BulkBodyAt` | backend/app.py:77-82 | entry 2i indexes document i under its id in `debate_docs`, and entry 2i+1 is its fields |
| `App.BulkBodyCons` | backend/app.py:77-82 | the bulk body starts with the pair for the first document |
| `App.ReadBulkBodyRoundTrip` | backend/app.py:77-83 | the backend reads back exactly the documents, in order, from the bulk body |
| `App.BuildBulkBody` | backend/app.py:77-82 | the `extend` loop builds exactly the bulk body |
| `App.IndexDocs` | backend/app.py:75-84 | an invalid body is refused (422) without a call; an empty list makes the client raise (500) without a call; otherwise one bulk call with refresh carries the documents, and the reply counts them |
| `App.ReadMatch` | backend/app.py:91-92 | a match clause reads back as its field, query and boost |
| `App.Match` | backend/app.py:91-92 | a match clause is a dict of one key, `match`, over exactly the given field; `ReadMatch` reads its query and boost back |
| `App.ReadSearchBody` | backend/app.py:88-96 | the search body asks for k hits with exactly two clauses on q as given: title boosted by 2.0, then body without a boost |
| `App.SearchBody` | backend/app.py:88-96 | the search body has exactly `size` and `query`, with `size` the requested k; `ReadSearchBody` reads its clauses back |
| `App.ToRespHit` | backend/app.py:99-104 | a hit maps iff its `_source` holds title, body, url and source as strings; id and score come from the hit, the rest from `_source` |
| `App.IndexedDocFound` | backend/app.py:99-104 | a document indexed through `/index` comes back whole in a hit for it |
| `App.ToResponse` | backend/app.py:97-106 | one record per hit in backend order, iff every hit maps; otherwise the request fails with a server error |
| `App.MapHits` | backend/app.py:97-106 | the hit loop returns exactly `ToResponse` of the hits |
| `App.Search` | backend/app.py:86-106 | a missing or empty q is refused (422) without a call; otherwise exactly one search of `debate_docs` with q untrimmed and k (10 by default, unchecked), and the response maps the returned hits |
| `FetchRedditSubset.PyLen` | scripts/fetch_reddit_subset.py:27 | `len()` is defined for strings, lists and dicts only, and is the string's length for a string |
| `FetchRedditSubset.ExamineKeeps` | scripts/fetch_reddit_subset.py:25-34 | an item is kept iff its subreddit is a string whose lower-cased form is a target and its body is longer than 40; the record then holds the lower-cased subreddit and the item's fields |
| `FetchRedditSubset.Examine` | scripts/fetch_reddit_subset.py:24-40 | an item raises exactly when its subreddit is not a string, or is a target and its body has no length |
| `FetchRedditSubset.Record` | scripts/fetch_reddit_subset.py:28-34 | a record has exactly the keys id, subreddit, body, created_utc and score, and carries the given subreddit |
| `FetchRedditSubset.KeptIsWanted` | scripts/fetch_reddit_subset.py:27-34 | every kept record has exactly the five keys, a target subreddit and a body longer than 40 |
| `FetchRedditSubset.Kept` | scripts/fetch_reddit_subset.py:27-36 | an item contributes at most one record |
| `FetchRedditSubset.Selected` | scripts/fetch_reddit_subset.py:23-36 | at most one record per item, in stream order |
| `FetchRedditSubset.SelectedAppend` | scripts/fetch_reddit_subset.py:23-36 | the selection from two parts of the stream is the selection from each part in turn |
| `FetchRedditSubset.SelectedWanted` | scripts/fetch_reddit_subset.py:25-34 | every selected record is wanted |
| `FetchRedditSubset.SelectedSnoc` | scripts/fetch_reddit_subset.py:23-36 | reading one more item appends that item's record, if any |
| `FetchRedditSubset.SelectedPrefix` | scripts/fetch_reddit_subset.py:23-36 | the selection from a prefix of the stream is a prefix of the whole selection |
| `FetchRedditSubset.CappedSelection` | scripts/fetch_reddit_subset.py:37-38 | stopping at the end or when the sample is complete leaves the first 50000 records of the whole selection |
| `FetchRedditSubset.StopFrom` | scripts/fetch_reddit_subset.py:37-38 | the walk stops at or after its starting point and not past the end of the stream |
| `FetchRedditSubset.StopPoint` | scripts/fetch_reddit_subset.py:37-38 | the script reads at most the whole stream, and when it stops early the records selected so far number exactly 50000; `StopPointFirst` shows it stops at the first such point |
| `FetchRedditSubset.StopPointFirst` | scripts/fetch_reddit_subset.py:37-38 | no item past the one completing the sample is read, and the walk stops early only with a complete sample |
| `FetchRedditSubset.StopPointShort` | scripts/fetch_reddit_subset.py:37-38 | every prefix the walk reads past selects fewer than 50000 records |
| `FetchRedditSubset.StopPointFull` | scripts/fetch_reddit_subset.py:37-38 | a walk that stops before the end stops on exactly 50000 records |
| `FetchRedditSubset.FetchSubset` | scripts/fetch_reddit_subset.py:22-40 | the output holds the first 50000 selected records in stream order (all of them when fewer), `count_out` is their number, items that raise are skipped, and the loop stops right after the record that completes the sample |

## Left out

- Decoding and encoding: `json.loads`, `json.dumps` and `csv.reader` are
  oracles. The indexer reads back exactly the objects the builder wrote
  (`IndexToEs.Encoded`); that `json.loads(json.dumps(d)) == d` round trip is
  assumed, not proved.
- `csv.reader` quoting rules are not modelled: a line is split on every tab
  (`Text.Split`).
- Text.Strip: whitespace is approximated by the ASCII characters Python's
  `str.isspace` accepts.
- Text.Lower: only A–Z are folded. Unicode case folding is not modelled.
- Json.Show: a float, list or dict id is rendered by a placeholder instead
  of its Python `repr`.
- Floating-point values are reals: `_score` and the 2.0 boost pass through
  unchanged.
- File encodings, `errors="ignore"`, paths, globbing beyond the name pattern,
  and `mkdir` are not modelled.
- Environment variables, dotenv, `print`, `tqdm` and the `time.time` timing
  are not modelled.
- The Hugging Face `load_dataset` call is not modelled; the comment stream
  is a parameter.
- The `% 10000` progress print of the indexer is not modelled.
- The `total == 0` warning of the SemEval loader is not modelled.
- FastAPI routing, CORS, query-string parsing and the `/healthz` handler are
  not modelled: a request arrives already decoded, and `k` as an integer.
- Backend.Cluster.SendSearch: the hits are whatever the backend returns.
  Ranking, scoring and the shape of the raw reply are the backend's.
- Backend.Cluster.SendStreamingBulk: per-document success is not modelled,
  and neither are retries (`max_retries=3`) or `max_chunk_bytes`. Chunking
  is modelled only as far as which actions reach the backend before a raise:
  the chunks of 1000 handed over before it, a full chunk being handed over
  only once the action after it arrives (`IndexToEs.Sent`).
- Errors the backend raises are not modelled. These include connection
  failures, creating an index that appeared concurrently, and a failed
  search. Only the client's refusal of an empty bulk body is modelled.
- `json.dumps` failing on values it cannot serialise is not modelled.
- Behaviour the code does not have is not modelled:
  - no deduplication across sources or ids;
  - no range check on `k`;
  - no trimming of `q` before its length check;
  - no per-document failure reporting.
  The `_source` of a hit must hold all four response fields, or the request
  fails.
