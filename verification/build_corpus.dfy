/**
 * The corpus builder (indexer/build_corpus.py): SemEval 2016 stance rows and
 * Reddit JSON-lines comments are normalised into one canonical document
 * shape, written to one part-file per source, and the part-files are
 * concatenated into the merged corpus, SemEval first.
 *
 * Reading files is not modelled: a tab-separated file arrives as the rows
 * `csv.reader` splits it into, a JSON-lines file as the decoded lines.
 */
module BuildCorpus {
  import opened Wrappers
  import opened Json
  import opened Text
  import opened Files

  datatype Source = SemEval | Reddit {
    function Name(): string {
      match this
      case SemEval => "semeval"
      case Reddit => "reddit"
    }
  }

  /** The canonical document; an optional field the source does not supply is Null. */
  datatype Doc = Doc(
    id: string,
    body: string,
    source: Source,
    subreddit: Value,
    createdUtc: Value,
    score: Value,
    target: Value,
    stanceGold: Value)

  /** The JSON object `write_jsonl` writes for a document. */
  function DocToJson(d: Doc): (r: Value)
    ensures r.Obj? && "id" in r.fields && r.fields["id"] == Str(d.id)
  {
    Obj(map[
      "id" := Str(d.id),
      "body" := Str(d.body),
      "source" := Str(d.source.Name()),
      "subreddit" := d.subreddit,
      "created_utc" := d.createdUtc,
      "score" := d.score,
      "target" := d.target,
      "stance_gold" := d.stanceGold])
  }

  const Tombstones: set<string> := {"[deleted]", "[removed]"}
  const MinBodyLength: nat := 10

  /** The body checks both loaders apply, in the order they apply them. */
  predicate BodyAccepted(body: string)
    ensures BodyAccepted(body) ==> |body| >= MinBodyLength
  {
    && body != []
    && Lower(Strip(body)) !in Tombstones
    && |Strip(body)| >= MinBodyLength
  }

  /**
   * The three body rules reduce to the length rule: a body whose stripped
   * text has ten characters is neither empty nor one of the nine-character
   * tombstone markers.
   */
  lemma BodyAcceptedIffLongEnough(body: string)
    ensures BodyAccepted(body) <==> |Strip(body)| >= MinBodyLength
  {
    var stripped := Strip(body);
    if |stripped| >= MinBodyLength {
      var lowered := Lower(stripped);
      assert lowered != "[deleted]" && lowered != "[removed]" by {
        assert |lowered| >= 10;
      }
    }
  }

  /** What every emitted document satisfies, per source. */
  predicate Canonical(d: Doc) {
    && BodyAccepted(d.body)
    && match d.source
       case SemEval =>
         && "semeval-" <= d.id
         && d.subreddit == Null && d.createdUtc == Null && d.score == Null
         && d.target.Str? && d.stanceGold.Str?
       case Reddit =>
         && "reddit-" <= d.id
         && d.target == Null && d.stanceGold == Null
  }

  /** A canonical document has a non-empty id. */
  lemma CanonicalIdNonEmpty(d: Doc)
    requires Canonical(d)
    ensures d.id != []
  {
    if d.source == SemEval {
      assert |"semeval-"| <= |d.id|;
    } else {
      assert |"reddit-"| <= |d.id|;
    }
  }

  // ---------------------------------------------------------------- SemEval

  type Row = seq<string>

  /** One `*all-annotations*.txt` file: its name and its rows as `csv.reader(f, delimiter="\t")` splits them. */
  datatype TsvFile = TsvFile(name: string, rows: seq<Row>)

  const Marker: string := "all-annotations"
  const Suffix: string := ".txt"

  /** `m` occurs somewhere in `s`. */
  predicate Occurs(m: string, s: string) {
    |s| >= |m| && (s[..|m|] == m || Occurs(m, s[1..]))
  }

  /** The glob pattern `*all-annotations*.txt`: the marker, then anything, then the suffix. */
  predicate MatchesPattern(name: string) {
    && |name| >= |Suffix|
    && name[|name| - |Suffix|..] == Suffix
    && Occurs(Marker, name[..|name| - |Suffix|])
  }

  /** The slice of `s` at `i` is `m`. */
  predicate OccursAtIndex(m: string, s: string, i: nat) {
    i + |m| <= |s| && s[i..i + |m|] == m
  }

  /** `m` occurs in `s` exactly when some slice of `s` is `m`. */
  lemma {:induction false} OccursAt(m: string, s: string)
    ensures Occurs(m, s) <==> exists i: nat :: OccursAtIndex(m, s, i)
    decreases |s|
  {
    if |s| < |m| {
      assert forall i: nat :: !OccursAtIndex(m, s, i);
    } else if s[..|m|] == m {
      assert OccursAtIndex(m, s, 0);
    } else {
      // s is not empty here: the empty string starts with the empty marker
      OccursAt(m, s[1..]);
      forall i: nat | 1 <= i
        ensures OccursAtIndex(m, s, i) <==> OccursAtIndex(m, s[1..], i - 1)
      {
        if i + |m| <= |s| {
          var here, there := s[i..i + |m|], s[1..][i - 1..i - 1 + |m|];
          forall k | 0 <= k < |m|
            ensures here[k] == there[k]
          {
          }
          assert here == there;
        }
      }
      if exists i: nat :: OccursAtIndex(m, s, i) {
        var i: nat :| OccursAtIndex(m, s, i);
        assert OccursAtIndex(m, s[1..], i - 1);
      }
      if Occurs(m, s) {
        var i: nat :| OccursAtIndex(m, s[1..], i);
        assert OccursAtIndex(m, s, i + 1);
      }
    }
  }

  /** A name matches `*all-annotations*.txt` exactly when it is some text, the marker, some more text, then `.txt`. */
  lemma MatchesPatternGlob(name: string)
    ensures MatchesPattern(name) <==> exists x, y :: name == x + Marker + y + Suffix
  {
    if MatchesPattern(name) {
      var p := name[..|name| - |Suffix|];
      OccursAt(Marker, p);
      var i: nat :| OccursAtIndex(Marker, p, i);
      var x, y := p[..i], p[i + |Marker|..];
      assert p == x + Marker + y;
      assert name == p + Suffix;
    }
    if exists x, y :: name == x + Marker + y + Suffix {
      var x, y :| name == x + Marker + y + Suffix;
      var p := name[..|name| - |Suffix|];
      assert name[|name| - |Suffix|..] == Suffix;
      assert p == x + Marker + y;
      assert OccursAtIndex(Marker, p, |x|);
      OccursAt(Marker, p);
    }
  }

  /** Python's `<=` on strings: code-point lexicographic order. */
  predicate NameLe(a: string, b: string)
    ensures a <= b ==> NameLe(a, b)
  {
    a == [] || (b != [] && (a[0] < b[0] || (a[0] == b[0] && NameLe(a[1..], b[1..]))))
  }

  lemma {:induction false} NameLeTotal(a: string, b: string)
    ensures NameLe(a, b) || NameLe(b, a)
  {
    if a != [] && b != [] && a[0] == b[0] {
      NameLeTotal(a[1..], b[1..]);
    }
  }

  predicate SortedByName(files: seq<TsvFile>) {
    forall i :: 0 <= i < |files| - 1 ==> NameLe(files[i].name, files[i + 1].name)
  }

  function InsertByName(f: TsvFile, sorted: seq<TsvFile>): (r: seq<TsvFile>)
    requires SortedByName(sorted)
    ensures SortedByName(r)
    ensures multiset(r) == multiset(sorted) + multiset{f}
    ensures |r| == |sorted| + 1
    ensures r[0] == f || (sorted != [] && r[0] == sorted[0])
  {
    if sorted == [] || NameLe(f.name, sorted[0].name) then [f] + sorted
    else
      NameLeTotal(f.name, sorted[0].name);
      var rest := InsertByName(f, sorted[1..]);
      assert sorted == [sorted[0]] + sorted[1..];
      [sorted[0]] + rest
  }

  /** `sorted(paths)`: the same files, in ascending name order. */
  function SortByName(files: seq<TsvFile>): (r: seq<TsvFile>)
    ensures SortedByName(r)
    ensures multiset(r) == multiset(files)
  {
    if files == [] then []
    else
      assert files == [files[0]] + files[1..];
      InsertByName(files[0], SortByName(files[1..]))
  }

  /** The files of the directory listing whose names match the pattern, in listing order. */
  function Matching(dir: seq<TsvFile>): (r: seq<TsvFile>)
    ensures forall f :: f in r <==> f in dir && MatchesPattern(f.name)
    ensures forall f :: multiset(r)[f] == if MatchesPattern(f.name) then multiset(dir)[f] else 0
  {
    assert dir != [] ==> dir == [dir[0]] + dir[1..];
    if dir == [] then []
    else if MatchesPattern(dir[0].name) then [dir[0]] + Matching(dir[1..])
    else Matching(dir[1..])
  }

  /** `sorted(SEMEVAL_DIR.glob("*all-annotations*.txt"))` over a directory listing. */
  function Candidates(dir: seq<TsvFile>): (r: seq<TsvFile>)
    ensures SortedByName(r)
    ensures forall f :: f in r <==> f in dir && MatchesPattern(f.name)
    ensures multiset(r) == multiset(Matching(dir))
  {
    var m := Matching(dir);
    var r := SortByName(m);
    assert forall f :: f in r <==> f in multiset(r);
    r
  }

  /** Every field with its leading byte-order marks removed. */
  function CleanRow(row: Row): (r: Row)
    ensures |r| == |row|
    ensures forall i :: 0 <= i < |row| ==> r[i] == StripBom(row[i])
  {
    if row == [] then [] else [StripBom(row[0])] + CleanRow(row[1..])
  }

  /** A header row: the first field, lower-cased, is `id` or `tweet id`. */
  predicate IsHeader(field: string) {
    Lower(field) in {"id", "tweet id"}
  }

  /** The header test ignores case: `ID` and `Tweet Id` are headers too. */
  lemma IsHeaderIgnoresCase(field: string)
    ensures IsHeader(field) <==> IsHeader(Lower(field))
  {
    LowerIdempotent(field);
  }

  /** A numeric tweet id is never taken for a header. */
  lemma NumericIdNotHeader(field: string)
    requires forall k :: 0 <= k < |field| ==> '0' <= field[k] <= '9'
    ensures !IsHeader(field)
  {
    if field != [] {
      LowerAt(field, 0);
    }
  }

  /** The tweet text: the fourth field, or every field from the fourth on joined by tabs. */
  function Tweet(fields: Row): (r: string)
    requires |fields| >= 4
    ensures |fields| == 4 ==> r == fields[3]
  {
    if |fields| == 4 then fields[3] else Join(Tab, fields[3..])
  }

  /** One row of a SemEval file normalised, or None when the row is skipped. */
  function NormalizeRow(row: Row): (r: Option<Doc>)
    ensures r.Some? ==> |row| >= 4 && r.value.source == SemEval
  {
    if row == [] then None
    else
      var fields := CleanRow(row);
      if IsHeader(fields[0]) then None
      else if |fields| < 4 then None
      else
        var tweet := Tweet(fields);
        if !BodyAccepted(tweet) then None
        else
          Some(Doc("semeval-" + fields[0], tweet, SemEval, Null, Null, Null, Str(fields[1]), Str(fields[2])))
  }

  /** An empty row, a header row and a row of fewer than four fields yield nothing. */
  lemma NormalizeRowSkips(row: Row)
    ensures row == [] ==> NormalizeRow(row) == None
    ensures row != [] && IsHeader(StripBom(row[0])) ==> NormalizeRow(row) == None
    ensures |row| < 4 ==> NormalizeRow(row) == None
  {
  }

  /**
   * A row yields a document exactly when it has four fields or more, is not a
   * header and its tweet passes the body checks; the document's fields are
   * the row's, each without its leading byte-order marks, and the body is the
   * fourth field onward joined by tabs (for exactly four fields, the fourth).
   */
  lemma NormalizeRowAccepts(row: Row)
    ensures NormalizeRow(row).Some? <==>
      && |row| >= 4
      && !IsHeader(StripBom(row[0]))
      && BodyAccepted(Join(Tab, CleanRow(row)[3..]))
    ensures NormalizeRow(row).Some? ==>
      NormalizeRow(row).value == Doc(
        "semeval-" + StripBom(row[0]),
        Join(Tab, CleanRow(row)[3..]),
        SemEval, Null, Null, Null,
        Str(StripBom(row[1])),
        Str(StripBom(row[2])))
  {
    if |row| >= 4 {
      var fields := CleanRow(row);
      TweetIsJoin(fields);
      assert fields[0] == StripBom(row[0]);
    }
  }

  /** The tweet is always the fields from the fourth on joined by tabs. */
  lemma TweetIsJoin(fields: Row)
    requires |fields| >= 4
    ensures Tweet(fields) == Join(Tab, fields[3..])
  {
    if |fields| == 4 {
      assert fields[3..] == [fields[3]];
    }
  }

  /** A document made from a row is canonical. */
  lemma NormalizeRowCanonical(row: Row)
    ensures NormalizeRow(row).Some? ==> Canonical(NormalizeRow(row).value)
  {
    if NormalizeRow(row).Some? {
      NormalizeRowAccepts(row);
      var d := NormalizeRow(row).value;
      assert d.id[..8] == "semeval-";
    }
  }

  /** The documents the rows of one file yield, in row order. */
  function SemEvalRows(rows: seq<Row>): (r: seq<Doc>)
    ensures |r| <= |rows|
  {
    Somes(Map(NormalizeRow, rows))
  }

  /** A skipped row does not disturb the rows around it: the yield of a concatenation is the concatenation of the yields. */
  lemma SemEvalRowsAppend(a: seq<Row>, b: seq<Row>)
    ensures SemEvalRows(a + b) == SemEvalRows(a) + SemEvalRows(b)
  {
    MapAppend(NormalizeRow, a, b);
    SomesAppend(Map(NormalizeRow, a), Map(NormalizeRow, b));
  }

  /** Reading one more row adds that row's document, if any, at the end. */
  lemma SemEvalRowsSnoc(rows: seq<Row>, row: Row)
    ensures SemEvalRows(rows + [row]) ==
      SemEvalRows(rows) + (if NormalizeRow(row).Some? then [NormalizeRow(row).value] else [])
  {
    SemEvalRowsAppend(rows, [row]);
    assert Map(NormalizeRow, [row]) == [NormalizeRow(row)];
    assert [NormalizeRow(row)][1..] == [];
  }

  lemma SemEvalRowsCanonical(rows: seq<Row>)
    ensures forall d :: d in SemEvalRows(rows) ==> Canonical(d) && d.source == SemEval
  {
    forall d | d in SemEvalRows(rows)
      ensures Canonical(d) && d.source == SemEval
    {
      SomesMember(Map(NormalizeRow, rows), d);
      var i :| 0 <= i < |rows| && Map(NormalizeRow, rows)[i] == Some(d);
      NormalizeRowCanonical(rows[i]);
    }
  }

  /** The documents of several files, file after file. */
  function FilesDocs(files: seq<TsvFile>): (r: seq<Doc>)
    ensures files == [] ==> r == []
  {
    if files == [] then [] else SemEvalRows(files[0].rows) + FilesDocs(files[1..])
  }

  lemma {:induction false} FilesDocsAppend(a: seq<TsvFile>, b: seq<TsvFile>)
    ensures FilesDocs(a + b) == FilesDocs(a) + FilesDocs(b)
  {
    if a == [] {
      assert a + b == b;
    } else {
      assert (a + b)[1..] == a[1..] + b;
      FilesDocsAppend(a[1..], b);
    }
  }

  /** Reading one more file adds that file's documents at the end. */
  lemma FilesDocsSnoc(files: seq<TsvFile>, i: nat)
    requires i < |files|
    ensures FilesDocs(files[..i + 1]) == FilesDocs(files[..i]) + SemEvalRows(files[i].rows)
  {
    assert files[..i + 1] == files[..i] + [files[i]];
    FilesDocsAppend(files[..i], [files[i]]);
    assert [files[i]][1..] == [];
  }

  lemma {:induction false} FilesDocsCanonical(files: seq<TsvFile>)
    ensures forall d :: d in FilesDocs(files) ==> Canonical(d) && d.source == SemEval
  {
    if files != [] {
      SemEvalRowsCanonical(files[0].rows);
      FilesDocsCanonical(files[1..]);
    }
  }

  /** Everything `load_semeval_lines` yields for a directory listing. */
  function SemEvalDocs(dir: seq<TsvFile>): (r: seq<Doc>)
    ensures dir == [] ==> r == []
  {
    FilesDocs(Candidates(dir))
  }

  /** A directory with no matching file yields no document. */
  lemma NoCandidatesNoDocs(dir: seq<TsvFile>)
    requires forall f :: f in dir ==> !MatchesPattern(f.name)
    ensures SemEvalDocs(dir) == []
  {
  }

  /**
   * A raw line `id<TAB>target<TAB>stance<TAB>tweet` whose tweet itself holds
   * tabs is reconstructed: the document's body is the tweet exactly as it was
   * on the line, and the other fields lose only their leading byte-order marks.
   */
  lemma TabbedTweetReconstructed(id: string, target: string, stance: string, tweet: string)
    requires Tab !in id && Tab !in target && Tab !in stance && Bom !in tweet
    requires !IsHeader(StripBom(id)) && BodyAccepted(tweet)
    ensures NormalizeRow(Split(id + [Tab] + target + [Tab] + stance + [Tab] + tweet, Tab))
      == Some(Doc("semeval-" + StripBom(id), tweet, SemEval, Null, Null, Null, Str(StripBom(target)), Str(StripBom(stance))))
  {
    SplitTabbedLine(id, target, stance, tweet);
    TweetRowAccepted(id, target, stance, tweet);
  }

  /** The row of three fields followed by the pieces of an accepted tweet yields the tweet whole. */
  lemma TweetRowAccepted(id: string, target: string, stance: string, tweet: string)
    requires Bom !in tweet && !IsHeader(StripBom(id)) && BodyAccepted(tweet)
    ensures NormalizeRow([id, target, stance] + Split(tweet, Tab))
      == Some(Doc("semeval-" + StripBom(id), tweet, SemEval, Null, Null, Null, Str(StripBom(target)), Str(StripBom(stance))))
  {
    var row := [id, target, stance] + Split(tweet, Tab);
    assert Join(Tab, CleanRow(row)[3..]) == tweet by {
      CleanTweetPieces(id, target, stance, tweet);
      JoinSplit(tweet, Tab);
    }
    RowWithTweet(row, tweet);
  }

  /** A row whose cleaned fields from the fourth on join back to an accepted tweet yields that tweet. */
  lemma RowWithTweet(row: Row, tweet: string)
    requires |row| >= 4 && !IsHeader(StripBom(row[0]))
    requires Join(Tab, CleanRow(row)[3..]) == tweet && BodyAccepted(tweet)
    ensures NormalizeRow(row)
      == Some(Doc("semeval-" + StripBom(row[0]), tweet, SemEval, Null, Null, Null, Str(StripBom(row[1])), Str(StripBom(row[2]))))
  {
    NormalizeRowAccepts(row);
  }

  /** Splitting a line on tabs gives its three tab-free fields, then the pieces of the rest. */
  lemma SplitTabbedLine(id: string, target: string, stance: string, tweet: string)
    requires Tab !in id && Tab !in target && Tab !in stance
    ensures Split(id + [Tab] + target + [Tab] + stance + [Tab] + tweet, Tab)
      == [id, target, stance] + Split(tweet, Tab)
  {
    var rest := stance + [Tab] + tweet;
    SplitLeadingField(stance, Tab, tweet);
    var mid := target + [Tab] + rest;
    assert target + [Tab] + stance + [Tab] + tweet == mid;
    SplitLeadingField(target, Tab, rest);
    assert id + [Tab] + target + [Tab] + stance + [Tab] + tweet == id + [Tab] + mid;
    SplitLeadingField(id, Tab, mid);
  }

  /** The pieces of a tweet without byte-order marks come through `CleanRow` untouched. */
  lemma CleanTweetPieces(id: string, target: string, stance: string, tweet: string)
    requires Bom !in tweet
    ensures CleanRow([id, target, stance] + Split(tweet, Tab))[3..] == Split(tweet, Tab)
  {
    var pieces := Split(tweet, Tab);
    var row := [id, target, stance] + pieces;
    SplitPiecesAvoid(tweet, Tab, Bom);
    forall i | 3 <= i < |row|
      ensures Bom !in row[i]
    {
      assert row[i] == pieces[i - 3];
    }
    CleanRowKeeps(row, 3);
    assert row[3..] == pieces;
  }

  /** Fields without byte-order marks are left as they are by `CleanRow`. */
  lemma CleanRowKeeps(row: Row, from: nat)
    requires from <= |row|
    requires forall i :: from <= i < |row| ==> Bom !in row[i]
    ensures CleanRow(row)[from..] == row[from..]
  {
    forall i | from <= i < |row|
      ensures CleanRow(row)[i] == row[i]
    {
      assert row[i] == [] || row[i][0] != Bom;
    }
  }

  // ----------------------------------------------------------------- Reddit

  /** What one decoded line does to the stream: yield a document, be skipped, or raise. */
  datatype LineOutcome = Emit(doc: Doc) | Skip | Raise

  /**
   * A body `.strip()` cannot be called on: truthy (so `not body` does not
   * skip it) and not a string.
   */
  predicate RaisesOnStrip(body: Value) {
    Truthy(body) && !body.Str?
  }

  /** One line of the Reddit file; `line` is None when `json.loads` rejected it. */
  function NormalizeLine(line: Option<Value>): (r: LineOutcome)
    ensures line.None? ==> r == Skip
    ensures r.Emit? ==> r.doc.source == Reddit
  {
    match line
    case None => Skip
    case Some(v) =>
      if !v.Obj? then Raise
      else
        var m := v.fields;
        var body := Get(m, "body", Str(""));
        if !Truthy(body) then Skip
        else if !body.Str? then Raise
        else if Lower(Strip(body.s)) in Tombstones then Skip
        else if |Strip(body.s)| < MinBodyLength then Skip
        else
          Emit(Doc(
            "reddit-" + Show(Get(m, "id", Null)),
            body.s,
            Reddit,
            Get(m, "subreddit", Null),
            Get(m, "created_utc", Null),
            Get(m, "score", Int(0)),
            Null,
            Null))
  }

  /**
   * A decoded line raises exactly when it is not an object, or its body is
   * truthy but not a string.
   */
  lemma NormalizeLineRaises(line: Option<Value>)
    ensures NormalizeLine(line).Raise? <==>
      line.Some? && (!line.value.Obj? || RaisesOnStrip(Get(line.value.fields, "body", Str(""))))
  {
  }

  /**
   * A line yields a document exactly when it decodes to an object whose
   * body (empty when missing) is a string that passes the body filter.
   */
  lemma NormalizeLineEmits(line: Option<Value>)
    ensures NormalizeLine(line).Emit? <==>
      && line.Some? && line.value.Obj?
      && Get(line.value.fields, "body", Str("")).Str?
      && BodyAccepted(Get(line.value.fields, "body", Str("")).s)
  {
  }

  /**
   * An emitted document carries the line's string body untouched, the id
   * `reddit-` + str(id) (str(None) when the key is missing), the line's
   * subreddit and created_utc (None when missing), and its score, 0 only
   * when the key is missing.
   */
  lemma NormalizeLineFields(line: Option<Value>)
    ensures NormalizeLine(line).Emit? ==>
      && line.Some? && line.value.Obj?
      && var m := line.value.fields;
      && var d := NormalizeLine(line).doc;
      && "body" in m && m["body"] == Str(d.body)
      && BodyAccepted(d.body)
      && d == Doc(
        "reddit-" + Show(Get(m, "id", Null)),
        d.body,
        Reddit,
        Get(m, "subreddit", Null),
        Get(m, "created_utc", Null),
        if "score" in m then m["score"] else Int(0),
        Null,
        Null)
  {
  }

  /** A document made from a line is canonical. */
  lemma NormalizeLineCanonical(line: Option<Value>)
    ensures NormalizeLine(line).Emit? ==> Canonical(NormalizeLine(line).doc)
  {
    if NormalizeLine(line).Emit? {
      NormalizeLineFields(line);
      var d := NormalizeLine(line).doc;
      assert d.id[..7] == "reddit-";
    }
  }

  /** What the stream makes of the lines' outcomes: the emitted documents, up to the first raise. */
  function Collect(outcomes: seq<LineOutcome>): (r: Stream<Doc>)
    ensures |r.items| <= |outcomes|
    ensures forall d :: d in r.items ==> Emit(d) in outcomes
    ensures r.aborted <==> Raise in outcomes
  {
    if outcomes == [] then Stream([], false)
    else
      match outcomes[0]
      case Raise => Stream([], true)
      case Skip => Collect(outcomes[1..])
      case Emit(d) => Cons(d, Collect(outcomes[1..]))
  }

  /** Collecting `a + b` is collecting `a`, then `b` unless `a` raised. */
  lemma {:induction false} CollectAppend(a: seq<LineOutcome>, b: seq<LineOutcome>)
    ensures Collect(a + b) ==
      if Collect(a).aborted then Collect(a)
      else Stream(Collect(a).items + Collect(b).items, Collect(b).aborted)
  {
    if a == [] {
      assert a + b == b;
    } else {
      assert (a + b)[0] == a[0];
      assert (a + b)[1..] == a[1..] + b;
      CollectAppend(a[1..], b);
    }
  }

  /** Each line is examined on its own. */
  function Outcomes(lines: seq<Option<Value>>): (r: seq<LineOutcome>)
    ensures |r| == |lines|
    ensures forall i :: 0 <= i < |lines| ==> r[i] == NormalizeLine(lines[i])
  {
    seq(|lines|, i requires 0 <= i < |lines| => NormalizeLine(lines[i]))
  }

  lemma OutcomesAppend(a: seq<Option<Value>>, b: seq<Option<Value>>)
    ensures Outcomes(a + b) == Outcomes(a) + Outcomes(b)
  {
  }

  /** The documents yielded for a sequence of lines, stopping at the first line that raises. */
  function RedditLines(lines: seq<Option<Value>>): (r: Stream<Doc>)
    ensures |r.items| <= |lines|
    ensures r.aborted <==> Raise in Outcomes(lines)
  {
    Collect(Outcomes(lines))
  }

  lemma RedditLinesCanonical(lines: seq<Option<Value>>)
    ensures forall d :: d in RedditLines(lines).items ==> Canonical(d) && d.source == Reddit
  {
    var os := Outcomes(lines);
    forall d | d in RedditLines(lines).items
      ensures Canonical(d) && d.source == Reddit
    {
      assert Emit(d) in os;
      var i :| 0 <= i < |lines| && os[i] == Emit(d);
      NormalizeLineCanonical(lines[i]);
    }
  }

  /** Lines are processed independently: the yield of `a + b` is that of `a`, then that of `b` unless `a` raised. */
  lemma RedditLinesAppend(a: seq<Option<Value>>, b: seq<Option<Value>>)
    ensures RedditLines(a + b) ==
      if RedditLines(a).aborted then RedditLines(a)
      else Stream(RedditLines(a).items + RedditLines(b).items, RedditLines(b).aborted)
  {
    OutcomesAppend(a, b);
    CollectAppend(Outcomes(a), Outcomes(b));
  }

  /** A line that fails to decode, wherever it sits, changes nothing. */
  lemma MalformedLineSkipped(a: seq<Option<Value>>, b: seq<Option<Value>>)
    ensures RedditLines(a + [None] + b) == RedditLines(a + b)
  {
    var oa, ob := Outcomes(a), Outcomes(b);
    assert a + [None] + b == a + ([None] + b);
    OutcomesAppend(a, [None] + b);
    OutcomesAppend([None], b);
    OutcomesAppend(a, b);
    assert Outcomes([None]) == [Skip];
    assert ([Skip] + ob)[1..] == ob;
    assert Collect([Skip] + ob) == Collect(ob);
    CollectAppend(oa, [Skip] + ob);
    CollectAppend(oa, ob);
    calc {
      RedditLines(a + [None] + b);
      Collect(oa + ([Skip] + ob));
      Collect(oa + ob);
      RedditLines(a + b);
    }
  }

  /** `load_reddit_lines`: a missing file yields an empty stream. */
  function LoadReddit(file: Option<seq<Option<Value>>>): (r: Stream<Doc>)
    ensures file.None? ==> r == Stream([], false)
  {
    match file
    case None => Stream([], false)
    case Some(lines) => RedditLines(lines)
  }

  // ------------------------------------------------------------ the driver

  /**
   * The inner loop of `load_semeval_lines` over the rows of one file: the
   * documents the rows yield, and the `total` counter bumped once per document.
   */
  method ReadRows(rows: seq<Row>, total0: nat) returns (docs: seq<Doc>, total: nat)
    ensures docs == SemEvalRows(rows)
    ensures total == total0 + |docs|
  {
    docs, total := [], total0;
    for j := 0 to |rows|
      invariant docs == SemEvalRows(rows[..j])
      invariant total == total0 + |docs|
    {
      SemEvalRowsSnoc(rows[..j], rows[j]);
      assert rows[..j + 1] == rows[..j] + [rows[j]];
      var doc := NormalizeRow(rows[j]);
      if doc.Some? {
        total := total + 1;
        docs := docs + [doc.value];
      }
    }
    assert rows[..|rows|] == rows;
  }

  /**
   * `load_semeval_lines` with its `total` counter: the documents it yields
   * for a directory listing, file by file in name order, and how many there were.
   */
  method LoadSemEval(dir: seq<TsvFile>) returns (docs: seq<Doc>, total: nat)
    ensures docs == SemEvalDocs(dir)
    ensures total == |docs|
  {
    docs, total := LoadFiles(Candidates(dir));
  }

  /** The outer loop of `load_semeval_lines`, over the sorted matching files. */
  method LoadFiles(files: seq<TsvFile>) returns (docs: seq<Doc>, total: nat)
    ensures docs == FilesDocs(files)
    ensures total == |docs|
  {
    docs, total := [], 0;
    for i := 0 to |files|
      invariant docs == FilesDocs(files[..i])
      invariant total == |docs|
    {
      var more;
      more, total := ReadRows(files[i].rows, total);
      FilesDocsSnoc(files, i);
      docs := docs + more;
    }
    assert files[..|files|] == files;
  }

  /**
   * `write_jsonl`: the file is (re)created and gets one line per yielded
   * item; the count is returned unless the items' producer raised, in which
   * case the lines written so far stay and the exception propagates (None).
   */
  method WriteJsonl<T>(f: TextFile<T>, items: Stream<T>) returns (count: Option<nat>)
    modifies f
    ensures f.present && f.lines == items.items
    ensures count == if items.aborted then None else Some(|items.items|)
  {
    f.Truncate();
    var n := 0;
    for i := 0 to |items.items|
      invariant f.present && f.lines == items.items[..i]
      invariant n == i
    {
      f.Append(items.items[i]);
      n := n + 1;
    }
    assert items.items[..|items.items|] == items.items;
    count := if items.aborted then None else Some(n);
  }

  /** All lines of the part-files, part after part, skipping parts that do not exist. */
  function PartsContents<T>(parts: seq<TextFile<T>>): (r: seq<T>)
    reads set i | 0 <= i < |parts| :: parts[i]
    ensures parts == [] ==> r == []
  {
    if parts == [] then [] else parts[0].Contents() + PartsContents(parts[1..])
  }

  lemma {:induction false} PartsContentsSnoc<T>(parts: seq<TextFile<T>>, p: TextFile<T>)
    ensures PartsContents(parts + [p]) == PartsContents(parts) + p.Contents()
  {
    if parts == [] {
      assert parts + [p] == [p];
    } else {
      assert (parts + [p])[1..] == parts[1..] + [p];
      PartsContentsSnoc(parts[1..], p);
    }
  }

  /** The inner loop of the merge: copy the lines of one part to the end of the output, counting them. */
  method CopyLines<T>(lines: seq<T>, out: TextFile<T>) returns (n: nat)
    requires out.present
    modifies out
    ensures out.present && out.lines == old(out.lines) + lines
    ensures n == |lines|
  {
    n := 0;
    for j := 0 to |lines|
      invariant out.present && out.lines == old(out.lines) + lines[..j]
      invariant n == j
    {
      out.Append(lines[j]);
      n := n + 1;
      assert lines[..j + 1] == lines[..j] + [lines[j]];
    }
    assert lines[..|lines|] == lines;
  }

  /** The merge loop of `main`: copy every line of every existing part, in order, counting them. */
  method Merge<T>(parts: seq<TextFile<T>>, out: TextFile<T>) returns (merged: nat)
    requires out !in parts
    modifies out
    ensures out.present && out.lines == PartsContents(parts)
    ensures merged == |out.lines|
  {
    out.Truncate();
    merged := 0;
    for k := 0 to |parts|
      invariant out.present && out.lines == PartsContents(parts[..k])
      invariant merged == |out.lines|
    {
      PartsContentsSnoc(parts[..k], parts[k]);
      assert parts[..k + 1] == parts[..k] + [parts[k]];
      if parts[k].present {
        var n := CopyLines(parts[k].lines, out);
        merged := merged + n;
      }
    }
    assert parts[..|parts|] == parts;
  }

  /** Merging two parts gives the lines of the first, then those of the second. */
  lemma PartsContentsPair<T>(a: TextFile<T>, b: TextFile<T>)
    ensures PartsContents([a, b]) == a.Contents() + b.Contents()
  {
    assert [a, b][1..] == [b];
    assert [b][1..] == [];
  }

  datatype Counts = Counts(semeval: nat, reddit: nat, merged: nat)

  /**
   * `main`: write the SemEval part, the Reddit part, then the merged corpus.
   * When the Reddit stream raises, the run stops there (None) and the merged
   * corpus from any earlier run is left as it was.
   */
  method Run(dir: seq<TsvFile>, redditFile: Option<seq<Option<Value>>>,
             semevalOut: TextFile<Doc>, redditOut: TextFile<Doc>, mergedOut: TextFile<Doc>)
    returns (r: Option<Counts>)
    requires semevalOut != redditOut && mergedOut != semevalOut && mergedOut != redditOut
    modifies semevalOut, redditOut, mergedOut
    ensures semevalOut.present && semevalOut.lines == SemEvalDocs(dir)
    ensures redditOut.present && redditOut.lines == LoadReddit(redditFile).items
    ensures r.None? <==> LoadReddit(redditFile).aborted
    ensures r.None? ==> mergedOut.present == old(mergedOut.present) && mergedOut.lines == old(mergedOut.lines)
    ensures r.Some? ==>
      && mergedOut.present
      && mergedOut.lines == SemEvalDocs(dir) + LoadReddit(redditFile).items
      && r.value.semeval == |SemEvalDocs(dir)|
      && r.value.reddit == |LoadReddit(redditFile).items|
      && r.value.merged == r.value.semeval + r.value.reddit
  {
    var docs, _ := LoadSemEval(dir);
    var semevalCount := WriteJsonl(semevalOut, Stream(docs, false));
    var redditCount := WriteJsonl(redditOut, LoadReddit(redditFile));
    if redditCount.None? {
      return None;
    }
    var merged := Merge([semevalOut, redditOut], mergedOut);
    PartsContentsPair(semevalOut, redditOut);
    r := Some(Counts(semevalCount.value, redditCount.value, merged));
  }

  /** Every document of the merged corpus is canonical. */
  lemma CorpusCanonical(dir: seq<TsvFile>, redditFile: Option<seq<Option<Value>>>)
    ensures forall d :: d in SemEvalDocs(dir) + LoadReddit(redditFile).items ==> Canonical(d)
  {
    FilesDocsCanonical(Candidates(dir));
    if redditFile.Some? {
      RedditLinesCanonical(redditFile.value);
    }
  }
}
