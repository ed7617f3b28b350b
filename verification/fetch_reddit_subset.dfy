/**
 * The acquisition script: it reads a stream of Reddit comments, keeps those
 * from a fixed set of subreddits whose body is longer than 40, writes each
 * kept comment as a five-field record, and stops once `SampleSize` records
 * are written.  An item that makes the filter raise is skipped.
 */
module FetchRedditSubset {
  import opened Wrappers
  import opened Json
  import opened Text
  import opened Files

  const TargetSubs: set<string> :=
    {"cryptocurrency", "finance", "economics", "technology", "worldnews", "politics"}

  /** The number of records after which the script stops. */
  const SampleSize: nat := 50000

  /** A body must be longer than this to be kept. */
  const MinBodyLength: nat := 40

  /** One comment of the dataset stream, as a dict. */
  type Item = map<string, Value>

  /** Python `len()` of a decoded value: strings, lists and dicts have one; anything else raises. */
  function PyLen(v: Value): (r: Option<nat>)
    ensures r.Some? <==> v.Str? || v.Arr? || v.Obj?
    ensures v.Str? ==> r == Some(|v.s|)
  {
    match v
    case Str(s) => Some(|s|)
    case Arr(xs) => Some(|xs|)
    case Obj(m) => Some(|m|)
    case _ => None
  }

  /** The record written for a kept comment, with its subreddit already lower-cased. */
  function Record(item: Item, subreddit: string): (r: Value)
    ensures r.Obj? && r.fields.Keys == {"id", "subreddit", "body", "created_utc", "score"}
    ensures r.fields["subreddit"] == Str(subreddit)
  {
    Obj(map[
      "id" := Get(item, "id", Null),
      "subreddit" := Str(subreddit),
      "body" := Get(item, "body", Str("")),
      "created_utc" := Get(item, "created_utc", Null),
      "score" := Get(item, "score", Int(0))])
  }

  /** What the filter does with one item: keep it as a record, pass over it, or raise. */
  datatype Verdict = Keep(record: Value) | Pass | Raise

  /**
   * The body of the loop for one item.  A subreddit that is not a string
   * raises on `.lower()`; the body's length is only taken for a target
   * subreddit, and raises when the body has none.
   */
  function Examine(item: Item): (r: Verdict)
    ensures r.Raise? <==>
      || !Get(item, "subreddit", Str("")).Str?
      || (Lower(Get(item, "subreddit", Str("")).s) in TargetSubs && PyLen(Get(item, "body", Str(""))).None?)
  {
    var sub := Get(item, "subreddit", Str(""));
    if !sub.Str? then Raise
    else if Lower(sub.s) !in TargetSubs then Pass
    else
      match PyLen(Get(item, "body", Str("")))
      case None => Raise
      case Some(n) => if n > MinBodyLength then Keep(Record(item, Lower(sub.s))) else Pass
  }

  /**
   * An item is kept exactly when its subreddit is a string whose lower-cased
   * form is a target and its body has a length over 40; the record then
   * carries the lower-cased subreddit, the body, id and created_utc as given
   * (None when absent) and the score (0 when absent).
   */
  lemma ExamineKeeps(item: Item)
    ensures Examine(item).Keep? <==>
      && Get(item, "subreddit", Str("")).Str?
      && Lower(Get(item, "subreddit", Str("")).s) in TargetSubs
      && PyLen(Get(item, "body", Str(""))).Some?
      && PyLen(Get(item, "body", Str(""))).value > MinBodyLength
    ensures Examine(item).Keep? ==>
      Examine(item).record == Record(item, Lower(Get(item, "subreddit", Str("")).s))
  {
  }

  /** A record the script may write: a target subreddit and a body longer than 40. */
  predicate Wanted(record: Value) {
    && record.Obj?
    && "subreddit" in record.fields && record.fields["subreddit"].Str?
    && record.fields["subreddit"].s in TargetSubs
    && "body" in record.fields
    && PyLen(record.fields["body"]).Some?
    && PyLen(record.fields["body"]).value > MinBodyLength
    && record.fields.Keys == {"id", "subreddit", "body", "created_utc", "score"}
  }

  /** Every kept record is wanted. */
  lemma KeptIsWanted(item: Item)
    requires Examine(item).Keep?
    ensures Wanted(Examine(item).record)
  {
    ExamineKeeps(item);
    var sub := Lower(Get(item, "subreddit", Str("")).s);
    var record := Record(item, sub);
    assert record.fields["subreddit"] == Str(sub);
    assert record.fields["body"] == Get(item, "body", Str(""));
  }

  /** The records an item contributes. */
  function Kept(v: Verdict): (r: seq<Value>)
    ensures |r| <= 1
  {
    if v.Keep? then [v.record] else []
  }

  /** The records of every kept item of the stream, in stream order. */
  function Selected(items: seq<Item>): (r: seq<Value>)
    ensures |r| <= |items|
  {
    if items == [] then []
    else Selected(items[..|items| - 1]) + Kept(Examine(items[|items| - 1]))
  }

  /** Selecting from a stream in two parts selects from each part in turn. */
  lemma {:induction false} SelectedAppend(a: seq<Item>, b: seq<Item>)
    ensures Selected(a + b) == Selected(a) + Selected(b)
    decreases |b|
  {
    if b == [] {
      assert a + b == a;
    } else {
      var init := b[..|b| - 1];
      SelectedAppend(a, init);
      assert (a + b)[..|a + b| - 1] == a + init;
      assert (a + b)[|a + b| - 1] == b[|b| - 1];
    }
  }

  /** Every record selected from any stream is wanted. */
  lemma {:induction false} SelectedWanted(items: seq<Item>)
    ensures forall r :: r in Selected(items) ==> Wanted(r)
    decreases |items|
  {
    if items != [] {
      SelectedWanted(items[..|items| - 1]);
      var v := Examine(items[|items| - 1]);
      if v.Keep? {
        KeptIsWanted(items[|items| - 1]);
      }
    }
  }

  /** Reading one more item adds that item's records at the end. */
  lemma SelectedSnoc(items: seq<Item>, i: nat)
    requires i < |items|
    ensures Selected(items[..i + 1]) == Selected(items[..i]) + Kept(Examine(items[i]))
  {
    assert items[..i + 1][..i] == items[..i];
  }

  /** What is selected from a prefix of the stream is a prefix of what is selected from all of it. */
  lemma SelectedPrefix(items: seq<Item>, n: nat)
    requires n <= |items|
    ensures |Selected(items[..n])| <= |Selected(items)|
    ensures Selected(items)[..|Selected(items[..n])|] == Selected(items[..n])
  {
    assert items == items[..n] + items[n..];
    SelectedAppend(items[..n], items[n..]);
  }

  function Min(a: nat, b: nat): nat {
    if a <= b then a else b
  }

  /**
   * Stopping after `n` items, either at the end of the stream or as the
   * selection from them reaches `SampleSize`, leaves the first
   * `SampleSize` records of the whole selection, or all of it when shorter.
   */
  lemma CappedSelection(items: seq<Item>, n: nat)
    requires n <= |items| && |Selected(items[..n])| <= SampleSize
    requires n < |items| ==> |Selected(items[..n])| == SampleSize
    ensures Selected(items[..n]) == Selected(items)[..Min(|Selected(items)|, SampleSize)]
  {
    SelectedPrefix(items, n);
    if n == |items| {
      assert items[..n] == items;
    }
  }

  /**
   * Where a walk from the `n`th item on stops: at the end of the stream, or
   * at the first point where the records selected so far reach `SampleSize`.
   */
  function StopFrom(items: seq<Item>, n: nat): (r: nat)
    requires n <= |items|
    ensures n <= r <= |items|
    decreases |items| - n
  {
    if n == |items| || |Selected(items[..n])| >= SampleSize then n else StopFrom(items, n + 1)
  }

  /** How many items the script reads: the whole stream, or just enough to complete the sample. */
  function StopPoint(items: seq<Item>): (r: nat)
    ensures r <= |items|
    ensures r < |items| ==> |Selected(items[..r])| == SampleSize
  {
    StopPointFull(items, 0);
    StopFrom(items, 0)
  }

  /** The records selected from the first `j` items fall short of `SampleSize`. */
  predicate ShortOfSample(items: seq<Item>, j: nat)
    requires j <= |items|
  {
    |Selected(items[..j])| < SampleSize
  }

  /** Every prefix the walk reads past falls short of the sample. */
  lemma {:induction false} StopPointShort(items: seq<Item>, n: nat)
    requires n <= |items|
    requires forall j :: 0 <= j < n ==> ShortOfSample(items, j)
    ensures forall j :: 0 <= j < StopFrom(items, n) ==> ShortOfSample(items, j)
    decreases |items| - n
  {
    if n < |items| && ShortOfSample(items, n) {
      StopPointShort(items, n + 1);
    }
  }

  /** A walk that stops before the end stops on a complete sample. */
  lemma {:induction false} StopPointFull(items: seq<Item>, n: nat)
    requires n <= |items|
    requires n == 0 || ShortOfSample(items, n - 1)
    ensures StopFrom(items, n) < |items| ==> |Selected(items[..StopFrom(items, n)])| == SampleSize
    decreases |items| - n
  {
    if n < |items| && ShortOfSample(items, n) {
      StopPointFull(items, n + 1);
    } else if n < |items| {
      // n > 0, since nothing is selected from the empty prefix
      SelectedSnoc(items, n - 1);
    }
  }

  /**
   * The script reads no item past the one that completes the sample: every
   * shorter prefix selects fewer than `SampleSize` records, and it stops
   * before the end only once the sample is complete.
   */
  lemma StopPointFirst(items: seq<Item>, n: nat)
    requires n <= |items|
    requires forall j :: 0 <= j < n ==> ShortOfSample(items, j)
    ensures forall j :: 0 <= j < StopFrom(items, n) ==> ShortOfSample(items, j)
    ensures StopFrom(items, n) < |items| ==> |Selected(items[..StopFrom(items, n)])| == SampleSize
  {
    StopPointShort(items, n);
    StopPointFull(items, n);
  }

  /**
   * The script: truncate the output, then walk the stream writing the
   * record of every kept item and counting it, and stop right after the
   * record that brings the count to `SampleSize`.  `consumed` is how many
   * items of the stream were read.
   */
  method FetchSubset(items: seq<Item>, out: TextFile<Value>) returns (countOut: nat, consumed: nat)
    modifies out
    ensures out.present
    ensures out.lines == Selected(items)[..Min(|Selected(items)|, SampleSize)]
    ensures countOut == |out.lines| <= SampleSize
    ensures consumed <= |items| && out.lines == Selected(items[..consumed])
    ensures consumed < |items| ==> countOut == SampleSize
    ensures consumed == StopPoint(items)
  {
    out.Truncate();
    countOut, consumed := 0, 0;
    while consumed < |items|
      invariant consumed <= |items|
      invariant out.present && out.lines == Selected(items[..consumed])
      invariant countOut == |out.lines| < SampleSize
      invariant StopFrom(items, consumed) == StopPoint(items)
    {
      var verdict := Examine(items[consumed]);
      SelectedSnoc(items, consumed);
      consumed := consumed + 1;
      if verdict.Raise? {
        continue;
      }
      if verdict.Keep? {
        out.Append(verdict.record);
        countOut := countOut + 1;
      }
      if countOut >= SampleSize {
        break;
      }
    }
    CappedSelection(items, consumed);
  }
}
