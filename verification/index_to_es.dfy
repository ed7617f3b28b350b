/**
 * The indexer: it turns the merged corpus, one decoded JSON line at a time,
 * into bulk actions for the `debate_docs` index; it creates that index when
 * it is absent; and it counts the per-document results of the streaming
 * bulk upload.
 */
module IndexToEs {
  import opened Wrappers
  import opened Json
  import opened Backend
  import opened BuildCorpus
  import App

  const Index: string := "debate_docs"

  /** Actions reach the backend in chunks of this many. */
  const ChunkSize: nat := 1000

  /** The index settings and field mappings sent on creation. */
  const Mapping: Schema := Schema(
    1, 0,
    map["english_custom" := Analyzer("standard", "_english_")],
    map[
      "body" := Text("english"),
      "source" := Keyword,
      "subreddit" := Keyword,
      "created_utc" := Date(Some("epoch_second")),
      "score" := Integer,
      "target" := Keyword,
      "stance_gold" := Keyword])

  /** The id given to a document on 1-based line `lineNo` that has no usable id of its own. */
  function FallbackId(lineNo: nat): (r: Value)
    ensures r.Str? && |r.s| > 4 && r.s[..4] == "doc-"
  {
    Str("doc-" + NatToString(lineNo))
  }

  /** Fallback ids of different lines never collide. */
  lemma FallbackIdsDistinct(a: nat, b: nat)
    requires a != b
    ensures FallbackId(a) != FallbackId(b)
  {
    if FallbackId(a) == FallbackId(b) {
      assert NatToString(a) == FallbackId(a).s[4..] == FallbackId(b).s[4..] == NatToString(b);
      NatToStringInjective(a, b);
    }
  }

  /**
   * The `_id` of a document: its own `id` when that is truthy, the fallback
   * for its line otherwise.  Either way the `_id` is truthy.
   */
  function DocId(fields: map<string, Value>, lineNo: nat): (r: Value)
    ensures Truthy(r)
    ensures "id" in fields && Truthy(fields["id"]) ==> r == fields["id"]
    ensures !("id" in fields && Truthy(fields["id"])) ==> r == FallbackId(lineNo)
  {
    var id := Get(fields, "id", Null);
    if Truthy(id) then id else FallbackId(lineNo)
  }

  /** One bulk action: index `doc` unchanged under `id` in `Index`. */
  function Action(id: Value, doc: Value): (r: Value)
    ensures r.Obj? && r.fields.Keys == {"_index", "_id", "_source"}
    ensures r.fields["_id"] == id && r.fields["_source"] == doc
  {
    Obj(map["_index" := Str(Index), "_id" := id, "_source" := doc])
  }

  /** Every line that decodes, decodes to an object (`doc.get` raises on anything else). */
  predicate AllObjects(lines: seq<Option<Value>>) {
    forall i :: 0 <= i < |lines| && lines[i].Some? ==> lines[i].value.Obj?
  }

  /**
   * `actions` from the line numbered `lineNo` on: a line that does not decode
   * is skipped (its number is used up all the same), an object becomes one
   * action, and any other decoded value raises, ending the stream.
   */
  function ActionsFrom(lines: seq<Option<Value>>, lineNo: nat): (r: Stream<Value>)
    ensures |r.items| <= |Somes(lines)|
    ensures r.aborted <==> !AllObjects(lines)
    decreases |lines|
  {
    if lines == [] then Stream([], false)
    else
      var rest := ActionsFrom(lines[1..], lineNo + 1);
      assert AllObjects(lines) <==>
        (lines[0].Some? ==> lines[0].value.Obj?) && AllObjects(lines[1..]) by {
        if AllObjects(lines[1..]) && (lines[0].Some? ==> lines[0].value.Obj?) {
          forall i | 0 < i < |lines| && lines[i].Some?
            ensures lines[i].value.Obj?
          {
            assert lines[i] == lines[1..][i - 1];
          }
        }
      }
      match lines[0]
      case None => rest
      case Some(doc) =>
        if doc.Obj? then Cons(Action(DocId(doc.fields, lineNo), doc), rest)
        else Stream([], true)
  }

  /** `actions(corpus_path)`: lines are numbered from 1. */
  function Actions(lines: seq<Option<Value>>): (r: Stream<Value>)
    ensures r.aborted <==> !AllObjects(lines)
  {
    ActionsFrom(lines, 1)
  }

  /** When every decoded line is an object, there is exactly one action per decoded line. */
  lemma {:induction false} ActionsCount(lines: seq<Option<Value>>, lineNo: nat)
    requires AllObjects(lines)
    ensures |ActionsFrom(lines, lineNo).items| == |Somes(lines)|
    decreases |lines|
  {
    if lines != [] {
      AllObjectsTail(lines);
      ActionsCount(lines[1..], lineNo + 1);
    }
  }

  /** The action a decoded object on line `lineNo` becomes; nothing for any other line. */
  function LineAction(line: Option<Value>, lineNo: nat): (r: Option<Value>)
    ensures r.Some? <==> line.Some? && line.value.Obj?
  {
    if line.Some? && line.value.Obj? then Some(Action(DocId(line.value.fields, lineNo), line.value)) else None
  }

  /** The action of every line, numbered from `lineNo`. */
  function LineActions(lines: seq<Option<Value>>, lineNo: nat): (r: seq<Option<Value>>)
    ensures |r| == |lines|
    ensures forall i :: 0 <= i < |lines| ==> r[i] == LineAction(lines[i], lineNo + i)
  {
    seq(|lines|, i requires 0 <= i < |lines| => LineAction(lines[i], lineNo + i))
  }

  /**
   * When every decoded line is an object, the actions are those of the
   * decoded lines, in file order, each numbered by its physical line.
   */
  lemma {:induction false} ActionsOfLines(lines: seq<Option<Value>>, lineNo: nat)
    requires AllObjects(lines)
    ensures ActionsFrom(lines, lineNo).items == Somes(LineActions(lines, lineNo))
    decreases |lines|
  {
    if lines != [] {
      AllObjectsTail(lines);
      ActionsOfLines(lines[1..], lineNo + 1);
      assert LineActions(lines, lineNo)[1..] == LineActions(lines[1..], lineNo + 1);
    }
  }

  /**
   * The decoded line `j` becomes the action after those of the decoded
   * lines before it: indexed under its own truthy id, else under the
   * fallback for its physical line number, with the document as source.
   */
  lemma ActionAt(lines: seq<Option<Value>>, lineNo: nat, j: nat)
    requires AllObjects(lines) && j < |lines| && lines[j].Some?
    ensures |Somes(lines[..j])| < |ActionsFrom(lines, lineNo).items|
    ensures ActionsFrom(lines, lineNo).items[|Somes(lines[..j])|]
      == Action(DocId(lines[j].value.fields, lineNo + j), lines[j].value)
  {
    var actions := LineActions(lines, lineNo);
    ActionsOfLines(lines, lineNo);
    SomesAt(actions, j);
    SomesSameShape(actions[..j], lines[..j]);
  }

  /** Dropping the first line keeps every decoded line an object. */
  lemma AllObjectsTail(lines: seq<Option<Value>>)
    requires AllObjects(lines) && lines != []
    ensures AllObjects(lines[1..])
  {
    forall i | 0 <= i < |lines[1..]| && lines[1..][i].Some?
      ensures lines[1..][i].value.Obj?
    {
      assert lines[1..][i] == lines[i + 1];
    }
  }

  /**
   * A decoded line that is not an object ends the stream: the actions that
   * were yielded are those of the lines before it.
   */
  lemma {:induction false} ActionsUpToRaise(lines: seq<Option<Value>>, lineNo: nat, k: nat)
    requires k < |lines| && lines[k].Some? && !lines[k].value.Obj?
    requires AllObjects(lines[..k])
    ensures ActionsFrom(lines, lineNo) == Stream(ActionsFrom(lines[..k], lineNo).items, true)
    decreases k
  {
    if k > 0 {
      assert lines[..k][1..] == lines[1..][..k - 1];
      AllObjectsTail(lines[..k]);
      assert lines[..k][0] == lines[0];
      ActionsUpToRaise(lines[1..], lineNo + 1, k - 1);
    }
  }

  /**
   * What `streaming_bulk` has sent when the action stream ends. Its chunker
   * hands a full chunk over only when the action after it arrives, so a
   * raise loses the open chunk: the partial one, or a whole chunk when the
   * stream raised right after a multiple of 1000 actions.
   */
  function Sent(s: Stream<Value>): (r: seq<Value>)
    ensures !s.aborted ==> r == s.items
    ensures s.aborted ==> r <= s.items && |r| % ChunkSize == 0
    ensures s.aborted && s.items == [] ==> r == []
    ensures s.aborted && s.items != [] ==> 0 < |s.items| - |r| <= ChunkSize
  {
    if !s.aborted then s.items
    else if s.items == [] then []
    else s.items[..(|s.items| - 1) / ChunkSize * ChunkSize]
  }

  /** A raise right after a full chunk loses that whole chunk. */
  lemma SentLosesFullChunk(items: seq<Value>)
    requires |items| == ChunkSize
    ensures Sent(Stream(items, true)) == []
  {
  }

  /** `ensure_index`: ask whether the index exists, and create it with `Mapping` only when it does not. */
  method EnsureIndex(cluster: Cluster)
    modifies cluster
    ensures Index in cluster.indices
    ensures old(Index in cluster.indices) ==> cluster.indices == old(cluster.indices)
    ensures old(Index !in cluster.indices) ==> cluster.indices == old(cluster.indices)[Index := Mapping]
    ensures cluster.calls == old(cluster.calls) + [IndexExists(Index)]
      + (if old(Index in cluster.indices) then [] else [CreateIndex(Index, Mapping)])
  {
    var present := cluster.Exists(Index);
    if !present {
      cluster.Create(Index, Mapping);
    }
  }

  /**
   * `main`: make sure the index exists, stream the corpus's actions to the
   * backend and count one result per action, whether it succeeded or not.
   * A line that raises stops the run (None) after the completed chunks
   * have been sent.
   */
  method Run(cluster: Cluster, lines: seq<Option<Value>>) returns (total: Option<nat>)
    modifies cluster
    ensures Index in cluster.indices
    ensures old(Index in cluster.indices) ==> cluster.indices == old(cluster.indices)
    ensures old(Index !in cluster.indices) ==> cluster.indices == old(cluster.indices)[Index := Mapping]
    ensures cluster.calls == old(cluster.calls) + [IndexExists(Index)]
      + (if old(Index in cluster.indices) then [] else [CreateIndex(Index, Mapping)])
      + [StreamingBulk(Sent(Actions(lines)))]
    ensures total.None? <==> !AllObjects(lines)
    ensures total.Some? ==> total.value == |Somes(lines)|
  {
    EnsureIndex(cluster);
    var stream := Actions(lines);
    var oks := cluster.SendStreamingBulk(Sent(stream));
    if stream.aborted {
      return None;
    }
    var count := 0;
    for i := 0 to |oks|
      invariant count == i
    {
      count := count + 1;
    }
    ActionsCount(lines, 1);
    total := Some(count);
  }

  /** The merged corpus as the indexer reads it back: one decoded object per document. */
  function Encoded(docs: seq<Doc>): (r: seq<Option<Value>>)
    ensures |r| == |docs|
  {
    if docs == [] then [] else [Some(DocToJson(docs[0]))] + Encoded(docs[1..])
  }

  /** The actions of a corpus when each document is indexed under its own id. */
  function IdActions(docs: seq<Doc>): (r: seq<Value>)
    ensures |r| == |docs|
  {
    if docs == [] then [] else [Action(Str(docs[0].id), DocToJson(docs[0]))] + IdActions(docs[1..])
  }

  /** Action i of `IdActions` indexes document i, unchanged, under its id. */
  lemma {:induction false} IdActionsAt(docs: seq<Doc>, i: nat)
    requires i < |docs|
    ensures IdActions(docs)[i] == Action(Str(docs[i].id), DocToJson(docs[i]))
    decreases i
  {
    if i > 0 {
      IdActionsAt(docs[1..], i - 1);
    }
  }

  /**
   * Indexing a corpus of documents with non-empty ids never raises, never
   * falls back to a line-number id, and keeps the corpus order.
   */
  lemma {:induction false} CorpusActions(docs: seq<Doc>, lineNo: nat)
    requires forall i :: 0 <= i < |docs| ==> docs[i].id != []
    ensures ActionsFrom(Encoded(docs), lineNo) == Stream(IdActions(docs), false)
    decreases |docs|
  {
    if docs != [] {
      var lines := Encoded(docs);
      assert lines[0] == Some(DocToJson(docs[0])) && lines[1..] == Encoded(docs[1..]);
      assert DocId(DocToJson(docs[0]).fields, lineNo) == Str(docs[0].id);
      CorpusActions(docs[1..], lineNo + 1);
    }
  }

  /**
   * Indexing the corpus the corpus builder writes: one action per document,
   * in corpus order, each under the document's own id.
   */
  lemma MergedCorpusIndexed(dir: seq<TsvFile>, redditFile: Option<seq<Option<Value>>>)
    ensures Actions(Encoded(SemEvalDocs(dir) + LoadReddit(redditFile).items))
      == Stream(IdActions(SemEvalDocs(dir) + LoadReddit(redditFile).items), false)
  {
    var docs := SemEvalDocs(dir) + LoadReddit(redditFile).items;
    CorpusCanonical(dir, redditFile);
    forall i | 0 <= i < |docs|
      ensures docs[i].id != []
    {
      CanonicalIdNonEmpty(docs[i]);
    }
    CorpusActions(docs, 1);
  }

  /**
   * The corpus cannot be served by `/search`: its documents carry no `title`
   * (nor `url`), so reading a hit on any of them fails and the search
   * answers with a server error.
   */
  lemma CorpusHitNotServed(d: Doc, id: string, score: real)
    ensures App.ToRespHit(Hit(id, score, DocToJson(d).fields)).None?
  {
    assert "title" !in DocToJson(d).fields;
  }
}
