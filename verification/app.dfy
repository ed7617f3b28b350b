/**
 * The query gateway: the HTTP API in front of the search backend.  It
 * validates documents posted to `/index` and sends them as one bulk body of
 * action/document pairs, builds the two-clause boosted query for `/search`,
 * and maps the backend's hits to response records.  Routing, CORS and the
 * HTTP layer are not modelled; a request body reaches the model already
 * decoded as a JSON value.
 */
module App {
  import opened Wrappers
  import opened Json
  import opened Backend

  const OsIndex: string := "debate_docs"

  /** The number of hits asked for when the request gives no `k`. */
  const DefaultK: int := 10

  /** The weight of a title match relative to a body match. */
  const TitleBoost: real := 2.0

  /** The index settings and field mappings sent on creation. */
  const Mapping: Schema := Schema(
    1, 0,
    map["english_custom" := Analyzer("standard", "_english_")],
    map[
      "title" := Text("english"),
      "body" := Text("english"),
      "source" := Keyword,
      "url" := Keyword,
      "timestamp" := Date(None)])

  /** How a request fails: invalid input (HTTP 422) or an exception in the handler (HTTP 500). */
  datatype ApiError = Unprocessable | ServerError

  /** A document posted to `/index`. */
  datatype DocIn = DocIn(id: string, url: string, title: string, body: string, source: string, timestamp: string)

  /** One record of a `/search` response. */
  datatype RespHit = RespHit(id: string, title: string, body: string, url: string, source: string, score: real)

  // ------------------------------------------------------------ ensure_index

  /** `ensure_index`, run at startup: create the index with `Mapping` only when it is absent. */
  method EnsureIndex(cluster: Cluster)
    modifies cluster
    ensures OsIndex in cluster.indices
    ensures old(OsIndex in cluster.indices) ==> cluster.indices == old(cluster.indices)
    ensures old(OsIndex !in cluster.indices) ==> cluster.indices == old(cluster.indices)[OsIndex := Mapping]
    ensures cluster.calls == old(cluster.calls) + [IndexExists(OsIndex)]
      + (if old(OsIndex in cluster.indices) then [] else [CreateIndex(OsIndex, Mapping)])
  {
    var present := cluster.Exists(OsIndex);
    if !present {
      cluster.Create(OsIndex, Mapping);
    }
  }

  // ------------------------------------------------------------------ /index

  /** The string under `key`, if the object has one there. */
  function StrField(m: map<string, Value>, key: string): (r: Option<string>)
    ensures r.Some? <==> key in m && m[key].Str?
    ensures r.Some? ==> m[key] == Str(r.value)
  {
    if key in m && m[key].Str? then Some(m[key].s) else None
  }

  /** `d.model_dump()`: the six fields under their names. */
  function Dump(d: DocIn): (r: map<string, Value>)
    ensures "id" in r && r["id"] == Str(d.id)
  {
    map[
      "id" := Str(d.id),
      "url" := Str(d.url),
      "title" := Str(d.title),
      "body" := Str(d.body),
      "source" := Str(d.source),
      "timestamp" := Str(d.timestamp)]
  }

  /** The six fields of a `DocIn`. */
  const DocKeys: set<string> := {"id", "url", "title", "body", "source", "timestamp"}

  /**
   * Request validation of one `DocIn`: an object with all six fields as
   * strings; any other key is ignored.
   */
  function ParseDocIn(v: Value): (r: Option<DocIn>)
    ensures r.Some? <==> v.Obj? && forall key :: key in DocKeys ==> StrField(v.fields, key).Some?
    ensures r.Some? ==> forall key :: key in DocKeys ==> v.fields[key] == Dump(r.value)[key]
  {
    if !v.Obj? then None
    else
      var m := v.fields;
      match (StrField(m, "id"), StrField(m, "url"), StrField(m, "title"),
             StrField(m, "body"), StrField(m, "source"), StrField(m, "timestamp"))
      case (Some(id), Some(url), Some(title), Some(body), Some(source), Some(timestamp)) =>
        Some(DocIn(id, url, title, body, source, timestamp))
      case _ => None
  }

  /** A dumped document validates back to itself. */
  lemma ParseDump(d: DocIn)
    ensures ParseDocIn(Obj(Dump(d))) == Some(d)
  {
  }

  /** The body of `/index`: a list of documents, every one valid. */
  function ParseDocs(items: seq<Value>): (r: Option<seq<DocIn>>)
    ensures r.Some? <==> forall i :: 0 <= i < |items| ==> ParseDocIn(items[i]).Some?
    ensures r.Some? ==> |r.value| == |items|
    ensures r.Some? ==> forall i :: 0 <= i < |items| ==> ParseDocIn(items[i]) == Some(r.value[i])
  {
    if items == [] then Some([])
    else
      match (ParseDocIn(items[0]), ParseDocs(items[1..]))
      case (Some(d), Some(ds)) =>
        assert forall i :: 0 < i < |items| ==> items[i] == items[1..][i - 1];
        Some([d] + ds)
      case (None, _) => None
      case (_, None) =>
        assert forall i :: 0 <= i < |items[1..]| ==> items[1..][i] == items[i + 1];
        None
  }

  /** The action line that precedes a document in the bulk body. */
  function Header(id: string): (r: Value)
    ensures r.Obj? && "index" in r.fields && r.fields["index"].Obj?
    ensures "_id" in r.fields["index"].fields && r.fields["index"].fields["_id"] == Str(id)
  {
    Obj(map["index" := Obj(map["_index" := Str(OsIndex), "_id" := Str(id)])])
  }

  /** The bulk body for `docs`: each document's action line, then its fields. */
  function BulkBody(docs: seq<DocIn>): (r: seq<Value>)
    ensures |r| == 2 * |docs|
  {
    if docs == [] then []
    else BulkBody(docs[..|docs| - 1]) + [Header(docs[|docs| - 1].id), Obj(Dump(docs[|docs| - 1]))]
  }

  /** Entry 2i of the bulk body indexes document i under its id in `OsIndex`; entry 2i+1 is its fields. */
  lemma {:induction false} BulkBodyAt(docs: seq<DocIn>, i: nat)
    requires i < |docs|
    ensures BulkBody(docs)[2 * i] == Header(docs[i].id)
    ensures BulkBody(docs)[2 * i + 1] == Obj(Dump(docs[i]))
    decreases |docs|
  {
    var init := docs[..|docs| - 1];
    if i < |docs| - 1 {
      BulkBodyAt(init, i);
      assert init[i] == docs[i];
    }
  }

  /** How the backend reads a bulk body: action line and document, pair by pair. */
  function ReadBulkBody(body: seq<Value>): Option<seq<DocIn>> {
    if body == [] then Some([])
    else if |body| == 1 then None
    else
      match (ParseDocIn(body[1]), ReadBulkBody(body[2..]))
      case (Some(d), Some(ds)) => if body[0] == Header(d.id) then Some([d] + ds) else None
      case _ => None
  }

  /** The bulk body starts with the pair for the first document. */
  lemma {:induction false} BulkBodyCons(docs: seq<DocIn>)
    requires docs != []
    ensures BulkBody(docs) == [Header(docs[0].id), Obj(Dump(docs[0]))] + BulkBody(docs[1..])
    decreases |docs|
  {
    if |docs| > 1 {
      var init := docs[..|docs| - 1];
      BulkBodyCons(init);
      assert init[1..] == docs[1..][..|docs[1..]| - 1];
      assert docs[1..][|docs[1..]| - 1] == docs[|docs| - 1];
    } else {
      assert docs[..0] == [] && docs[1..] == [];
    }
  }

  /** The backend reads back exactly the documents, in order, from the bulk body. */
  lemma {:induction false} ReadBulkBodyRoundTrip(docs: seq<DocIn>)
    ensures ReadBulkBody(BulkBody(docs)) == Some(docs)
    decreases |docs|
  {
    if docs != [] {
      BulkBodyCons(docs);
      var body := BulkBody(docs);
      assert body[2..] == BulkBody(docs[1..]);
      ReadBulkBodyRoundTrip(docs[1..]);
      ParseDump(docs[0]);
      assert [docs[0]] + docs[1..] == docs;
    }
  }

  /** The loop of `index_docs`: extend the body with one pair per document. */
  method BuildBulkBody(docs: seq<DocIn>) returns (body: seq<Value>)
    ensures body == BulkBody(docs)
  {
    body := [];
    for i := 0 to |docs|
      invariant body == BulkBody(docs[..i])
    {
      assert docs[..i + 1][..i] == docs[..i];
      body := body + [Header(docs[i].id), Obj(Dump(docs[i]))];
    }
    assert docs[..|docs|] == docs;
  }

  /**
   * `POST /index`: a body that is not a list of valid documents is refused
   * before the backend sees anything; an empty list makes the client raise
   * (HTTP 500) without a request; otherwise one bulk request with refresh
   * carries every document, and the reply counts the documents received.
   */
  method IndexDocs(cluster: Cluster, request: Value) returns (r: Result<nat, ApiError>)
    modifies cluster`calls
    ensures !request.Arr? || ParseDocs(request.items).None? ==>
      r == Err(Unprocessable) && cluster.calls == old(cluster.calls)
    ensures request.Arr? && request.items == [] ==>
      r == Err(ServerError) && cluster.calls == old(cluster.calls)
    ensures request.Arr? && request.items != [] && ParseDocs(request.items).Some? ==>
      && r == Ok(|request.items|)
      && cluster.calls == old(cluster.calls) + [Bulk(BulkBody(ParseDocs(request.items).value), true)]
  {
    if !request.Arr? {
      return Err(Unprocessable);
    }
    var docs := ParseDocs(request.items);
    if docs.None? {
      return Err(Unprocessable);
    }
    var body := BuildBulkBody(docs.value);
    var sent := cluster.SendBulk(body, true);
    if !sent {
      return Err(ServerError);
    }
    r := Ok(|docs.value|);
  }

  // ----------------------------------------------------------------- /search

  /** A `match` clause on `field` for `q`, with its boost when it has one. */
  function Match(field: string, q: string, boost: Option<real>): (r: Value)
    ensures r.Obj? && r.fields.Keys == {"match"}
    ensures r.fields["match"].Obj? && r.fields["match"].fields.Keys == {field}
  {
    var params := match boost
      case Some(b) => map["query" := Str(q), "boost" := Float(b)]
      case None => map["query" := Str(q)];
    Obj(map["match" := Obj(map[field := Obj(params)])])
  }

  /** The request body of `/search`: `size` k, and a title match and a body match that either may satisfy. */
  function SearchBody(q: string, k: int): (r: Value)
    ensures r.Obj? && r.fields.Keys == {"size", "query"} && r.fields["size"] == Int(k)
  {
    var should := [Match("title", q, Some(TitleBoost)), Match("body", q, None)];
    Obj(map["size" := Int(k), "query" := Obj(map["bool" := Obj(map["should" := Arr(should)])])])
  }

  /** A match clause as the backend reads it. */
  datatype Clause = Clause(field: string, query: string, boost: Option<real>)

  /** A search request as the backend reads it: how many hits, and the clauses any of which may match. */
  datatype Request = Request(size: int, should: seq<Clause>)

  /** Read one `{"match": {field: {"query": q[, "boost": b]}}}` clause. */
  ghost function ReadClause(v: Value): Option<Clause> {
    if v.Obj? && v.fields.Keys == {"match"} && v.fields["match"].Obj? then
      var byField := v.fields["match"].fields;
      if |byField.Keys| != 1 then None
      else
        var field :| field in byField;
        var params := byField[field];
        if !params.Obj? || StrField(params.fields, "query").None? then None
        else if params.fields.Keys == {"query"} then
          Some(Clause(field, params.fields["query"].s, None))
        else if params.fields.Keys == {"query", "boost"} && params.fields["boost"].Float? then
          Some(Clause(field, params.fields["query"].s, Some(params.fields["boost"].f)))
        else None
    else None
  }

  /** Read every clause of a `should` list. */
  ghost function ReadClauses(vs: seq<Value>): Option<seq<Clause>> {
    if vs == [] then Some([])
    else
      match (ReadClause(vs[0]), ReadClauses(vs[1..]))
      case (Some(c), Some(cs)) => Some([c] + cs)
      case _ => None
  }

  /** Read `{"size": k, "query": {"bool": {"should": [...]}}}`. */
  ghost function ReadRequest(v: Value): Option<Request> {
    if !(v.Obj? && v.fields.Keys == {"size", "query"}) then None
    else
      var size, query := v.fields["size"], v.fields["query"];
      if !(size.Int? && query.Obj? && query.fields.Keys == {"bool"}) then None
      else
        var b := query.fields["bool"];
        if !(b.Obj? && b.fields.Keys == {"should"} && b.fields["should"].Arr?) then None
        else
          match ReadClauses(b.fields["should"].items)
          case Some(cs) => Some(Request(size.i, cs))
          case None => None
  }

  /** A match clause reads back as the field, query and boost it was built from. */
  lemma ReadMatch(field: string, q: string, boost: Option<real>)
    ensures ReadClause(Match(field, q, boost)) == Some(Clause(field, q, boost))
  {
    var v := Match(field, q, boost);
    assert v.fields.Keys == {"match"};
    var byField := v.fields["match"].fields;
    assert byField.Keys == {field};
    assert |byField.Keys| == 1;
    var params := byField[field].fields;
    match boost
    case Some(b) =>
      assert params == map["query" := Str(q), "boost" := Float(b)];
      assert params.Keys == {"query", "boost"};
    case None =>
      assert params.Keys == {"query"};
  }

  /**
   * The backend reads the search body as: `k` hits, and exactly two
   * clauses, both for q as given, one on title boosted by 2.0 and one on
   * body with no boost.
   */
  lemma ReadSearchBody(q: string, k: int)
    ensures ReadRequest(SearchBody(q, k))
      == Some(Request(k, [Clause("title", q, Some(TitleBoost)), Clause("body", q, None)]))
  {
    var should := [Match("title", q, Some(TitleBoost)), Match("body", q, None)];
    ReadMatch("title", q, Some(TitleBoost));
    ReadMatch("body", q, None);
    assert should[1..] == [Match("body", q, None)];
    assert ReadClauses(should[1..][1..]) == Some([]);
    assert [Clause("body", q, None)] + [] == [Clause("body", q, None)];
    assert ReadClauses(should[1..]) == Some([Clause("body", q, None)]);
    assert [Clause("title", q, Some(TitleBoost))] + [Clause("body", q, None)]
      == [Clause("title", q, Some(TitleBoost)), Clause("body", q, None)];
    assert ReadClauses(should) == Some([Clause("title", q, Some(TitleBoost)), Clause("body", q, None)]);
    var v := SearchBody(q, k);
    assert v.fields.Keys == {"size", "query"};
    assert v.fields["query"].fields.Keys == {"bool"};
    assert v.fields["query"].fields["bool"].fields.Keys == {"should"};
  }

  /**
   * One response record: id and score from the hit, title, body, url and
   * source from its `_source`, which must hold all four as strings.
   */
  function ToRespHit(h: Hit): (r: Option<RespHit>)
    ensures r.Some? <==>
      && StrField(h.source, "title").Some? && StrField(h.source, "body").Some?
      && StrField(h.source, "url").Some? && StrField(h.source, "source").Some?
    ensures r.Some? ==>
      && r.value.id == h.id && r.value.score == h.score
      && h.source["title"] == Str(r.value.title) && h.source["body"] == Str(r.value.body)
      && h.source["url"] == Str(r.value.url) && h.source["source"] == Str(r.value.source)
  {
    match (StrField(h.source, "title"), StrField(h.source, "body"),
           StrField(h.source, "url"), StrField(h.source, "source"))
    case (Some(title), Some(body), Some(url), Some(source)) =>
      Some(RespHit(h.id, title, body, url, source, h.score))
    case _ => None
  }

  /** A document indexed through `/index` comes back whole in a hit for it. */
  lemma IndexedDocFound(d: DocIn, score: real)
    ensures ToRespHit(Hit(d.id, score, Dump(d))) == Some(RespHit(d.id, d.title, d.body, d.url, d.source, score))
  {
  }

  /**
   * The response: one record per hit, in the backend's order; a single hit
   * that cannot be mapped fails the whole request.
   */
  function ToResponse(hits: seq<Hit>): (r: Result<seq<RespHit>, ApiError>)
    ensures r.Ok? <==> forall i :: 0 <= i < |hits| ==> ToRespHit(hits[i]).Some?
    ensures r.Ok? ==> |r.value| == |hits| && forall i :: 0 <= i < |hits| ==> ToRespHit(hits[i]) == Some(r.value[i])
    ensures r.Err? ==> r.error == ServerError
  {
    if hits == [] then Ok([])
    else
      match (ToRespHit(hits[0]), ToResponse(hits[1..]))
      case (Some(h), Ok(hs)) =>
        assert forall i :: 0 < i < |hits| ==> hits[i] == hits[1..][i - 1];
        Ok([h] + hs)
      case (None, _) => Err(ServerError)
      case (Some(_), Err(e)) =>
        assert forall i :: 0 <= i < |hits[1..]| ==> hits[1..][i] == hits[i + 1];
        Err(e)
  }

  /** The loop of `search` that appends one record per hit. */
  method MapHits(hits: seq<Hit>) returns (r: Result<seq<RespHit>, ApiError>)
    ensures r == ToResponse(hits)
  {
    var resp := [];
    for i := 0 to |hits|
      invariant |resp| == i
      invariant forall j :: 0 <= j < i ==> ToRespHit(hits[j]) == Some(resp[j])
    {
      var h := ToRespHit(hits[i]);
      if h.None? {
        assert ToResponse(hits).Err?;
        return Err(ServerError);
      }
      resp := resp + [h.value];
    }
    assert ToResponse(hits).Ok?;
    assert ToResponse(hits).value == resp;
    r := Ok(resp);
  }

  /**
   * `GET /search?q=..&k=..`: a missing or empty q is refused before the
   * backend sees anything (q is not trimmed, so blanks pass); otherwise one
   * search of `OsIndex` with k (10 when absent, never range-checked), and
   * the response maps the hits the backend returned.
   */
  method Search(cluster: Cluster, q: Option<string>, k: Option<int>) returns (r: Result<seq<RespHit>, ApiError>)
    modifies cluster`calls
    ensures q.None? || q.value == [] ==> r == Err(Unprocessable) && cluster.calls == old(cluster.calls)
    ensures q.Some? && q.value != [] ==>
      && |cluster.calls| == |old(cluster.calls)| + 1
      && cluster.calls[..|old(cluster.calls)|] == old(cluster.calls)
      && var call := cluster.calls[|old(cluster.calls)|];
      && call.Search?
      && call.index == OsIndex
      && call.request == SearchBody(q.value, k.GetOr(DefaultK))
      && r == ToResponse(call.reply)
  {
    if q.None? || q.value == [] {
      return Err(Unprocessable);
    }
    var hits := cluster.SendSearch(OsIndex, SearchBody(q.value, k.GetOr(DefaultK)));
    r := MapHits(hits);
  }
}
