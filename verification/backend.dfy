/**
 * The search backend as the pipeline sees it through its client: a set of
 * named indices, each created with a schema, and a record of every call the
 * client made.  Relevance scoring, storage, chunking and retries stay inside
 * the backend and its client library; the answers the stub gives are only
 * constrained as far as the client's API promises.
 */
module Backend {
  import opened Wrappers
  import opened Json

  /** How a field is indexed; a date field may name its accepted format. */
  datatype FieldType =
    | Text(analyzer: string)
    | Keyword
    | Date(format: Option<string>)
    | Integer

  /** A custom analyzer: its base type and the stop-word list it uses. */
  datatype Analyzer = Analyzer(kind: string, stopwords: string)

  /** The `MAPPING` body sent when an index is created. */
  datatype Schema = Schema(
    shards: nat,
    replicas: nat,
    analyzers: map<string, Analyzer>,
    properties: map<string, FieldType>)

  /** One hit of a search reply: `_id`, `_score` and `_source`. */
  datatype Hit = Hit(id: string, score: real, source: map<string, Value>)

  datatype Call =
    | IndexExists(name: string)
    | CreateIndex(name: string, schema: Schema)
    | Bulk(entries: seq<Value>, refresh: bool)
    | StreamingBulk(actions: seq<Value>)
    | Search(index: string, request: Value, reply: seq<Hit>)

  class Cluster {
    var indices: map<string, Schema>
    var calls: seq<Call>

    constructor (indices: map<string, Schema>)
      ensures this.indices == indices && calls == []
    {
      this.indices := indices;
      calls := [];
    }

    /** `client.indices.exists(index=name)`. */
    method Exists(name: string) returns (b: bool)
      modifies this`calls
      ensures b == (name in indices)
      ensures calls == old(calls) + [IndexExists(name)]
    {
      b := name in indices;
      calls := calls + [IndexExists(name)];
    }

    /** `client.indices.create(index=name, body=schema)`; the client refuses an existing name. */
    method Create(name: string, schema: Schema)
      requires name !in indices
      modifies this
      ensures indices == old(indices)[name := schema]
      ensures calls == old(calls) + [CreateIndex(name, schema)]
    {
      indices := indices[name := schema];
      calls := calls + [CreateIndex(name, schema)];
    }

    /**
     * `client.bulk(body=body, refresh=refresh)`.  The client refuses an empty
     * body with a ValueError before sending anything (sent is false).
     */
    method SendBulk(body: seq<Value>, refresh: bool) returns (sent: bool)
      modifies this`calls
      ensures sent <==> body != []
      ensures calls == old(calls) + (if sent then [Bulk(body, refresh)] else [])
    {
      sent := body != [];
      if sent {
        calls := calls + [Bulk(body, refresh)];
      }
    }

    /**
     * `helpers.streaming_bulk(client, actions, raise_on_error=False)`: one
     * (ok, info) result per action, in action order; whether each succeeded
     * is up to the backend.
     */
    method SendStreamingBulk(actions: seq<Value>) returns (oks: seq<bool>)
      modifies this`calls
      ensures |oks| == |actions|
      ensures calls == old(calls) + [StreamingBulk(actions)]
    {
      oks := seq(|actions|, _ => true);
      calls := calls + [StreamingBulk(actions)];
    }

    /** `client.search(index=index, body=body)`; the hits are whatever the backend ranks. */
    method SendSearch(index: string, body: Value) returns (hits: seq<Hit>)
      modifies this`calls
      ensures calls == old(calls) + [Search(index, body, hits)]
    {
      hits := [];
      calls := calls + [Search(index, body, hits)];
    }
  }
}
