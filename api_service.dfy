/**
 * The query service (api_service.py): `/query` turns the nearest neighbours
 * the vector store returns into responses carrying `similarity = 1 - distance`;
 * `/stats` counts the records of the collection.
 *
 * The embedding service and the store's k-nearest-neighbour search are oracles
 * passed in as function values; the service reads its own collection, named
 * `slack_messages`, which is not the one the Slack source writes.
 */
module ApiService {
  import opened SlackSync

  /** The body of `/query`; `n_results` defaults to 5. */
  datatype QueryRequest = QueryRequest(queryText: string, nResults: int := 5)

  /** One response of `/query`. */
  datatype MessageResponse = MessageResponse(message: string, similarity: real)

  /** The first query's lists of `collection.query`: documents and their distances, in the store's order. */
  datatype SearchResult = SearchResult(documents: seq<string>, distances: seq<real>)

  /** The body of `/stats`. */
  datatype Stats = Stats(totalMessages: nat, status: string)

  /** The distance-to-similarity conversion of the service. */
  function Similarity(distance: real): real
  {
    1.0 - distance
  }

  /**
   * The conversion is a strictly decreasing bijection: distance 0 is similarity 1,
   * a nearer record always scores higher, and the distance can be read back.
   */
  lemma SimilarityInverts(d1: real, d2: real)
    ensures Similarity(0.0) == 1.0
    ensures d1 < d2 <==> Similarity(d1) > Similarity(d2)
    ensures 1.0 - Similarity(d1) == d1
    ensures 0.0 <= d1 <= 1.0 ==> 0.0 <= Similarity(d1) <= 1.0
  {
  }

  /**
   * `query_messages`: the query is embedded, the store is asked for
   * `request.n_results` neighbours, and one response is built per zipped
   * (document, distance) pair, in the store's order, with nothing sorted or
   * dropped.
   */
  method QueryMessages(request: QueryRequest, embed: string -> Embedding,
                       search: (Embedding, int) -> SearchResult) returns (messages: seq<MessageResponse>)
    ensures var found := search(embed(request.queryText), request.nResults);
            && |messages| == (if |found.documents| <= |found.distances| then |found.documents| else |found.distances|)
            && (forall i :: 0 <= i < |messages| ==>
                  messages[i].message == found.documents[i] && messages[i].similarity == 1.0 - found.distances[i])
            && (forall i, j :: 0 <= i < |messages| && 0 <= j < |messages| ==>
                  (found.distances[i] < found.distances[j] <==> messages[i].similarity > messages[j].similarity))
  {
    var queryEmbedding := embed(request.queryText);
    var results := search(queryEmbedding, request.nResults);
    var n := if |results.documents| <= |results.distances| then |results.documents| else |results.distances|;
    messages := [];
    var idx := 0;
    while idx < n
      invariant 0 <= idx <= n && |messages| == idx
      invariant forall i :: 0 <= i < idx ==>
                  messages[i] == MessageResponse(results.documents[i], Similarity(results.distances[i]))
    {
      messages := messages + [MessageResponse(results.documents[idx], Similarity(results.distances[idx]))];
      idx := idx + 1;
    }
  }

  /** `get_stats`: the number of ids in the collection and the status "success". */
  function GetStats(collection: Collection): (s: Stats)
    ensures s.totalMessages == |collection.Keys| && s.status == "success"
  {
    Stats(|collection|, "success")
  }

  /**
   * Against the ingestion's routing, the count grows by one exactly for an
   * `add` of an id the collection lacks; an `update`, or an `add` the store
   * ignores, leaves it as it was.
   */
  lemma StatsAfterUpsert(c: Collection, id: string, rec: VectorRecord, existingIds: set<string>)
    ensures GetStats(Routed(c, id, rec, existingIds)).totalMessages ==
              GetStats(c).totalMessages + (if id !in existingIds && id !in c then 1 else 0)
  {
    var r := Routed(c, id, rec, existingIds);
    if id !in existingIds && id !in c {
      assert r.Keys == c.Keys + {id};
      assert |r.Keys| == |c.Keys| + 1;
    } else {
      assert r.Keys == c.Keys;
    }
  }
}
