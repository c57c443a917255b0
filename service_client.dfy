/**
 * The service's `/query` answer as the client reads it. The service's
 * `MessageResponse` serialises only `message` and `similarity`, so the
 * client's metadata loop never finds a `url` in it; the variant with the
 * record's metadata in each response is the one that delivers the link.
 */
module ServiceClient {
  import opened Wrappers
  import opened SlackSync
  import ApiService
  import QueryApi

  /** The JSON object of one service response, as the client's dict: no `metadata` key, no `slack_url`. */
  function ServedJson(r: ApiService.MessageResponse): (d: QueryApi.ResultDict)
    ensures d.message == r.message && d.similarity == r.similarity
    ensures !QueryApi.HasUrl(d)
  {
    QueryApi.ResultDict(r.message, r.similarity, None, None)
  }

  /** As written: whatever the service answers, no client result gets a `slack_url`. */
  lemma ServedResultsHaveNoUrl(r: ApiService.MessageResponse)
    ensures QueryApi.WithSlackUrl(ServedJson(r)).slackUrl == None
  {
    QueryApi.WithSlackUrlExactlyForUrl(ServedJson(r));
  }

  /**
   * The concrete loss: a record stored with a permalink holds it under `url`,
   * yet the response that serves its document reaches the client without it.
   */
  lemma StoredUrlIsLost(doc: string, e: Embedding, link: string)
    requires link != ""
    ensures var stored := VectorRecord(doc, e, MetadataFor(Some(link)));
            "url" in stored.metadata && stored.metadata["url"] == link
    ensures QueryApi.WithSlackUrl(ServedJson(ApiService.MessageResponse(doc, 0.5))).slackUrl == None
  {
    ServedResultsHaveNoUrl(ApiService.MessageResponse(doc, 0.5));
  }

  /** A service response that also carries the stored record's metadata. */
  datatype MetadataResponse = MetadataResponse(message: string, similarity: real, metadata: Metadata)

  /** Its JSON object as the client's dict. */
  function ServedJsonWithMetadata(r: MetadataResponse): (d: QueryApi.ResultDict)
    ensures d.message == r.message && d.similarity == r.similarity
    ensures d.metadata == Some(r.metadata) && d.slackUrl == None
  {
    QueryApi.ResultDict(r.message, r.similarity, Some(r.metadata), None)
  }

  /** Corrected: the client's `slack_url` is the metadata `url` exactly when there is one. */
  lemma ServedMetadataGivesUrl(r: MetadataResponse)
    ensures QueryApi.WithSlackUrl(ServedJsonWithMetadata(r)).slackUrl ==
              if "url" in r.metadata then Some(r.metadata["url"]) else None
  {
    QueryApi.WithSlackUrlExactlyForUrl(ServedJsonWithMetadata(r));
  }

  /**
   * Corrected, end to end: a record written by ingestion reaches the client
   * with its permalink exactly when that was truthy. This also needs the service
   * to read the collection ingestion writes, which it does not as written.
   */
  lemma IngestedLinkReachesClient(doc: string, sim: real, link: Option<string>)
    ensures var served := ServedJsonWithMetadata(MetadataResponse(doc, sim, MetadataFor(link)));
            QueryApi.WithSlackUrl(served).slackUrl == if Truthy(link) then Some(link.value) else None
  {
    ServedMetadataGivesUrl(MetadataResponse(doc, sim, MetadataFor(link)));
  }
}
