# oncall_agent: a verified model of the Slack knowledge-base pipeline

oncall_agent reads a Slack channel into a vector store and answers questions from it. This project models that pipeline's core in Dafny:

- **Ingestion (`read_messages.py`).**
  - `fetch_messages` stages the channel history as records `{id, user, text, thread_replies}`.
  - `format_message` renders each record and its thread as one document, delimited by the markers `|<message_start>|`, `|<message_end>|`, `|<thread_start>|` and `|<thread_end>|`.
  - `process_messages` compares each document with the one stored under the same id. It skips a byte-equal document whose id was in the snapshot of ids taken before the loop. Everything else is embedded and written with `update_collection`: `update` when the id was in that snapshot, `add` otherwise.
  - The metadata holds `url` and `type` only when the permalink is truthy.
  - `save_formatted_messages` appends, after the loop, one audit entry per message that was not skipped.
- **Query service (`api_service.py`).** `/query` zips the neighbours' documents and distances into responses with `similarity = 1 - distance`. `/stats` counts the ids of the collection.
- **Command-line client (`query_api.py`).** `query_database` copies each result's metadata `url` into `slack_url`. `print_results` numbers the results and removes the markers with four replace-alls followed by `strip()`.
- **Slack bot (`slack_bot.py`).** The model covers the bot's text handling: cutting the `<@BOT>` mention off the incoming text, the arguments of its query, and the "Relevant Sources" message with the gate that posts it only when there are URLs. As written the handler never gets that far. The module does not load, because it imports `get_llm_response`, which `query_api.py` does not define (slack_bot.py:4). Even past that import, the query call passes `similarity_threshold`, which `query_database` does not accept (slack_bot.py:46, query_api.py:12). That raises a TypeError before any answer or sources message is built.

State is modelled as follows:

- The vector collection is a `map<string, VectorRecord>`.
- The staging file `slack_messages.json` is an optional sequence of records.
- The audit file is an append-only sequence of entries.
- The ingestion object is the class `SlackSync.SlackDataSource`, whose methods update these fields.

The Slack Web API, the permalink lookup, the embedding service, the nearest-neighbour search and the HTTP call are function-valued parameters (oracles). An oracle answers `None` where the real call raises.

The project has eight modules:

- `Wrappers`: `Option`.
- `Text`: Python's `str.strip`, `str.replace`, `str.split`, `str.join` and `str.find`, each with the properties the model relies on.
- `SlackSync`: ingestion.
- `SyncProperties`: what the synchronisation loop guarantees across a whole run.
- `ApiService`, `QueryApi` and `SlackBot`: the service, the client and the bot.
- `ServiceClient`: the service's answer as the client reads it (see Findings).

Two facts about the code shape the model:

- There is no similarity-threshold filter anywhere. The only threshold is the keyword argument at slack_bot.py:46, which `query_database` (query_api.py:12) does not accept.
- `process_messages` reports its outcome only as one boolean (read_messages.py:158-190). It keeps no per-message status.

## Model

| member | source | states |
|---|---|---|
| SlackSync.SlackDataSource.constructor | read_messages.py:23-25 | The data source starts on the collection, staging file and audit file as they are found. |
| SlackSync.SlackDataSource.FetchMessages | read_messages.py:103-132 | Succeeds exactly when the history call and every replies call succeed. On success the staging file is replaced by the normalised records; on a Slack API error it keeps its old contents. |
| SyncProperties.NormalizedShape | read_messages.py:108-123 | Normalisation keeps history order and length, and takes `id` from `ts`. A threaded message gets its thread minus the root; any other message gets `[]`. It fails exactly when some replies call fails. |
| SlackSync.NormalizedStaysNone | read_messages.py:104-132 | A replies call that fails partway through the history makes the whole fetch fail. |
| SlackSync.ThreadSegmentsAppend | read_messages.py:148-150 | Each loop iteration over the replies appends exactly that reply's `" |<thread_start>| text |<thread_end>|"` segment. |
| SlackSync.ThreadSegmentsConcat | read_messages.py:148-150 | The reply segments of two runs of replies concatenate, so reply order is kept. |
| SlackSync.ThreadSegmentsDefined | read_messages.py:148-150 | Formatting the replies succeeds exactly when every reply has a `text` key. |
| SlackSync.FormatWithoutReplies | read_messages.py:145-152 | With no replies the document is exactly `"|<message_start>| " + text + " |<message_end>|"`. |
| SlackSync.FormatOneReply | read_messages.py:145-152 | Take any record with a root text and exactly one reply that has a text, whatever its other fields hold. Its document is `"|<message_start>| " + text + " |<message_end>| |<thread_start>| " + reply + " |<thread_end>|"`. |
| SlackSync.ThreadSegmentsOnlyTexts | read_messages.py:148-150 | Two reply lists of equal length with the same texts, in order, give the same reply segments. |
| SlackSync.FormatOnlyTexts | read_messages.py:145-152 | Formatting is deterministic in the texts: two records with the same root text and the same ordered reply texts give byte-identical documents, whatever their ids, users and timestamps. |
| SlackSync.FormatDefined | read_messages.py:145-152 | `format_message` fails (KeyError) exactly when some reply lacks `text`. |
| SlackSync.MetadataFor | read_messages.py:181 | A truthy permalink gives exactly `{"url": p, "type": "slack"}`. Otherwise the metadata is empty, and `type` is absent too. |
| SlackSync.LoggedLink | read_messages.py:178 | The audit log records a truthy permalink as it is, and anything else as "No permalink available". |
| SlackSync.Routed | read_messages.py:67-86 | An id in the snapshot goes to `update`, any other to `add`. The id set grows only by an added id, no other id changes, and the new record lands where the store accepts the write. |
| SlackSync.SlackDataSource.UpdateCollection | read_messages.py:67-86 | The collection after the call is the routed write of `(document, embedding, metadata)` under the id. |
| SlackSync.AuditEntries | read_messages.py:201-202 | One `message + "\nURI: " + link + "\n\n"` entry per zipped pair, in order. The count is the shorter list's length. |
| SlackSync.SlackDataSource.SaveFormattedMessages | read_messages.py:192-203 | Appends exactly the entries of the zipped pairs to the audit log. An empty list leaves the log untouched. |
| SlackSync.RunOneMore | read_messages.py:166-183 | One more iteration of a loop that is still running is exactly one `Step` on the state reached so far. |
| SlackSync.RunRaisedIsFinal | read_messages.py:183-190 | Once an iteration raises, no later record is looked at. |
| SlackSync.SlackDataSource.ProcessOne | read_messages.py:166-183 | One iteration runs in the source's order: permalink, format, skip test, log, embed, metadata, upsert. Its new collection and logs are those of `Step`, and it reports whether a call raised. |
| SlackSync.SlackDataSource.ProcessMessages | read_messages.py:158-190 | The return value, collection and audit log are those of `Process`: the snapshot is taken once, a raise returns false and keeps earlier upserts, and the audit write follows the loop. |
| SyncProperties.SkipIsSilent | read_messages.py:171-175 | An unchanged message leaves the state as it was, logs nothing, and does not depend on the embedding or permalink answers. |
| SyncProperties.WriteStoresRecord | read_messages.py:177-183 | Take a message that is not skipped and whose embedding call answers, where the snapshot agrees with the collection on whether its id is present. It is logged once and stored under its id as `(document, embedding, metadata)`, and every other id keeps its record. |
| SyncProperties.LogsInLockstep | read_messages.py:177-178 | The document log and the link log grow together, only at their end, and by at most one entry per message. |
| SyncProperties.StepSynchronises | read_messages.py:166-183 | A step over a record with a new id keeps every processed record's current document in the collection. |
| SyncProperties.RunSynchronises | read_messages.py:161-184 | A run over distinct ids that does not raise leaves every staged document under its id, and adds no id that was neither in the snapshot nor staged. |
| SyncProperties.ResyncSkipsAll | read_messages.py:166-175 | Over a collection that already holds every staged document, the run skips every record and changes nothing. |
| SyncProperties.ProcessIsIdempotent | read_messages.py:158-203 | Over staged records with distinct ids, a second `process_messages` after a successful one, with whatever service answers, returns the same result, leaves the collection as it is and appends nothing. (With a repeated id the second run can update the record, because the first run ignored the second `add`.) |
| SyncProperties.RaiseKeepsEarlierWrites | read_messages.py:183-190 | A raise at record `j` returns false, keeps the upserts of the records before `j`, and leaves the audit file untouched. |
| SyncProperties.SnapshotIsNotRefreshed | read_messages.py:161 | A second record with the id of one added earlier in the same run is routed to `add` again: it is logged, but the collection keeps the first document. |
| ApiService.QueryMessages | api_service.py:43-68 | The store is asked for `request.n_results` neighbours of the embedded query, with a default of 5. There is one response per zipped (document, distance) pair, and the count is the shorter list's length. Response `i` carries document `i` with similarity `1 - distance[i]`, and a smaller distance means a strictly larger similarity. |
| ApiService.SimilarityInverts | api_service.py:65 | Distance 0 is similarity 1, and the conversion is strictly decreasing. The distance can be read back, and distances in [0,1] give similarities in [0,1]. |
| ApiService.GetStats | api_service.py:35-39 | `total_messages` is the number of ids in the collection, and the status is "success". |
| ApiService.StatsAfterUpsert | api_service.py:35 | Counting the ids of any collection, one write routed by `update_collection` adds one to the count exactly when an unseen id is added. This is a property of the count, not a claim that the service reads the ingestion's store. |
| QueryApi.WithSlackUrlExactlyForUrl | query_api.py:35-39 | `slack_url` becomes `metadata["url"]` exactly when metadata is present and holds `url`; other dicts are unchanged. |
| QueryApi.AttachSlackUrls | query_api.py:35-39 | Each result dict in the array is updated in place by the metadata rule, and only that one. |
| QueryApi.QueryDatabase | query_api.py:24-47 | A connection error or any other failure gives `[]`. Otherwise there is one response per result, in order, with message and similarity copied, and `slack_url` taken from the metadata `url` where there is one. |
| QueryApi.PrintResults | query_api.py:49-72 | Only an empty list prints "No results found.". Otherwise each result prints numbered from 1 in list order, with its cleaned message, its URL when `slack_url` is truthy, and its similarity when asked for. |
| QueryApi.FormatPiecesCorrect | read_messages.py:145-152 | A formatted document whose texts hold no `|` is the rendering of a sequence of markers and plain pieces in which every marker is isolated. |
| QueryApi.ReplaceAllTokenised | query_api.py:59-64 | On such a document, each replace-all of a marker replaces exactly the isolated marker pieces and leaves the plain text alone. |
| QueryApi.CleanedDocumentHasNoMarkers | query_api.py:59-64 | For a document produced by `format_message` whose texts hold no `|`, the cleaned message holds no `|`, and so none of the four markers. |
| Text.StripSpec | query_api.py:64 | `strip()` returns a contiguous slice of its input whose removed ends are all whitespace and whose own ends are not whitespace. |
| Text.StripKeepsNonSpace | slack_bot.py:43 | `strip()` keeps every occurrence of a non-whitespace character. |
| Text.ReplaceAllAbsent | query_api.py:59-63 | A replace-all whose pattern's first character never occurs leaves the text unchanged. |
| QueryApi.CleanPlainMessage | query_api.py:59-64 | A message without `\|` passes the four replace-alls untouched, so the cleanup only strips it. |
| Text.SplitJoin | slack_bot.py:59 | Splitting a newline-joined list of lines with no newline in them gives the lines back. |
| Text.JoinSplit | slack_bot.py:43 | Joining the parts of a split with the separator gives the original text back. |
| SlackBot.QueryTextSpec | slack_bot.py:43 | Without `>` the query is the text unchanged. Otherwise it is everything after the first `>`, stripped, with later `>` kept. |
| SlackBot.QueryTextIsSplitOnce | slack_bot.py:43 | The query equals `split(">", 1)[1].strip()`, read as the parts after the first one joined back with `>`. |
| SlackBot.QueryTextDropsOneBracket | slack_bot.py:43 | Cutting the mention removes exactly one `>`, and the query has no whitespace at either end. |
| SlackBot.MentionQuery | slack_bot.py:16-17 | A mention queries its query text with `n_results = 10` and threshold 0.6. |
| SlackBot.Bullets | slack_bot.py:59 | There is one `"â€¢ " + url` line per URL, in order, with duplicates kept. |
| SlackBot.SourcesTextLines | slack_bot.py:59 | Read line by line, the sources message is the header "*Relevant Sources:*" followed by the bullet lines, with no trailing empty line. |
| SlackBot.ThreadReplies | slack_bot.py:52-60 | The handler posts the answer first, then the sources message exactly when the answer cites URLs. |
| SlackSync.PyStr | read_messages.py:146 | How an f-string or `str()` renders an optional value: the string itself, or "None". |
| SlackSync.Tail | read_messages.py:121 | `thread_replies[1:]`: the thread without its root, and `[]` for an empty thread. |
| SlackSync.RootSegment | read_messages.py:146 | `"|<message_start>| " + text + " |<message_end>|"`. |
| SlackSync.ThreadSegment | read_messages.py:150 | One reply's `" |<thread_start>| " + text + " |<thread_end>|"`, or `None` when the reply has no `text` key. |
| SlackSync.MessageId | read_messages.py:167 | `str(message['id'])`: the staged id, with `None` rendered as "None". |
| SlackSync.Unchanged | read_messages.py:171-173 | The skip test. The id must be in the snapshot taken before the loop. The document compared is the one in the current collection, which may have been written earlier in the same run. |
| SlackSync.Truthy | read_messages.py:178 | Python truthiness of the permalink: `None` and "" are false. It is used for the logged link (line 178) and for the metadata (line 181). |
| SlackSync.AuditEntry | read_messages.py:202 | One audit entry: `message + "\nURI: " + link + "\n\n"`. |
| QueryApi.HasUrl | query_api.py:36-38 | The result has metadata that holds a `url` key. |
| SlackSync.NormalizeOne | read_messages.py:109-121 | Stages one history message: `id`, `user` and `text` from `ts`, `user` and `text` (absent keys give `None`), and the replies call's thread without its root when `thread_ts` is present, else `[]`. A failing replies call is `None`. Its properties are stated by `SyncProperties.NormalizedShape`. |
| SlackSync.Normalized | read_messages.py:108-123 | The staged records of a whole history, appended in history order; `None` once some replies call fails. Its properties are stated by `SyncProperties.NormalizedShape`. |
| SlackSync.ThreadSegments | read_messages.py:148-150 | The concatenation, in reply order, of `" |<thread_start>| " + text + " |<thread_end>|"` per reply; `None` when a reply lacks `text`. Its properties are stated by `ThreadSegmentsConcat`, `ThreadSegmentsAppend` and `ThreadSegmentsDefined`. |
| SlackSync.FormatMessage | read_messages.py:145-152 | The root segment, with `None` text rendered as "None", followed by the reply segments. Its properties are stated by `FormatWithoutReplies`, `FormatOneReply` and `FormatDefined`. |
| SlackSync.Step | read_messages.py:166-183 | One loop iteration as a value: format (raise on a reply without `text`), skip when unchanged, else log the document and link, embed (raise on failure) and write the routed record. Its properties are stated by `SyncProperties.SkipIsSilent` and `SyncProperties.WriteStoresRecord`. |
| SlackSync.Run | read_messages.py:166-184 | The loop over the staged records: steps left to right until one raises. Its properties are stated by `RunOneMore`, `RunRaisedIsFinal`, `SyncProperties.LogsInLockstep` and `SyncProperties.RunSynchronises`. |
| SlackSync.Process | read_messages.py:158-190 | The outcome of `process_messages`: false with nothing written when there is no staging file; false with the earlier upserts and no audit write on a raise; otherwise true with the audit entries appended. Its properties are stated by `SyncProperties.ProcessIsIdempotent` and `SyncProperties.RaiseKeepsEarlierWrites`. |
| ApiService.Similarity | api_service.py:65 | `1 - distance`. Its properties are stated by `ApiService.SimilarityInverts`. |
| QueryApi.WithSlackUrl | query_api.py:35-39 | The metadata loop's body for one result: metadata present, non-empty and holding `url` copies it into `slack_url`. Its properties are stated by `QueryApi.WithSlackUrlExactlyForUrl`. |
| QueryApi.CleanMessage | query_api.py:59-64 | Removes every `|<message_start>|`, then every `|<message_end>|`, replaces every `|<thread_start>|` by `"\n  └─ "`, removes every `|<thread_end>|`, then strips. Its properties are stated by `QueryApi.CleanedDocumentHasNoMarkers` and `QueryApi.CleanPlainMessage`. |
| QueryApi.Entry | query_api.py:57-71 | The entry printed for result `i`: number `i + 1`, the cleaned message, the URL when truthy, the similarity when asked for. Its use is stated by `QueryApi.PrintResults`. |
| SlackBot.QueryText | slack_bot.py:43 | The stripped text after the first `>`, or the text itself without `>`. Its properties are stated by `QueryTextSpec`, `QueryTextIsSplitOnce` and `QueryTextDropsOneBracket`. |
| SlackBot.SourcesText | slack_bot.py:59 | `"*Relevant Sources:*\n"` followed by the bullet lines joined with `"\n"`. Its properties are stated by `SlackBot.SourcesTextLines`. |
| Text.Strip | slack_bot.py:43 | Python's `str.strip()` with no argument, over Python's whitespace set. Its properties are stated by `Text.StripSpec` and `Text.StripKeepsNonSpace`. |
| Text.ReplaceAll | query_api.py:59-63 | Python's `str.replace` for a non-empty pattern: a left-to-right scan replacing each non-overlapping occurrence. Its properties are stated by `Text.ReplaceAllAbsent` and, over formatted documents, `QueryApi.ReplaceAllTokenised`. |
| Text.Split | slack_bot.py:43 | Python's `str.split(sep)` for a one-character separator: the parts between separators, at least one. Its properties are stated by `Text.SplitJoin` and `Text.JoinSplit`. |
| Text.Join | slack_bot.py:59 | Python's `sep.join(parts)`: the parts with the separator between them and none at the end. Its properties are stated by `Text.SplitJoin` and `Text.JoinSplit`. |
| ServiceClient.ServedJson | api_service.py:22-24 | The service's response as the client's dict: only `message` and `similarity`, so no `metadata` and no `url`. |
| ServiceClient.ServedResultsHaveNoUrl | query_api.py:35-39 | As written, no result the service serves gets a `slack_url` from the client's metadata loop. |
| ServiceClient.StoredUrlIsLost | read_messages.py:181 | A record stored with a permalink holds it under `url`, yet the served response for its document reaches the client without a `slack_url`. |
| ServiceClient.ServedJsonWithMetadata | api_service.py:22-24 | A response that also carries the record's metadata, as the client's dict. |
| ServiceClient.ServedMetadataGivesUrl | query_api.py:35-39 | With the metadata served, the client's `slack_url` is the metadata `url` exactly when there is one. |
| ServiceClient.IngestedLinkReachesClient | read_messages.py:181 | With the metadata served, and with ingestion and the service on the same collection, a record reaches the client with its permalink exactly when the permalink was truthy. |

## Findings

| source | as written | input that shows it | evidently intended | confidence | as-written member | corrected member |
|---|---|---|---|---|---|---|
| api_service.py:22-24 | The service's `MessageResponse` serialises only `message` and `similarity`, so the metadata loop of `query_database` (query_api.py:35-39) never finds a `url` and `slack_url` stays `None`. | Any record in the service's collection whose metadata holds `url`, returned by `/query`. | Each response carries the stored record's metadata, so the client shows the record's Slack link. End to end, this also needs ingestion and the service to use the same collection: they use `slack` (read_messages.py:92) and `slack_messages` (api_service.py:13). | not executed | ServiceClient.StoredUrlIsLost | ServiceClient.IngestedLinkReachesClient |

## Left out

- **OpenAI calls** (embeddings in `get_embedding` and in `/query`): foreign calls. They are oracles, and a failing call is `None`.
- **ChromaDB** (the client, persistence and the nearest-neighbour ranking): the collection is a map. The search result is taken as given lists of documents and distances.
- **Chroma's validation of empty metadata**: a record written with the empty metadata map is modelled as accepted.
- **Store collisions**: an `add` of an id the store already holds, and an `update` of an id it lacks, are modelled as ignored rather than raising.
- **Slack's `WebClient`** (`conversations_list`, `_get_channel_id`, the HTTP calls behind history, replies and permalinks): network plumbing. They are oracles.
- **JSON encoding** of `slack_messages.json`: the staging file is a sequence of records.
- **Printing**: the `print`/`.2%` formatting, the separator lines, FastAPI routing, uvicorn, argparse, `check_api_status` and slack_bolt's `SocketModeHandler` and `say` are I/O. The printout is modelled as the entries it shows, and the bot's posts as the list of texts it would post.
- **`JiraDataSource`**: its methods are stubs with no behaviour.
- **Similarity thresholding and LLM context assembly**: neither exists in the code. `get_llm_response` is imported by `slack_bot.py` but defined nowhere, so that import fails. `query_database` has no `similarity_threshold` parameter. `SlackBot.MentionQuery` states only which arguments the handler passes; it does not model a call that would succeed.
- **Error handling in `handle_mention`**: the `try`/`except` that posts an apology message is left out. As written, the first call in the `try` that raises is the query call at slack_bot.py:46, with a TypeError for the unknown `similarity_threshold` keyword. That is in any case moot, because the module fails to import (slack_bot.py:4). `SlackBot.ThreadReplies` models what the handler would post if both calls worked.
- **Cross-process wiring**: the ingestion writes collection `slack` while the service reads `slack_messages`, so the two are modelled as separate stores.
- **Float arithmetic of `similarity`**: it is `real`.
- **The bullet `â€¢ `**: it is kept as the exact code points the source spells, not decoded.
- SlackSync.SlackDataSource.FetchMessages: only a Slack API error is a modelled failure. Other exceptions propagate in the source and are outside the model.
- SlackSync.SlackDataSource.ProcessMessages: the only raises modelled inside the loop are a reply without `text` and a failing embedding call. A failing `collection.get` or store write is not modelled. The permalink lookup never raises: the source turns its Slack API errors into `None`.
- ApiService.QueryMessages: the HTTP 500 answer for a failing embedding or search call is not modelled; those oracles always answer.
- ApiService.GetStats: the HTTP 500 answer for a failing `collection.get` is not modelled.
- QueryApi.QueryDatabase: request validation by pydantic (`MessageResponse(**result)` rejecting a malformed result) is folded into the `Failed` reply.
- SlackBot.SourcesTextLines: stated for URLs that contain no newline, because a newline inside a URL would split that bullet over two lines.
- QueryApi.CleanedDocumentHasNoMarkers: stated for texts without `|`, because a text may itself spell a marker.
