/**
 * Slack ingestion and incremental synchronisation (read_messages.py).
 *
 * `SlackDataSource.fetch_messages` normalises the channel history into staged
 * records, `format_message` renders a record and its thread into one
 * marker-delimited document, and `process_messages` compares each document with
 * the one already stored under the same id, embeds and upserts what changed,
 * and appends an audit entry per message it did not skip.
 *
 * The vector collection is a map from id to record, the staging file
 * `slack_messages.json` an optional sequence (absent until the first fetch),
 * and the audit file an append-only sequence of entries. The Slack Web API,
 * the permalink lookup and the embedding service are oracles passed in as
 * function values; an oracle answers `None` where the real call raises.
 */
module SlackSync {
  import opened Wrappers
  import opened Text

  /** A message as the Slack history and replies calls return it; `None` is a key that is absent. */
  datatype SlackMessage = SlackMessage(ts: Option<string>, user: Option<string>, text: Option<string>, threadTs: Option<string>)

  /**
   * A staged record `{id, user, text, thread_replies}`. The first three are taken
   * with `dict.get`, so `None` here is the value `None`; the replies are the raw
   * Slack messages of the thread, root excluded.
   */
  datatype MessageData = MessageData(id: Option<string>, user: Option<string>, text: Option<string>, threadReplies: seq<SlackMessage>)

  type Embedding = seq<real>

  /** Record metadata: either `{"url": permalink, "type": "slack"}` or empty. */
  type Metadata = map<string, string>

  /** What the collection stores under one id. */
  datatype VectorRecord = VectorRecord(document: string, embedding: Embedding, metadata: Metadata)

  type Collection = map<string, VectorRecord>

  const MessageStart := "|<message_start>|"
  const MessageEnd := "|<message_end>|"
  const ThreadStart := "|<thread_start>|"
  const ThreadEnd := "|<thread_end>|"

  /** What the audit log records for a message that has no usable permalink. */
  const NoPermalink := "No permalink available"

  /** The `type` tag of every record this source writes. */
  const SourceType := "slack"

  // ---------------------------------------------------------------- fetch_messages

  /** Python's rendering of an optional string in `str(...)` and f-strings: `None` prints as "None". */
  function PyStr(v: Option<string>): string
  {
    if v.Some? then v.value else "None"
  }

  /** `thread_replies[1:]`: the thread without its root; empty for an empty list, as Python slicing is. */
  function Tail(thread: seq<SlackMessage>): seq<SlackMessage>
  {
    if |thread| > 0 then thread[1..] else []
  }

  /**
   * One history message as `fetch_messages` stages it. `replies(ts)` is the
   * result of `conversations_replies` for a thread, or `None` when that call
   * raised a Slack API error.
   */
  function NormalizeOne(m: SlackMessage, replies: string -> Option<seq<SlackMessage>>): Option<MessageData>
  {
    if m.threadTs.None? then Some(MessageData(m.ts, m.user, m.text, []))
    else match replies(m.threadTs.value)
      case None => None
      case Some(thread) => Some(MessageData(m.ts, m.user, m.text, Tail(thread)))
  }

  /** The staged records for a whole history, taken in history order; `None` once a replies call raised. */
  function Normalized(history: seq<SlackMessage>, replies: string -> Option<seq<SlackMessage>>): Option<seq<MessageData>>
    decreases |history|
  {
    if history == [] then Some([])
    else match Normalized(history[..|history| - 1], replies)
      case None => None
      case Some(done) =>
        match NormalizeOne(history[|history| - 1], replies)
        case None => None
        case Some(d) => Some(done + [d])
  }

  // ---------------------------------------------------------------- format_message

  /** The root part of a document. */
  function RootSegment(text: string): string
  {
    MessageStart + " " + text + " " + MessageEnd
  }

  /** The part one reply adds; `None` when the reply has no `text` key (`reply['text']` raises). */
  function ThreadSegment(reply: SlackMessage): Option<string>
  {
    if reply.text.Some? then Some(" " + ThreadStart + " " + reply.text.value + " " + ThreadEnd) else None
  }

  /** The reply parts, in reply order. */
  function ThreadSegments(replies: seq<SlackMessage>): Option<string>
    decreases |replies|
  {
    if replies == [] then Some("")
    else match (ThreadSegment(replies[0]), ThreadSegments(replies[1..]))
      case (Some(first), Some(rest)) => Some(first + rest)
      case _ => None
  }

  /** `format_message`: the root segment followed by every reply segment; `None` where it raises. */
  function FormatMessage(m: MessageData): Option<string>
  {
    match ThreadSegments(m.threadReplies)
    case None => None
    case Some(threads) => Some(RootSegment(PyStr(m.text)) + threads)
  }

  /** The segments of two runs of replies concatenate, so reply order is kept. */
  lemma {:induction false} ThreadSegmentsConcat(a: seq<SlackMessage>, b: seq<SlackMessage>)
    ensures ThreadSegments(a + b) ==
              if ThreadSegments(a).Some? && ThreadSegments(b).Some?
              then Some(ThreadSegments(a).value + ThreadSegments(b).value)
              else None
    decreases |a|
  {
    if a == [] {
      assert a + b == b;
      if ThreadSegments(b).Some? {
        assert "" + ThreadSegments(b).value == ThreadSegments(b).value;
      }
    } else {
      assert (a + b)[0] == a[0];
      assert (a + b)[1..] == a[1..] + b;
      ThreadSegmentsConcat(a[1..], b);
      var head, restA, segB := ThreadSegment(a[0]), ThreadSegments(a[1..]), ThreadSegments(b);
      if head.Some? && restA.Some? && segB.Some? {
        assert head.value + (restA.value + segB.value) == (head.value + restA.value) + segB.value;
      }
    }
  }

  /** The `+=` step of the formatting loop: one more reply appends exactly its own segment. */
  lemma ThreadSegmentsAppend(replies: seq<SlackMessage>, reply: SlackMessage)
    ensures ThreadSegments(replies + [reply]) ==
              if ThreadSegments(replies).Some? && ThreadSegment(reply).Some?
              then Some(ThreadSegments(replies).value + ThreadSegment(reply).value)
              else None
  {
    ThreadSegmentsConcat(replies, [reply]);
    assert [reply][1..] == [];
    if reply.text.Some? {
      var seg := ThreadSegment(reply).value;
      assert ThreadSegments([reply]) == Some(seg + "");
      assert seg + "" == seg;
    }
  }

  /** Formatting succeeds exactly when every reply carries a `text` key. */
  lemma {:induction false} ThreadSegmentsDefined(replies: seq<SlackMessage>)
    ensures ThreadSegments(replies).Some? <==> forall i :: 0 <= i < |replies| ==> replies[i].text.Some?
    decreases |replies|
  {
    if replies != [] {
      ThreadSegmentsDefined(replies[1..]);
      assert forall i :: 1 <= i < |replies| ==> replies[i] == replies[1..][i - 1];
    }
  }

  /** `format_message` with no replies gives exactly the root segment. */
  lemma FormatWithoutReplies(m: MessageData)
    requires m.threadReplies == []
    ensures FormatMessage(m) == Some(MessageStart + " " + PyStr(m.text) + " " + MessageEnd)
  {
    var root := RootSegment(PyStr(m.text));
    assert root + "" == root;
  }

  /** A root message with one reply renders as the root segment followed by the reply's segment. */
  lemma FormatOneReply(m: MessageData, r: SlackMessage)
    requires m.text.Some? && r.text.Some? && m.threadReplies == [r]
    ensures FormatMessage(m) ==
              Some(MessageStart + " " + m.text.value + " " + MessageEnd + " " + ThreadStart + " " + r.text.value + " " + ThreadEnd)
  {
    var seg := " " + ThreadStart + " " + r.text.value + " " + ThreadEnd;
    assert [r][1..] == [];
    assert ThreadSegments([r]) == Some(seg + "");
    assert seg + "" == seg;
    Assemble(MessageStart, m.text.value, MessageEnd, ThreadStart, r.text.value, ThreadEnd);
  }

  lemma Assemble(ms: string, root: string, me: string, st: string, reply: string, te: string)
    ensures ms + " " + root + " " + me + (" " + st + " " + reply + " " + te) ==
              ms + " " + root + " " + me + " " + st + " " + reply + " " + te
  {
  }

  /** The reply segments depend on the replies' texts alone, in order. */
  lemma {:induction false} ThreadSegmentsOnlyTexts(a: seq<SlackMessage>, b: seq<SlackMessage>)
    requires |a| == |b| && forall i :: 0 <= i < |a| ==> a[i].text == b[i].text
    ensures ThreadSegments(a) == ThreadSegments(b)
    decreases |a|
  {
    if a != [] {
      ThreadSegmentsOnlyTexts(a[1..], b[1..]);
    }
  }

  /**
   * Formatting is deterministic in the texts: records with the same root text
   * and the same reply texts, in order, give byte-identical documents, whatever
   * their ids, users and timestamps.
   */
  lemma FormatOnlyTexts(m1: MessageData, m2: MessageData)
    requires m1.text == m2.text && |m1.threadReplies| == |m2.threadReplies|
    requires forall i :: 0 <= i < |m1.threadReplies| ==> m1.threadReplies[i].text == m2.threadReplies[i].text
    ensures FormatMessage(m1) == FormatMessage(m2)
  {
    ThreadSegmentsOnlyTexts(m1.threadReplies, m2.threadReplies);
  }

  /** `format_message` raises exactly when some reply lacks `text`. */
  lemma FormatDefined(m: MessageData)
    ensures FormatMessage(m).Some? <==> forall i :: 0 <= i < |m.threadReplies| ==> m.threadReplies[i].text.Some?
  {
    ThreadSegmentsDefined(m.threadReplies);
  }

  // ---------------------------------------------------------------- process_messages

  /** Python truthiness of the permalink: `None` and the empty string are false. */
  predicate Truthy(link: Option<string>)
  {
    link.Some? && link.value != ""
  }

  /** The metadata of a written record: url and type when the permalink is truthy, otherwise nothing at all. */
  function MetadataFor(link: Option<string>): (md: Metadata)
    ensures "url" in md <==> Truthy(link)
    ensures "type" in md <==> Truthy(link)
    ensures Truthy(link) ==> md["url"] == link.value && md["type"] == SourceType
    ensures md.Keys <= {"url", "type"}
  {
    if Truthy(link) then map["url" := link.value, "type" := SourceType] else map[]
  }

  /** What the audit log records as a message's link. */
  function LoggedLink(link: Option<string>): (s: string)
    ensures Truthy(link) ==> s == link.value
    ensures !Truthy(link) ==> s == NoPermalink
  {
    if Truthy(link) then link.value else NoPermalink
  }

  /**
   * `update_collection` applied to the collection: `update` when the id is in
   * the snapshot `existingIds`, `add` otherwise. The collection ignores an
   * `update` of an id it does not hold and an `add` of an id it already holds.
   */
  function Routed(c: Collection, id: string, rec: VectorRecord, existingIds: set<string>): (r: Collection)
    ensures r.Keys == c.Keys + (if id in existingIds then {} else {id})
    ensures forall k :: k in c && k != id ==> r[k] == c[k]
    ensures id in r ==> r[id] == if (id in existingIds) == (id in c) then rec else c[id]
  {
    if id in existingIds then
      if id in c then c[id := rec] else c
    else
      if id in c then c else c[id := rec]
  }

  /** The id a staged record is processed under: `str(message['id'])`. */
  function MessageId(m: MessageData): string
  {
    PyStr(m.id)
  }

  /** The skip test: the id was in the snapshot and the stored document equals the new one. */
  predicate Unchanged(c: Collection, existingIds: set<string>, id: string, doc: string)
  {
    id in existingIds && id in c && c[id].document == doc
  }

  /**
   * The state of one run of the loop: the collection, the documents logged
   * for writing, and their links. The logged documents are also, in order,
   * exactly the texts sent to the embedding service.
   */
  datatype SyncState = SyncState(records: Collection, formatted: seq<string>, links: seq<string>)

  /** A run either is still going or has raised; either way the state reached is kept. */
  datatype Progress = Running(state: SyncState) | Raised(state: SyncState)

  /**
   * One iteration of the loop of `process_messages`, in the source's order:
   * permalink, format, skip test, log, embed, metadata, upsert. `embed(doc)`
   * and `format` answering `None` stand for the call raising.
   */
  function Step(st: SyncState, m: MessageData, existingIds: set<string>,
                embed: string -> Option<Embedding>, permalink: string -> Option<string>): Progress
  {
    var id := MessageId(m);
    var link := permalink(id);
    match FormatMessage(m)
    case None => Raised(st)
    case Some(doc) =>
      if Unchanged(st.records, existingIds, id, doc) then Running(st)
      else
        var logged := SyncState(st.records, st.formatted + [doc], st.links + [LoggedLink(link)]);
        match embed(doc)
        case None => Raised(logged)
        case Some(e) =>
          Running(logged.(records := Routed(st.records, id, VectorRecord(doc, e, MetadataFor(link)), existingIds)))
  }

  /** The loop over the staged records, from the first; the snapshot stays as it was taken. */
  function Run(init: SyncState, msgs: seq<MessageData>, existingIds: set<string>,
               embed: string -> Option<Embedding>, permalink: string -> Option<string>): Progress
    decreases |msgs|
  {
    if msgs == [] then Running(init)
    else match Run(init, msgs[..|msgs| - 1], existingIds, embed, permalink)
      case Raised(st) => Raised(st)
      case Running(st) => Step(st, msgs[|msgs| - 1], existingIds, embed, permalink)
  }

  /** One more iteration of a loop that is still running is one more step. */
  lemma RunOneMore(init: SyncState, msgs: seq<MessageData>, i: nat, existingIds: set<string>,
                   embed: string -> Option<Embedding>, permalink: string -> Option<string>)
    requires i < |msgs| && Run(init, msgs[..i], existingIds, embed, permalink).Running?
    ensures Run(init, msgs[..i + 1], existingIds, embed, permalink) ==
              Step(Run(init, msgs[..i], existingIds, embed, permalink).state, msgs[i], existingIds, embed, permalink)
  {
    assert msgs[..i + 1][..i] == msgs[..i];
  }

  /** Once a prefix of the loop has raised, the rest of the records is never looked at. */
  lemma {:induction false} RunRaisedIsFinal(init: SyncState, msgs: seq<MessageData>, j: nat, existingIds: set<string>,
                                            embed: string -> Option<Embedding>, permalink: string -> Option<string>)
    requires j <= |msgs|
    requires Run(init, msgs[..j], existingIds, embed, permalink).Raised?
    ensures Run(init, msgs, existingIds, embed, permalink) == Run(init, msgs[..j], existingIds, embed, permalink)
    decreases |msgs| - j
  {
    if j < |msgs| {
      var shorter := msgs[..|msgs| - 1];
      assert shorter[..j] == msgs[..j];
      RunRaisedIsFinal(init, shorter, j, existingIds, embed, permalink);
    } else {
      assert msgs[..j] == msgs;
    }
  }

  /** One audit-file entry. */
  function AuditEntry(message: string, link: string): string
  {
    message + "\nURI: " + link + "\n\n"
  }

  /** The entries `save_formatted_messages` appends: one per (message, link) pair of the zip, in order. */
  function AuditEntries(formatted: seq<string>, links: seq<string>): (entries: seq<string>)
    ensures |entries| == if |formatted| <= |links| then |formatted| else |links|
    ensures forall i :: 0 <= i < |entries| ==> entries[i] == AuditEntry(formatted[i], links[i])
  {
    var n := if |formatted| <= |links| then |formatted| else |links|;
    seq(n, i requires 0 <= i < n => AuditEntry(formatted[i], links[i]))
  }

  /** The observable outcome of `process_messages`: its return value, the collection and the audit file. */
  datatype ProcessResult = ProcessResult(ok: bool, collection: Collection, auditLog: seq<string>)

  /**
   * `process_messages` as a function of the stored state. A missing staging
   * file raises before anything is written; a raise inside the loop keeps the
   * upserts done so far and skips the audit write, which comes after the loop.
   */
  function Process(c: Collection, staging: Option<seq<MessageData>>, auditLog: seq<string>,
                   embed: string -> Option<Embedding>, permalink: string -> Option<string>): ProcessResult
  {
    match staging
    case None => ProcessResult(false, c, auditLog)
    case Some(msgs) =>
      match Run(SyncState(c, [], []), msgs, c.Keys, embed, permalink)
      case Raised(st) => ProcessResult(false, st.records, auditLog)
      case Running(st) => ProcessResult(true, st.records, auditLog + AuditEntries(st.formatted, st.links))
  }

  // ---------------------------------------------------------------- the data source object

  /** `SlackDataSource` with the state its methods read and write. */
  class SlackDataSource {
    /** The Chroma collection named `slack`. */
    var collection: Collection
    /** The staging file `slack_messages.json`; `None` while it does not exist. */
    var staging: Option<seq<MessageData>>
    /** The entries of `formatted_slack_messages.txt`, oldest first. */
    var auditLog: seq<string>

    /** A source over the persisted collection, staging file and audit file as they are found. */
    constructor (collection: Collection, staging: Option<seq<MessageData>>, auditLog: seq<string>)
      ensures this.collection == collection
      ensures this.staging == staging && this.auditLog == auditLog
    {
      this.collection := collection;
      this.staging := staging;
      this.auditLog := auditLog;
    }

    /**
     * `fetch_messages`: `history` is the result of `conversations_history`
     * (`None` when it raised). On success the staging file is rewritten with the
     * records in history order; on a Slack API error it is left as it was.
     */
    method FetchMessages(history: Option<seq<SlackMessage>>, replies: string -> Option<seq<SlackMessage>>) returns (ok: bool)
      modifies this`staging
      ensures ok <==> history.Some? && Normalized(history.value, replies).Some?
      ensures staging == if ok then Normalized(history.value, replies) else old(staging)
    {
      if history.None? {
        return false;
      }
      var messages := history.value;
      var result: seq<MessageData> := [];
      var i := 0;
      while i < |messages|
        invariant 0 <= i <= |messages|
        invariant Normalized(messages[..i], replies) == Some(result)
      {
        var m := messages[i];
        assert messages[..i + 1][..i] == messages[..i];
        var threadReplies: seq<SlackMessage> := [];
        if m.threadTs.Some? {
          var thread := replies(m.threadTs.value);
          if thread.None? {
            NormalizedStaysNone(messages, i + 1, replies);
            assert messages[..|messages|] == messages;
            return false;
          }
          threadReplies := Tail(thread.value);
        }
        result := result + [MessageData(m.ts, m.user, m.text, threadReplies)];
        i := i + 1;
      }
      assert messages[..i] == messages;
      staging := Some(result);
      ok := true;
    }

    /** `update_collection`: routes the write by the snapshot, as `Routed` says. */
    method UpdateCollection(id: string, doc: string, embedding: Embedding, metadata: Metadata, existingIds: set<string>)
      modifies this`collection
      ensures collection == Routed(old(collection), id, VectorRecord(doc, embedding, metadata), existingIds)
    {
      var rec := VectorRecord(doc, embedding, metadata);
      if id in existingIds {
        if id in collection {
          collection := collection[id := rec];
        }
      } else {
        if id !in collection {
          collection := collection[id := rec];
        }
      }
    }

    /** `save_formatted_messages`: nothing for an empty list, otherwise one entry per zipped pair, appended. */
    method SaveFormattedMessages(formatted: seq<string>, links: seq<string>)
      modifies this`auditLog
      ensures auditLog == old(auditLog) + AuditEntries(formatted, links)
      ensures formatted == [] ==> auditLog == old(auditLog)
    {
      if formatted == [] {
        return;
      }
      var n := if |formatted| <= |links| then |formatted| else |links|;
      var i := 0;
      while i < n
        invariant 0 <= i <= n
        invariant auditLog == old(auditLog) + AuditEntries(formatted[..i], links[..i])
      {
        auditLog := auditLog + [AuditEntry(formatted[i], links[i])];
        i := i + 1;
      }
      assert AuditEntries(formatted[..n], links[..n]) == AuditEntries(formatted, links);
    }

    /**
     * One pass of the loop of `process_messages`: the permalink is fetched, the
     * record formatted, skipped when unchanged, otherwise logged, embedded and
     * written; `raised` when a call raised.
     */
    method ProcessOne(m: MessageData, existingIds: set<string>, embed: string -> Option<Embedding>,
                      permalink: string -> Option<string>, formatted: seq<string>, links: seq<string>)
      returns (raised: bool, formatted': seq<string>, links': seq<string>)
      modifies this`collection
      ensures var st := SyncState(collection, formatted', links');
              Step(SyncState(old(collection), formatted, links), m, existingIds, embed, permalink) ==
                if raised then Raised(st) else Running(st)
    {
      formatted', links' := formatted, links;
      var id := MessageId(m);
      var link := permalink(id);
      var doc := FormatMessage(m);
      if doc.None? {
        return true, formatted', links';
      }
      if !Unchanged(collection, existingIds, id, doc.value) {
        formatted' := formatted' + [doc.value];
        links' := links' + [LoggedLink(link)];
        var embedding := embed(doc.value);
        if embedding.None? {
          return true, formatted', links';
        }
        UpdateCollection(id, doc.value, embedding.value, MetadataFor(link), existingIds);
      }
      raised := false;
    }

    /**
     * `process_messages`: the snapshot of ids is taken once, before the loop;
     * the audit log is written only after the whole loop has run.
     */
    method ProcessMessages(embed: string -> Option<Embedding>, permalink: string -> Option<string>) returns (ok: bool)
      modifies this`collection, this`auditLog
      ensures ProcessResult(ok, collection, auditLog) == Process(old(collection), staging, old(auditLog), embed, permalink)
    {
      if staging.None? {
        return false;
      }
      var existingIds := collection.Keys;
      var messages := staging.value;
      var formatted: seq<string> := [];
      var links: seq<string> := [];
      ghost var init := SyncState(collection, [], []);
      var i := 0;
      while i < |messages|
        invariant 0 <= i <= |messages|
        invariant Run(init, messages[..i], existingIds, embed, permalink) == Running(SyncState(collection, formatted, links))
        invariant auditLog == old(auditLog)
      {
        RunOneMore(init, messages, i, existingIds, embed, permalink);
        var raised;
        raised, formatted, links := ProcessOne(messages[i], existingIds, embed, permalink, formatted, links);
        if raised {
          RunRaisedIsFinal(init, messages, i + 1, existingIds, embed, permalink);
          return false;
        }
        i := i + 1;
      }
      assert messages[..i] == messages;
      SaveFormattedMessages(formatted, links);
      ok := true;
    }
  }

  /** Once normalising a prefix of the history has failed, the whole history fails. */
  lemma {:induction false} NormalizedStaysNone(history: seq<SlackMessage>, j: nat, replies: string -> Option<seq<SlackMessage>>)
    requires j <= |history|
    requires Normalized(history[..j], replies).None?
    ensures Normalized(history, replies).None?
    decreases |history| - j
  {
    if j < |history| {
      var shorter := history[..|history| - 1];
      assert shorter[..j] == history[..j];
      NormalizedStaysNone(shorter, j, replies);
    } else {
      assert history[..j] == history;
    }
  }
}
