/**
 * What the synchronisation loop of read_messages.py guarantees: the shape of
 * the staged records, silent skips, targeted writes, the two audit lists kept
 * in lockstep, partial writes on a raise, and idempotent re-synchronisation.
 */
module SyncProperties {
  import opened Wrappers
  import opened SlackSync

  type EmbedOracle = string -> Option<Embedding>
  type LinkOracle = string -> Option<string>

  // ---------------------------------------------------------------- fetch_messages

  /**
   * Normalisation keeps history order and length, takes the id from `ts`, and
   * gives each threaded message its thread minus the root, others `[]`; it
   * fails exactly when a replies call for some threaded message raised.
   */
  lemma {:induction false} NormalizedShape(history: seq<SlackMessage>, replies: string -> Option<seq<SlackMessage>>)
    ensures Normalized(history, replies).Some? <==>
              forall i :: 0 <= i < |history| && history[i].threadTs.Some? ==> replies(history[i].threadTs.value).Some?
    ensures Normalized(history, replies).Some? ==>
              var out := Normalized(history, replies).value;
              && |out| == |history|
              && forall i :: 0 <= i < |history| ==>
                   && out[i].id == history[i].ts
                   && out[i].user == history[i].user
                   && out[i].text == history[i].text
                   && out[i].threadReplies ==
                        if history[i].threadTs.Some? then Tail(replies(history[i].threadTs.value).value) else []
    decreases |history|
  {
    if history != [] {
      var n := |history| - 1;
      var prefix := history[..n];
      NormalizedShape(prefix, replies);
      assert forall i :: 0 <= i < n ==> prefix[i] == history[i];
    }
  }

  // ---------------------------------------------------------------- one message

  /**
   * A message whose id is in the snapshot and whose stored document is byte-equal is skipped: the state is
   * untouched, nothing is logged, and the result does not depend on the
   * embedding or permalink services at all (no embedding is requested).
   */
  lemma SkipIsSilent(st: SyncState, m: MessageData, existingIds: set<string>,
                     embed: EmbedOracle, permalink: LinkOracle, embed': EmbedOracle, permalink': LinkOracle)
    requires FormatMessage(m).Some?
    requires Unchanged(st.records, existingIds, MessageId(m), FormatMessage(m).value)
    ensures Step(st, m, existingIds, embed, permalink) == Running(st)
    ensures Step(st, m, existingIds, embed', permalink') == Running(st)
  {
  }

  /**
   * A message that is not skipped, with the snapshot agreeing with the
   * collection about its id, is logged once and stored under its id as
   * (document, embedding, metadata); every other id keeps its record.
   */
  lemma WriteStoresRecord(st: SyncState, m: MessageData, existingIds: set<string>,
                          embed: EmbedOracle, permalink: LinkOracle)
    requires FormatMessage(m).Some?
    requires !Unchanged(st.records, existingIds, MessageId(m), FormatMessage(m).value)
    requires embed(FormatMessage(m).value).Some?
    requires (MessageId(m) in existingIds) == (MessageId(m) in st.records)
    ensures var id, doc := MessageId(m), FormatMessage(m).value;
            var link := permalink(id);
            Step(st, m, existingIds, embed, permalink) ==
              Running(SyncState(st.records[id := VectorRecord(doc, embed(doc).value, MetadataFor(link))],
                                st.formatted + [doc], st.links + [LoggedLink(link)]))
  {
  }

  // ---------------------------------------------------------------- the loop

  /**
   * The two audit lists grow together, only at their end, and by at most one
   * entry per message.
   */
  lemma {:induction false} LogsInLockstep(init: SyncState, msgs: seq<MessageData>, existingIds: set<string>,
                                          embed: EmbedOracle, permalink: LinkOracle)
    requires |init.formatted| == |init.links|
    ensures var st := Run(init, msgs, existingIds, embed, permalink).state;
            && |st.formatted| == |st.links|
            && init.formatted <= st.formatted && init.links <= st.links
            && |st.formatted| <= |init.formatted| + |msgs|
    decreases |msgs|
  {
    if msgs != [] {
      LogsInLockstep(init, msgs[..|msgs| - 1], existingIds, embed, permalink);
    }
  }

  /** No two staged records share an id. */
  predicate DistinctIds(msgs: seq<MessageData>)
  {
    forall i, j :: 0 <= i < j < |msgs| ==> MessageId(msgs[i]) != MessageId(msgs[j])
  }

  /** The ids of the staged records. */
  function IdsOf(msgs: seq<MessageData>): set<string>
  {
    set k | 0 <= k < |msgs| :: MessageId(msgs[k])
  }

  /** Every staged record formats, and the collection stores exactly its document under its id. */
  predicate Synced(c: Collection, msgs: seq<MessageData>)
  {
    forall k :: 0 <= k < |msgs| ==>
      && FormatMessage(msgs[k]).Some?
      && MessageId(msgs[k]) in c
      && c[MessageId(msgs[k])].document == FormatMessage(msgs[k]).value
  }

  /** One step over a record whose id is new to the run keeps `Synced`, now including that record. */
  lemma StepSynchronises(st: SyncState, done: seq<MessageData>, m: MessageData, existingIds: set<string>,
                         embed: EmbedOracle, permalink: LinkOracle)
    requires Synced(st.records, done)
    requires existingIds <= st.records.Keys <= existingIds + IdsOf(done)
    requires MessageId(m) !in IdsOf(done)
    requires Step(st, m, existingIds, embed, permalink).Running?
    ensures var after := Step(st, m, existingIds, embed, permalink).state.records;
            && Synced(after, done + [m])
            && existingIds <= after.Keys <= existingIds + IdsOf(done) + {MessageId(m)}
  {
    var id, doc := MessageId(m), FormatMessage(m).value;
    var after := Step(st, m, existingIds, embed, permalink).state.records;
    var all := done + [m];
    assert forall k :: 0 <= k < |done| ==> all[k] == done[k] && MessageId(done[k]) in IdsOf(done);
    if !Unchanged(st.records, existingIds, id, doc) {
      assert (id in existingIds) == (id in st.records);
      assert after == st.records[id := VectorRecord(doc, embed(doc).value, MetadataFor(permalink(id)))];
    }
  }

  /**
   * A run with distinct ids that does not raise leaves every staged record's
   * current document in the collection, and adds no id that was neither in
   * the snapshot nor staged.
   */
  lemma {:induction false} RunSynchronises(init: SyncState, msgs: seq<MessageData>, existingIds: set<string>,
                                           embed: EmbedOracle, permalink: LinkOracle)
    requires existingIds == init.records.Keys
    requires DistinctIds(msgs)
    ensures var p := Run(init, msgs, existingIds, embed, permalink);
            p.Running? ==>
              && Synced(p.state.records, msgs)
              && existingIds <= p.state.records.Keys <= existingIds + IdsOf(msgs)
    decreases |msgs|
  {
    if msgs != [] {
      var n := |msgs| - 1;
      var prefix, m := msgs[..n], msgs[n];
      assert msgs == prefix + [m];
      assert DistinctIds(prefix) by {
        assert forall k :: 0 <= k < n ==> prefix[k] == msgs[k];
      }
      RunSynchronises(init, prefix, existingIds, embed, permalink);
      var before := Run(init, prefix, existingIds, embed, permalink);
      if before.Running? && Step(before.state, m, existingIds, embed, permalink).Running? {
        assert MessageId(m) !in IdsOf(prefix) by {
          forall k | 0 <= k < n ensures MessageId(prefix[k]) != MessageId(m) {
            assert prefix[k] == msgs[k];
          }
        }
        assert IdsOf(msgs) == IdsOf(prefix) + {MessageId(m)} by {
          forall x | x in IdsOf(msgs) ensures x in IdsOf(prefix) + {MessageId(m)} {
            var k :| 0 <= k < |msgs| && MessageId(msgs[k]) == x;
            if k < n { assert prefix[k] == msgs[k]; }
          }
          forall k | 0 <= k < n ensures MessageId(prefix[k]) in IdsOf(msgs) {
            assert prefix[k] == msgs[k];
          }
        }
        StepSynchronises(before.state, prefix, m, existingIds, embed, permalink);
      }
    }
  }

  /** Over a collection that already holds every staged document, a run skips every record. */
  lemma {:induction false} ResyncSkipsAll(init: SyncState, msgs: seq<MessageData>,
                                          embed: EmbedOracle, permalink: LinkOracle)
    requires Synced(init.records, msgs)
    ensures Run(init, msgs, init.records.Keys, embed, permalink) == Running(init)
    decreases |msgs|
  {
    if msgs != [] {
      var n := |msgs| - 1;
      assert forall k :: 0 <= k < n ==> msgs[..n][k] == msgs[k];
      ResyncSkipsAll(init, msgs[..n], embed, permalink);
    }
  }

  /**
   * Idempotence: after a successful `process_messages` over records with
   * distinct ids, a second one over the same staging file, whatever the
   * external services answer, skips everything: same result, same collection,
   * and nothing appended to the audit file.
   */
  lemma ProcessIsIdempotent(c: Collection, msgs: seq<MessageData>, auditLog: seq<string>,
                            embed: EmbedOracle, permalink: LinkOracle, embed': EmbedOracle, permalink': LinkOracle)
    requires DistinctIds(msgs)
    requires Process(c, Some(msgs), auditLog, embed, permalink).ok
    ensures var first := Process(c, Some(msgs), auditLog, embed, permalink);
            Process(first.collection, Some(msgs), first.auditLog, embed', permalink') == first
  {
    var init := SyncState(c, [], []);
    RunSynchronises(init, msgs, c.Keys, embed, permalink);
    var first := Process(c, Some(msgs), auditLog, embed, permalink);
    ResyncSkipsAll(SyncState(first.collection, [], []), msgs, embed', permalink');
    assert AuditEntries([], []) == [];
    assert first.auditLog + [] == first.auditLog;
  }

  /**
   * A raise while handling record `j` ends `process_messages` with `false`,
   * the upserts of records before `j` in the collection, and the audit file
   * as it was.
   */
  lemma RaiseKeepsEarlierWrites(c: Collection, msgs: seq<MessageData>, auditLog: seq<string>,
                                embed: EmbedOracle, permalink: LinkOracle, j: nat)
    requires j < |msgs|
    requires Run(SyncState(c, [], []), msgs[..j], c.Keys, embed, permalink).Running?
    requires Step(Run(SyncState(c, [], []), msgs[..j], c.Keys, embed, permalink).state, msgs[j], c.Keys, embed, permalink).Raised?
    ensures Process(c, Some(msgs), auditLog, embed, permalink) ==
              ProcessResult(false, Run(SyncState(c, [], []), msgs[..j], c.Keys, embed, permalink).state.records, auditLog)
  {
    var init := SyncState(c, [], []);
    assert msgs[..j + 1][..j] == msgs[..j];
    RunRaisedIsFinal(init, msgs, j + 1, c.Keys, embed, permalink);
  }

  /**
   * Because the snapshot is taken once, a second staged record with the id of
   * one added earlier in the same run is routed to `add` again: it is logged
   * and embedded, but the collection keeps the first document.
   */
  lemma SnapshotIsNotRefreshed(c: Collection, m1: MessageData, m2: MessageData,
                               embed: EmbedOracle, permalink: LinkOracle)
    requires MessageId(m1) == MessageId(m2) && MessageId(m1) !in c
    requires FormatMessage(m1).Some? && FormatMessage(m2).Some?
    requires embed(FormatMessage(m1).value).Some? && embed(FormatMessage(m2).value).Some?
    ensures var p := Run(SyncState(c, [], []), [m1, m2], c.Keys, embed, permalink);
            && p.Running?
            && p.state.formatted == [FormatMessage(m1).value, FormatMessage(m2).value]
            && p.state.records[MessageId(m1)].document == FormatMessage(m1).value
  {
    var init := SyncState(c, [], []);
    var id, d1, d2 := MessageId(m1), FormatMessage(m1).value, FormatMessage(m2).value;
    assert [m1, m2][..1] == [m1];
    assert [m1][..0] == [];
    var first := Step(init, m1, c.Keys, embed, permalink);
    assert Run(init, [m1], c.Keys, embed, permalink) == first;
    assert first.Running? && first.state.formatted == [d1];
    assert first.state.records == c[id := VectorRecord(d1, embed(d1).value, MetadataFor(permalink(id)))];
    var second := Step(first.state, m2, c.Keys, embed, permalink);
    assert Run(init, [m1, m2], c.Keys, embed, permalink) == second;
    assert second.state.records == first.state.records;
  }
}
