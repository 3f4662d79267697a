/** What has ever been published: each publication is what was staged and verified, its archived
    parts last, and the records, owner states and listings agree with the history. */
module PublicationProofs {
  import opened Basics
  import opened Bundles
  import opened Storage
  import opened Uploads
  import opened Ownership
  import opened Promotion
  import opened PromotionProofs

  // ---------------------------------------------------------------- the history

  /** The last publication into a record. */
  function Latest(log: seq<Publication>, recordId: nat): Option<Publication> {
    if log == [] then None
    else if log[|log| - 1].recordId == recordId then Some(log[|log| - 1])
    else Latest(log[..|log| - 1], recordId)
  }

  /** One publication, as it stands in any later state: its row is done, it is the Ownable that row
      was staged for, its replay was verified and fresh, and its archived parts are still there. */
  ghost predicate EntryStands(rt: Runtime, h: Hub, e: Publication) {
    && e.uploadId < |h.uploads| && !Active(h.uploads[e.uploadId]) && StagedAs(rt, h, e.uploadId, e.prepared)
    && rt.replay(e.prepared.cid, e.prepared.eventChainBuffer, e.prepared.packageContent, e.evidence) == Some(e.replay)
    && PassesVerification(e.replay)
    && ZipIn(rt.env, h.archive, e.prepared) && ChainIn(h.archive, e.prepared)
  }

  ghost predicate LogStands(rt: Runtime, h: Hub) {
    && (forall k :: 0 <= k < |h.log| ==> EntryStands(rt, h, h.log[k]))
    && (forall i, k :: 0 <= i < k < |h.log| ==> h.log[i].uploadId != h.log[k].uploadId)
  }

  ghost predicate RecordsStand(h: Hub) {
    && (forall k :: 0 <= k < |h.log| ==>
          h.log[k].recordId < |h.records| && h.records[h.log[k].recordId].subjectId ==
            Lower(h.log[k].prepared.subjectId))
    && (forall j :: 0 <= j < |h.records| ==> RecordStands(h, j))
    && (forall i, j :: 0 <= i < j < |h.records| ==> h.records[i].subjectId != h.records[j].subjectId)
    && (forall j :: j in h.owners ==> j < |h.records|)
  }

  /** A record and its owner state are those of its latest publication. */
  ghost predicate RecordStands(h: Hub, j: nat)
    requires j < |h.records|
  {
    && Latest(h.log, j).Some?
    && h.records[j] == RecordFrom(Latest(h.log, j).value.prepared)
    && j in h.owners && h.owners[j].holding == HoldingOf(AssignmentOf(j, Latest(h.log, j).value.replay))
  }

  // ---------------------------------------------------------------- one step

  lemma {:induction false} EntryStable(rt: Runtime, h: Hub, after: Hub, e: Publication)
    requires EntryStands(rt, h, e) && Grows(rt, h, after)
    ensures EntryStands(rt, after, e)
  {
    hide ZipIn, ChainIn, PrepareUpload;
    assert IsPrepared(rt.env, e.prepared);
    assert SameIdentity(h.uploads[e.uploadId], after.uploads[e.uploadId]);
  }

  predicate Publishes(h: Hub, s: Step, now: int) {
    s.Resume? && s.task in h.tasks && h.tasks[s.task].ChainStored? && !s.fails
      && Publishable(h.uploads, h.tasks[s.task].judged.id, now)
  }

  lemma {:induction false} AdvanceKeepsHistory(rt: Runtime, h: Hub, task: Task, fails: bool, order: seq<string>,
          now: int)
    requires !(task.ChainStored? && !fails && Publishable(h.uploads, task.judged.id, now))
    ensures var after := Advance(rt, h, task, fails, order, now).hub;
      after.log == h.log && after.records == h.records && after.owners == h.owners
  {
    hide PrepareUpload, Execute, Insert, PutPackage, PutChain, PublishTransaction, HasPending, IsReferenced,
      IsStrictSuccessor, Publishable, HasPendingSubject, HasAvailable, RecordOf, MatchesRow,
      HasOnlyMissingAnchorEvidence, PassesVerification;
  }

  lemma {:induction false} OtherStepsKeepHistory(rt: Runtime, h: Hub, s: Step, now: int)
    requires !Publishes(h, s, now)
    ensures var after := Promotion.Take(rt, h, s, now);
      after.log == h.log && after.records == h.records && after.owners == h.owners
  {
    hide Advance, Execute, Publishable;
    if s.Resume? && s.task in h.tasks {
      AdvanceKeepsHistory(rt, h, h.tasks[s.task], s.fails, s.order, now);
    }
  }

  lemma {:induction false} PublishingStep(rt: Runtime, h: Hub, s: Step, now: int)
    requires Publishes(h, s, now)
    ensures var after, a := Promotion.Take(rt, h, s, now), h.tasks[s.task].judged;
      && after.log == h.log + [Publication(a.id, RecordIdFor(h.records, a.prepared), a.prepared, a.replay, a.evidence)]
      && after.records == UpsertRecord(h.records, a.prepared)
      && after.owners == Assign(h.owners, AssignmentOf(RecordIdFor(h.records, a.prepared), a.replay))
      && after.archive == h.archive && after.contents == h.contents
      && after.uploads == Execute(rt.limits, h.uploads, Publish(a.id), now)
  {
    hide PrepareUpload, Execute, Insert, PutPackage, PutChain, UpsertRecord, Assign, RecordIdFor;
  }

  lemma {:induction false} TakeKeepsLog(rt: Runtime, h: Hub, s: Step, now: int)
    requires Laws(rt) && Base(rt, h) && LogStands(rt, h)
    ensures LogStands(rt, Promotion.Take(rt, h, s, now))
  {
    hide Laws, Base, EntryStands, Grows, Promotion.Take;
    var after := Promotion.Take(rt, h, s, now);
    TakeKeepsBase(rt, h, s, now);
    forall k | 0 <= k < |h.log| ensures EntryStands(rt, after, h.log[k]) { EntryStable(rt, h, after, h.log[k]); }
    if Publishes(h, s, now) {
      PublishingStep(rt, h, s, now);
      NewEntryStands(rt, h, s, now);
      forall k | 0 <= k < |h.log| ensures h.log[k].uploadId != h.tasks[s.task].judged.id {
        DoneRowsAreNotPublishable(rt, h, h.log[k], now);
      }
    } else {
      OtherStepsKeepHistory(rt, h, s, now);
    }
  }

  lemma {:induction false} DoneRowsAreNotPublishable(rt: Runtime, h: Hub, e: Publication, now: int)
    requires EntryStands(rt, h, e)
    ensures !Publishable(h.uploads, e.uploadId, now)
  {
  }

  lemma {:induction false} NewEntryStands(rt: Runtime, h: Hub, s: Step, now: int)
    requires Base(rt, h) && Publishes(h, s, now)
    ensures var a := h.tasks[s.task].judged;
      EntryStands(rt, Promotion.Take(rt, h, s, now),
        Publication(a.id, RecordIdFor(h.records, a.prepared), a.prepared, a.replay, a.evidence))
  {
    hide PrepareUpload, Execute, ZipIn, ChainIn, Promotion.Take, RecordIdFor;
    PublishingStep(rt, h, s, now);
    assert TaskStands(rt, h, h.tasks[s.task]);
    EndedRow(rt, h.uploads, Publish(h.tasks[s.task].judged.id), now, h.tasks[s.task].judged.id);
  }

  lemma {:induction false} RecordOfFinds(records: seq<Record>, subject: string)
    ensures var r := RecordOf(records, subject);
      && (r.Some? ==> r.value < |records| && records[r.value].subjectId == subject)
      && (r.None? ==> forall j :: 0 <= j < |records| ==> records[j].subjectId != subject)
  {
    if records != [] { RecordOfFinds(records[..|records| - 1], subject); }
  }

  lemma {:induction false} UpsertedRecords(records: seq<Record>, p: Prepared)
    ensures var j := RecordIdFor(records, p);
      var after := UpsertRecord(records, p);
      && j <= |records| && |after| == (if j < |records| then |records| else |records| + 1)
      && after[j] == RecordFrom(p) && RecordHolds(after[j], p)
      && (j < |records| ==> records[j].subjectId == Lower(p.subjectId))
      && (j == |records| ==> forall i :: 0 <= i < |records| ==> records[i].subjectId != Lower(p.subjectId))
      && forall i :: 0 <= i < |records| && i != j ==> after[i] == records[i]
  {
    RecordOfFinds(records, Lower(p.subjectId));
  }

  /** In every reachable state each record and each owner state is, column by column, that of the
      latest publication into it: what was uploaded then, and what its replay derived. */
  lemma {:induction false} RecordsAreThoseOfTheLatest(rt: Runtime, run: seq<Timed>, j: nat)
    requires Laws(rt) && j < |AfterRun(rt, run).records|
    ensures var h := AfterRun(rt, run);
      && Latest(h.log, j).Some? && j in h.owners
      && var e, r, owner := Latest(h.log, j).value, h.records[j], h.owners[j].holding;
        && e.recordId == j
        && r.ownableId == e.prepared.ownableId && r.prevOwnerAddress == Lower(e.prepared.previousOwnerAddress)
        && r.packageCid == e.prepared.cid && r.uploadDigest == e.prepared.uploadDigest
        && r.subjectId == Lower(e.prepared.subjectId)
        && r.chainStorageKey
             == "archives/chains/" + e.prepared.ownableId + "/" + e.prepared.eventChainDigest + ".json"
        && owner.owner == Lower(e.replay.owner) && owner.account == e.replay.ownerAccount
        && owner.lastEventId == e.replay.latestAppliedPublicEventId
  {
    hide Laws, AfterRun;
    HistoryHolds(rt, run);
    assert RecordStands(AfterRun(rt, run), j);
    LatestIsLogged(AfterRun(rt, run).log, j);
  }

  lemma {:induction false} LatestAppends(log: seq<Publication>, e: Publication, j: nat)
    ensures Latest(log + [e], j) == if e.recordId == j then Some(e) else Latest(log, j)
  {
    assert (log + [e])[..|log|] == log;
  }

  lemma {:induction false} TakeKeepsRecords(rt: Runtime, h: Hub, s: Step, now: int)
    requires RecordsStand(h)
    ensures RecordsStand(Promotion.Take(rt, h, s, now))
  {
    hide Promotion.Take, UpsertRecord, RecordIdFor, Latest, Publishable;
    var after := Promotion.Take(rt, h, s, now);
    if Publishes(h, s, now) {
      PublishingStep(rt, h, s, now);
      UpsertedRecords(h.records, h.tasks[s.task].judged.prepared);
      forall j | 0 <= j < |after.records| ensures RecordStands(after, j) {
        LatestAppends(h.log, after.log[|h.log|], j);
        if j != after.log[|h.log|].recordId { assert RecordStands(h, j); }
      }
    } else {
      OtherStepsKeepHistory(rt, h, s, now);
      assert forall j :: 0 <= j < |h.records| ==> RecordStands(h, j) && RecordStands(after, j);
    }
  }

  lemma {:induction false} HistoryHolds(rt: Runtime, run: seq<Timed>)
    requires Laws(rt)
    ensures LogStands(rt, AfterRun(rt, run)) && RecordsStand(AfterRun(rt, run))
  {
    hide Laws, LogStands, RecordsStand, Promotion.Take;
    if run == [] {
      NothingStands(rt);
    } else {
      var before, last := run[..|run| - 1], run[|run| - 1];
      HistoryHolds(rt, before);
      BaseHolds(rt, before);
      TakeKeepsLog(rt, AfterRun(rt, before), last.step, last.now);
      TakeKeepsRecords(rt, AfterRun(rt, before), last.step, last.now);
    }
  }

  lemma {:induction false} NothingStands(rt: Runtime)
    ensures LogStands(rt, NOTHING) && RecordsStand(NOTHING)
  {
  }

  // ---------------------------------------------------------------- published equals staged and verified

  /** The evidence every earlier moment of a run offered to replays. */
  function Offered(rt: Runtime, run: seq<Timed>): seq<Evidence> {
    if run == [] then [NOTHING.evidence]
    else Offered(rt, run[..|run| - 1]) + [AfterRun(rt, run).evidence]
  }

  ghost predicate TaskUsesOffered(task: Task, offered: seq<Evidence>) {
    task.Deferring? || task.Verified? || task.ZipStored? || task.ChainStored? ==> task.judged.evidence in offered
  }

  lemma {:induction false} NextTaskUsesOffered(rt: Runtime, h: Hub, task: Task, fails: bool, order: seq<string>,
          now: int, offered: seq<Evidence>)
    requires TaskUsesOffered(task, offered) && h.evidence in offered
    ensures var m := Advance(rt, h, task, fails, order, now);
      m.next.Some? ==> TaskUsesOffered(m.next.value, offered)
  {
    hide PrepareUpload, Execute, Insert, PutPackage, PutChain, UpsertRecord, HasPending, IsReferenced,
      IsStrictSuccessor;
  }

  lemma {:induction false} ReplaysUseOfferedEvidence(rt: Runtime, run: seq<Timed>)
    ensures var h, offered := AfterRun(rt, run), Offered(rt, run);
      && h.evidence in offered
      && (forall t :: t in h.tasks ==> TaskUsesOffered(h.tasks[t], offered))
      && (forall k :: 0 <= k < |h.log| ==> h.log[k].evidence in offered)
  {
    hide Advance, UpsertRecord, RecordIdFor, Execute;
    if run != [] {
      var before, last := run[..|run| - 1], run[|run| - 1];
      ReplaysUseOfferedEvidence(rt, before);
      var h, after := AfterRun(rt, before), AfterRun(rt, run);
      assert forall e :: e in Offered(rt, before) ==> e in Offered(rt, run);
      assert forall x :: TaskUsesOffered(x, Offered(rt, before)) ==> TaskUsesOffered(x, Offered(rt, run));
      if last.step.Resume? && last.step.task in h.tasks {
        NextTaskUsesOffered(rt, h, h.tasks[last.step.task], last.step.fails, last.step.order, last.now,
          Offered(rt, before));
      }
      if Publishes(h, last.step, last.now) {
        PublishingStep(rt, h, last.step, last.now);
      } else {
        OtherStepsKeepHistory(rt, h, last.step, last.now);
      }
    }
  }

  /** Every publication in any run is that of its own row: the Ownable recomputed from the staged
      bytes, with the row's identity, accepted by a replay that was verified and not stale against
      evidence the Hub held at some moment of the run; and no row was published twice. */
  lemma {:induction false} PublishedIsStagedAndVerified(rt: Runtime, run: seq<Timed>, k: nat)
    requires Laws(rt) && k < |AfterRun(rt, run).log|
    ensures var h, e := AfterRun(rt, run), AfterRun(rt, run).log[k];
      && e.uploadId < |h.uploads| == |h.contents|
      && PrepareUpload(rt.env, h.contents[e.uploadId]) == Ok(e.prepared)
      && h.uploads[e.uploadId].uploadDigest == rt.env.sha256(h.contents[e.uploadId])
      && h.uploads[e.uploadId].eventChainDigest == rt.env.sha256(e.prepared.eventChainBuffer)
      && MatchesRow(e.prepared, h.uploads[e.uploadId]) && !Active(h.uploads[e.uploadId])
      && rt.replay(e.prepared.cid, e.prepared.eventChainBuffer, e.prepared.packageContent, e.evidence) == Some(e.replay)
      && e.replay.verified && !e.replay.stale && e.evidence in Offered(rt, run)
      && forall i :: 0 <= i < |h.log| && i != k ==> h.log[i].uploadId != e.uploadId
  {
    hide PrepareUpload, Laws, AfterRun, Offered, ZipIn, ChainIn;
    HistoryHolds(rt, run);
    BaseHolds(rt, run);
    ReplaysUseOfferedEvidence(rt, run);
    var h := AfterRun(rt, run);
    assert EntryStands(rt, h, h.log[k]);
    assert RowStands(rt, h.uploads[h.log[k].uploadId], h.contents[h.log[k].uploadId]);
    PreparedPartsFitTogether(rt.env, h.contents[h.log[k].uploadId]);
  }

  /** Uploading bytes again is answered as available exactly when they are the bytes of the latest
      publication of some record. */
  lemma {:induction false} RetryMeansPublishedBytes(rt: Runtime, run: seq<Timed>, buffer: Bytes)
    requires Laws(rt)
    ensures var h := AfterRun(rt, run);
      HasAvailable(h.records, rt.env.sha256(buffer)) <==> exists j: nat :: PublishedLast(h, j, buffer)
  {
    hide PrepareUpload, AfterRun, ZipIn, ChainIn, ZipLaws, KeepsZip;
    HistoryHolds(rt, run);
    BaseHolds(rt, run);
    var h := AfterRun(rt, run);
    forall j: nat
      ensures PublishedLast(h, j, buffer) <==> j < |h.records| && h.records[j].uploadDigest == rt.env.sha256(buffer)
    {
      if Latest(h.log, j).Some? { LatestIsLogged(h.log, j); }
      if j < |h.records| { LatestHasRecordDigest(rt, h, j); }
    }
    assert forall j: nat :: j < |h.records| && h.records[j].uploadDigest == rt.env.sha256(buffer) ==>
      PublishedLast(h, j, buffer);
  }

  /** The record's latest publication was of exactly these bytes. */
  ghost predicate PublishedLast(h: Hub, j: nat, buffer: Bytes) {
    Latest(h.log, j).Some? && Latest(h.log, j).value.uploadId < |h.contents|
      && h.contents[Latest(h.log, j).value.uploadId] == buffer
  }

  lemma {:induction false} LatestHasRecordDigest(rt: Runtime, h: Hub, j: nat)
    requires RowsStand(rt, h) && LogStands(rt, h) && RecordsStand(h) && j < |h.records|
    ensures Latest(h.log, j).Some? && Latest(h.log, j).value.uploadId < |h.contents|
    ensures h.records[j].uploadDigest == rt.env.sha256(h.contents[Latest(h.log, j).value.uploadId])
  {
    hide PrepareUpload, ZipIn, ChainIn;
    assert RecordStands(h, j);
    LatestIsLogged(h.log, j);
    var k :| 0 <= k < |h.log| && h.log[k] == Latest(h.log, j).value;
    assert EntryStands(rt, h, h.log[k]);
    PreparedPartsFitTogether(rt.env, h.contents[h.log[k].uploadId]);
  }

  // ---------------------------------------------------------------- how a promotion ends

  /** How one statement can change a row that is being promoted. */
  lemma {:induction false} PromotingRowChanges(limits: Limits, rows: Table, s: Statement, now: int, id: nat)
    requires id < |rows| && rows[id].status == Promoting
    ensures var after := Execute(limits, rows, s, now);
      && id < |after|
      && (after[id].status == Pending ==> s.Restore? && s.id == id)
      && (after[id].status == Available ==> s == Publish(id) && rows[id].expiresAt > now)
      && (after[id].status == Rejected ==> s.Reject? && s.id == id)
      && (after[id].status == Expired ==> rows[id].expiresAt <= now)
  {
  }

  ghost predicate EndsAsItShould(rt: Runtime, h: Hub, task: Task, fails: bool, now: int, id: nat, status: Status) {
    && (status == Pending ==>
          && task.Deferring? && task.judged.id == id && JudgedStands(rt, h, task.judged)
          && var r := task.judged.replay;
            !r.verified && |r.anchors| > 0 && forall k :: k in r.anchors ==> r.anchors[k] == "")
    && (status == Available ==>
          && task.ChainStored? && task.judged.id == id && JudgedStands(rt, h, task.judged) && !fails
          && task.judged.replay.verified && !task.judged.replay.stale
          && id < |h.uploads| && h.uploads[id].status == Promoting && h.uploads[id].expiresAt > now)
    && (status == Rejected ==> task.Rejecting? && task.id == id)
  }

  lemma {:induction false} AdvanceEndsAsItShould(rt: Runtime, h: Hub, task: Task, fails: bool, order: seq<string>,
          now: int, id: nat)
    requires TaskStands(rt, h, task) && id < |h.uploads| && h.uploads[id].status == Promoting
    ensures var after := Advance(rt, h, task, fails, order, now).hub.uploads;
      && id < |after|
      && EndsAsItShould(rt, h, task, fails, now, id, after[id].status)
      && (after[id].status == Expired ==> h.uploads[id].expiresAt <= now)
  {
    hide Advance, PrepareUpload, Execute, Insert, ZipIn, ChainIn, JudgedStands;
    TaskIssues(rt, h, task, fails, order, now);
    var s := TaskStatement(rt, h, task, fails, now);
    if s.Some? { PromotingRowChanges(rt.limits, h.uploads, s.value, now, id); }
  }

  /** In any run, a row under promotion goes back to pending only for an Ownable whose replay is
      unverified with a non-empty set of anchors all of which are missing; becomes available only
      with a verified, fresh replay and in the same step that records its publication; is rejected
      only by a promotion that gave it up; and expires only when it is due. */
  lemma {:induction false} PromotionEndsAsItShould(rt: Runtime, run: seq<Timed>, s: Step, now: int, id: nat)
    requires Laws(rt) && id < |AfterRun(rt, run).uploads| && AfterRun(rt, run).uploads[id].status == Promoting
    ensures var h := AfterRun(rt, run);
      var after := Promotion.Take(rt, h, s, now);
      && id < |after.uploads|
      && (after.uploads[id].status != Promoting ==>
            || (after.uploads[id].status == Expired && h.uploads[id].expiresAt <= now)
            || (s.Resume? && s.task in h.tasks
              && EndsAsItShould(rt, h, h.tasks[s.task], s.fails, now, id, after.uploads[id].status)))
      && (after.uploads[id].status == Available ==>
            |after.log| == |h.log| + 1 && after.log[|h.log|].uploadId == id
              && EntryStands(rt, after, after.log[|h.log|]))
  {
    hide Advance, Execute, EndsAsItShould, Laws, AfterRun, EntryStands;
    BaseHolds(rt, run);
    var h := AfterRun(rt, run);
    match s
    case Resume(t, fails, order) =>
      if t in h.tasks {
        AdvanceEndsAsItShould(rt, h, h.tasks[t], fails, order, now, id);
        if Advance(rt, h, h.tasks[t], fails, order, now).hub.uploads[id].status == Available {
          AvailableMeansPublishing(rt, h, s, now, id);
        }
      }
    case Claim(t, claimed, _, _, _) => PromotingRowChanges(rt.limits, h.uploads, ClaimStatement(s), now, id);
    case Sweep(chosen) => PromotingRowChanges(rt.limits, h.uploads, ExpireBatch(chosen), now, id);
    case _ =>
  }

  lemma {:induction false} AvailableMeansPublishing(rt: Runtime, h: Hub, s: Step, now: int, id: nat)
    requires Base(rt, h) && s.Resume? && s.task in h.tasks
    requires EndsAsItShould(rt, h, h.tasks[s.task], s.fails, now, id, Available)
    ensures var after := Promotion.Take(rt, h, s, now);
      |after.log| == |h.log| + 1 && after.log[|h.log|].uploadId == id && EntryStands(rt, after, after.log[|h.log|])
  {
    hide Promotion.Take, EntryStands;
    PublishingStep(rt, h, s, now);
    NewEntryStands(rt, h, s, now);
  }

  // ---------------------------------------------------------------- referential integrity

  /** A record's zip and chain are both stored, and reassemble to files with the record's CID. */
  ghost predicate Reassembles(rt: Runtime, archive: Objects, r: Record) {
    var chain := ReadEventChain(archive, "", r.packageCid, Some(r.chainStorageKey));
    && PackageZipKey(r.packageCid) in archive && rt.env.unzip(archive[PackageZipKey(r.packageCid)]).Some?
    && chain.Some?
    && rt.env.cidOf(Reassemble(FilesOf(rt.env.unzip(archive[PackageZipKey(r.packageCid)]).value), chain.value)) ==
      r.packageCid
  }

  lemma {:induction false} PartsReassemble(rt: Runtime, archive: Objects, p: Prepared)
    requires Laws(rt) && IsPrepared(rt.env, p) && ZipIn(rt.env, archive, p) && ChainIn(archive, p)
    ensures Reassembles(rt, archive, RecordFrom(p))
  {
    hide PrepareUpload, FilesOf, Reassemble, Laws;
    PreparedFacts(rt, p);
  }

  /** In every reachable state, every publication ever made, and every record in particular, still has
      its zip and its chain in the archive, and they reassemble to a file map with the record's CID:
      no later publication disturbs them. */
  lemma {:induction false} PublishedPartsStayArchived(rt: Runtime, run: seq<Timed>)
    requires Laws(rt)
    ensures var h := AfterRun(rt, run);
      && (forall k :: 0 <= k < |h.log| ==> Reassembles(rt, h.archive, RecordFrom(h.log[k].prepared)))
      && (forall j :: 0 <= j < |h.records| ==> Reassembles(rt, h.archive, h.records[j]))
  {
    hide PrepareUpload, Laws, AfterRun, ZipIn, ChainIn, Reassembles, RecordFrom;
    HistoryHolds(rt, run);
    var h := AfterRun(rt, run);
    forall k | 0 <= k < |h.log| ensures Reassembles(rt, h.archive, RecordFrom(h.log[k].prepared)) {
      assert EntryStands(rt, h, h.log[k]);
      assert IsPrepared(rt.env, h.log[k].prepared);
      PartsReassemble(rt, h.archive, h.log[k].prepared);
    }
    forall j | 0 <= j < |h.records| ensures Reassembles(rt, h.archive, h.records[j]) {
      assert RecordStands(h, j);
      LatestIsLogged(h.log, j);
    }
  }

  lemma {:induction false} LatestIsLogged(log: seq<Publication>, j: nat)
    requires Latest(log, j).Some?
    ensures exists k :: 0 <= k < |log| && log[k] == Latest(log, j).value && log[k].recordId == j
  {
    if log[|log| - 1].recordId != j {
      LatestIsLogged(log[..|log| - 1], j);
      var k :| 0 <= k < |log| - 1 && log[..|log| - 1][k] == Latest(log, j).value;
      assert log[k] == Latest(log, j).value;
    }
  }

  // ---------------------------------------------------------------- discovery

  /** listAvailableOwnablesByOwnerAccount, as a set of record identifiers. */
  function Listing(h: Hub, account: string): set<nat> {
    set j | j in h.owners && j < |h.records| && h.owners[j].holding.account == Some(account)
  }

  ghost predicate ListedByHistory(h: Hub, account: string, j: nat) {
    Latest(h.log, j).Some? && Latest(h.log, j).value.replay.ownerAccount == Some(account)
  }

  ghost predicate PublishedUnder(h: Hub, j: nat) {
    exists k :: 0 <= k < |h.log| && h.log[k].recordId == j && j < |h.records|
      && h.records[j].subjectId == Lower(h.log[k].prepared.subjectId)
  }

  lemma {:induction false} ListedMeansLatest(h: Hub, account: string, j: nat)
    requires RecordsStand(h)
    ensures j in Listing(h, account) <==> ListedByHistory(h, account, j)
    ensures j in Listing(h, account) ==> PublishedUnder(h, j)
  {
    if Latest(h.log, j).Some? { LatestIsLogged(h.log, j); }
    if j < |h.records| {
      assert RecordStands(h, j);
    }
  }

  /** The listing of an account is exactly the records whose latest publication derived that account;
      no Ownable is listed under two accounts or twice; and an Ownable no publication was ever made
      for is never listed, whatever is in quarantine. */
  lemma {:induction false} ListingAgreesWithHistory(rt: Runtime, run: seq<Timed>, account: string, other: string)
    requires Laws(rt)
    ensures var h := AfterRun(rt, run);
      && (forall j :: j in Listing(h, account) <==> ListedByHistory(h, account, j))
      && (forall j :: j in Listing(h, account) ==> PublishedUnder(h, j))
      && (forall i, j :: i in Listing(h, account) && j in Listing(h, other) ==>
            h.records[i].subjectId == h.records[j].subjectId ==> i == j && account == other)
  {
    hide Laws, AfterRun, ListedByHistory, PublishedUnder, RecordStands;
    HistoryHolds(rt, run);
    var h := AfterRun(rt, run);
    forall j: nat
      ensures j in Listing(h, account) <==> ListedByHistory(h, account, j)
      ensures j in Listing(h, account) ==> PublishedUnder(h, j)
    {
      ListedMeansLatest(h, account, j);
    }
  }
}
