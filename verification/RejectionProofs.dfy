/** Why a promotion gives its upload up: every rejection in every run goes back to one of the causes
    the code can name, and an intact staged object is never one of them. */
module RejectionProofs {
  import opened Basics
  import opened Bundles
  import opened Storage
  import opened Uploads
  import opened Promotion
  import opened PromotionProofs
  import opened PublicationProofs
  import opened VaultProofs
  import Driving

  /** What makes a task give its upload up at its next statement: something throws, the staged object
      is gone, the replay fails or convinces nobody, or the row may no longer be published. */
  predicate GivesUp(rt: Runtime, h: Hub, task: Task, fails: bool, now: int) {
    match task
    case Claimed(_, u) => fails || u.privateObjectKey !in h.vault
    case Rebuilt(_, _, p) =>
      var r := rt.replay(p.cid, p.eventChainBuffer, p.packageContent, h.evidence);
      fails || r.None? || !(HasOnlyMissingAnchorEvidence(r.value) || PassesVerification(r.value))
    case Deferring(_) => fails
    case Verified(_) => fails
    case ZipStored(_) => fails
    case ChainStored(a) => fails || !Publishable(h.uploads, a.id, now)
    case Releasing(_, _, afterPublication) => fails && afterPublication
    case _ => false
  }

  /** The rejection a promotion task falls back to. */
  function Rejection(task: Task): Option<Task> {
    match task
    case Claimed(id, u) => Some(Rejecting(id, u.privateObjectKey, STAGED_UPLOAD_INVALID))
    case Rebuilt(id, u, _) => Some(Rejecting(id, u.privateObjectKey, PROMOTION_REPLAY_REJECTED))
    case Deferring(a) => Some(Rejecting(a.id, a.upload.privateObjectKey, PROMOTION_REPLAY_REJECTED))
    case Verified(a) => Some(Rejecting(a.id, a.upload.privateObjectKey, PROMOTION_REPLAY_REJECTED))
    case ZipStored(a) => Some(Rejecting(a.id, a.upload.privateObjectKey, PROMOTION_REPLAY_REJECTED))
    case ChainStored(a) => Some(Rejecting(a.id, a.upload.privateObjectKey, PROMOTION_REPLAY_REJECTED))
    case Releasing(id, key, true) => Some(Rejecting(id, key, PROMOTION_REPLAY_REJECTED))
    case _ => None
  }

  // ---------------------------------------------------------------- one step

  /** Whatever lies under a row's key is what the row was staged with: it prepares, and matches. */
  lemma {:induction false} StagedBytesPrepare(rt: Runtime, h: Hub, id: nat, u: Uploads.Upload)
    requires Laws(rt) && RowsStand(rt, h) && KeysMatchBytes(rt, h)
    requires id < |h.uploads| && SameIdentity(u, h.uploads[id]) && u.privateObjectKey in h.vault
    ensures h.vault[u.privateObjectKey] == h.contents[id]
    ensures PrepareUpload(rt.env, h.vault[u.privateObjectKey]).Ok?
    ensures MatchesRow(PrepareUpload(rt.env, h.vault[u.privateObjectKey]).value, u)
  {
    hide PrepareUpload, ZipLaws, KeepsZip;
    assert RowStands(rt, h.uploads[id], h.contents[id]);
    UploadKeyIsInjective(rt.env.sha256(h.vault[u.privateObjectKey]), u.uploadDigest);
  }

  /** A task turns to rejecting exactly when it has one of the causes; its code is then decided. */
  lemma {:induction false} RejectsExactlyWhen(rt: Runtime, h: Hub, task: Task, fails: bool, order: seq<string>,
          now: int)
    requires Laws(rt) && RowsStand(rt, h) && KeysMatchBytes(rt, h) && TaskStands(rt, h, task)
    ensures var next := Advance(rt, h, task, fails, order, now).next;
      && (next.Some? && next.value.Rejecting? <==> GivesUp(rt, h, task, fails, now))
      && (next.Some? && next.value.Rejecting? ==> next == Rejection(task))
  {
    hide PrepareUpload, Laws, KeysMatchBytes, RowsStand, PutPackage, PutChain, ZipIn, ChainIn, Execute, Insert,
      Publishable, UpsertRecord, HasPending, IsReferenced, HasOnlyMissingAnchorEvidence, PassesVerification,
      IsStrictSuccessor, HasAvailable, HasPendingSubject, RecordOf, RecordIdFor, JudgedStands, MatchesRow;
    if task.Claimed? && task.upload.privateObjectKey in h.vault {
      StagedBytesPrepare(rt, h, task.id, task.upload);
    }
  }

  // ---------------------------------------------------------------- every run

  /** Step k of the run is where task t gave up, for a cause it had at that moment. */
  ghost predicate GaveUpAt(rt: Runtime, run: seq<Timed>, k: nat, t: nat, rejection: Task) {
    && k < |run|
    && var h, s := AfterRun(rt, run[..k]), run[k].step;
      && s.Resume? && s.task == t && t in h.tasks
      && GivesUp(rt, h, h.tasks[t], s.fails, run[k].now)
      && Rejection(h.tasks[t]) == Some(rejection)
  }

  lemma {:induction false} EarlierGivingUp(rt: Runtime, run: seq<Timed>, k: nat, t: nat, rejection: Task)
    requires run != [] && GaveUpAt(rt, run[..|run| - 1], k, t, rejection)
    ensures GaveUpAt(rt, run, k, t, rejection)
  {
    hide AfterRun, GivesUp;
    assert run[..|run| - 1][..k] == run[..k];
  }

  /** Steps that resume another task, or none, leave a rejecting task as it is and start none. */
  lemma {:induction false} OthersStartNoRejection(rt: Runtime, h: Hub, s: Step, now: int, t: nat)
    requires t in Promotion.Take(rt, h, s, now).tasks && Promotion.Take(rt, h, s, now).tasks[t].Rejecting?
    requires !(s.Resume? && s.task == t)
    ensures t in h.tasks && h.tasks[t] == Promotion.Take(rt, h, s, now).tasks[t]
  {
    hide Advance, Execute, Claims;
    if s.Resume? && s.task in h.tasks {
      Driving.AdvanceIgnoresTasks(rt, h, h.tasks, h.tasks[s.task], s.fails, s.order, now);
    }
  }

  /** In every run, every task that is rejecting its upload gave it up at some step of that run, for a
      cause it had at that step. The staged bytes are never that cause: the code for a mismatch does
      not occur, and the code for an invalid upload goes back to a throw or to a missing object. */
  lemma {:induction false} EveryRejectionHasACause(rt: Runtime, run: seq<Timed>, t: nat)
    requires Laws(rt) && t in AfterRun(rt, run).tasks && AfterRun(rt, run).tasks[t].Rejecting?
    ensures exists k :: GaveUpAt(rt, run, k, t, AfterRun(rt, run).tasks[t])
    ensures AfterRun(rt, run).tasks[t].code != STAGED_UPLOAD_IDENTITY_MISMATCH
  {
    hide Laws, GivesUp, Promotion.Take, KeysMatchBytes;
    var n := |run| - 1;
    var before, last := run[..n], run[n];
    var h, rejection := AfterRun(rt, before), AfterRun(rt, run).tasks[t];
    if last.step.Resume? && last.step.task == t {
      BaseHolds(rt, before);
      OwnershipHolds(rt, before);
      ResumedTask(rt, h, last.step, last.now);
      assert TaskStands(rt, h, h.tasks[t]);
      RejectsExactlyWhen(rt, h, h.tasks[t], last.step.fails, last.step.order, last.now);
      assert GaveUpAt(rt, run, n, t, rejection);
    } else {
      OthersStartNoRejection(rt, h, last.step, last.now, t);
      EveryRejectionHasACause(rt, before, t);
      var k :| GaveUpAt(rt, before, k, t, rejection);
      EarlierGivingUp(rt, run, k, t, rejection);
    }
  }

  lemma {:induction false} ResumedTask(rt: Runtime, h: Hub, s: Step, now: int)
    requires s.Resume? && s.task in Promotion.Take(rt, h, s, now).tasks
    ensures s.task in h.tasks
    ensures Advance(rt, h, h.tasks[s.task], s.fails, s.order, now).next ==
      Some(Promotion.Take(rt, h, s, now).tasks[s.task])
  {
    hide Advance;
  }

  // ---------------------------------------------------------------- rows that end rejected

  /** A row that leaves promoting for rejected does so for a cause that is spelled out: a throw, a
      missing object, a replay that is unverified or stale and not for missing anchors alone, or a row
      that was due or had been taken from its promoter. It is never a published one. */
  ghost predicate RejectedFor(rt: Runtime, run: seq<Timed>, k: nat, t: nat, id: nat, code: string) {
    && k < |run| && run[k].step.Resume? && run[k].step.task == t && t in AfterRun(rt, run[..k]).tasks
    && var h, fails := AfterRun(rt, run[..k]), run[k].step.fails;
      match h.tasks[t]
      case Claimed(i, u) =>
        i == id && code == STAGED_UPLOAD_INVALID
          && (fails || (u.privateObjectKey !in h.vault && !ExclusiveRun(rt, run)))
      case Rebuilt(i, _, p) =>
        var r := rt.replay(p.cid, p.eventChainBuffer, p.packageContent, h.evidence);
        && i == id && code == PROMOTION_REPLAY_REJECTED
        && (fails || r.None? || Unconvincing(r.value))
      case Deferring(a) => a.id == id && code == PROMOTION_REPLAY_REJECTED && fails
      case Verified(a) => a.id == id && code == PROMOTION_REPLAY_REJECTED && fails
      case ZipStored(a) => a.id == id && code == PROMOTION_REPLAY_REJECTED && fails
      case ChainStored(a) =>
        && a.id == id && code == PROMOTION_REPLAY_REJECTED && id < |h.uploads|
        && (fails || h.uploads[id].status != Promoting || h.uploads[id].expiresAt <= run[k].now)
      case _ => false
  }

  /** Stale, or unverified although it asks for no anchor or one it asks for was indexed. */
  predicate Unconvincing(r: ReplayState) {
    if r.verified then r.stale else |r.anchors| == 0 || exists k :: k in r.anchors && r.anchors[k] != ""
  }

  /** The table only evolves along a run. */
  lemma {:induction false} UploadsEvolve(rt: Runtime, run: seq<Timed>, k: nat)
    requires Laws(rt) && k <= |run|
    ensures Evolves(AfterRun(rt, run[..k]).uploads, AfterRun(rt, run).uploads)
  {
    hide Laws, Promotion.Take, Evolves;
    if k == |run| {
      assert run[..k] == run;
      EvolvesIsReflexive(AfterRun(rt, run).uploads);
    } else {
      var before, last := run[..|run| - 1], run[|run| - 1];
      UploadsEvolve(rt, before, k);
      assert before[..k] == run[..k];
      BaseHolds(rt, before);
      TakeKeepsBase(rt, AfterRun(rt, before), last.step, last.now);
      EvolvesIsTransitive(AfterRun(rt, run[..k]).uploads, AfterRun(rt, before).uploads, AfterRun(rt, run).uploads);
    }
  }

  lemma {:induction false} GivingUpIsACause(rt: Runtime, run: seq<Timed>, k: nat, t: nat, id: nat, key: string,
          code: string)
    requires Laws(rt) && GaveUpAt(rt, run, k, t, Rejecting(id, key, code))
    requires id < |AfterRun(rt, run).uploads| && Active(AfterRun(rt, run).uploads[id])
    ensures RejectedFor(rt, run, k, t, id, code)
  {
    hide Laws, AfterRun, StagedAs, ZipIn, ChainIn, ExclusiveRun, RowsStand, PrepareUpload, IsStrictSuccessor,
      SameIdentity;
    var h := AfterRun(rt, run[..k]);
    UploadsEvolve(rt, run, k);
    BaseHolds(rt, run[..k]);
    assert TaskStands(rt, h, h.tasks[t]);
    assert id < |h.uploads| && Active(h.uploads[id]);
    if h.tasks[t].Claimed? && ExclusiveRun(rt, run) { ClaimedObjectIsThere(rt, run, k, id, h.tasks[t].upload); }
  }

  lemma {:induction false} ClaimedObjectIsThere(rt: Runtime, run: seq<Timed>, k: nat, id: nat, u: Uploads.Upload)
    requires Laws(rt) && k <= |run| && ExclusiveRun(rt, run)
    requires var h := AfterRun(rt, run[..k]);
      id < |h.uploads| && Active(h.uploads[id]) && SameIdentity(u, h.uploads[id])
    ensures u.privateObjectKey in AfterRun(rt, run[..k]).vault
  {
    hide Laws, AfterRun, Exclusive;
    forall j | 0 <= j < k ensures Exclusive(AfterRun(rt, run[..k][..j])) {
      assert run[..k][..j] == run[..j];
    }
    OwnershipHolds(rt, run[..k]);
  }

  /** A task may outlive its row's time in quarantine, and only then can it miss the object: under the
      exclusion, bytes are called invalid because something threw or because the row was already done. */
  lemma {:induction false} OnlyDoneRowsMissTheirObject(rt: Runtime, run: seq<Timed>, k: nat, t: nat, id: nat,
          key: string)
    requires Laws(rt) && ExclusiveRun(rt, run) && GaveUpAt(rt, run, k, t, Rejecting(id, key, STAGED_UPLOAD_INVALID))
    ensures var h := AfterRun(rt, run[..k]);
      id < |h.uploads| && (run[k].step.fails || !Active(h.uploads[id]))
  {
    hide Laws, AfterRun, ExclusiveRun, RowsStand, SameIdentity, StagedAs, PrepareUpload;
    var h := AfterRun(rt, run[..k]);
    BaseHolds(rt, run[..k]);
    assert TaskStands(rt, h, h.tasks[t]);
    assert h.tasks[t].Claimed?;
    if Active(h.uploads[id]) { ClaimedObjectIsThere(rt, run, k, id, h.tasks[t].upload); }
  }

  /** In any run, a row that goes from promoting to rejected does so for one of these causes. While
      store-then-insert and check-then-remove never interleave on one key, a missing object is not
      among them, so that the code for an invalid upload always goes back to something that threw. */
  lemma {:induction false} RejectedForACause(rt: Runtime, run: seq<Timed>, s: Step, now: int, id: nat)
    requires Laws(rt) && id < |AfterRun(rt, run).uploads| && AfterRun(rt, run).uploads[id].status == Promoting
    requires var after := Promotion.Take(rt, AfterRun(rt, run), s, now).uploads;
      id < |after| && after[id].status == Rejected
    ensures var h := AfterRun(rt, run);
      && s.Resume? && s.task in h.tasks && h.tasks[s.task].Rejecting? && h.tasks[s.task].id == id
      && exists k :: RejectedFor(rt, run, k, s.task, id, h.tasks[s.task].code)
  {
    hide Laws, AfterRun, Promotion.Take, GaveUpAt, RejectedFor;
    PromotionEndsAsItShould(rt, run, s, now, id);
    var task := AfterRun(rt, run).tasks[s.task];
    EveryRejectionHasACause(rt, run, s.task);
    var k :| GaveUpAt(rt, run, k, s.task, task);
    GivingUpIsACause(rt, run, k, s.task, id, task.key, task.code);
  }
}
