/** A promotion run to its end with nothing in between: what it leaves behind, and exactly when it
    publishes, defers or refuses. */
module Driving {
  import opened Basics
  import opened Bundles
  import opened Storage
  import opened Uploads
  import opened Promotion
  import Quarantine
  import Ownership

  /** Which statements throw. A promotion issues each at most once. */
  type Faults = Task -> bool

  /** How far a task still is from its end. */
  function Rank(task: Task): nat {
    match task
    case Received(_) => 16
    case Checking(_, _) => 15
    case Replaying(_, _) => 14
    case Staging(_, _) => 13
    case Storing(_, _) => 12
    case Stored(_, _) => 11
    case Undoing(_) => 10
    case Unmatched(_) => 9
    case Discarding(_) => 8
    case Claimed(_, _) => 10
    case Rebuilt(_, _, _) => 9
    case Deferring(_) => 8
    case Verified(_) => 8
    case ZipStored(_) => 7
    case ChainStored(_) => 6
    case Releasing(_, _, after) => if after then 5 else 3
    case Rejecting(_, _, _) => 4
    case Removing(_, _) => 2
    case Marking(_, _) => 1
  }

  lemma {:induction false} TasksEnd(rt: Runtime, h: Hub, task: Task, fails: bool, order: seq<string>, now: int)
    ensures var m := Advance(rt, h, task, fails, order, now);
      m.next.Some? ==> Rank(m.next.value) < Rank(task)
  {
    hide PrepareUpload, Execute, Insert, PutPackage, PutChain, UpsertRecord, HasPending, IsReferenced,
      IsStrictSuccessor, HasAvailable, HasPendingSubject, RecordOf, RecordIdFor, Publishable,
      HasOnlyMissingAnchorEvidence, PassesVerification;
  }

  /** A task run to its end with nothing in between. */
  function Drive(rt: Runtime, h: Hub, task: Task, faults: Faults, order: seq<string>, now: int): Hub
    decreases Rank(task)
  {
    TasksEnd(rt, h, task, faults(task), order, now);
    var m := Advance(rt, h, task, faults(task), order, now);
    if m.next.None? then m.hub else Drive(rt, m.hub, m.next.value, faults, order, now)
  }

  lemma {:induction false} Driven(rt: Runtime, h: Hub, task: Task, faults: Faults, order: seq<string>, now: int,
          after: Hub, next: Option<Task>)
    requires Advance(rt, h, task, faults(task), order, now) == Move(after, next)
    ensures Drive(rt, h, task, faults, order, now) == if next.None? then after
      else Drive(rt, after, next.value, faults, order, now)
  {
    hide Advance;
  }

  // ---------------------------------------------------------------- an uninterrupted run is a run

  /** The resume steps of a task that runs to its end. */
  function Resumes(rt: Runtime, h: Hub, t: nat, task: Task, faults: Faults, order: seq<string>, now: int): seq<Timed>
    decreases Rank(task)
  {
    TasksEnd(rt, h, task, faults(task), order, now);
    var m := Advance(rt, h, task, faults(task), order, now);
    [Timed(Resume(t, faults(task), order), now)] +
    if m.next.None? then [] else Resumes(rt, m.hub, t, m.next.value, faults, order, now)
  }

  function TakeAll(rt: Runtime, h: Hub, run: seq<Timed>): Hub
    decreases |run|
  {
    if run == [] then h else TakeAll(rt, Promotion.Take(rt, h, run[0].step, run[0].now), run[1..])
  }

  predicate OfUpload(task: Task) {
    task.Received? || task.Checking? || task.Replaying? || task.Staging? || task.Storing? || task.Stored?
      || task.Undoing?
    || task.Unmatched? || task.Discarding?
  }

  lemma {:induction false} UploadIgnoresTasks(rt: Runtime, h: Hub, tasks: map<nat, Task>, task: Task, fails: bool,
          order: seq<string>, now: int)
    requires OfUpload(task)
    ensures var m := Advance(rt, h, task, fails, order, now);
      && Advance(rt, h.(tasks := tasks), task, fails, order, now) == Move(m.hub.(tasks := tasks), m.next)
      && m.hub.tasks == h.tasks
  {
    hide PrepareUpload, Execute, Insert, PutPackage, PutChain, UpsertRecord, HasPending, IsReferenced,
      IsStrictSuccessor, HasAvailable, HasPendingSubject, RecordOf, RecordIdFor, Publishable,
      HasOnlyMissingAnchorEvidence, PassesVerification, Ownership.Assign, MatchesRow;
  }

  lemma {:induction false} PromotionIgnoresTasks(rt: Runtime, h: Hub, tasks: map<nat, Task>, task: Task, fails: bool,
          order: seq<string>, now: int)
    requires !OfUpload(task)
    ensures var m := Advance(rt, h, task, fails, order, now);
      && Advance(rt, h.(tasks := tasks), task, fails, order, now) == Move(m.hub.(tasks := tasks), m.next)
      && m.hub.tasks == h.tasks
  {
    hide PrepareUpload, Execute, Insert, PutPackage, PutChain, UpsertRecord, HasPending, IsReferenced,
      IsStrictSuccessor, HasAvailable, HasPendingSubject, RecordOf, RecordIdFor, Publishable,
      HasOnlyMissingAnchorEvidence, PassesVerification, Ownership.Assign, MatchesRow;
  }

  lemma {:induction false} AdvanceIgnoresTasks(rt: Runtime, h: Hub, tasks: map<nat, Task>, task: Task, fails: bool,
          order: seq<string>, now: int)
    ensures var m := Advance(rt, h, task, fails, order, now);
      && Advance(rt, h.(tasks := tasks), task, fails, order, now) == Move(m.hub.(tasks := tasks), m.next)
      && m.hub.tasks == h.tasks
  {
    hide Advance;
    if OfUpload(task) {
      UploadIgnoresTasks(rt, h, tasks, task, fails, order, now);
    } else {
      PromotionIgnoresTasks(rt, h, tasks, task, fails, order, now);
    }
  }

  /** What the service does without interruption is one possible stretch of the protocol machine, beside
      any other tasks that stand still; so everything proved of all interleavings holds of it. */
  lemma {:induction false} DrivingIsAStretchOfSteps(rt: Runtime, h: Hub, t: nat, task: Task, faults: Faults,
          order: seq<string>, now: int)
    requires t !in h.tasks
    ensures TakeAll(rt, h.(tasks := h.tasks[t := task]), Resumes(rt, h, t, task, faults, order, now)) ==
      Drive(rt, h, task, faults, order, now)
    decreases Rank(task)
  {
    hide Advance;
    var m := Advance(rt, h, task, faults(task), order, now);
    var begun := h.(tasks := h.tasks[t := task]);
    var run := Resumes(rt, h, t, task, faults, order, now);
    AdvanceIgnoresTasks(rt, h, begun.tasks, task, faults(task), order, now);
    TasksEnd(rt, h, task, faults(task), order, now);
    var next := Promotion.Take(rt, begun, Resume(t, faults(task), order), now);
    assert run[0] == Timed(Resume(t, faults(task), order), now);
    if m.next.None? {
      assert run[1..] == [];
      assert begun.tasks - {t} == h.tasks;
      assert next == m.hub;
    } else {
      assert run[1..] == Resumes(rt, m.hub, t, m.next.value, faults, order, now);
      assert begun.tasks[t := m.next.value] == h.tasks[t := m.next.value];
      assert next == m.hub.(tasks := m.hub.tasks[t := m.next.value]);
      DrivingIsAStretchOfSteps(rt, m.hub, t, m.next.value, faults, order, now);
    }
  }

  // ---------------------------------------------------------------- its parts

  lemma {:induction false} RemovalDrives(rt: Runtime, h: Hub, id: nat, key: string, faults: Faults, order: seq<string>,
          now: int)
    ensures Drive(rt, h, Removing(id, key), faults, order, now) ==
      if faults(Removing(id, key)) then h
      else
        var removed := h.(vault := h.vault - {key});
        if faults(Marking(id, key)) then removed else removed.(uploads := Quarantine.Mark(h.uploads, id))
  {
    hide Drive, IsReferenced, PrepareUpload;
    if faults(Removing(id, key)) {
      Driven(rt, h, Removing(id, key), faults, order, now, h, None);
    } else {
      var removed := h.(vault := h.vault - {key});
      var marked := if faults(Marking(id, key)) then removed else removed.(uploads := Quarantine.Mark(h.uploads, id));
      Driven(rt, h, Removing(id, key), faults, order, now, removed, Some(Marking(id, key)));
      Driven(rt, removed, Marking(id, key), faults, order, now, marked, None);
    }
  }

  /** The quarantine service's clean-up of one object is what a releasing task does. */
  lemma {:induction false} CleanupDrives(rt: Runtime, h: Hub, id: nat, key: string, afterPublication: bool,
          faults: Faults, order: seq<string>, now: int)
    requires !faults(Releasing(id, key, afterPublication))
    ensures var fault := if faults(Removing(id, key)) then Quarantine.RemovalFails
                         else if faults(Marking(id, key)) then Quarantine.MarkingFails else Quarantine.NoFault;
      var after := Quarantine.CleanupOne(Quarantine.Store(h.uploads, h.vault), id, key, fault);
      Drive(rt, h, Releasing(id, key, afterPublication), faults, order, now) ==
        h.(uploads := after.rows, vault := after.objects)
  {
    hide Drive, IsReferenced, PrepareUpload, Quarantine.Mark;
    if IsReferenced(h.uploads, key) {
      Driven(rt, h, Releasing(id, key, afterPublication), faults, order, now, h, None);
    } else {
      Driven(rt, h, Releasing(id, key, afterPublication), faults, order, now, h, Some(Removing(id, key)));
      RemovalDrives(rt, h, id, key, faults, order, now);
    }
  }

  function Refuse(a: Judged): Task {
    Rejecting(a.id, a.upload.privateObjectKey, PROMOTION_REPLAY_REJECTED)
  }

  lemma {:induction false} ZipDrives(rt: Runtime, h: Hub, a: Judged, faults: Faults, order: seq<string>, now: int)
    ensures Drive(rt, h, Verified(a), faults, order, now) ==
      if faults(Verified(a)) then Drive(rt, h, Refuse(a), faults, order, now)
      else Drive(rt,
        h.(archive := PutPackage(h.archive, a.prepared.cid, a.prepared.packageContent, a.prepared.packageFiles, order)),
                 ZipStored(a), faults, order, now)
  {
    hide PutPackage;
  }

  lemma {:induction false} ChainDrives(rt: Runtime, h: Hub, a: Judged, faults: Faults, order: seq<string>, now: int)
    ensures Drive(rt, h, ZipStored(a), faults, order, now) ==
      if faults(ZipStored(a)) then Drive(rt, h, Refuse(a), faults, order, now)
      else Drive(rt,
        h.(archive := PutChain(h.archive, a.prepared.ownableId, a.prepared.eventChainDigest,
          a.prepared.eventChainBuffer)),
                 ChainStored(a), faults, order, now)
  {
    hide PutChain;
  }

  lemma {:induction false} PublicationDrives(rt: Runtime, h: Hub, a: Judged, faults: Faults, order: seq<string>,
          now: int)
    ensures Drive(rt, h, ChainStored(a), faults, order, now) ==
      if faults(ChainStored(a)) || !Publishable(h.uploads, a.id, now) then Drive(rt, h, Refuse(a), faults, order, now)
      else Drive(rt, PublishTransaction(rt, h, a, now), Releasing(a.id, a.upload.privateObjectKey, true), faults, order,
        now)
  {
    hide PublishTransaction;
  }

  lemma {:induction false} RejectionDrives(rt: Runtime, h: Hub, id: nat, key: string, code: string, faults: Faults,
          order: seq<string>, now: int)
    requires !faults(Rejecting(id, key, code))
    ensures Drive(rt, h, Rejecting(id, key, code), faults, order, now) ==
      Drive(rt, h.(uploads := Execute(rt.limits, h.uploads, Reject(id, code), now)), Releasing(id, key, false), faults,
        order, now)
  {
    hide Execute;
  }

  lemma {:induction false} DeferralDrives(rt: Runtime, h: Hub, a: Judged, faults: Faults, order: seq<string>, now: int)
    ensures Drive(rt, h, Deferring(a), faults, order, now) ==
      if faults(Deferring(a)) then Drive(rt, h, Refuse(a), faults, order, now)
      else h.(uploads := Execute(rt.limits, h.uploads, Restore(a.id, Some(MISSING_INDEXED_EVIDENCE)), now))
  {
    hide Execute;
  }

  // ---------------------------------------------------------------- what decides the outcome

  /** The staged object is there, and its bytes prepare to the identity of the row. */
  predicate Reloads(rt: Runtime, h: Hub, u: Uploads.Upload) {
    && u.privateObjectKey in h.vault
    && PrepareUpload(rt.env, h.vault[u.privateObjectKey]).Ok?
    && var p := PrepareUpload(rt.env, h.vault[u.privateObjectKey]).value;
      p.ownableId == u.ownableId && p.uploadDigest == u.uploadDigest && p.cid == u.packageCid
      && p.subjectId == u.subjectId
  }

  function Reloaded(rt: Runtime, h: Hub, u: Uploads.Upload): Prepared
    requires Reloads(rt, h, u)
  {
    PrepareUpload(rt.env, h.vault[u.privateObjectKey]).value
  }

  function ReplayNow(rt: Runtime, h: Hub, p: Prepared): Option<ReplayState> {
    rt.replay(p.cid, p.eventChainBuffer, p.packageContent, h.evidence)
  }

  /** The promotion gets as far as a judged replay. */
  predicate Judges(rt: Runtime, h: Hub, id: nat, u: Uploads.Upload, faults: Faults) {
    && !faults(Claimed(id, u)) && Reloads(rt, h, u)
    && !faults(Rebuilt(id, u, Reloaded(rt, h, u))) && ReplayNow(rt, h, Reloaded(rt, h, u)).Some?
  }

  function JudgedOf(rt: Runtime, h: Hub, id: nat, u: Uploads.Upload, faults: Faults): Judged
    requires Judges(rt, h, id, u, faults)
  {
    Judged(id, u, Reloaded(rt, h, u), ReplayNow(rt, h, Reloaded(rt, h, u)).value, h.evidence)
  }

  /** The promotion publishes: its replay is verified and fresh, nothing throws, the row may be published. */
  predicate Publishes(rt: Runtime, h: Hub, id: nat, u: Uploads.Upload, faults: Faults, now: int) {
    && Judges(rt, h, id, u, faults)
    && var a := JudgedOf(rt, h, id, u, faults);
      && a.replay.verified && !a.replay.stale
      && !faults(Verified(a)) && !faults(ZipStored(a)) && !faults(ChainStored(a))
      && id < |h.uploads| && h.uploads[id].status == Promoting && h.uploads[id].expiresAt > now
  }

  /** It does so without its clean-up undoing the result. */
  predicate EndsPublished(rt: Runtime, h: Hub, id: nat, u: Uploads.Upload, faults: Faults, now: int) {
    Publishes(rt, h, id, u, faults, now) && !faults(Releasing(id, u.privateObjectKey, true))
  }

  predicate EndsDeferred(rt: Runtime, h: Hub, id: nat, u: Uploads.Upload, faults: Faults) {
    && Judges(rt, h, id, u, faults)
    && HasOnlyMissingAnchorEvidence(JudgedOf(rt, h, id, u, faults).replay)
    && !faults(Deferring(JudgedOf(rt, h, id, u, faults)))
  }

  /** The archive once zip, assets and chain of a judged upload are stored. */
  function Archived(h: Hub, a: Judged, order: seq<string>): Hub {
    h.(archive := PutChain(
         PutPackage(h.archive, a.prepared.cid, a.prepared.packageContent, a.prepared.packageFiles, order),
         a.prepared.ownableId, a.prepared.eventChainDigest, a.prepared.eventChainBuffer))
  }

  function CleanupFault(id: nat, key: string, faults: Faults): Quarantine.Fault {
    if faults(Removing(id, key)) then Quarantine.RemovalFails
    else if faults(Marking(id, key)) then Quarantine.MarkingFails else Quarantine.NoFault
  }

  function Cleaned(h: Hub, id: nat, key: string, faults: Faults): Hub {
    var after := Quarantine.CleanupOne(Quarantine.Store(h.uploads, h.vault), id, key, CleanupFault(id, key, faults));
    h.(uploads := after.rows, vault := after.objects)
  }

  lemma {:induction false} ClaimDrives(rt: Runtime, h: Hub, id: nat, u: Uploads.Upload, faults: Faults,
          order: seq<string>, now: int)
    ensures Drive(rt, h, Claimed(id, u), faults, order, now) ==
      if !faults(Claimed(id, u)) && Reloads(rt, h, u) then
        Drive(rt, h, Rebuilt(id, u, Reloaded(rt, h, u)), faults, order, now)
      else Drive(rt, h, Rejecting(id, u.privateObjectKey, ReloadCode(rt, h, id, u, faults)), faults, order, now)
  {
    hide PrepareUpload;
  }

  function ReloadCode(rt: Runtime, h: Hub, id: nat, u: Uploads.Upload, faults: Faults): string {
    var key := u.privateObjectKey;
    if faults(Claimed(id, u)) || key !in h.vault || PrepareUpload(rt.env, h.vault[key]).Err? then STAGED_UPLOAD_INVALID
    else STAGED_UPLOAD_IDENTITY_MISMATCH
  }

  lemma {:induction false} ReplayDrives(rt: Runtime, h: Hub, id: nat, u: Uploads.Upload, p: Prepared, faults: Faults,
          order: seq<string>, now: int)
    ensures Drive(rt, h, Rebuilt(id, u, p), faults, order, now) ==
      var r := ReplayNow(rt, h, p);
      var a := if r.Some? then Judged(id, u, p, r.value, h.evidence) else Judged(id, u, p, NO_REPLAY, h.evidence);
      if faults(Rebuilt(id, u, p)) || r.None? then Drive(rt, h, Refuse(a), faults, order, now)
      else if HasOnlyMissingAnchorEvidence(r.value) then Drive(rt, h, Deferring(a), faults, order, now)
      else if PassesVerification(r.value) then Drive(rt, h, Verified(a), faults, order, now)
      else Drive(rt, h, Refuse(a), faults, order, now)
  {
    hide HasOnlyMissingAnchorEvidence, PassesVerification;
  }

  const NO_REPLAY := ReplayState(false, map[], false, "", None, None)

  lemma {:induction false} VerifiedDrives(rt: Runtime, h: Hub, a: Judged, faults: Faults, order: seq<string>, now: int)
    ensures Drive(rt, h, Verified(a), faults, order, now) ==
      if faults(Verified(a)) then Drive(rt, h, Refuse(a), faults, order, now)
      else if faults(ZipStored(a)) then
        Drive(rt,
          h.(archive := PutPackage(h.archive, a.prepared.cid, a.prepared.packageContent, a.prepared.packageFiles,
            order)),
              Refuse(a), faults, order, now)
      else if faults(ChainStored(a)) || !Publishable(h.uploads, a.id, now) then
        Drive(rt, Archived(h, a, order), Refuse(a), faults, order, now)
      else
        Drive(rt, PublishTransaction(rt, Archived(h, a, order), a, now),
              Releasing(a.id, a.upload.privateObjectKey, true), faults, order, now)
  {
    hide Drive, PutPackage, PutChain, PublishTransaction, Publishable;
    ZipDrives(rt, h, a, faults, order, now);
    var zipped :=
      h.(archive := PutPackage(h.archive, a.prepared.cid, a.prepared.packageContent, a.prepared.packageFiles, order));
    ChainDrives(rt, zipped, a, faults, order, now);
    PublicationDrives(rt, Archived(h, a, order), a, faults, order, now);
  }

  // ---------------------------------------------------------------- the three ends

  /** What a promotion that publishes leaves behind. */
  lemma {:induction false} PublishedDrives(rt: Runtime, h: Hub, id: nat, u: Uploads.Upload, faults: Faults,
          order: seq<string>, now: int)
    requires EndsPublished(rt, h, id, u, faults, now)
    ensures var a := JudgedOf(rt, h, id, u, faults);
      Drive(rt, h, Claimed(id, u), faults, order, now) ==
        Cleaned(PublishTransaction(rt, Archived(h, a, order), a, now), id, u.privateObjectKey, faults)
  {
    hide Drive, PublishTransaction, PrepareUpload, Archived;
    var a := JudgedOf(rt, h, id, u, faults);
    ClaimDrives(rt, h, id, u, faults, order, now);
    ReplayDrives(rt, h, id, u, a.prepared, faults, order, now);
    VerifiedDrives(rt, h, a, faults, order, now);
    CleanupDrives(rt, PublishTransaction(rt, Archived(h, a, order), a, now), id, u.privateObjectKey, true, faults,
      order, now);
  }

  lemma {:induction false} DeferredDrives(rt: Runtime, h: Hub, id: nat, u: Uploads.Upload, faults: Faults,
          order: seq<string>, now: int)
    requires EndsDeferred(rt, h, id, u, faults)
    ensures Drive(rt, h, Claimed(id, u), faults, order, now) ==
      h.(uploads := Execute(rt.limits, h.uploads, Restore(id, Some(MISSING_INDEXED_EVIDENCE)), now))
  {
    hide Drive, PrepareUpload, Execute;
    var a := JudgedOf(rt, h, id, u, faults);
    ClaimDrives(rt, h, id, u, faults, order, now);
    ReplayDrives(rt, h, id, u, a.prepared, faults, order, now);
    DeferralDrives(rt, h, a, faults, order, now);
  }

  /** Rejections go through, whatever their code. */
  predicate RejectionsGoThrough(id: nat, key: string, faults: Faults) {
    && !faults(Rejecting(id, key, STAGED_UPLOAD_INVALID))
    && !faults(Rejecting(id, key, STAGED_UPLOAD_IDENTITY_MISMATCH))
    && !faults(Rejecting(id, key, PROMOTION_REPLAY_REJECTED))
  }

  predicate HasStatus(h: Hub, id: nat, status: Status) {
    id < |h.uploads| && h.uploads[id].status == status
  }

  lemma {:induction false} CleaningKeepsStatus(h: Hub, id: nat, key: string, faults: Faults, row: nat, status: Status)
    requires HasStatus(h, row, status)
    ensures HasStatus(Cleaned(h, id, key, faults), row, status) && Cleaned(h, id, key, faults).log == h.log
  {
  }

  lemma {:induction false} RejectingEndsRejected(rt: Runtime, h: Hub, id: nat, key: string, code: string,
          faults: Faults, order: seq<string>, now: int)
    requires id < |h.uploads| && !faults(Rejecting(id, key, code))
    ensures var after := Drive(rt, h, Rejecting(id, key, code), faults, order, now);
      HasStatus(after, id, Rejected) && after.log == h.log
  {
    hide Drive, Cleaned, Execute;
    RejectionDrives(rt, h, id, key, code, faults, order, now);
    var rejected := h.(uploads := Execute(rt.limits, h.uploads, Reject(id, code), now));
    RejectSetsStatus(rt.limits, h.uploads, id, code, now);
    if faults(Releasing(id, key, false)) {
      ReleasingThrows(rt, rejected, id, key, faults, order, now);
    } else {
      CleanupDrives(rt, rejected, id, key, false, faults, order, now);
      CleaningKeepsStatus(rejected, id, key, faults, id, Rejected);
      CleanedIsCleanup(rejected, id, key, faults);
    }
  }

  lemma {:induction false} CleanedIsCleanup(h: Hub, id: nat, key: string, faults: Faults)
    ensures var after :=
      Quarantine.CleanupOne(Quarantine.Store(h.uploads, h.vault), id, key, CleanupFault(id, key, faults));
      Cleaned(h, id, key, faults) == h.(uploads := after.rows, vault := after.objects)
  {
  }

  lemma {:induction false} RejectSetsStatus(limits: Limits, rows: Table, id: nat, code: string, now: int)
    requires id < |rows|
    ensures id < |Execute(limits, rows, Reject(id, code), now)|
      && Execute(limits, rows, Reject(id, code), now)[id].status == Rejected
  {
  }

  lemma {:induction false} ReleasingThrows(rt: Runtime, h: Hub, id: nat, key: string, faults: Faults,
          order: seq<string>, now: int)
    requires faults(Releasing(id, key, false))
    ensures Drive(rt, h, Releasing(id, key, false), faults, order, now) == h
  {
  }

  /** When the clean-up after a publication throws and the rejection that answers it does not, the row
      ends rejected although its publication is, and stays, in the log. */
  lemma {:induction false} ThrownCleanupIsRejected(rt: Runtime, h: Hub, a: Judged, faults: Faults, order: seq<string>,
          now: int)
    requires Publishable(h.uploads, a.id, now) && !faults(ChainStored(a))
    requires faults(Releasing(a.id, a.upload.privateObjectKey, true)) && !faults(Refuse(a))
    ensures var after := Drive(rt, h, ChainStored(a), faults, order, now);
      && HasStatus(after, a.id, Rejected)
      && after.log == h.log + [Publication(a.id, RecordIdFor(h.records, a.prepared), a.prepared, a.replay, a.evidence)]
  {
    hide Drive, Execute;
    PublicationDrives(rt, h, a, faults, order, now);
    var published := PublishTransaction(rt, h, a, now);
    ReleasingFallsBack(rt, published, a.id, a.upload.privateObjectKey, faults, order, now);
    PublishingKeepsRows(rt, h, a, now);
    RejectingEndsRejected(rt, published, a.id, a.upload.privateObjectKey, PROMOTION_REPLAY_REJECTED, faults, order,
      now);
  }

  lemma {:induction false} ReleasingFallsBack(rt: Runtime, h: Hub, id: nat, key: string, faults: Faults,
          order: seq<string>, now: int)
    requires faults(Releasing(id, key, true))
    ensures Drive(rt, h, Releasing(id, key, true), faults, order, now)
      == Drive(rt, h, Rejecting(id, key, PROMOTION_REPLAY_REJECTED), faults, order, now)
  {
    hide Drive;
    Driven(rt, h, Releasing(id, key, true), faults, order, now, h, Some(Rejecting(id, key, PROMOTION_REPLAY_REJECTED)));
  }

  lemma {:induction false} PublishingKeepsRows(rt: Runtime, h: Hub, a: Judged, now: int)
    requires Publishable(h.uploads, a.id, now)
    ensures HasStatus(PublishTransaction(rt, h, a, now), a.id, Available)
  {
  }

  /** Exactly how a promotion of a claimed row ends: available if and only if it publishes and its
      clean-up does not throw, with that publication logged; pending again if and only if it is
      deferred; and, its rejections going through, rejected in every other case. */
  lemma {:induction false} PromotionEnds(rt: Runtime, h: Hub, id: nat, u: Uploads.Upload, faults: Faults,
          order: seq<string>, now: int)
    requires HasStatus(h, id, Promoting) && RejectionsGoThrough(id, u.privateObjectKey, faults)
    ensures var after := Drive(rt, h, Claimed(id, u), faults, order, now);
      && id < |after.uploads|
      && after.uploads[id].status ==
           (if EndsPublished(rt, h, id, u, faults, now) then Available
            else if EndsDeferred(rt, h, id, u, faults) then Pending else Rejected)
      && after.log == h.log +
           (if Publishes(rt, h, id, u, faults, now) then [PublicationOf(h, JudgedOf(rt, h, id, u, faults))] else [])
  {
    hide Drive, PrepareUpload, Execute, Archived, Cleaned, PublishTransaction, RecordIdFor;
    var key := u.privateObjectKey;
    assert h.log + [] == h.log;
    if EndsPublished(rt, h, id, u, faults, now) {
      PublishedDrives(rt, h, id, u, faults, order, now);
      var published :=
        PublishTransaction(rt, Archived(h, JudgedOf(rt, h, id, u, faults), order), JudgedOf(rt, h, id, u, faults), now);
      TransactionLogs(rt, h, JudgedOf(rt, h, id, u, faults), order, now);
      CleaningKeepsStatus(published, id, key, faults, id, Available);
    } else if EndsDeferred(rt, h, id, u, faults) {
      DeferredDrives(rt, h, id, u, faults, order, now);
      RestoreSetsStatus(rt.limits, h.uploads, id, now);
      OnlyMissingIsNotVerified(JudgedOf(rt, h, id, u, faults).replay);
    } else {
      RefusedPromotionEnds(rt, h, id, u, faults, order, now);
    }
  }

  function PublicationOf(h: Hub, a: Judged): Publication {
    Publication(a.id, RecordIdFor(h.records, a.prepared), a.prepared, a.replay, a.evidence)
  }

  lemma {:induction false} OnlyMissingIsNotVerified(r: ReplayState)
    ensures HasOnlyMissingAnchorEvidence(r) ==> !PassesVerification(r)
  {
  }

  lemma {:induction false} RestoreSetsStatus(limits: Limits, rows: Table, id: nat, now: int)
    requires id < |rows| && rows[id].status == Promoting
    ensures var after := Execute(limits, rows, Restore(id, Some(MISSING_INDEXED_EVIDENCE)), now);
      id < |after| && after[id].status == Pending
  {
  }

  lemma {:induction false} TransactionLogs(rt: Runtime, h: Hub, a: Judged, order: seq<string>, now: int)
    requires Publishable(h.uploads, a.id, now)
    ensures var after := PublishTransaction(rt, Archived(h, a, order), a, now);
      HasStatus(after, a.id, Available) && after.log == h.log + [PublicationOf(h, a)]
  {
    hide PutPackage, PutChain;
  }

  lemma {:induction false} RefusedPromotionEnds(rt: Runtime, h: Hub, id: nat, u: Uploads.Upload, faults: Faults,
          order: seq<string>, now: int)
    requires HasStatus(h, id, Promoting) && RejectionsGoThrough(id, u.privateObjectKey, faults)
    requires !EndsPublished(rt, h, id, u, faults, now) && !EndsDeferred(rt, h, id, u, faults)
    ensures var after := Drive(rt, h, Claimed(id, u), faults, order, now);
      && HasStatus(after, id, Rejected)
      && after.log == h.log +
           (if Publishes(rt, h, id, u, faults, now) then [PublicationOf(h, JudgedOf(rt, h, id, u, faults))] else [])
  {
    hide Drive, PrepareUpload, Execute, Archived, PublishTransaction, RecordIdFor, PutPackage;
    var key := u.privateObjectKey;
    assert h.log + [] == h.log;
    ClaimDrives(rt, h, id, u, faults, order, now);
    if !Judges(rt, h, id, u, faults) {
      if !faults(Claimed(id, u)) && Reloads(rt, h, u)
        { ReplayDrives(rt, h, id, u, Reloaded(rt, h, u), faults, order, now); }
      RejectingEndsRejected(rt, h, id, key, ReloadCode(rt, h, id, u, faults), faults, order, now);
      RejectingEndsRejected(rt, h, id, key, PROMOTION_REPLAY_REJECTED, faults, order, now);
    } else {
      var a := JudgedOf(rt, h, id, u, faults);
      OnlyMissingIsNotVerified(a.replay);
      ReplayDrives(rt, h, id, u, a.prepared, faults, order, now);
      RejectingEndsRejected(rt, h, id, key, PROMOTION_REPLAY_REJECTED, faults, order, now);
      if HasOnlyMissingAnchorEvidence(a.replay) {
        DeferralDrives(rt, h, a, faults, order, now);
      } else if PassesVerification(a.replay) {
        VerifiedPromotionEnds(rt, h, a, faults, order, now);
      }
    }
  }

  lemma {:induction false} VerifiedPromotionEnds(rt: Runtime, h: Hub, a: Judged, faults: Faults, order: seq<string>,
          now: int)
    requires a.id < |h.uploads| && !faults(Refuse(a))
    requires faults(Verified(a)) || faults(ZipStored(a)) || faults(ChainStored(a)) || !Publishable(h.uploads, a.id, now)
      || faults(Releasing(a.id, a.upload.privateObjectKey, true))
    ensures var after := Drive(rt, h, Verified(a), faults, order, now);
      && HasStatus(after, a.id, Rejected)
      && after.log == h.log +
           (if !faults(Verified(a)) && !faults(ZipStored(a)) && !faults(ChainStored(a))
             && Publishable(h.uploads, a.id, now)
            then [PublicationOf(h, a)] else [])
  {
    hide Drive, Execute, PublishTransaction, RecordIdFor, PutPackage, PutChain;
    assert h.log + [] == h.log;
    var key := a.upload.privateObjectKey;
    VerifiedDrives(rt, h, a, faults, order, now);
    var zipped :=
      h.(archive := PutPackage(h.archive, a.prepared.cid, a.prepared.packageContent, a.prepared.packageFiles, order));
    RejectingEndsRejected(rt, h, a.id, key, PROMOTION_REPLAY_REJECTED, faults, order, now);
    RejectingEndsRejected(rt, zipped, a.id, key, PROMOTION_REPLAY_REJECTED, faults, order, now);
    RejectingEndsRejected(rt, Archived(h, a, order), a.id, key, PROMOTION_REPLAY_REJECTED, faults, order, now);
    if Publishable(h.uploads, a.id, now) && faults(Releasing(a.id, key, true)) {
      var published := PublishTransaction(rt, Archived(h, a, order), a, now);
      TransactionLogs(rt, h, a, order, now);
      ReleasingFallsBack(rt, published, a.id, key, faults, order, now);
      RejectingEndsRejected(rt, published, a.id, key, PROMOTION_REPLAY_REJECTED, faults, order, now);
    }
  }

  /** In particular a refused processing lease rejects the upload, however sound it is. */
  lemma {:induction false} RefusedLeaseRejectsTheUpload(rt: Runtime, h: Hub, id: nat, u: Uploads.Upload, faults: Faults,
          order: seq<string>, now: int)
    requires HasStatus(h, id, Promoting) && RejectionsGoThrough(id, u.privateObjectKey, faults)
      && faults(Claimed(id, u))
    ensures var after := Drive(rt, h, Claimed(id, u), faults, order, now);
      HasStatus(after, id, Rejected) && after.log == h.log
  {
    hide Drive, PrepareUpload;
    PromotionEnds(rt, h, id, u, faults, order, now);
    assert h.log + [] == h.log;
  }

  // ---------------------------------------------------------------- the upload before it

  /** The upload is worth storing: it is new, prepares, succeeds what is published for its subject, is
      verified or lacks only anchors, no other upload of its subject is active, and nothing throws. */
  predicate ReachesStore(rt: Runtime, h: Hub, buffer: Bytes, faults: Faults) {
    && |buffer| <= 268435456
    && !HasPending(h.uploads, rt.env.sha256(buffer)) && !HasAvailable(h.records, rt.env.sha256(buffer))
    && PrepareUpload(rt.env, buffer).Ok?
    && var p := PrepareUpload(rt.env, buffer).value;
      && Succeeds(rt, h, p) && ReplayNow(rt, h, p).Some?
      && (HasOnlyMissingAnchorEvidence(ReplayNow(rt, h, p).value) || PassesVerification(ReplayNow(rt, h, p).value))
      && !HasPendingSubject(h.uploads, p.subjectId)
      && !faults(Received(buffer)) && !faults(Checking(buffer, p)) && !faults(Replaying(buffer, p))
      && !faults(Staging(buffer, p)) && !faults(Storing(buffer, p))
  }

  predicate Succeeds(rt: Runtime, h: Hub, p: Prepared) {
    var existing := RecordOf(h.records, p.subjectId);
    existing.Some? && existing.value < |h.records| ==>
      IsStrictSuccessor(rt.env, h.archive, h.records[existing.value], p.eventChainBuffer)
  }

  /** Its row is then inserted unless the insertion fails. */
  predicate Enters(rt: Runtime, h: Hub, buffer: Bytes, faults: Faults, now: int) {
    && ReachesStore(rt, h, buffer, faults)
    && var p := PrepareUpload(rt.env, buffer).value;
      !faults(Stored(buffer, p)) && Insert(rt.limits, h.uploads, NewUploadOf(p, buffer), now).Ok?
  }

  /** The bucket once the upload's object is in it. */
  function WithObject(h: Hub, buffer: Bytes, p: Prepared): Hub {
    var key := "quarantine/uploads/" + p.uploadDigest + ".zip";
    if key in h.vault then h else h.(vault := h.vault[key := buffer])
  }

  /** Exactly what an uninterrupted upload leaves before its promotion: object and row when it enters;
      nothing at all when it is not worth storing; and when only its insertion fails nothing but, where
      an active row refers to the same object, that object. */
  lemma {:induction false} UploadEnds(rt: Runtime, h: Hub, buffer: Bytes, faults: Faults, order: seq<string>, now: int)
    ensures var after := Drive(rt, h, Received(buffer), faults, order, now);
      if Enters(rt, h, buffer, faults, now) then
        var p := PrepareUpload(rt.env, buffer).value;
        after == WithObject(h, buffer, p).(contents := h.contents + [buffer],
          uploads := Execute(rt.limits, h.uploads, Create(NewUploadOf(p, buffer)), now))
      else if ReachesStore(rt, h, buffer, faults) then
        var p := PrepareUpload(rt.env, buffer).value;
        var stored := WithObject(h, buffer, p);
        after == if HasPending(h.uploads, p.uploadDigest) || IsReferenced(h.uploads, UploadKey(p.uploadDigest))
          then stored
          else stored.(vault := stored.vault - {UploadKey(p.uploadDigest)})
      else after == h
  {
    hide Drive, PrepareUpload, Execute, Insert, HasPending, HasAvailable, HasPendingSubject, IsReferenced,
      IsStrictSuccessor, RecordOf, HasOnlyMissingAnchorEvidence, PassesVerification, NewUploadOf;
    if PrepareUpload(rt.env, buffer).Ok? {
      PreparedPartsFitTogether(rt.env, buffer);
      CheckedEnds(rt, h, buffer, faults, order, now);
      var p := PrepareUpload(rt.env, buffer).value;
      StoredEnds(rt, WithObject(h, buffer, p), buffer, p, faults, order, now);
    }
    NextDrives(rt, h, Received(buffer), faults, order, now);
  }

  lemma {:induction false} NextDrives(rt: Runtime, h: Hub, task: Task, faults: Faults, order: seq<string>, now: int)
    ensures var m := Advance(rt, h, task, faults(task), order, now);
      Drive(rt, h, task, faults, order, now) ==
        if m.next.None? then m.hub else Drive(rt, m.hub, m.next.value, faults, order, now)
  {
    hide Advance;
  }

  lemma {:induction false} CheckedEnds(rt: Runtime, h: Hub, buffer: Bytes, faults: Faults, order: seq<string>, now: int)
    requires PrepareUpload(rt.env, buffer).Ok?
    ensures var p := PrepareUpload(rt.env, buffer).value;
      Drive(rt, h, Checking(buffer, p), faults, order, now) ==
        if !faults(Checking(buffer, p)) && Succeeds(rt, h, p) && ReplayNow(rt, h, p).Some?
          && (HasOnlyMissingAnchorEvidence(ReplayNow(rt, h, p).value) || PassesVerification(ReplayNow(rt, h, p).value))
          && !faults(Replaying(buffer, p)) && !faults(Staging(buffer, p)) && !HasPending(h.uploads, p.uploadDigest)
          && !HasPendingSubject(h.uploads, p.subjectId) && !faults(Storing(buffer, p))
        then Drive(rt, WithObject(h, buffer, p), Stored(buffer, p), faults, order, now) else h
  {
    hide Drive, PrepareUpload, Execute, Insert, HasPending, HasAvailable, HasPendingSubject, IsReferenced,
      IsStrictSuccessor, RecordOf, HasOnlyMissingAnchorEvidence, PassesVerification, NewUploadOf;
    var p := PrepareUpload(rt.env, buffer).value;
    NextDrives(rt, h, Checking(buffer, p), faults, order, now);
    NextDrives(rt, h, Replaying(buffer, p), faults, order, now);
    NextDrives(rt, h, Staging(buffer, p), faults, order, now);
    NextDrives(rt, h, Storing(buffer, p), faults, order, now);
  }

  lemma {:induction false} StoredEnds(rt: Runtime, h: Hub, buffer: Bytes, p: Prepared, faults: Faults,
          order: seq<string>, now: int)
    ensures Drive(rt, h, Stored(buffer, p), faults, order, now) ==
      if !faults(Stored(buffer, p)) && Insert(rt.limits, h.uploads, NewUploadOf(p, buffer), now).Ok? then
        h.(uploads := Execute(rt.limits, h.uploads, Create(NewUploadOf(p, buffer)), now), contents := h.contents +
          [buffer])
      else if HasPending(h.uploads, p.uploadDigest) || IsReferenced(h.uploads, UploadKey(p.uploadDigest)) then h
      else h.(vault := h.vault - {UploadKey(p.uploadDigest)})
  {
    hide Drive, Execute, Insert, HasPending, IsReferenced, NewUploadOf;
    NextDrives(rt, h, Stored(buffer, p), faults, order, now);
    NextDrives(rt, h, Undoing(p.uploadDigest), faults, order, now);
    NextDrives(rt, h, Unmatched(p.uploadDigest), faults, order, now);
    NextDrives(rt, h, Discarding(p.uploadDigest), faults, order, now);
  }
}
