/** What goes wrong when promotions, uploads and clean-ups overlap: runs that start from nothing, for
    any runtime and any uploads that are sound by themselves. */
module Overlaps {
  import opened Basics
  import opened Bundles
  import opened Storage
  import opened Uploads
  import opened Promotion
  import opened Driving
  import PromotionProofs
  import PrefixProofs
  import VaultProofs
  import Ownership

  // ---------------------------------------------------------------- reachable states

  /** No step of the run removes an object, or tries to, that an active row refers to at that moment. */
  ghost predicate NeverDropsReferenced(rt: Runtime, run: seq<Timed>) {
    forall k :: 0 <= k < |run| ==> DropsUnreferenced(AfterRun(rt, run[..k]), run[k].step)
  }

  predicate DropsUnreferenced(h: Hub, s: Step) {
    s.Resume? && s.task in h.tasks && VaultProofs.DoomedKey(h.tasks[s.task]).Some? ==>
      !IsReferenced(h.uploads, VaultProofs.DoomedKey(h.tasks[s.task]).value)
  }

  /** Reached from nothing by such a run. */
  ghost predicate Reachable(rt: Runtime, h: Hub) {
    exists run: seq<Timed> :: AfterRun(rt, run) == h && NeverDropsReferenced(rt, run)
  }

  lemma {:induction false} StepExtends(rt: Runtime, run: seq<Timed>, s: Step, now: int)
    ensures AfterRun(rt, run + [Timed(s, now)]) == Promotion.Take(rt, AfterRun(rt, run), s, now)
    ensures NeverDropsReferenced(rt, run) && DropsUnreferenced(AfterRun(rt, run), s) ==>
      NeverDropsReferenced(rt, run + [Timed(s, now)])
  {
    hide Promotion.Take, DropsUnreferenced;
    var longer := run + [Timed(s, now)];
    assert longer[..|run|] == run;
    assert forall k :: 0 <= k < |run| ==> longer[..k] == run[..k] && longer[k] == run[k];
  }

  lemma {:induction false} StepIsReachable(rt: Runtime, h: Hub, s: Step, now: int)
    requires Reachable(rt, h) && DropsUnreferenced(h, s)
    ensures Reachable(rt, Promotion.Take(rt, h, s, now))
  {
    hide Promotion.Take, DropsUnreferenced, AfterRun, NeverDropsReferenced;
    var run: seq<Timed> :| AfterRun(rt, run) == h && NeverDropsReferenced(rt, run);
    StepExtends(rt, run, s, now);
  }

  lemma {:induction false} NothingIsReachable(rt: Runtime)
    ensures Reachable(rt, NOTHING)
  {
    assert AfterRun(rt, []) == NOTHING && NeverDropsReferenced(rt, []);
  }

  /** The state with task t standing at this point. */
  function With(h: Hub, t: nat, task: Task): Hub {
    h.(tasks := h.tasks[t := task])
  }

  /** One statement of task t, beside whatever other tasks there are. */
  lemma {:induction false} TaskMoves(rt: Runtime, h: Hub, t: nat, task: Task, fails: bool, now: int, after: Hub,
          next: Task)
    requires t !in h.tasks && Reachable(rt, With(h, t, task))
    requires Advance(rt, h, task, fails, [], now) == Move(after, Some(next))
    requires var doomed := VaultProofs.DoomedKey(task);
      doomed.Some? ==> !IsReferenced(h.uploads, doomed.value)
    ensures after.tasks == h.tasks && Reachable(rt, With(after, t, next))
  {
    hide Advance, Reachable, IsReferenced;
    AdvanceIgnoresTasks(rt, h, With(h, t, task).tasks, task, fails, [], now);
    StepIsReachable(rt, With(h, t, task), Resume(t, fails, []), now);
    assert With(h, t, task).tasks[t := next] == h.tasks[t := next];
  }

  lemma {:induction false} TaskEnds(rt: Runtime, h: Hub, t: nat, task: Task, fails: bool, now: int, after: Hub)
    requires t !in h.tasks && Reachable(rt, With(h, t, task))
    requires Advance(rt, h, task, fails, [], now) == Move(after, None)
    requires var doomed := VaultProofs.DoomedKey(task);
      doomed.Some? ==> !IsReferenced(h.uploads, doomed.value)
    ensures after.tasks == h.tasks && Reachable(rt, after)
  {
    hide Advance, Reachable, IsReferenced;
    AdvanceIgnoresTasks(rt, h, With(h, t, task).tasks, task, fails, [], now);
    StepIsReachable(rt, With(h, t, task), Resume(t, fails, []), now);
    assert With(h, t, task).tasks - {t} == h.tasks;
    assert after.(tasks := h.tasks) == after;
  }

  // ---------------------------------------------------------------- one upload by itself

  /** An upload that is published when it is alone: it prepares, its replay is verified and fresh, and
      one row fits into the quarantine. */
  predicate Sound(rt: Runtime, buffer: Bytes) {
    && |buffer| <= MAX_UPLOAD_BYTES && PrepareUpload(rt.env, buffer).Ok?
    && ReplayNow(rt, NOTHING, PrepareUpload(rt.env, buffer).value).Some?
    && PassesVerification(ReplayNow(rt, NOTHING, PrepareUpload(rt.env, buffer).value).value)
    && rt.limits.retentionSeconds > 0 && rt.limits.maxPendingObjects >= 1 && |buffer| <= rt.limits.maxPendingBytes
  }

  function PreparedOf(rt: Runtime, buffer: Bytes): Prepared
    requires Sound(rt, buffer)
  {
    PrepareUpload(rt.env, buffer).value
  }

  function KeyOf(rt: Runtime, buffer: Bytes): string {
    UploadKey(rt.env.sha256(buffer))
  }

  /** The row of these bytes, inserted at time 0. */
  function FreshRow(rt: Runtime, buffer: Bytes): Uploads.Upload
    requires Sound(rt, buffer)
  {
    NewRow(rt.limits, NewUploadOf(PreparedOf(rt, buffer), buffer), 0)
  }

  /** No active row is in the way, and no event has been indexed. */
  predicate Quiet(h: Hub) {
    && h.evidence == NOTHING.evidence && (forall i :: 0 <= i < |h.uploads| ==> !Active(h.uploads[i]))
  }

  lemma {:induction false} QuietTables(rt: Runtime, h: Hub, buffer: Bytes)
    requires Quiet(h) && Sound(rt, buffer)
    ensures var p := PreparedOf(rt, buffer);
      && !HasPending(h.uploads, p.uploadDigest) && !HasPendingSubject(h.uploads, p.subjectId)
      && !HasPending(h.uploads, rt.env.sha256(buffer))
      && Uploads.Insert(rt.limits, h.uploads, NewUploadOf(p, buffer), 0) == Ok(h.uploads + [FreshRow(rt, buffer)])
      && p.uploadDigest == rt.env.sha256(buffer)
  {
    hide PrepareUpload;
    PreparedPartsFitTogether(rt.env, buffer);
    assert ExpireDue(h.uploads, 0) == h.uploads;
    NothingActive(h.uploads);
  }

  lemma {:induction false} NothingActive(rows: Table)
    requires forall i :: 0 <= i < |rows| ==> !Active(rows[i])
    ensures ActiveCount(rows) == 0 && ActiveBytes(rows) == 0
  {
    if rows != [] { NothingActive(rows[..|rows| - 1]); }
  }

  /** An upload is received and checked while its subject has no record. */
  lemma {:induction false} UploadIsChecked(rt: Runtime, h: Hub, t: nat, buffer: Bytes)
    requires Reachable(rt, h) && t !in h.tasks && Quiet(h) && Sound(rt, buffer) && h.records == []
    ensures Reachable(rt, With(h, t, Replaying(buffer, PreparedOf(rt, buffer))))
  {
    hide PrepareUpload, Reachable, HasPending, HasPendingSubject, Insert;
    QuietTables(rt, h, buffer);
    var p := PreparedOf(rt, buffer);
    StepIsReachable(rt, h, Promotion.Upload(t, buffer), 0);
    TaskMoves(rt, h, t, Received(buffer), false, 0, h, Checking(buffer, p));
    TaskMoves(rt, h, t, Checking(buffer, p), false, 0, h, Replaying(buffer, p));
  }

  /** From there to the stored object. */
  lemma {:induction false} UploadIsStored(rt: Runtime, h: Hub, t: nat, buffer: Bytes)
    requires t !in h.tasks && Quiet(h) && Sound(rt, buffer)
    requires Reachable(rt, With(h, t, Replaying(buffer, PreparedOf(rt, buffer))))
    requires KeyOf(rt, buffer) in h.vault ==> h.vault[KeyOf(rt, buffer)] == buffer
    ensures Reachable(rt, With(h.(vault := h.vault[KeyOf(rt, buffer) := buffer]), t,
      Stored(buffer, PreparedOf(rt, buffer))))
  {
    hide PrepareUpload, Reachable, HasPending, HasPendingSubject, Insert, HasOnlyMissingAnchorEvidence,
      PassesVerification;
    QuietTables(rt, h, buffer);
    var p := PreparedOf(rt, buffer);
    TaskMoves(rt, h, t, Replaying(buffer, p), false, 0, h, Staging(buffer, p));
    TaskMoves(rt, h, t, Staging(buffer, p), false, 0, h, Storing(buffer, p));
    var stored := h.(vault := h.vault[KeyOf(rt, buffer) := buffer]);
    assert KeyOf(rt, buffer) in h.vault ==> stored.vault == h.vault;
    TaskMoves(rt, h, t, Storing(buffer, p), false, 0, stored, Stored(buffer, p));
  }

  function Inserted(rt: Runtime, h: Hub, buffer: Bytes): Hub
    requires Sound(rt, buffer)
  {
    h.(uploads := h.uploads + [FreshRow(rt, buffer)], contents := h.contents + [buffer])
  }

  lemma {:induction false} UploadIsInserted(rt: Runtime, h: Hub, t: nat, buffer: Bytes)
    requires t !in h.tasks && Quiet(h) && Sound(rt, buffer)
    requires Reachable(rt, With(h, t, Stored(buffer, PreparedOf(rt, buffer))))
    ensures Reachable(rt, Inserted(rt, h, buffer))
  {
    hide PrepareUpload, Reachable, HasPending, HasPendingSubject, Insert;
    QuietTables(rt, h, buffer);
    TaskEnds(rt, h, t, Stored(buffer, PreparedOf(rt, buffer)), false, 0, Inserted(rt, h, buffer));
  }

  // ---------------------------------------------------------------- a removal overlaps an upload

  /** The bytes were staged and rejected, and task 1 has found their object unreferenced. */
  function Doomed(rt: Runtime, buffer: Bytes): Hub
    requires Sound(rt, buffer)
  {
    Staged(rt, buffer, FreshRow(rt, buffer).(status := Rejected, reasonCode := Some(STAGED_UPLOAD_INVALID)))
  }

  function Staged(rt: Runtime, buffer: Bytes, row: Uploads.Upload): Hub {
    NOTHING.(uploads := [row], vault := map[KeyOf(rt, buffer) := buffer], contents := [buffer])
  }

  lemma {:induction false} StagedIsReachable(rt: Runtime, buffer: Bytes)
    requires Sound(rt, buffer)
    ensures Reachable(rt, Staged(rt, buffer, FreshRow(rt, buffer)))
  {
    hide PrepareUpload, Reachable, FreshRow, Sound;
    var key := KeyOf(rt, buffer);
    NothingIsReachable(rt);
    UploadIsChecked(rt, NOTHING, 0, buffer);
    UploadIsStored(rt, NOTHING, 0, buffer);
    var stored := NOTHING.(vault := map[key := buffer]);
    UploadIsInserted(rt, stored, 0, buffer);
    assert Inserted(rt, stored, buffer) == Staged(rt, buffer, FreshRow(rt, buffer));
  }

  /** The only pending row is claimed by task t. */
  lemma {:induction false} RowIsClaimed(rt: Runtime, h: Hub, t: nat, id: nat)
    requires Reachable(rt, h) && t !in h.tasks && id < |h.uploads|
    requires h.uploads[id].status == Pending && h.uploads[id].expiresAt > 0
    ensures var row := Renew(h.uploads[id], "hub", 60);
      Reachable(rt, With(h.(uploads := h.uploads[id := row]), t, Claimed(id, row)))
  {
    hide Reachable;
    var row := Renew(h.uploads[id], "hub", 60);
    StepIsReachable(rt, h, Claim(t, id, "hub", 60, true), 0);
    assert Promotion.Take(rt, h, Claim(t, id, "hub", 60, true), 0) ==
      With(h.(uploads := h.uploads[id := row]), t, Claimed(id, row));
  }

  lemma {:induction false} DoomedIsReachable(rt: Runtime, buffer: Bytes)
    requires Sound(rt, buffer)
    ensures Reachable(rt, With(Doomed(rt, buffer), 1, Removing(0, KeyOf(rt, buffer))))
  {
    hide PrepareUpload, Reachable, Insert, Sound;
    var key := KeyOf(rt, buffer);
    FreshRowIsPending(rt, buffer);
    StagedIsReachable(rt, buffer);
    RowIsClaimed(rt, Staged(rt, buffer, FreshRow(rt, buffer)), 1, 0);
    var row := Renew(FreshRow(rt, buffer), "hub", 60);
    var claimed := Staged(rt, buffer, row);
    assert [FreshRow(rt, buffer)][0 := row] == [row];
    TaskMoves(rt, claimed, 1, Claimed(0, row), true, 0, claimed, Rejecting(0, key, STAGED_UPLOAD_INVALID));
    TaskMoves(rt, claimed, 1, Rejecting(0, key, STAGED_UPLOAD_INVALID), false, 0, Doomed(rt, buffer),
      Releasing(0, key, false));
    TaskMoves(rt, Doomed(rt, buffer), 1, Releasing(0, key, false), false, 0, Doomed(rt, buffer), Removing(0, key));
  }

  lemma {:induction false} FreshRowIsPending(rt: Runtime, buffer: Bytes)
    requires Sound(rt, buffer)
    ensures var row := FreshRow(rt, buffer);
      row.status == Pending && row.expiresAt > 0 && row.privateObjectKey == KeyOf(rt, buffer) && row.lease == None
  {
    hide PrepareUpload;
    PreparedPartsFitTogether(rt.env, buffer);
  }

  /** The newest row is active and its object is gone. */
  predicate ObjectLost(h: Hub) {
    h.uploads != [] && Active(h.uploads[|h.uploads| - 1]) && h.uploads[|h.uploads| - 1].privateObjectKey !in h.vault
  }

  /** Every sound upload can lose its object: rejected once because something threw and uploaded again,
      its new row is inserted just before the removal of the old object. */
  lemma {:induction false} InterleavedRemovalLosesTheObject(rt: Runtime, buffer: Bytes)
    requires Sound(rt, buffer)
    ensures exists run :: ObjectLost(AfterRun(rt, run))
  {
    hide PrepareUpload, Reachable, Insert, Sound;
    var key := KeyOf(rt, buffer);
    FreshRowIsPending(rt, buffer);
    var h := With(Doomed(rt, buffer), 1, Removing(0, key));
    DoomedIsReachable(rt, buffer);
    UploadIsChecked(rt, h, 2, buffer);
    UploadIsStored(rt, h, 2, buffer);
    assert h.(vault := h.vault[key := buffer]) == h;
    UploadIsInserted(rt, h, 2, buffer);
    var inserted := Inserted(rt, Doomed(rt, buffer), buffer);
    assert Inserted(rt, h, buffer) == With(inserted, 1, Removing(0, key));
    LastStepLoses(rt, With(inserted, 1, Removing(0, key)), Resume(1, false, []));
  }

  lemma {:induction false} LastStepLoses(rt: Runtime, h: Hub, s: Step)
    requires Reachable(rt, h) && ObjectLost(Promotion.Take(rt, h, s, 0))
    ensures exists run :: ObjectLost(AfterRun(rt, run))
  {
    hide Promotion.Take, ObjectLost, NeverDropsReferenced;
    var run: seq<Timed> :| AfterRun(rt, run) == h && NeverDropsReferenced(rt, run);
    StepExtends(rt, run, s, 0);
  }

  /** The object is lost as well when it is removed between the store and the insertion of its row,
      at a moment when no row refers to it: the two statements of the upload are not one. */
  lemma {:induction false} RemovalBeforeInsertionLosesTheObject(rt: Runtime, buffer: Bytes)
    requires Sound(rt, buffer)
    ensures exists run :: ObjectLost(AfterRun(rt, run)) && NeverDropsReferenced(rt, run)
  {
    hide PrepareUpload, Reachable, Insert, Sound;
    var key, p := KeyOf(rt, buffer), PreparedOf(rt, buffer);
    var doomed := Doomed(rt, buffer);
    var h := With(doomed, 1, Removing(0, key));
    FreshRowIsPending(rt, buffer);
    DoomedIsReachable(rt, buffer);
    UploadIsChecked(rt, h, 2, buffer);
    UploadIsStored(rt, h, 2, buffer);
    assert h.(vault := h.vault[key := buffer]) == h;
    var uploading := With(doomed, 2, Stored(buffer, p));
    assert With(h, 2, Stored(buffer, p)) == With(uploading, 1, Removing(0, key));
    var removed := doomed.(vault := map[]);
    assert With(removed, 2, Stored(buffer, p)) == uploading.(vault := uploading.vault - {key});
    TaskMoves(rt, uploading, 1, Removing(0, key), false, 0, With(removed, 2, Stored(buffer, p)), Marking(0, key));
    var marking := With(removed, 1, Marking(0, key));
    assert With(With(removed, 2, Stored(buffer, p)), 1, Marking(0, key)) == With(marking, 2, Stored(buffer, p));
    UploadIsInserted(rt, marking, 2, buffer);
    LossIsCareful(rt, Inserted(rt, marking, buffer));
  }

  lemma {:induction false} LossIsCareful(rt: Runtime, h: Hub)
    requires Reachable(rt, h) && ObjectLost(h)
    ensures exists run :: ObjectLost(AfterRun(rt, run)) && NeverDropsReferenced(rt, run)
  {
    hide ObjectLost, NeverDropsReferenced, AfterRun;
    var run: seq<Timed> :| AfterRun(rt, run) == h && NeverDropsReferenced(rt, run);
    assert ObjectLost(AfterRun(rt, run));
  }

  // ---------------------------------------------------------------- a publication overlaps an upload

  function ClaimedRow(rt: Runtime, buffer: Bytes): Uploads.Upload
    requires Sound(rt, buffer)
  {
    Renew(FreshRow(rt, buffer), "hub", 60)
  }

  function JudgedAs(rt: Runtime, id: nat, buffer: Bytes): Judged
    requires Sound(rt, buffer)
  {
    var p := PreparedOf(rt, buffer);
    Judged(id, ClaimedRow(rt, buffer), p, ReplayNow(rt, NOTHING, p).value, NOTHING.evidence)
  }

  function Published(rt: Runtime, h: Hub, id: nat, buffer: Bytes): Hub
    requires Sound(rt, buffer)
  {
    var a := JudgedAs(rt, id, buffer);
    PublishTransaction(rt, Archived(h, a, []), a, 0)
  }

  /** The row of these bytes is claimed and waits to be published. */
  predicate Ready(rt: Runtime, h: Hub, id: nat, buffer: Bytes) {
    && Sound(rt, buffer) && h.evidence == NOTHING.evidence
    && id < |h.uploads| && h.uploads[id] == ClaimedRow(rt, buffer)
    && KeyOf(rt, buffer) in h.vault && h.vault[KeyOf(rt, buffer)] == buffer
  }

  lemma {:induction false} ClaimedRowMatches(rt: Runtime, buffer: Bytes)
    requires PromotionProofs.Laws(rt) && Sound(rt, buffer)
    ensures var row := ClaimedRow(rt, buffer);
      && MatchesRow(PreparedOf(rt, buffer), row) && row.privateObjectKey == KeyOf(rt, buffer)
      && row.status == Promoting && row.expiresAt > 0
  {
    hide PrepareUpload, PromotionProofs.Laws;
    PreparedPartsFitTogether(rt.env, buffer);
    assert PromotionProofs.IsPrepared(rt.env, PreparedOf(rt, buffer));
    PromotionProofs.PreparedFacts(rt, PreparedOf(rt, buffer));
  }

  lemma {:induction false} PublishedFacts(rt: Runtime, h: Hub, id: nat, buffer: Bytes)
    requires PromotionProofs.Laws(rt) && Ready(rt, h, id, buffer)
    ensures Publishable(h.uploads, id, 0)
    ensures var after := Published(rt, h, id, buffer);
      && after.uploads == h.uploads[id := ClaimedRow(rt, buffer).(status := Available, lease := None)]
      && after.vault == h.vault && after.evidence == h.evidence && after.tasks == h.tasks
      && |after.log| == |h.log| + 1 && after.log[..|h.log|] == h.log
      && after.log[|h.log|].prepared == PreparedOf(rt, buffer)
  {
    hide PrepareUpload, PutPackage, PutChain, UpsertRecord, RecordIdFor, Ownership.Assign, ClaimedRow, Sound,
      PromotionProofs.Laws;
    ClaimedRowMatches(rt, buffer);
  }

  lemma {:induction false} RowIsVerified(rt: Runtime, h: Hub, t: nat, id: nat, buffer: Bytes)
    requires PromotionProofs.Laws(rt) && Ready(rt, h, id, buffer) && t !in h.tasks
    requires Reachable(rt, With(h, t, Claimed(id, ClaimedRow(rt, buffer))))
    ensures Reachable(rt, With(h, t, Verified(JudgedAs(rt, id, buffer))))
  {
    hide PrepareUpload, Reachable, ClaimedRow, PromotionProofs.Laws, MatchesRow;
    ClaimedRowMatches(rt, buffer);
    var row, p := ClaimedRow(rt, buffer), PreparedOf(rt, buffer);
    TaskMoves(rt, h, t, Claimed(id, row), false, 0, h, Rebuilt(id, row, p));
    OnlyMissingIsNotVerified(ReplayNow(rt, NOTHING, p).value);
    TaskMoves(rt, h, t, Rebuilt(id, row, p), false, 0, h, Verified(JudgedAs(rt, id, buffer)));
  }

  lemma {:induction false} RowIsPublished(rt: Runtime, h: Hub, t: nat, id: nat, buffer: Bytes)
    requires PromotionProofs.Laws(rt) && Ready(rt, h, id, buffer) && t !in h.tasks
    requires Reachable(rt, With(h, t, Claimed(id, ClaimedRow(rt, buffer))))
    ensures Reachable(rt, With(Published(rt, h, id, buffer), t, Releasing(id, KeyOf(rt, buffer), true)))
  {
    hide PrepareUpload, Reachable, PutPackage, PutChain, PublishTransaction, ClaimedRow, Sound, PromotionProofs.Laws,
      Publishable;
    RowIsVerified(rt, h, t, id, buffer);
    ClaimedRowMatches(rt, buffer);
    PublishedFacts(rt, h, id, buffer);
    var a := JudgedAs(rt, id, buffer);
    var p := a.prepared;
    var zipped := h.(archive := PutPackage(h.archive, p.cid, p.packageContent, p.packageFiles, []));
    TaskMoves(rt, h, t, Verified(a), false, 0, zipped, ZipStored(a));
    TaskMoves(rt, zipped, t, ZipStored(a), false, 0, Archived(h, a, []), ChainStored(a));
    TaskMoves(rt, Archived(h, a, []), t, ChainStored(a), false, 0, Published(rt, h, id, buffer),
      Releasing(id, KeyOf(rt, buffer), true));
  }

  /** From a stored object to a publication. */
  lemma {:induction false} StoredIsPublished(rt: Runtime, h: Hub, t: nat, buffer: Bytes)
    requires PromotionProofs.Laws(rt) && t !in h.tasks && Quiet(h) && Sound(rt, buffer)
    requires KeyOf(rt, buffer) in h.vault && h.vault[KeyOf(rt, buffer)] == buffer
    requires Reachable(rt, With(h, t, Stored(buffer, PreparedOf(rt, buffer))))
    ensures var after := AfterPublishing(rt, h, buffer);
      Reachable(rt, With(after, t, Releasing(|h.uploads|, KeyOf(rt, buffer), true)))
    ensures var after := AfterPublishing(rt, h, buffer);
      && Quiet(after) && after.vault == h.vault && after.tasks == h.tasks
      && |after.log| == |h.log| + 1 && after.log[..|h.log|] == h.log
      && after.log[|h.log|].prepared == PreparedOf(rt, buffer)
  {
    hide PrepareUpload, Reachable, FreshRow, Sound, PromotionProofs.Laws, Published;
    var id := |h.uploads|;
    var inserted := Inserted(rt, h, buffer);
    UploadIsInserted(rt, h, t, buffer);
    FreshRowIsPending(rt, buffer);
    RowIsClaimed(rt, inserted, t, id);
    var claimed := ClaimedBefore(rt, h, buffer);
    assert inserted.uploads[id := ClaimedRow(rt, buffer)] == claimed.uploads;
    RowIsPublished(rt, claimed, t, id, buffer);
    PublishedFacts(rt, claimed, id, buffer);
  }

  function ClaimedBefore(rt: Runtime, h: Hub, buffer: Bytes): Hub
    requires Sound(rt, buffer)
  {
    h.(uploads := h.uploads + [ClaimedRow(rt, buffer)], contents := h.contents + [buffer])
  }

  function AfterPublishing(rt: Runtime, h: Hub, buffer: Bytes): Hub
    requires Sound(rt, buffer)
  {
    Published(rt, ClaimedBefore(rt, h, buffer), |h.uploads|, buffer)
  }

  /** Two sound uploads of one subject, the second not extending the first: checked before the first is
      published and staged after, the second is published all the same. */
  lemma {:induction false} OverlappingUploadsBreakGrowth(rt: Runtime, first: Bytes, second: Bytes)
    requires PromotionProofs.Laws(rt) && Sound(rt, first) && Sound(rt, second)
    requires var p, q := PreparedOf(rt, first), PreparedOf(rt, second);
      && p.subjectId == q.subjectId
      && !StrictPrefix(PrefixProofs.EventsOf(rt.env, p), PrefixProofs.EventsOf(rt.env, q))
    ensures exists run :: !PrefixProofs.ChainsGrow(rt.env, AfterRun(rt, run).log)
  {
    hide PrepareUpload, Reachable, FreshRow, Sound, PromotionProofs.Laws, AfterPublishing;
    var p, q := PreparedOf(rt, first), PreparedOf(rt, second);
    var early := With(NOTHING, 0, Replaying(second, q));
    NothingIsReachable(rt);
    UploadIsChecked(rt, NOTHING, 0, second);
    UploadIsChecked(rt, early, 1, first);
    UploadIsStored(rt, early, 1, first);
    var stored := early.(vault := map[KeyOf(rt, first) := first]);
    StoredIsPublished(rt, stored, 1, first);
    var releasing := Releasing(0, KeyOf(rt, first), true);
    var h := With(AfterPublishing(rt, stored, first), 1, releasing).(tasks := map[1 := releasing]);
    assert With(h, 0, Replaying(second, q)) == With(AfterPublishing(rt, stored, first), 1, releasing);
    if KeyOf(rt, first) == KeyOf(rt, second) { SameKeySameBytes(rt, first, second); }
    UploadIsStored(rt, h, 0, second);
    var twice := h.(vault := h.vault[KeyOf(rt, second) := second]);
    StoredIsPublished(rt, twice, 0, second);
    BothAreLogged(rt, With(AfterPublishing(rt, twice, second), 0, Releasing(|twice.uploads|, KeyOf(rt, second), true)),
      p, q);
  }

  lemma {:induction false} SameKeySameBytes(rt: Runtime, first: Bytes, second: Bytes)
    requires PromotionProofs.Laws(rt) && KeyOf(rt, first) == KeyOf(rt, second)
    ensures first == second
  {
    UploadKeyIsInjective(rt.env.sha256(first), rt.env.sha256(second));
  }

  lemma {:induction false} BothAreLogged(rt: Runtime, h: Hub, p: Prepared, q: Prepared)
    requires Reachable(rt, h) && |h.log| == 2 && h.log[0].prepared == p && h.log[1].prepared == q
    requires p.subjectId == q.subjectId
    requires !StrictPrefix(PrefixProofs.EventsOf(rt.env, p), PrefixProofs.EventsOf(rt.env, q))
    ensures exists run :: !PrefixProofs.ChainsGrow(rt.env, AfterRun(rt, run).log)
  {
    hide PrefixProofs.EventsOf, StrictPrefix, NeverDropsReferenced, AfterRun;
    var run: seq<Timed> :| AfterRun(rt, run) == h && NeverDropsReferenced(rt, run);
    if PrefixProofs.ChainsGrow(rt.env, h.log) { SecondExtendsFirst(rt.env, h.log); }
  }

  lemma {:induction false} SecondExtendsFirst(env: Environment, log: seq<Publication>)
    requires |log| == 2 && log[0].prepared.subjectId == log[1].prepared.subjectId && PrefixProofs.ChainsGrow(env, log)
    ensures StrictPrefix(PrefixProofs.EventsOf(env, log[0].prepared), PrefixProofs.EventsOf(env, log[1].prepared))
  {
    hide PrefixProofs.EventsOf, StrictPrefix;
    assert PrefixProofs.ExtendsPublished(env, log[..1], Lower(log[1].prepared.subjectId), log[1].prepared);
    assert log[..1][0] == log[0];
  }
}
