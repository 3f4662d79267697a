/** Who owns the private objects of the quarantine bucket. */
module VaultProofs {
  import opened Basics
  import opened Bundles
  import opened Storage
  import opened Uploads
  import opened Promotion
  import opened PromotionProofs

  // ---------------------------------------------------------------- tasks and their objects

  /** The object a task is staging: stored, and its row not yet inserted or its removal not yet decided. */
  function StagedKey(task: Task): Option<string> {
    match task
    case Stored(_, p) => Some(UploadKey(p.uploadDigest))
    case Undoing(digest) => Some(UploadKey(digest))
    case Unmatched(digest) => Some(UploadKey(digest))
    case Discarding(digest) => Some(UploadKey(digest))
    case _ => None
  }

  /** The object a task has found unreferenced and is about to remove. */
  function DoomedKey(task: Task): Option<string> {
    match task
    case Removing(_, key) => Some(key)
    case Discarding(digest) => Some(UploadKey(digest))
    case _ => None
  }

  /** No task is between store and insert of a key that another is between check and removal of. */
  predicate Exclusive(h: Hub) {
    forall s, r :: s in h.tasks && r in h.tasks && h.tasks[s].Stored? && DoomedKey(h.tasks[r]).Some? ==>
      UploadKey(h.tasks[s].prepared.uploadDigest) != DoomedKey(h.tasks[r]).value
  }

  ghost predicate ExclusiveRun(rt: Runtime, run: seq<Timed>) {
    forall k :: 0 <= k < |run| ==> Exclusive(AfterRun(rt, run[..k]))
  }

  // ---------------------------------------------------------------- the invariants

  /** Every object is stored under the digest of its own bytes. */
  ghost predicate KeysMatchBytes(rt: Runtime, h: Hub) {
    forall key :: key in h.vault ==> key == UploadKey(rt.env.sha256(h.vault[key]))
  }

  predicate MarkedBy(task: Task, id: nat) {
    task.Marking? && task.id == id
  }

  /** Row j still answers for the object: it is not marked deleted and no task is about to mark it. */
  ghost predicate Answers(h: Hub, j: nat, key: string) {
    && j < |h.uploads| && h.uploads[j].privateObjectKey == key && !h.uploads[j].privateObjectDeleted
    && forall t :: t in h.tasks ==> !MarkedBy(h.tasks[t], j)
  }

  ghost predicate Owned(h: Hub, key: string) {
    (exists j :: Answers(h, j, key)) || (exists t :: t in h.tasks && StagedKey(h.tasks[t]) == Some(key))
  }

  ghost predicate ObjectsOwned(h: Hub) {
    && (forall key :: key in h.vault ==> Owned(h, key))
    && (forall i :: 0 <= i < |h.uploads| && Active(h.uploads[i]) ==> !h.uploads[i].privateObjectDeleted)
  }

  /** Every active row and every staged task has its object; nothing about to be removed is referenced. */
  ghost predicate ObjectsPresent(h: Hub) {
    && (forall i :: 0 <= i < |h.uploads| && Active(h.uploads[i]) ==> h.uploads[i].privateObjectKey in h.vault)
    && (forall t :: t in h.tasks && h.tasks[t].Stored? ==> UploadKey(h.tasks[t].prepared.uploadDigest) in h.vault)
    && (forall t :: t in h.tasks && DoomedKey(h.tasks[t]).Some? ==>
      !IsReferenced(h.uploads, DoomedKey(h.tasks[t]).value))
  }

  // ---------------------------------------------------------------- what one task does to rows and objects

  datatype Effect =
    | Keep
    | Put(key: string, bytes: Bytes)
    | Drop(key: string)
    | Add(row: Uploads.Upload)
    | Mark(id: nat)
    | Shrink

  /** Everything a task's step can do, as far as objects are concerned. */
  ghost predicate Does(h: Hub, after: Hub, e: Effect) {
    match e
    case Keep => after.vault == h.vault && after.uploads == h.uploads
    case Put(key, bytes) => after.vault == (if key in h.vault then h.vault else h.vault[key := bytes])
      && after.uploads == h.uploads
    case Drop(key) => after.vault == h.vault - {key} && after.uploads == h.uploads
    case Add(row) => after.vault == h.vault && |after.uploads| == |h.uploads| + 1 && Settles(h.uploads, after.uploads)
      && after.uploads[|h.uploads|] == row
    case Mark(id) => after.vault == h.vault && id < |h.uploads|
      && after.uploads == h.uploads[id := h.uploads[id].(privateObjectDeleted := true)]
    case Shrink => after.vault == h.vault && |after.uploads| == |h.uploads| && Settles(h.uploads, after.uploads)
  }

  /** Rows keep key and deletion mark; none becomes active. */
  ghost predicate Settles(rows: Table, later: Table) {
    |rows| <= |later| && forall i :: 0 <= i < |rows| ==>
      && rows[i].privateObjectKey == later[i].privateObjectKey
      && rows[i].privateObjectDeleted == later[i].privateObjectDeleted
      && (Active(later[i]) ==> Active(rows[i]))
  }

  lemma {:induction false} StatementSettles(limits: Limits, rows: Table, s: Statement, now: int)
    requires !s.Create? && !s.MarkDeleted?
    ensures |Execute(limits, rows, s, now)| == |rows| && Settles(rows, Execute(limits, rows, s, now))
  {
  }

  lemma {:induction false} InsertionAddsRow(limits: Limits, rows: Table, input: NewUpload, now: int)
    requires Insert(limits, rows, input, now).Ok?
    ensures var after := Execute(limits, rows, Create(input), now);
      |after| == |rows| + 1 && Settles(rows, after) && after[|rows|] == NewRow(limits, input, now)
  {
  }

  function EffectOf(rt: Runtime, h: Hub, task: Task, fails: bool, now: int): Effect {
    match task
    case Storing(b, p) => if fails then Keep else Put(UploadKey(p.uploadDigest), b)
    case Stored(b, p) =>
      if fails || Insert(rt.limits, h.uploads, NewUploadOf(p, b), now).Err? then Keep
        else Add(NewRow(rt.limits, NewUploadOf(p, b), now))
    case Discarding(digest) => Drop(UploadKey(digest))
    case Removing(_, key) => if fails then Keep else Drop(key)
    case Marking(id, _) => if fails then Keep else Mark(id)
    case Deferring(_) => if fails then Keep else Shrink
    case Rejecting(_, _, _) => if fails then Keep else Shrink
    case ChainStored(_) => Shrink
    case _ => Keep
  }

  /** What a task's step does to the bucket alone. */
  lemma {:induction false} AdvanceMovesObjects(rt: Runtime, h: Hub, task: Task, fails: bool, order: seq<string>,
          now: int)
    ensures var e, after := EffectOf(rt, h, task, fails, now), Advance(rt, h, task, fails, order, now).hub;
      after.vault ==
        if e.Put? then (if e.key in h.vault then h.vault else h.vault[e.key := e.bytes])
        else if e.Drop? then h.vault - {e.key} else h.vault
  {
    hide PrepareUpload, Execute, Insert, PutPackage, PutChain, HasPending, IsReferenced, IsStrictSuccessor,
      HasAvailable, HasPendingSubject, RecordOf, UpsertRecord, RecordIdFor, Publishable, HasOnlyMissingAnchorEvidence,
      PassesVerification, MatchesRow;
  }

  lemma {:induction false} AdvanceHasEffect(rt: Runtime, h: Hub, task: Task, fails: bool, order: seq<string>, now: int)
    requires TaskStands(rt, h, task)
    ensures Does(h, Advance(rt, h, task, fails, order, now).hub, EffectOf(rt, h, task, fails, now))
  {
    hide Advance, PrepareUpload, Execute, Insert, Publishable, Settles, Active, ZipIn, ChainIn, JudgedStands;
    SettlesItself(h.uploads);
    AdvanceMovesObjects(rt, h, task, fails, order, now);
    TaskIssues(rt, h, task, fails, order, now);
    var s := TaskStatement(rt, h, task, fails, now);
    if s.Some? {
      if s.value.Create? {
        InsertionAddsRow(rt.limits, h.uploads, s.value.input, now);
      } else if s.value.MarkDeleted? {
        MarkingMarks(rt.limits, h.uploads, s.value.id, now);
      } else {
        StatementSettles(rt.limits, h.uploads, s.value, now);
      }
    }
  }

  lemma {:induction false} SettlesItself(rows: Table)
    ensures Settles(rows, rows)
  {
  }

  lemma {:induction false} MarkingMarks(limits: Limits, rows: Table, id: nat, now: int)
    requires id < |rows|
    ensures Execute(limits, rows, MarkDeleted(id), now) == rows[id := rows[id].(privateObjectDeleted := true)]
  {
  }

  /** A pending upload of a digest is an active row with that digest's key. */
  lemma {:induction false} PendingIsReferenced(rt: Runtime, h: Hub, digest: string)
    requires RowsStand(rt, h)
    ensures HasPending(h.uploads, digest) ==> IsReferenced(h.uploads, UploadKey(digest))
  {
    hide PrepareUpload;
    assert forall i :: 0 <= i < |h.uploads| ==> RowStands(rt, h.uploads[i], h.contents[i]);
  }

  /** How a task's key obligations move on. */
  lemma {:induction false} NextKeys(rt: Runtime, h: Hub, task: Task, fails: bool, order: seq<string>, now: int)
    requires RowsStand(rt, h)
    ensures var m := Advance(rt, h, task, fails, order, now);
      var e := EffectOf(rt, h, task, fails, now);
      && (StagedKey(task).Some? ==>
            || (m.next.Some? && StagedKey(m.next.value) == StagedKey(task))
            || (e == Drop(StagedKey(task).value))
            || (e.Add? && e.row.privateObjectKey == StagedKey(task).value && m.next.None?)
            || (e == Keep && m.next.None? && IsReferenced(h.uploads, StagedKey(task).value)))
      && (e.Put? ==> m.next.Some? && StagedKey(m.next.value) == Some(e.key))
      && (e.Add? ==>
        task.Stored? && e.row.privateObjectKey == UploadKey(task.prepared.uploadDigest) && !e.row.privateObjectDeleted
          && m.next.None?)
      && (e.Drop? ==> DoomedKey(task) == Some(e.key))
      && (e.Mark? ==> MarkedBy(task, e.id) && m.next.None?)
      && (m.next.Some? && m.next.value.Stored? ==> e.Put? && e.key == UploadKey(m.next.value.prepared.uploadDigest))
      && (m.next.Some? && DoomedKey(m.next.value).Some? ==>
        e == Keep && !IsReferenced(h.uploads, DoomedKey(m.next.value).value))
      && (m.next.Some? && m.next.value.Marking? ==>
        e == Drop(m.next.value.key) && task == Removing(m.next.value.id, e.key))
  {
    hide PrepareUpload, Execute, Insert, PutPackage, PutChain, UpsertRecord, IsStrictSuccessor, HasAvailable,
      HasPendingSubject, RecordOf, RecordIdFor, Publishable, HasOnlyMissingAnchorEvidence, PassesVerification, Active,
      IsReferenced, HasPending, RowsStand;
    if task.Undoing? { PendingIsReferenced(rt, h, task.digest); }
  }

  /** Steps that resume no task leave every object and every running task alone. */
  lemma {:induction false} OtherStepsSettle(rt: Runtime, h: Hub, s: Step, now: int)
    requires !(s.Resume? && s.task in h.tasks)
    ensures var after := Promotion.Take(rt, h, s, now);
      && Does(h, after, Shrink)
      && (forall x :: x in h.tasks ==> x in after.tasks && after.tasks[x] == h.tasks[x])
      && (forall x :: x in after.tasks && x !in h.tasks ==>
            after.tasks[x].Received? || after.tasks[x].Claimed? || after.tasks[x].Releasing?)
  {
    hide PrepareUpload, Execute, Advance, Settles, Active;
    SettlesItself(h.uploads);
    match s
    case Claim(t, id, _, _, _) => StatementSettles(rt.limits, h.uploads, ClaimStatement(s), now);
    case Sweep(chosen) => StatementSettles(rt.limits, h.uploads, ExpireBatch(chosen), now);
    case _ =>
  }

  /** A task's step, as far as objects are concerned. */
  ghost predicate Resumed(rt: Runtime, h: Hub, after: Hub, t: nat, e: Effect, next: Option<Task>) {
    && t in h.tasks && Does(h, after, e)
    && after.tasks == (if next.Some? then h.tasks[t := next.value] else h.tasks - {t})
  }

  lemma {:induction false} ResumeHasEffect(rt: Runtime, h: Hub, s: Step, now: int)
    requires Base(rt, h) && s.Resume? && s.task in h.tasks
    ensures var task := h.tasks[s.task];
      Resumed(rt, h, Promotion.Take(rt, h, s, now), s.task, EffectOf(rt, h, task, s.fails, now),
              Advance(rt, h, task, s.fails, s.order, now).next)
  {
    hide Advance, EffectOf, TaskStands, RowsStand, ActiveUnique, ChainsMatchDigests;
    AdvanceHasEffect(rt, h, h.tasks[s.task], s.fails, s.order, now);
  }

  // ---------------------------------------------------------------- objects are owned

  lemma {:induction false} OwnedStays(h: Hub, after: Hub, key: string)
    requires Owned(h, key) && Does(h, after, Shrink)
    requires forall x :: x in h.tasks ==> x in after.tasks && after.tasks[x] == h.tasks[x]
    requires forall x :: x in after.tasks && x !in h.tasks ==> !after.tasks[x].Marking?
    ensures Owned(after, key)
  {
    if j :| Answers(h, j, key) {
      assert Answers(after, j, key);
    } else {
      var x :| x in h.tasks && StagedKey(h.tasks[x]) == Some(key);
      assert StagedKey(after.tasks[x]) == Some(key);
    }
  }

  lemma {:induction false} ReferencedAnswers(rt: Runtime, h: Hub, key: string)
    requires TasksStand(rt, h) && ObjectsOwned(h) && IsReferenced(h.uploads, key)
    ensures exists j :: Answers(h, j, key)
  {
    var j :| 0 <= j < |h.uploads| && Active(h.uploads[j]) && h.uploads[j].privateObjectKey == key;
    forall t | t in h.tasks ensures !MarkedBy(h.tasks[t], j) { assert TaskStands(rt, h, h.tasks[t]); }
    assert Answers(h, j, key);
  }

  /** A row that answers keeps answering unless its own object is the one removed. */
  lemma {:induction false} AnswerSurvives(rt: Runtime, h: Hub, after: Hub, t: nat, e: Effect, next: Option<Task>,
          j: nat, key: string)
    requires Resumed(rt, h, after, t, e, next) && TasksStand(rt, h) && Answers(h, j, key) && key in after.vault
    requires e.Mark? ==> MarkedBy(h.tasks[t], e.id)
    requires next.Some? && next.value.Marking? ==>
      e == Drop(next.value.key) && h.tasks[t] == Removing(next.value.id, e.key)
    ensures Answers(after, j, key)
  {
    assert TaskStands(rt, h, h.tasks[t]);
    forall x | x in after.tasks ensures !MarkedBy(after.tasks[x], j) {
      if x != t { assert after.tasks[x] == h.tasks[x]; }
    }
  }

  lemma {:induction false} ResumeKeepsOwned(rt: Runtime, h: Hub, s: Step, now: int, key: string)
    requires Base(rt, h) && ObjectsOwned(h) && s.Resume? && s.task in h.tasks
    requires key in Promotion.Take(rt, h, s, now).vault
    ensures Owned(Promotion.Take(rt, h, s, now), key)
  {
    hide Advance, EffectOf, Promotion.Take, TaskStands, RowsStand, ActiveUnique, ChainsMatchDigests, Answers,
      IsReferenced, StagedKey, DoomedKey, MarkedBy;
    var t, task := s.task, h.tasks[s.task];
    var after := Promotion.Take(rt, h, s, now);
    var e, next := EffectOf(rt, h, task, s.fails, now), Advance(rt, h, task, s.fails, s.order, now).next;
    ResumeHasEffect(rt, h, s, now);
    NextKeys(rt, h, task, s.fails, s.order, now);
    if IsReferenced(h.uploads, key) { ReferencedAnswers(rt, h, key); }
    if key !in h.vault {
      assert after.tasks[t] == next.value;
    } else if j :| Answers(h, j, key) {
      AnswerSurvives(rt, h, after, t, e, next, j, key);
    } else {
      var x :| x in h.tasks && StagedKey(h.tasks[x]) == Some(key);
      if x != t {
        assert after.tasks[x] == h.tasks[x];
      } else if e.Add? && next.None? {
        NewRowAnswers(rt, h, after, t, e, key);
      } else if next.Some? {
        assert after.tasks[t] == next.value;
      }
    }
  }

  lemma {:induction false} NewRowAnswers(rt: Runtime, h: Hub, after: Hub, t: nat, e: Effect, key: string)
    requires Resumed(rt, h, after, t, e, None) && TasksStand(rt, h)
    requires e.Add? && e.row.privateObjectKey == key && !e.row.privateObjectDeleted
    ensures Answers(after, |h.uploads|, key)
  {
    forall x | x in after.tasks ensures !MarkedBy(after.tasks[x], |h.uploads|) {
      assert TaskStands(rt, h, h.tasks[x]);
    }
  }

  lemma {:induction false} ActiveStaysUndeleted(rt: Runtime, h: Hub, s: Step, now: int)
    requires Base(rt, h) && ObjectsOwned(h)
    ensures var after := Promotion.Take(rt, h, s, now).uploads;
      forall i :: 0 <= i < |after| && Active(after[i]) ==> !after[i].privateObjectDeleted
  {
    hide Advance, EffectOf, Promotion.Take, RowsStand, ActiveUnique, ChainsMatchDigests, Answers, StagedKey,
      DoomedKey, IsReferenced, Owned;
    if s.Resume? && s.task in h.tasks {
      ResumeHasEffect(rt, h, s, now);
      NextKeys(rt, h, h.tasks[s.task], s.fails, s.order, now);
      assert TaskStands(rt, h, h.tasks[s.task]);
    } else {
      OtherStepsSettle(rt, h, s, now);
    }
  }

  lemma {:induction false} TakeKeepsOwned(rt: Runtime, h: Hub, s: Step, now: int)
    requires Base(rt, h) && ObjectsOwned(h)
    ensures ObjectsOwned(Promotion.Take(rt, h, s, now))
  {
    hide Base, Promotion.Take, Owned;
    ActiveStaysUndeleted(rt, h, s, now);
    var after := Promotion.Take(rt, h, s, now);
    if !(s.Resume? && s.task in h.tasks) { OtherStepsSettle(rt, h, s, now); }
    forall key | key in after.vault ensures Owned(after, key) {
      if s.Resume? && s.task in h.tasks {
        ResumeKeepsOwned(rt, h, s, now, key);
      } else {
        OwnedStays(h, after, key);
      }
    }
  }

  // ---------------------------------------------------------------- bytes and presence

  lemma {:induction false} TakeKeepsBytes(rt: Runtime, h: Hub, s: Step, now: int)
    requires Base(rt, h) && KeysMatchBytes(rt, h)
    ensures KeysMatchBytes(rt, Promotion.Take(rt, h, s, now))
  {
    hide PrepareUpload, Advance, Promotion.Take, RowsStand, ActiveUnique, ChainsMatchDigests;
    if s.Resume? && s.task in h.tasks {
      ResumeHasEffect(rt, h, s, now);
      var task := h.tasks[s.task];
      assert TaskStands(rt, h, task);
      if task.Storing? { PreparedPartsFitTogether(rt.env, task.buffer); }
    } else {
      OtherStepsSettle(rt, h, s, now);
    }
  }

  lemma {:induction false} UnreferencedStays(rows: Table, later: Table, key: string)
    requires Settles(rows, later) && !IsReferenced(rows, key)
    requires forall i :: |rows| <= i < |later| ==> later[i].privateObjectKey != key
    ensures !IsReferenced(later, key)
  {
  }

  lemma {:induction false} ResumeKeepsPresent(rt: Runtime, h: Hub, s: Step, now: int)
    requires Base(rt, h) && ObjectsPresent(h) && Exclusive(h) && s.Resume? && s.task in h.tasks
    ensures ObjectsPresent(Promotion.Take(rt, h, s, now))
  {
    hide Advance, EffectOf, Promotion.Take, TaskStands, RowsStand, ActiveUnique, ChainsMatchDigests, IsReferenced,
      StagedKey, DoomedKey;
    var t, task := s.task, h.tasks[s.task];
    var after := Promotion.Take(rt, h, s, now);
    var e, next := EffectOf(rt, h, task, s.fails, now), Advance(rt, h, task, s.fails, s.order, now).next;
    ResumeHasEffect(rt, h, s, now);
    NextKeys(rt, h, task, s.fails, s.order, now);
    assert forall x :: x in after.tasks && x != t ==> x in h.tasks && after.tasks[x] == h.tasks[x];
    assert t in after.tasks ==> next.Some? && after.tasks[t] == next.value;
    forall i | 0 <= i < |after.uploads| && Active(after.uploads[i])
      ensures after.uploads[i].privateObjectKey in after.vault
    {
      if i < |h.uploads| { ActiveIsReferenced(h.uploads, i); }
    }
    forall x | x in after.tasks && DoomedKey(after.tasks[x]).Some?
      ensures !IsReferenced(after.uploads, DoomedKey(after.tasks[x]).value)
    {
      EffectKeepsUnreferenced(h, after, e, DoomedKey(after.tasks[x]).value);
    }
  }

  lemma {:induction false} EffectKeepsUnreferenced(h: Hub, after: Hub, e: Effect, key: string)
    requires Does(h, after, e) && !IsReferenced(h.uploads, key)
    requires e.Add? ==> e.row.privateObjectKey != key
    ensures !IsReferenced(after.uploads, key)
  {
    hide IsReferenced;
    SettlesItself(h.uploads);
    if e.Mark? {
      MarkSettles(h.uploads, e.id, key);
    } else {
      UnreferencedStays(h.uploads, after.uploads, key);
    }
  }

  lemma {:induction false} MarkSettles(rows: Table, id: nat, key: string)
    requires id < |rows|
    ensures IsReferenced(rows[id := rows[id].(privateObjectDeleted := true)], key) ==> IsReferenced(rows, key)
  {
  }

  lemma {:induction false} ActiveIsReferenced(rows: Table, i: nat)
    requires i < |rows| && Active(rows[i])
    ensures IsReferenced(rows, rows[i].privateObjectKey)
  {
  }

  lemma {:induction false} TakeKeepsPresent(rt: Runtime, h: Hub, s: Step, now: int)
    requires Base(rt, h) && ObjectsPresent(h) && Exclusive(h)
    ensures ObjectsPresent(Promotion.Take(rt, h, s, now))
  {
    hide Base, Promotion.Take, IsReferenced, Exclusive;
    if s.Resume? && s.task in h.tasks {
      ResumeKeepsPresent(rt, h, s, now);
    } else {
      OtherStepsSettle(rt, h, s, now);
      var after := Promotion.Take(rt, h, s, now);
      forall x | x in after.tasks && DoomedKey(after.tasks[x]).Some?
        ensures !IsReferenced(after.uploads, DoomedKey(after.tasks[x]).value)
      {
        UnreferencedStays(h.uploads, after.uploads, DoomedKey(after.tasks[x]).value);
      }
    }
  }

  // ---------------------------------------------------------------- every run

  lemma {:induction false} OwnershipHolds(rt: Runtime, run: seq<Timed>)
    requires Laws(rt)
    ensures KeysMatchBytes(rt, AfterRun(rt, run)) && ObjectsOwned(AfterRun(rt, run))
    ensures ExclusiveRun(rt, run) ==> ObjectsPresent(AfterRun(rt, run))
  {
    hide Laws, Promotion.Take, Base, KeysMatchBytes, ObjectsOwned, ObjectsPresent, Exclusive;
    if run == [] {
      NothingStored(rt);
    } else {
      var n := |run| - 1;
      var before, last := run[..n], run[n];
      OwnershipHolds(rt, before);
      BaseHolds(rt, before);
      TakeKeepsBytes(rt, AfterRun(rt, before), last.step, last.now);
      TakeKeepsOwned(rt, AfterRun(rt, before), last.step, last.now);
      if ExclusiveRun(rt, run) {
        assert forall k :: 0 <= k < n ==> before[..k] == run[..k];
        TakeKeepsPresent(rt, AfterRun(rt, before), last.step, last.now);
      }
    }
  }

  lemma {:induction false} NothingStored(rt: Runtime)
    ensures KeysMatchBytes(rt, NOTHING) && ObjectsOwned(NOTHING) && ObjectsPresent(NOTHING)
  {
  }

  /** In every reachable state, whatever the interleaving, each private object is stored under the
      digest of its bytes and has a row with its key that is not marked deleted, or is still in the
      hands of the upload that is staging it or undoing that. */
  lemma {:induction false} EveryObjectHasAnOwner(rt: Runtime, run: seq<Timed>, key: string)
    requires Laws(rt) && key in AfterRun(rt, run).vault
    ensures var h := AfterRun(rt, run);
      && key == UploadKey(rt.env.sha256(h.vault[key]))
      && (|| (exists j ::
                0 <= j < |h.uploads| && h.uploads[j].privateObjectKey == key && !h.uploads[j].privateObjectDeleted)
          || (exists t :: t in h.tasks && StagedKey(h.tasks[t]) == Some(key)))
  {
    hide Laws, AfterRun;
    OwnershipHolds(rt, run);
    var h := AfterRun(rt, run);
    assert Owned(h, key);
    if j: nat :| Answers(h, j, key) { assert h.uploads[j].privateObjectKey == key; }
  }

  /** While store-then-insert and check-then-remove never interleave on one key, every active row's
      object is in the bucket, with exactly the bytes the row was staged with. */
  lemma {:induction false} EveryActiveRowHasItsObject(rt: Runtime, run: seq<Timed>, i: nat)
    requires Laws(rt) && ExclusiveRun(rt, run)
    requires i < |AfterRun(rt, run).uploads| && Active(AfterRun(rt, run).uploads[i])
    ensures var h := AfterRun(rt, run);
      var u := h.uploads[i];
      && u.privateObjectKey in h.vault && rt.env.sha256(h.vault[u.privateObjectKey]) == u.uploadDigest
      && i < |h.contents| && h.vault[u.privateObjectKey] == h.contents[i] && !u.privateObjectDeleted
  {
    hide PrepareUpload, AfterRun, ZipLaws, KeepsZip;
    OwnershipHolds(rt, run);
    BaseHolds(rt, run);
    var h := AfterRun(rt, run);
    assert RowStands(rt, h.uploads[i], h.contents[i]);
    var u := h.uploads[i];
    UploadKeyIsInjective(rt.env.sha256(h.vault[u.privateObjectKey]), u.uploadDigest);
  }

  // ---------------------------------------------------------------- exactly when objects are kept

  ghost predicate ActiveHaveObjects(h: Hub) {
    forall i :: 0 <= i < |h.uploads| && Active(h.uploads[i]) ==> h.uploads[i].privateObjectKey in h.vault
  }

  /** The step removes no object an active row refers to, and inserts no row whose object is gone. */
  predicate Harmless(rt: Runtime, h: Hub, s: Step, now: int) {
    s.Resume? && s.task in h.tasks ==>
      match EffectOf(rt, h, h.tasks[s.task], s.fails, now)
      case Drop(key) => !IsReferenced(h.uploads, key)
      case Add(row) => row.privateObjectKey in h.vault
      case _ => true
  }

  ghost predicate HarmlessRun(rt: Runtime, run: seq<Timed>) {
    forall k :: 0 <= k < |run| ==> Harmless(rt, AfterRun(rt, run[..k]), run[k].step, run[k].now)
  }

  ghost predicate KeepsObjects(rt: Runtime, run: seq<Timed>) {
    forall k :: 0 <= k <= |run| ==> ActiveHaveObjects(AfterRun(rt, run[..k]))
  }

  lemma {:induction false} StepKeepsObjectsExactlyWhen(rt: Runtime, h: Hub, s: Step, now: int)
    requires Base(rt, h) && ActiveHaveObjects(h)
    ensures ActiveHaveObjects(Promotion.Take(rt, h, s, now)) <==> Harmless(rt, h, s, now)
  {
    hide Advance, EffectOf, Promotion.Take, TaskStands, RowsStand, ActiveUnique, ChainsMatchDigests;
    var after := Promotion.Take(rt, h, s, now);
    if s.Resume? && s.task in h.tasks {
      var e := EffectOf(rt, h, h.tasks[s.task], s.fails, now);
      ResumeHasEffect(rt, h, s, now);
      NewRowsArePending(rt, h, h.tasks[s.task], s.fails, now);
      if e.Drop? && IsReferenced(h.uploads, e.key) {
        var i :| 0 <= i < |h.uploads| && Active(h.uploads[i]) && h.uploads[i].privateObjectKey == e.key;
        assert Active(after.uploads[i]) && after.uploads[i].privateObjectKey !in after.vault;
      }
      if e.Add? && e.row.privateObjectKey !in h.vault {
        assert Active(after.uploads[|h.uploads|]);
      }
    } else {
      OtherStepsSettle(rt, h, s, now);
    }
  }

  lemma {:induction false} NewRowsArePending(rt: Runtime, h: Hub, task: Task, fails: bool, now: int)
    ensures var e := EffectOf(rt, h, task, fails, now);
      e.Add? ==> Active(e.row)
  {
    hide Insert;
  }

  /** Along a run every active row keeps its object if and only if no step removes an object that an
      active row refers to at that moment, and no row is inserted whose object was removed after it was
      stored. */
  lemma {:induction false} ObjectsAreKeptExactlyWhen(rt: Runtime, run: seq<Timed>)
    requires Laws(rt)
    ensures KeepsObjects(rt, run) <==> HarmlessRun(rt, run)
  {
    hide Laws, Promotion.Take, Base, ActiveHaveObjects, Harmless;
    if run == [] {
      assert run[..0] == run;
      NothingStored(rt);
      NothingMissing();
    } else {
      var n := |run| - 1;
      var before, last := run[..n], run[n];
      ObjectsAreKeptExactlyWhen(rt, before);
      BaseHolds(rt, before);
      assert run[..|run|] == run;
      RunsSplit(rt, run);
      if KeepsObjects(rt, before) {
        assert before[..n] == before;
        assert ActiveHaveObjects(AfterRun(rt, before[..n]));
        StepKeepsObjectsExactlyWhen(rt, AfterRun(rt, before), last.step, last.now);
      }
    }
  }

  lemma {:induction false} NothingMissing()
    ensures ActiveHaveObjects(NOTHING)
  {
  }

  lemma {:induction false} RunsSplit(rt: Runtime, run: seq<Timed>)
    requires run != []
    ensures var n := |run| - 1;
      && (KeepsObjects(rt, run) <==> KeepsObjects(rt, run[..n]) && ActiveHaveObjects(AfterRun(rt, run)))
      && (HarmlessRun(rt, run) <==>
        HarmlessRun(rt, run[..n]) && Harmless(rt, AfterRun(rt, run[..n]), run[n].step, run[n].now))
  {
    hide AfterRun, ActiveHaveObjects, Harmless;
    var n := |run| - 1;
    assert run[..|run|] == run;
    assert forall k :: 0 <= k <= n ==> run[..n][..k] == run[..k];
    if KeepsObjects(rt, run) {
      forall k | 0 <= k <= n ensures ActiveHaveObjects(AfterRun(rt, run[..n][..k])) {
        assert ActiveHaveObjects(AfterRun(rt, run[..k]));
      }
      assert ActiveHaveObjects(AfterRun(rt, run[..|run|]));
    }
    if KeepsObjects(rt, run[..n]) && ActiveHaveObjects(AfterRun(rt, run)) {
      forall k | 0 <= k <= |run| ensures ActiveHaveObjects(AfterRun(rt, run[..k])) {
        if k <= n { assert ActiveHaveObjects(AfterRun(rt, run[..n][..k])); }
      }
    }
    if HarmlessRun(rt, run) {
      forall k | 0 <= k < n ensures Harmless(rt, AfterRun(rt, run[..n][..k]), run[..n][k].step, run[..n][k].now) {
        assert Harmless(rt, AfterRun(rt, run[..k]), run[k].step, run[k].now);
      }
    }
    if HarmlessRun(rt, run[..n]) && Harmless(rt, AfterRun(rt, run[..n]), run[n].step, run[n].now) {
      forall k | 0 <= k < |run| ensures Harmless(rt, AfterRun(rt, run[..k]), run[k].step, run[k].now) {
        if k < n { assert Harmless(rt, AfterRun(rt, run[..n][..k]), run[..n][k].step, run[..n][k].now); }
      }
    }
  }
}
