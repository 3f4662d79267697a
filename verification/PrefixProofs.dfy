/** Published chains only grow: while checking and staging an upload does not overlap a publication
    of the same subject, the chains published for a subject form a strictly increasing sequence. */
module PrefixProofs {
  import opened Basics
  import opened Bundles
  import opened Storage
  import opened Uploads
  import opened Ownership
  import opened Promotion
  import opened PromotionProofs
  import opened PublicationProofs

  function EventsOf(env: Environment, p: Prepared): seq<string> {
    var chain := env.parseChain(p.eventChainBuffer);
    if chain.Some? then chain.value.events else []
  }

  predicate SameSubject(p: Prepared, subject: string) {
    Lower(p.subjectId) == subject
  }

  /** p's chain strictly extends every chain ever published for the subject. */
  ghost predicate ExtendsPublished(env: Environment, log: seq<Publication>, subject: string, p: Prepared) {
    forall k :: 0 <= k < |log| && SameSubject(log[k].prepared, subject) ==>
      StrictPrefix(EventsOf(env, log[k].prepared), EventsOf(env, p))
  }

  /** Each publication of a subject strictly extends the ones before it. */
  ghost predicate ChainsGrow(env: Environment, log: seq<Publication>) {
    forall k :: 0 <= k < |log| ==> ExtendsPublished(env, log[..k], Lower(log[k].prepared.subjectId), log[k].prepared)
  }

  ghost predicate ActiveRowsExtend(rt: Runtime, h: Hub) {
    forall i, p :: 0 <= i < |h.uploads| && Active(h.uploads[i]) && StagedAs(rt, h, i, p) ==>
      ExtendsPublished(rt.env, h.log, h.uploads[i].subjectId, p)
  }

  /** A task between its successor check and the insertion of its row. */
  predicate Admitted(task: Task) {
    task.Replaying? || task.Staging? || task.Storing? || task.Stored?
  }

  ghost predicate AdmittedExtend(rt: Runtime, h: Hub) {
    forall t :: t in h.tasks && Admitted(h.tasks[t]) ==>
      ExtendsPublished(rt.env, h.log, h.tasks[t].prepared.subjectId, h.tasks[t].prepared)
  }

  ghost predicate GrowthStands(rt: Runtime, h: Hub) {
    ChainsGrow(rt.env, h.log) && ActiveRowsExtend(rt, h) && AdmittedExtend(rt, h)
  }

  /** This step does not publish a subject that some task has checked and not yet inserted. */
  predicate Apart(h: Hub, s: Step, now: int) {
    Publishes(h, s, now) ==> forall t :: t in h.tasks && Admitted(h.tasks[t]) ==>
      h.tasks[t].prepared.subjectId != Lower(h.tasks[s.task].judged.prepared.subjectId)
  }

  ghost predicate NonOverlapping(rt: Runtime, run: seq<Timed>) {
    forall k :: 0 <= k < |run| ==> Apart(AfterRun(rt, run[..k]), run[k].step, run[k].now)
  }

  // ---------------------------------------------------------------- the successor check

  lemma {:induction false} PrefixesChain(a: seq<string>, b: seq<string>, c: seq<string>)
    requires StrictPrefix(a, b) && StrictPrefix(b, c)
    ensures StrictPrefix(a, c)
  {
    assert c[..|b|][..|a|] == c[..|a|];
  }

  /** Every publication into a record is its latest one or lies strictly before it. */
  lemma {:induction false} LatestExtendsEarlier(env: Environment, log: seq<Publication>, j: nat, k: nat,
          subject: string)
    requires ChainsGrow(env, log) && k < |log| && log[k].recordId == j
    requires forall i :: 0 <= i < |log| && log[i].recordId == j ==> SameSubject(log[i].prepared, subject)
    ensures Latest(log, j).Some?
    ensures log[k] == Latest(log, j).value
      || StrictPrefix(EventsOf(env, log[k].prepared), EventsOf(env, Latest(log, j).value.prepared))
  {
    hide EventsOf, StrictPrefix;
    var n := |log| - 1;
    if log[n].recordId == j {
      if k < n {
        assert ExtendsPublished(env, log[..n], subject, log[n].prepared);
        assert log[..n][k] == log[k];
      }
    } else {
      forall i | 0 <= i < n
        ensures ExtendsPublished(env, log[..n][..i], Lower(log[..n][i].prepared.subjectId), log[..n][i].prepared)
      {
        assert log[..n][..i] == log[..i];
        assert ExtendsPublished(env, log[..i], Lower(log[i].prepared.subjectId), log[i].prepared);
      }
      assert log[..n][k] == log[k];
      LatestExtendsEarlier(env, log[..n], j, k, subject);
    }
  }

  /** A candidate that strictly extends the record's current chain extends all published before it. */
  lemma {:induction false} SuccessorExtendsAll(rt: Runtime, h: Hub, j: nat, p: Prepared)
    requires Laws(rt) && LogStands(rt, h) && RecordsStand(h) && ChainsGrow(rt.env, h.log)
    requires j < |h.records| && h.records[j].subjectId == p.subjectId
    requires IsStrictSuccessor(rt.env, h.archive, h.records[j], p.eventChainBuffer)
    ensures ExtendsPublished(rt.env, h.log, p.subjectId, p)
  {
    hide Laws, PrepareUpload, ZipIn, StrictPrefix, ChainsGrow;
    assert RecordStands(h, j);
    var latest := Latest(h.log, j).value;
    LatestIsLogged(h.log, j);
    var n :| 0 <= n < |h.log| && h.log[n] == latest;
    assert EntryStands(rt, h, h.log[n]);
    assert StrictPrefix(EventsOf(rt.env, latest.prepared), EventsOf(rt.env, p));
    forall k | 0 <= k < |h.log| && SameSubject(h.log[k].prepared, p.subjectId)
      ensures StrictPrefix(EventsOf(rt.env, h.log[k].prepared), EventsOf(rt.env, p))
    {
      assert h.log[k].recordId == j;
      LatestExtendsEarlier(rt.env, h.log, j, k, p.subjectId);
      if h.log[k] != latest {
        PrefixesChain(EventsOf(rt.env, h.log[k].prepared), EventsOf(rt.env, latest.prepared), EventsOf(rt.env, p));
      }
    }
  }

  lemma {:induction false} CheckAdmitsExtensions(rt: Runtime, h: Hub, task: Task, fails: bool, order: seq<string>,
          now: int)
    requires Laws(rt) && Base(rt, h) && LogStands(rt, h) && RecordsStand(h) && ChainsGrow(rt.env, h.log)
      && TaskStands(rt, h, task)
    requires Admitted(task) ==> ExtendsPublished(rt.env, h.log, task.prepared.subjectId, task.prepared)
    ensures var m := Advance(rt, h, task, fails, order, now);
      m.next.Some? && Admitted(m.next.value) ==>
        ExtendsPublished(rt.env, h.log, m.next.value.prepared.subjectId, m.next.value.prepared)
  {
    hide Laws, PrepareUpload, Base, LogStands, ChainsGrow, IsStrictSuccessor, Execute, Insert, PutPackage, PutChain,
      UpsertRecord, HasPending, IsReferenced, HasAvailable, HasPendingSubject, ExtendsPublished, RecordOf;
    if task.Checking? {
      var p := task.prepared;
      var existing := RecordOf(h.records, p.subjectId);
      RecordOfFinds(h.records, p.subjectId);
      if existing.None? {
        NoRecordNoPublication(rt, h, p);
      } else if IsStrictSuccessor(rt.env, h.archive, h.records[existing.value], p.eventChainBuffer) {
        SuccessorExtendsAll(rt, h, existing.value, p);
      }
    }
  }

  lemma {:induction false} NoRecordNoPublication(rt: Runtime, h: Hub, p: Prepared)
    requires RecordsStand(h) && forall j :: 0 <= j < |h.records| ==> h.records[j].subjectId != p.subjectId
    ensures ExtendsPublished(rt.env, h.log, p.subjectId, p)
  {
  }

  // ---------------------------------------------------------------- one step

  /** Steps that publish nothing: rows may appear only through an admitted task. */
  lemma {:induction false} RowsKeepExtending(rt: Runtime, h: Hub, after: Hub)
    requires ActiveRowsExtend(rt, h) && Grows(rt, h, after) && after.log == h.log && |h.contents| == |h.uploads|
    requires |after.uploads| > |h.uploads| ==>
      |after.uploads| == |h.uploads| + 1 == |after.contents| && forall p :: StagedAs(rt, after, |h.uploads|, p) ==>
        ExtendsPublished(rt.env, h.log, after.uploads[|h.uploads|].subjectId, p)
    ensures ActiveRowsExtend(rt, after)
  {
    hide PrepareUpload, ExtendsPublished, ArchiveGrows;
    forall i, p | 0 <= i < |after.uploads| && Active(after.uploads[i]) && StagedAs(rt, after, i, p)
      ensures ExtendsPublished(rt.env, after.log, after.uploads[i].subjectId, p)
    {
      if i < |h.uploads| {
        assert SameIdentity(h.uploads[i], after.uploads[i]) && StagedAs(rt, h, i, p);
      }
    }
  }

  /** Only an admitted task adds a row, for the bytes it prepared. */
  lemma {:induction false} NewRowsAreAdmitted(rt: Runtime, h: Hub, s: Step, now: int)
    requires Laws(rt) && Base(rt, h)
    ensures var after := Promotion.Take(rt, h, s, now);
      |after.uploads| != |h.uploads| ==>
        && s.Resume? && s.task in h.tasks && h.tasks[s.task].Stored?
        && |after.uploads| == |h.uploads| + 1 == |after.contents|
        && StagedAs(rt, after, |h.uploads|, h.tasks[s.task].prepared)
        && after.uploads[|h.uploads|].subjectId == h.tasks[s.task].prepared.subjectId
  {
    hide PrepareUpload, Laws, Execute, Insert, PutPackage, PutChain, UpsertRecord, HasPending, IsReferenced,
      IsStrictSuccessor, HasAvailable, HasPendingSubject, RecordOf, RecordIdFor, Publishable, Claims,
      HasOnlyMissingAnchorEvidence, PassesVerification, RowsStand, ActiveUnique;
    match s
    case Claim(t, id, _, _, _) => ExecuteEvolves(rt.limits, h.uploads, ClaimStatement(s), now);
    case Sweep(chosen) => ExecuteEvolves(rt.limits, h.uploads, ExpireBatch(chosen), now);
    case Resume(t, fails, order) => if t in h.tasks { NewRowIsStored(rt, h, h.tasks[t], fails, order, now); }
    case _ =>
  }

  lemma {:induction false} NewRowIsStored(rt: Runtime, h: Hub, task: Task, fails: bool, order: seq<string>, now: int)
    requires Laws(rt) && Base(rt, h) && TaskStands(rt, h, task)
    ensures var after := Advance(rt, h, task, fails, order, now).hub;
      |after.uploads| != |h.uploads| ==>
        && task.Stored? && |after.uploads| == |h.uploads| + 1 == |after.contents|
        && StagedAs(rt, after, |h.uploads|, task.prepared)
        && after.uploads[|h.uploads|].subjectId == task.prepared.subjectId
  {
    hide PrepareUpload, Laws, Execute, Insert, ActiveUnique;
    if task.Stored? {
      var b, p := task.buffer, task.prepared;
      if !fails && Insert(rt.limits, h.uploads, NewUploadOf(p, b), now).Ok? {
        InsertGrows(rt, h, b, p, now);
        assert IsPrepared(rt.env, p);
        PreparedFacts(rt, p);
      }
    } else {
      hide Advance;
      TaskIssues(rt, h, task, fails, order, now);
      var s := TaskStatement(rt, h, task, fails, now);
      if s.Some? { ExecuteEvolves(rt.limits, h.uploads, s.value, now); }
    }
  }

  lemma {:induction false} QuietStepKeepsGrowth(rt: Runtime, h: Hub, s: Step, now: int)
    requires Laws(rt) && Base(rt, h) && LogStands(rt, h) && RecordsStand(h) && GrowthStands(rt, h)
      && !Publishes(h, s, now)
    ensures GrowthStands(rt, Promotion.Take(rt, h, s, now))
  {
    hide PrepareUpload, Laws, LogStands, ChainsGrow, ExtendsPublished, Grows, Execute, Advance;
    var after := Promotion.Take(rt, h, s, now);
    OtherStepsKeepHistory(rt, h, s, now);
    TakeKeepsBase(rt, h, s, now);
    NewRowsAreAdmitted(rt, h, s, now);
    assert |h.contents| == |h.uploads|;
    RowsKeepExtending(rt, h, after);
    if s.Resume? && s.task in h.tasks {
      CheckAdmitsExtensions(rt, h, h.tasks[s.task], s.fails, s.order, now);
    }
  }

  lemma {:induction false} LogGrows(env: Environment, log: seq<Publication>, e: Publication)
    requires ChainsGrow(env, log) && ExtendsPublished(env, log, Lower(e.prepared.subjectId), e.prepared)
    ensures ChainsGrow(env, log + [e])
  {
    hide EventsOf, StrictPrefix;
    forall k | 0 <= k < |log + [e]|
      ensures ExtendsPublished(env, (log + [e])[..k], Lower((log + [e])[k].prepared.subjectId), (log + [e])[k].prepared)
    {
      if k < |log| {
        assert (log + [e])[..k] == log[..k];
        assert ExtendsPublished(env, log[..k], Lower(log[k].prepared.subjectId), log[k].prepared);
      } else {
        assert (log + [e])[..k] == log;
      }
    }
  }

  /** A publication leaves the other subjects' obligations as they were. */
  lemma {:induction false} OtherSubjectsUnaffected(env: Environment, log: seq<Publication>, e: Publication,
          subject: string, p: Prepared)
    requires ExtendsPublished(env, log, subject, p) && !SameSubject(e.prepared, subject)
    ensures ExtendsPublished(env, log + [e], subject, p)
  {
  }

  lemma {:induction false} PublicationKeepsGrowth(rt: Runtime, h: Hub, s: Step, now: int)
    requires Laws(rt) && Base(rt, h) && GrowthStands(rt, h) && Publishes(h, s, now) && Apart(h, s, now)
    ensures GrowthStands(rt, Promotion.Take(rt, h, s, now))
  {
    hide PrepareUpload, Laws, ChainsGrow, ExtendsPublished, Execute, ZipIn, ChainIn, EventsOf, UpsertRecord,
      RecordIdFor, Assign, ChainsMatchDigests, Lower;
    var after, a := Promotion.Take(rt, h, s, now), h.tasks[s.task].judged;
    PublishingStep(rt, h, s, now);
    assert TaskStands(rt, h, h.tasks[s.task]);
    var e := after.log[|h.log|];
    assert Active(h.uploads[a.id]);
    PublishedRowSubject(rt, h, a);
    LogGrows(rt.env, h.log, e);
    EndedRow(rt, h.uploads, Publish(a.id), now, a.id);
    ExecuteEvolves(rt.limits, h.uploads, Publish(a.id), now);
    forall i, p | 0 <= i < |after.uploads| && Active(after.uploads[i]) && StagedAs(rt, after, i, p)
      ensures ExtendsPublished(rt.env, after.log, after.uploads[i].subjectId, p)
    {
      assert SameIdentity(h.uploads[i], after.uploads[i]) && StagedAs(rt, h, i, p);
      assert h.uploads[i].subjectId != h.uploads[a.id].subjectId;
      OtherSubjectsUnaffected(rt.env, h.log, e, h.uploads[i].subjectId, p);
    }
    forall t | t in after.tasks && Admitted(after.tasks[t])
      ensures ExtendsPublished(rt.env, after.log, after.tasks[t].prepared.subjectId, after.tasks[t].prepared)
    {
      assert t != s.task ==> after.tasks[t] == h.tasks[t];
      OtherSubjectsUnaffected(rt.env, h.log, e, after.tasks[t].prepared.subjectId, after.tasks[t].prepared);
    }
  }

  lemma {:induction false} PublishedRowSubject(rt: Runtime, h: Hub, a: Judged)
    requires Laws(rt) && RowsStand(rt, h) && AcceptedStands(rt, h, a)
    ensures h.uploads[a.id].subjectId == Lower(a.prepared.subjectId) == a.prepared.subjectId
  {
    hide PrepareUpload, Laws;
    assert RowStands(rt, h.uploads[a.id], h.contents[a.id]);
    assert IsPrepared(rt.env, a.prepared);
    PreparedFacts(rt, a.prepared);
  }

  lemma {:induction false} GrowthHolds(rt: Runtime, run: seq<Timed>)
    requires Laws(rt) && NonOverlapping(rt, run)
    ensures GrowthStands(rt, AfterRun(rt, run))
  {
    hide Laws, GrowthStands, Promotion.Take, Apart;
    if run == [] {
      NothingGrows(rt);
    } else {
      var n := |run| - 1;
      var before, last := run[..n], run[n];
      assert forall k :: 0 <= k < n ==> before[..k] == run[..k] && before[k] == run[k];
      GrowthHolds(rt, before);
      BaseHolds(rt, before);
      HistoryHolds(rt, before);
      assert Apart(AfterRun(rt, run[..n]), last.step, last.now);
      if Publishes(AfterRun(rt, before), last.step, last.now) {
        PublicationKeepsGrowth(rt, AfterRun(rt, before), last.step, last.now);
      } else {
        QuietStepKeepsGrowth(rt, AfterRun(rt, before), last.step, last.now);
      }
    }
  }

  lemma {:induction false} NothingGrows(rt: Runtime)
    ensures GrowthStands(rt, NOTHING)
  {
  }

  /** In every run in which check-and-stage of a subject never overlaps a publication of it: of any
      two publications of one subject the later one's chain strictly extends the earlier one's, and
      every active row's chain strictly extends all that was published for its subject. */
  lemma {:induction false} PublishedChainsOnlyGrow(rt: Runtime, run: seq<Timed>, i: nat, k: nat)
    requires Laws(rt) && NonOverlapping(rt, run)
    requires i < k < |AfterRun(rt, run).log|
    requires Lower(AfterRun(rt, run).log[i].prepared.subjectId) == Lower(AfterRun(rt, run).log[k].prepared.subjectId)
    ensures var h := AfterRun(rt, run);
      && StrictPrefix(EventsOf(rt.env, h.log[i].prepared), EventsOf(rt.env, h.log[k].prepared))
      && ActiveRowsExtend(rt, h)
      && var earlier, later := rt.env.parseChain(h.log[i].prepared.eventChainBuffer),
                               rt.env.parseChain(h.log[k].prepared.eventChainBuffer);
        && earlier.Some? && later.Some? && |earlier.value.events| < |later.value.events|
        && forall n :: 0 <= n < |earlier.value.events| ==> earlier.value.events[n] == later.value.events[n]
  {
    hide Laws, AfterRun, ZipIn, ChainIn, PrepareUpload, ActiveRowsExtend;
    HistoryHolds(rt, run);
    ChainOfEntry(rt, AfterRun(rt, run), i);
    ChainOfEntry(rt, AfterRun(rt, run), k);
    GrowthHolds(rt, run);
    var h := AfterRun(rt, run);
    assert ExtendsPublished(rt.env, h.log[..k], Lower(h.log[k].prepared.subjectId), h.log[k].prepared);
    assert h.log[..k][i] == h.log[i];
  }

  lemma {:induction false} ChainOfEntry(rt: Runtime, h: Hub, k: nat)
    requires Laws(rt) && LogStands(rt, h) && k < |h.log|
    ensures rt.env.parseChain(h.log[k].prepared.eventChainBuffer).Some?
  {
    hide Laws, ZipIn, ChainIn, PrepareUpload;
    assert EntryStands(rt, h, h.log[k]);
    StagedIsPrepared(rt, h, h.log[k].uploadId, h.log[k].prepared);
    PreparedFacts(rt, h.log[k].prepared);
  }

  // ---------------------------------------------------------------- the check at publication

  /** The check an upload passes before it is staged, here for any moment: its subject has no record
      yet, or its chain strictly extends the chain stored for that record. */
  predicate PassesSuccessorCheck(rt: Runtime, h: Hub, p: Prepared) {
    var existing := RecordOf(h.records, p.subjectId);
    existing.Some? && existing.value < |h.records| ==>
      IsStrictSuccessor(rt.env, h.archive, h.records[existing.value], p.eventChainBuffer)
  }

  lemma {:induction false} CheckMeansExtension(rt: Runtime, h: Hub, p: Prepared)
    requires Laws(rt) && LogStands(rt, h) && RecordsStand(h) && ChainsGrow(rt.env, h.log) && IsPrepared(rt.env, p)
    ensures PassesSuccessorCheck(rt, h, p) <==> ExtendsPublished(rt.env, h.log, p.subjectId, p)
  {
    hide Laws, PrepareUpload, LogStands, ChainsGrow, IsStrictSuccessor, ExtendsPublished, IsPrepared, RecordsStand;
    RecordOfFinds(h.records, p.subjectId);
    var existing := RecordOf(h.records, p.subjectId);
    if existing.None? {
      NoRecordNoPublication(rt, h, p);
    } else {
      if IsStrictSuccessor(rt.env, h.archive, h.records[existing.value], p.eventChainBuffer) {
        SuccessorExtendsAll(rt, h, existing.value, p);
      }
      if ExtendsPublished(rt.env, h.log, p.subjectId, p) {
        ExtensionIsSuccessor(rt, h, existing.value, p);
      }
    }
  }

  lemma {:induction false} ExtensionIsSuccessor(rt: Runtime, h: Hub, j: nat, p: Prepared)
    requires Laws(rt) && LogStands(rt, h) && RecordsStand(h) && IsPrepared(rt.env, p)
    requires j < |h.records| && h.records[j].subjectId == p.subjectId && ExtendsPublished(rt.env, h.log, p.subjectId, p)
    ensures IsStrictSuccessor(rt.env, h.archive, h.records[j], p.eventChainBuffer)
  {
    hide Laws, PrepareUpload, ZipIn, StrictPrefix, IsPrepared;
    assert RecordStands(h, j);
    LatestIsLogged(h.log, j);
    var n :| 0 <= n < |h.log| && h.log[n] == Latest(h.log, j).value && h.log[n].recordId == j;
    assert EntryStands(rt, h, h.log[n]);
    StagedIsPrepared(rt, h, h.log[n].uploadId, h.log[n].prepared);
    PreparedFacts(rt, h.log[n].prepared);
    PreparedFacts(rt, p);
    assert SameSubject(h.log[n].prepared, p.subjectId);
    assert StrictPrefix(EventsOf(rt.env, h.log[n].prepared), EventsOf(rt.env, p));
  }

  lemma {:induction false} StagedIsPrepared(rt: Runtime, h: Hub, id: nat, p: Prepared)
    requires StagedAs(rt, h, id, p)
    ensures IsPrepared(rt.env, p)
  {
    hide PrepareUpload;
  }

  /** In any run whose publications have grown so far, the next one keeps them growing if and only if
      its chain passes, at that very moment, the successor check it passed before it was staged. To
      repeat that check inside the publication transaction is exactly what is missing. */
  lemma {:induction false} PublishingGrowsExactlyWhenItSucceeds(rt: Runtime, run: seq<Timed>, s: Step, now: int)
    requires Laws(rt) && ChainsGrow(rt.env, AfterRun(rt, run).log) && Publishes(AfterRun(rt, run), s, now)
    ensures var h := AfterRun(rt, run);
      var p := h.tasks[s.task].judged.prepared;
      ChainsGrow(rt.env, Promotion.Take(rt, h, s, now).log) <==> PassesSuccessorCheck(rt, h, p)
  {
    hide Laws, ExtendsPublished, Promotion.Take, AfterRun, PassesSuccessorCheck, LogStands, RecordsStand, RowsStand,
      ActiveUnique, ZipIn, ChainIn, ChainsMatchDigests, PrepareUpload, IsPrepared;
    var h := AfterRun(rt, run);
    BaseHolds(rt, run);
    HistoryHolds(rt, run);
    PublishingStep(rt, h, s, now);
    var p := h.tasks[s.task].judged.prepared;
    var after := Promotion.Take(rt, h, s, now).log;
    assert TaskStands(rt, h, h.tasks[s.task]);
    StagedIsPrepared(rt, h, h.tasks[s.task].judged.id, p);
    PreparedFacts(rt, p);
    CheckMeansExtension(rt, h, p);
    if ExtendsPublished(rt.env, h.log, p.subjectId, p) {
      LogGrows(rt.env, h.log, after[|h.log|]);
    }
    if ChainsGrow(rt.env, after) {
      assert after[..|h.log|] == h.log;
      assert ExtendsPublished(rt.env, after[..|h.log|], Lower(after[|h.log|].prepared.subjectId),
        after[|h.log|].prepared);
    }
  }

  /** This step publishes nothing, or a chain that passes the successor check at this moment. */
  predicate Succeeds(rt: Runtime, h: Hub, s: Step, now: int) {
    Publishes(h, s, now) ==> PassesSuccessorCheck(rt, h, h.tasks[s.task].judged.prepared)
  }

  ghost predicate SucceedingRun(rt: Runtime, run: seq<Timed>) {
    forall k :: 0 <= k < |run| ==> Succeeds(rt, AfterRun(rt, run[..k]), run[k].step, run[k].now)
  }

  lemma {:induction false} GrowthWasThere(env: Environment, log: seq<Publication>, e: Publication)
    requires ChainsGrow(env, log + [e])
    ensures ChainsGrow(env, log)
  {
    hide EventsOf, StrictPrefix;
    forall k | 0 <= k < |log|
      ensures ExtendsPublished(env, log[..k], Lower(log[k].prepared.subjectId), log[k].prepared)
    {
      assert (log + [e])[..k] == log[..k] && (log + [e])[k] == log[k];
    }
  }

  /** Over whole runs: the chains published for each subject only grow if and only if every publication
      passes the successor check at the moment it is made. */
  lemma {:induction false} ChainsGrowExactlyWhenAllSucceed(rt: Runtime, run: seq<Timed>)
    requires Laws(rt)
    ensures ChainsGrow(rt.env, AfterRun(rt, run).log) <==> SucceedingRun(rt, run)
  {
    hide Laws, ChainsGrow, Promotion.Take, Succeeds;
    if run == [] {
      NothingGrows(rt);
    } else {
      var n := |run| - 1;
      var before, last := run[..n], run[n];
      ChainsGrowExactlyWhenAllSucceed(rt, before);
      SucceedingSplits(rt, run);
      StepGrowsExactlyWhenItSucceeds(rt, before, last.step, last.now);
    }
  }

  lemma {:induction false} SucceedingSplits(rt: Runtime, run: seq<Timed>)
    requires run != []
    ensures var n := |run| - 1;
      SucceedingRun(rt, run) <==>
        SucceedingRun(rt, run[..n]) && Succeeds(rt, AfterRun(rt, run[..n]), run[n].step, run[n].now)
  {
    hide AfterRun, Succeeds;
    var n := |run| - 1;
    assert forall k :: 0 <= k < n ==> run[..n][..k] == run[..k] && run[..n][k] == run[k];
    if SucceedingRun(rt, run[..n]) && Succeeds(rt, AfterRun(rt, run[..n]), run[n].step, run[n].now) {
      forall k | 0 <= k < |run| ensures Succeeds(rt, AfterRun(rt, run[..k]), run[k].step, run[k].now) {
        if k < n { assert Succeeds(rt, AfterRun(rt, run[..n][..k]), run[..n][k].step, run[..n][k].now); }
      }
    }
    if SucceedingRun(rt, run) {
      forall k | 0 <= k < n ensures Succeeds(rt, AfterRun(rt, run[..n][..k]), run[..n][k].step, run[..n][k].now) {
        assert Succeeds(rt, AfterRun(rt, run[..k]), run[k].step, run[k].now);
      }
    }
  }

  lemma {:induction false} StepGrowsExactlyWhenItSucceeds(rt: Runtime, before: seq<Timed>, s: Step, now: int)
    requires Laws(rt)
    ensures var h := AfterRun(rt, before);
      ChainsGrow(rt.env, Promotion.Take(rt, h, s, now).log) <==> ChainsGrow(rt.env, h.log) && Succeeds(rt, h, s, now)
  {
    hide Laws, ChainsGrow, Promotion.Take, AfterRun, PassesSuccessorCheck;
    var h := AfterRun(rt, before);
    if Publishes(h, s, now) {
      PublishingStep(rt, h, s, now);
      var after := Promotion.Take(rt, h, s, now).log;
      if ChainsGrow(rt.env, after) { GrowthWasThere(rt.env, h.log, after[|h.log|]); }
      if ChainsGrow(rt.env, h.log) { PublishingGrowsExactlyWhenItSucceeds(rt, before, s, now); }
    } else {
      OtherStepsKeepHistory(rt, h, s, now);
    }
  }
}
