/** The Hub's tables as seen by the table-level theorems: every run of interleaved tasks is a run of
    statements on the uploads table and a run of assignments to the owner table. */
module HubProofs {
  import opened Basics
  import opened Bundles
  import opened Storage
  import opened Uploads
  import opened Ownership
  import opened Promotion
  import opened PromotionProofs
  import opened PublicationProofs

  function StatementOf(rt: Runtime, h: Hub, s: Step, now: int): Option<Statement> {
    match s
    case Claim(t, id, _, _, _) => if t in h.tasks || !Claims(h.uploads, ClaimStatement(s), id, now) then None
      else Some(ClaimStatement(s))
    case Sweep(chosen) => Some(ExpireBatch(chosen))
    case Resume(t, fails, _) => if t in h.tasks then TaskStatement(rt, h, h.tasks[t], fails, now) else None
    case _ => None
  }

  function Statements(rt: Runtime, run: seq<Timed>): seq<Issued> {
    if run == [] then []
    else
      var before, last := run[..|run| - 1], run[|run| - 1];
      var s := StatementOf(rt, AfterRun(rt, before), last.step, last.now);
      Statements(rt, before) + if s.Some? then [Issued(s.value, last.now)] else []
  }

  function PublishedRows(log: seq<Publication>): seq<nat> {
    seq(|log|, k requires 0 <= k < |log| => log[k].uploadId)
  }

  function Assignments(log: seq<Publication>): seq<Assignment> {
    seq(|log|, k requires 0 <= k < |log| => AssignmentOf(log[k].recordId, log[k].replay))
  }

  lemma {:induction false} ClaimedRowExists(limits: Limits, rows: Table, s: Statement, id: nat, now: int)
    requires Claims(rows, s, id, now)
    ensures id < |Execute(limits, rows, s, now)|
  {
  }

  lemma {:induction false} StepIssues(rt: Runtime, h: Hub, s: Step, now: int)
    ensures var i := StatementOf(rt, h, s, now);
      Promotion.Take(rt, h, s, now).uploads == if i.Some? then Execute(rt.limits, h.uploads, i.value, now)
        else h.uploads
  {
    hide Advance, Execute, TaskStatement, Claims;
    match s
    case Resume(t, fails, order) => if t in h.tasks { TaskIssues(rt, h, h.tasks[t], fails, order, now); }
    case Claim(t, id, _, _, _) => if Claims(h.uploads, ClaimStatement(s), id, now)
      { ClaimedRowExists(rt.limits, h.uploads, ClaimStatement(s), id, now); }
    case _ =>
  }

  lemma {:induction false} StatementPublishes(rt: Runtime, h: Hub, s: Step, now: int)
    ensures var i := StatementOf(rt, h, s, now);
      i.Some? && i.value.Publish? && Publishable(h.uploads, i.value.id, now) <==> Publishes(h, s, now)
    ensures Publishes(h, s, now) ==> StatementOf(rt, h, s, now) == Some(Publish(h.tasks[s.task].judged.id))
  {
    hide Insert, Publishable, Claims;
  }

  lemma {:induction false} IssuedAppends(limits: Limits, issued: seq<Issued>, i: Issued)
    ensures After(limits, [], issued + [i]) == Execute(limits, After(limits, [], issued), i.statement, i.now)
    ensures PublishedBy(limits, [], issued + [i]) == PublishedBy(limits, [], issued) +
      if i.statement.Publish? && Publishable(After(limits, [], issued), i.statement.id, i.now) then [i.statement.id]
        else []
  {
    assert (issued + [i])[..|issued|] == issued;
  }

  lemma {:induction false} AssignmentsAppend(run: seq<Assignment>, a: Assignment)
    ensures AfterAssignments(run + [a]) == Assign(AfterAssignments(run), a)
  {
    assert (run + [a])[..|run|] == run;
  }

  /** Every run of the protocol is, table by table, a run of the statements it issues: the uploads
      table is theirs, its log lists exactly the rows they published, and the owner table is what the
      logged publications assigned. */
  lemma {:induction false} HubRunsAreStatementRuns(rt: Runtime, run: seq<Timed>)
    ensures var h := AfterRun(rt, run);
      && h.uploads == After(rt.limits, [], Statements(rt, run))
      && PublishedRows(h.log) == PublishedBy(rt.limits, [], Statements(rt, run))
      && h.owners == AfterAssignments(Assignments(h.log))
  {
    hide Promotion.Take, Execute, StatementOf, Publishes, Assign, Publishable;
    if run != [] {
      var before, last := run[..|run| - 1], run[|run| - 1];
      HubRunsAreStatementRuns(rt, before);
      var h, after := AfterRun(rt, before), AfterRun(rt, run);
      var s := StatementOf(rt, h, last.step, last.now);
      StepIssues(rt, h, last.step, last.now);
      StatementPublishes(rt, h, last.step, last.now);
      if s.Some? {
        IssuedAppends(rt.limits, Statements(rt, before), Issued(s.value, last.now));
      } else {
        assert Statements(rt, before) + [] == Statements(rt, before);
      }
      var rows := PublishedRows(h.log);
      assert rows + [] == rows;
      if Publishes(h, last.step, last.now) {
        LoggedStep(rt, h, last.step, last.now);
      } else {
        OtherStepsKeepHistory(rt, h, last.step, last.now);
      }
    }
  }

  lemma {:induction false} LoggedStep(rt: Runtime, h: Hub, s: Step, now: int)
    requires Publishes(h, s, now) && h.owners == AfterAssignments(Assignments(h.log))
    ensures var after := Promotion.Take(rt, h, s, now);
      && PublishedRows(after.log) == PublishedRows(h.log) + [h.tasks[s.task].judged.id]
      && after.owners == AfterAssignments(Assignments(after.log))
  {
    hide Promotion.Take, Assign, Publishable, AfterAssignments, RecordIdFor, Execute, UpsertRecord;
    PublishingStep(rt, h, s, now);
    var after := Promotion.Take(rt, h, s, now);
    var e := after.log[|h.log|];
    AssignmentsAppend(Assignments(h.log), AssignmentOf(e.recordId, e.replay));
    assert Assignments(after.log) == Assignments(h.log) + [AssignmentOf(e.recordId, e.replay)];
  }

  /** So in every reachable state of the protocol the quarantine budgets hold, active rows are unique
      by digest and by subject, no row was published twice, and an owner state's version is one plus
      the number of times the published owner, account or last event changed. */
  lemma {:induction false} TableTheoremsHoldOfTheHub(rt: Runtime, run: seq<Timed>, recordId: nat)
    ensures var h := AfterRun(rt, run);
      && WithinBudget(rt.limits, h.uploads) && ActiveUnique(h.uploads)
      && Uploads.Distinct(PublishedRows(h.log))
      && (recordId in h.owners ==>
            h.owners[recordId].version == 1 + Changes(History(Assignments(h.log), recordId)))
  {
    hide AfterRun, After, PublishedBy;
    HubRunsAreStatementRuns(rt, run);
    BudgetAndUniquenessAlwaysHold(rt.limits, Statements(rt, run));
    PublishedRowsAreDone(rt.limits, [], Statements(rt, run));
    VersionCountsChanges(Assignments(AfterRun(rt, run).log), recordId);
  }

  // ---------------------------------------------------------------- what becomes of a published upload

  /** Step k of the run publishes row id. */
  ghost predicate PublishingStepAt(rt: Runtime, run: seq<Timed>, k: nat, id: nat) {
    k < |run| && var h := AfterRun(rt, run[..k]);
      Publishes(h, run[k].step, run[k].now) && h.tasks[run[k].step.task].judged.id == id
  }

  /** Step k of the run resumes a task that rejects row id. */
  ghost predicate RejectingStepAt(rt: Runtime, run: seq<Timed>, k: nat, id: nat) {
    k < |run| && var h, s := AfterRun(rt, run[..k]), run[k].step;
      s.Resume? && s.task in h.tasks && h.tasks[s.task].Rejecting? && h.tasks[s.task].id == id && !s.fails
  }

  ghost predicate RejectedLater(rt: Runtime, run: seq<Timed>, id: nat) {
    exists k: nat, j: nat :: k < j && PublishingStepAt(rt, run, k, id) && RejectingStepAt(rt, run, j, id)
  }

  lemma {:induction false} StepsOfPrefix(rt: Runtime, run: seq<Timed>, n: nat, k: nat, id: nat)
    requires k < n <= |run|
    ensures PublishingStepAt(rt, run, k, id) == PublishingStepAt(rt, run[..n], k, id)
    ensures RejectingStepAt(rt, run, k, id) == RejectingStepAt(rt, run[..n], k, id)
  {
    hide AfterRun, Publishes;
    assert run[..n][..k] == run[..k];
  }

  lemma {:induction false} RejectingIssuesReject(rt: Runtime, h: Hub, s: Step, now: int, id: nat)
    ensures var i := StatementOf(rt, h, s, now);
      (i.Some? && i.value.Reject? && i.value.id == id) <==>
        s.Resume? && s.task in h.tasks && h.tasks[s.task].Rejecting? && h.tasks[s.task].id == id && !s.fails
  {
    hide Insert, Publishable, Claims;
  }

  lemma {:induction false} LoggedAtSomeStep(rt: Runtime, run: seq<Timed>, k: nat)
    requires k < |AfterRun(rt, run).log|
    ensures exists j: nat :: PublishingStepAt(rt, run, j, AfterRun(rt, run).log[k].uploadId)
  {
    hide Promotion.Take, Publishes;
    var n := |run| - 1;
    var h, last := AfterRun(rt, run[..n]), run[n];
    if k < |h.log| {
      LoggedAtSomeStep(rt, run[..n], k);
      var j: nat :| PublishingStepAt(rt, run[..n], j, h.log[k].uploadId);
      StepsOfPrefix(rt, run, n, j, h.log[k].uploadId);
      LogOnlyGrows(rt, h, last.step, last.now);
      assert AfterRun(rt, run).log[k] == h.log[k];
    } else {
      LogOnlyGrows(rt, h, last.step, last.now);
      assert PublishingStepAt(rt, run, n, AfterRun(rt, run).log[k].uploadId);
    }
  }

  lemma {:induction false} LogOnlyGrows(rt: Runtime, h: Hub, s: Step, now: int)
    ensures var after := Promotion.Take(rt, h, s, now);
      if Publishes(h, s, now) then
        |after.log| == |h.log| + 1 && h.log <= after.log && after.log[|h.log|].uploadId == h.tasks[s.task].judged.id
      else after.log == h.log
  {
    hide Promotion.Take, Publishable;
    if Publishes(h, s, now) { PublishingStep(rt, h, s, now); } else { OtherStepsKeepHistory(rt, h, s, now); }
  }

  lemma {:induction false} OneMoreStepRejects(rt: Runtime, run: seq<Timed>, before: seq<Timed>, id: nat)
    requires run != [] && before == run[..|run| - 1] && exists k: nat :: PublishingStepAt(rt, before, k, id)
    ensures RejectedLater(rt, run, id) <==>
      RejectedLater(rt, before, id) || RejectingStepAt(rt, run, |run| - 1, id)
  {
    hide PublishingStepAt, RejectingStepAt;
    var n := |run| - 1;
    forall k: nat | k < n
      ensures PublishingStepAt(rt, run, k, id) == PublishingStepAt(rt, run[..n], k, id)
      ensures RejectingStepAt(rt, run, k, id) == RejectingStepAt(rt, run[..n], k, id)
    {
      StepsOfPrefix(rt, run, n, k, id);
    }
    StepsAreInRange(rt, run, id);
    StepsAreInRange(rt, run[..n], id);
    if RejectedLater(rt, run, id) {
      var k: nat, j: nat :| k < j && PublishingStepAt(rt, run, k, id) && RejectingStepAt(rt, run, j, id);
      if j < n { assert PublishingStepAt(rt, run[..n], k, id) && RejectingStepAt(rt, run[..n], j, id); }
    }
    if RejectedLater(rt, run[..n], id) {
      var k: nat, j: nat :| k < j && PublishingStepAt(rt, run[..n], k, id) && RejectingStepAt(rt, run[..n], j, id);
      assert PublishingStepAt(rt, run, k, id) && RejectingStepAt(rt, run, j, id);
    }
    if RejectingStepAt(rt, run, n, id) {
      var k: nat :| k < n && PublishingStepAt(rt, run[..n], k, id);
      assert PublishingStepAt(rt, run, k, id);
    }
  }

  lemma {:induction false} StepsAreInRange(rt: Runtime, run: seq<Timed>, id: nat)
    ensures forall k: nat :: PublishingStepAt(rt, run, k, id) || RejectingStepAt(rt, run, k, id) ==> k < |run|
  {
  }

  /** In every run of the protocol an upload that was published is available if and only if no promotion
      rejected it after its publication; otherwise it is rejected. */
  lemma {:induction false} PublishedUploadStaysAvailableExactlyWhen(rt: Runtime, run: seq<Timed>, k: nat)
    requires Laws(rt) && k < |AfterRun(rt, run).log|
    ensures var h, id := AfterRun(rt, run), AfterRun(rt, run).log[k].uploadId;
      id < |h.uploads| && h.uploads[id].status == if RejectedLater(rt, run, id) then Rejected else Available
  {
    hide Laws, Promotion.Take, Publishes, Execute, StatementOf, RejectedLater, PublishingStepAt, RejectingStepAt;
    var n := |run| - 1;
    var h, last := AfterRun(rt, run[..n]), run[n];
    var id := AfterRun(rt, run).log[k].uploadId;
    LogOnlyGrows(rt, h, last.step, last.now);
    StepIssues(rt, h, last.step, last.now);
    if k < |h.log| {
      assert AfterRun(rt, run).log[k] == h.log[k];
      PublishedUploadStaysAvailableExactlyWhen(rt, run[..n], k);
      LoggedAtSomeStep(rt, run[..n], k);
      StepsAreInRange(rt, run[..n], id);
      OneMoreStepRejects(rt, run, run[..n], id);
      LastRejects(rt, run, id);
      var s := StatementOf(rt, h, last.step, last.now);
      if s.Some? { DoneRowMoves(rt.limits, h.uploads, s.value, last.now, id); }
    } else {
      FirstPublication(rt, run, k);
    }
  }

  lemma {:induction false} LastRejects(rt: Runtime, run: seq<Timed>, id: nat)
    requires run != []
    ensures var n := |run| - 1;
      var s := StatementOf(rt, AfterRun(rt, run[..n]), run[n].step, run[n].now);
      RejectingStepAt(rt, run, n, id) <==> s.Some? && s.value.Reject? && s.value.id == id
  {
    hide AfterRun, StatementOf;
    RejectingIssuesReject(rt, AfterRun(rt, run[..|run| - 1]), run[|run| - 1].step, run[|run| - 1].now, id);
  }

  /** Right after its publication a row is available: no step before it can have published it. */
  lemma {:induction false} FirstPublication(rt: Runtime, run: seq<Timed>, k: nat)
    requires Laws(rt) && run != [] && |AfterRun(rt, run[..|run| - 1]).log| == k < |AfterRun(rt, run).log|
    ensures var h, id := AfterRun(rt, run), AfterRun(rt, run).log[k].uploadId;
      id < |h.uploads| && h.uploads[id].status == Available && !RejectedLater(rt, run, id)
  {
    hide Laws, AfterRun, Execute, Publishable, RejectingStepAt, PublishingStepAt, LogStands, Promotion.Take;
    var n := |run| - 1;
    var h, last := AfterRun(rt, run[..n]), run[n];
    assert AfterRun(rt, run) == Promotion.Take(rt, h, last.step, last.now) by { LastStep(rt, run); }
    LogOnlyGrows(rt, h, last.step, last.now);
    PublishingStep(rt, h, last.step, last.now);
    var id := h.tasks[last.step.task].judged.id;
    PublishingMakesAvailable(rt.limits, h.uploads, id, last.now);
    if RejectedLater(rt, run, id) {
      var a: nat, b: nat :| a < b && PublishingStepAt(rt, run, a, id) && RejectingStepAt(rt, run, b, id);
      StepsAreInRange(rt, run, id);
      StepsOfPrefix(rt, run, n, a, id);
      PublishedIsLogged(rt, run[..n], a, id);
      HistoryHolds(rt, run);
      SameUploadSameEntry(rt, AfterRun(rt, run));
    }
  }

  lemma {:induction false} LastStep(rt: Runtime, run: seq<Timed>)
    requires run != []
    ensures AfterRun(rt, run) ==
      Promotion.Take(rt, AfterRun(rt, run[..|run| - 1]), run[|run| - 1].step, run[|run| - 1].now)
  {
  }

  lemma {:induction false} SameUploadSameEntry(rt: Runtime, h: Hub)
    requires LogStands(rt, h)
    ensures forall i, j :: 0 <= i < j < |h.log| ==> h.log[i].uploadId != h.log[j].uploadId
  {
  }

  lemma {:induction false} PublishedIsLogged(rt: Runtime, run: seq<Timed>, k: nat, id: nat)
    requires PublishingStepAt(rt, run, k, id)
    ensures exists i :: 0 <= i < |AfterRun(rt, run).log| && AfterRun(rt, run).log[i].uploadId == id
  {
    hide Promotion.Take, Publishes;
    var n := |run| - 1;
    var h, last := AfterRun(rt, run[..n]), run[n];
    LogOnlyGrows(rt, h, last.step, last.now);
    if k < n {
      StepsOfPrefix(rt, run, n, k, id);
      PublishedIsLogged(rt, run[..n], k, id);
      var i :| 0 <= i < |h.log| && h.log[i].uploadId == id;
      assert AfterRun(rt, run).log[i] == h.log[i];
    } else {
      assert AfterRun(rt, run).log[|h.log|].uploadId == id;
    }
  }
}
