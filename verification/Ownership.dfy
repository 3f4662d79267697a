/** The table ownable_owner_state: the current owner of each record with its version counter.
    Publication and direct corrections write it with the same upsert. */
module Ownership {
  import opened Basics

  /** The three columns compared, null-safely, to decide whether the version moves. */
  datatype Holding = Holding(owner: string, account: Option<string>, lastEventId: Option<string>)

  datatype OwnerState = OwnerState(holding: Holding, version: nat)

  type Owners = map<nat, OwnerState>

  datatype Assignment = Assignment(recordId: nat, owner: string, account: Option<string>, lastEventId: Option<string>)

  function HoldingOf(a: Assignment): Holding {
    Holding(Lower(a.owner), a.account, a.lastEventId)
  }

  function Assign(owners: Owners, a: Assignment): Owners {
    var next := HoldingOf(a);
    owners[a.recordId :=
      if a.recordId !in owners then OwnerState(next, 1)
      else
        var current := owners[a.recordId];
        OwnerState(next, if current.holding != next then current.version + 1 else current.version)]
  }

  function AfterAssignments(run: seq<Assignment>): Owners {
    if run == [] then map[] else Assign(AfterAssignments(run[..|run| - 1]), run[|run| - 1])
  }

  /** What was ever assigned to one record, in order. */
  function History(run: seq<Assignment>, id: nat): seq<Holding> {
    if run == [] then []
    else
      History(run[..|run| - 1], id) + if run[|run| - 1].recordId == id then [HoldingOf(run[|run| - 1])] else []
  }

  /** How often a history differs from its own previous entry. */
  function Changes(history: seq<Holding>): nat {
    if |history| <= 1 then 0
    else Changes(history[..|history| - 1]) + if history[|history| - 1] != history[|history| - 2] then 1 else 0
  }

  lemma {:induction false} VersionCountsChanges(run: seq<Assignment>, id: nat)
    ensures id in AfterAssignments(run) <==> History(run, id) != []
    ensures id in AfterAssignments(run) ==>
      var h := History(run, id);
      AfterAssignments(run)[id] == OwnerState(h[|h| - 1], 1 + Changes(h))
  {
    if run != [] {
      var before, last := run[..|run| - 1], run[|run| - 1];
      VersionCountsChanges(before, id);
      var h := History(before, id);
      if last.recordId == id {
        assert (h + [HoldingOf(last)])[..|h|] == h;
      } else {
        assert h + [] == h;
      }
    }
  }

  lemma {:induction false} VersionsIdentifyHoldings(run: seq<Assignment>, id: nat, k: nat)
    requires k <= |run| && id in AfterAssignments(run[..k])
    ensures id in AfterAssignments(run)
    ensures AfterAssignments(run[..k])[id].version <= AfterAssignments(run)[id].version
    ensures AfterAssignments(run[..k])[id].version == AfterAssignments(run)[id].version ==>
      AfterAssignments(run[..k])[id].holding == AfterAssignments(run)[id].holding
  {
    if k == |run| {
      assert run[..k] == run;
    } else {
      var before := run[..|run| - 1];
      assert before[..k] == run[..k];
      VersionsIdentifyHoldings(before, id, k);
    }
  }

  /** Two observations of one record in a run: equal versions mean the same owner, account and
      last applied event, and the later version is never the smaller one. */
  lemma {:induction false} EqualVersionsMeanEqualHoldings(run: seq<Assignment>, id: nat, j: nat, k: nat)
    requires j <= k <= |run| && id in AfterAssignments(run[..j])
    ensures id in AfterAssignments(run[..k])
    ensures var early, late := AfterAssignments(run[..j])[id], AfterAssignments(run[..k])[id];
      early.version <= late.version && (early.version == late.version ==> early.holding == late.holding)
  {
    assert run[..k][..j] == run[..j];
    VersionsIdentifyHoldings(run[..k], id, j);
  }

  /** Do two assignments differ in one of the columns that are compared? Owner addresses are compared
      in lower case. */
  predicate Differs(a: Assignment, b: Assignment) {
    Lower(a.owner) != Lower(b.owner) || a.account != b.account || a.lastEventId != b.lastEventId
  }

  /** The assignments to one record, in order. */
  function AssignmentsTo(run: seq<Assignment>, id: nat): seq<Assignment> {
    if run == [] then []
    else
      var init, last := AssignmentsTo(run[..|run| - 1], id), run[|run| - 1];
      if last.recordId == id then init + [last] else init
  }

  predicate MovesOn(mine: seq<Assignment>, k: nat)
    requires k < |mine|
  {
    k > 0 && Differs(mine[k - 1], mine[k])
  }

  /** The assignments that differ from the one before. */
  ghost function Changed(mine: seq<Assignment>): set<nat> {
    set k: nat | k < |mine| && MovesOn(mine, k)
  }

  /** Told by the columns alone: a record has an owner state once it was assigned one; the state holds
      the columns of the last assignment, the address in lower case; and its version is one plus the
      number of assignments that differ from their predecessor. */
  lemma {:induction false} StateIsThatOfTheLastAssignment(run: seq<Assignment>, id: nat)
    ensures var owners, mine := AfterAssignments(run), AssignmentsTo(run, id);
      && (id in owners <==> mine != [])
      && (id in owners ==>
            var last := mine[|mine| - 1];
            && owners[id].holding.owner == Lower(last.owner) && owners[id].holding.account == last.account
            && owners[id].holding.lastEventId == last.lastEventId
            && owners[id].version == 1 + |Changed(mine)|)
  {
    if run != [] {
      var before, last := run[..|run| - 1], run[|run| - 1];
      StateIsThatOfTheLastAssignment(before, id);
      var mine := AssignmentsTo(before, id);
      if last.recordId == id { OneMoreAssignment(mine, last); }
    }
  }

  lemma {:induction false} OneMoreAssignment(mine: seq<Assignment>, last: Assignment)
    ensures var n := |mine|;
      |Changed(mine + [last])| == |Changed(mine)| + if n > 0 && Differs(mine[n - 1], last) then 1 else 0
  {
    var n := |mine|;
    assert forall k: nat :: k < n ==> MovesOn(mine + [last], k) == MovesOn(mine, k);
    if n > 0 && Differs(mine[n - 1], last) {
      assert Changed(mine + [last]) == Changed(mine) + {n};
    } else {
      assert Changed(mine + [last]) == Changed(mine);
    }
  }
}
