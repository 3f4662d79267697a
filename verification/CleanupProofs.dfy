/** Repeated sweeps at a fixed time: what one releases, and exactly when they drain. A row can outlive
    its upload and share its object with an active row of the same bytes; it is then kept, stays a
    candidate and takes a place in every batch until that row is done. */
module CleanupProofs {
  import opened Basics
  import opened Storage
  import opened Uploads
  import opened Repository
  import opened Quarantine
  import Promotion
  import PromotionProofs
  import VaultProofs

  function NoFaults(id: nat): Fault { NoFault }

  function Clean(limits: Limits, s: Store, ids: seq<nat>, now: int): Store {
    Pass(limits, s, ids, NoFaults, now)
  }

  /** Rows a sweep would still have to deal with. */
  function Remaining(rows: Table, now: int): set<nat> {
    set id: nat | id < |rows| && Sweepable(rows[id], now)
  }

  // ---------------------------------------------------------------- one sweep

  /** Does the row of this sweep lose its object? Only when no row still active refers to it. */
  predicate Releases(rows: Table, ids: seq<nat>, id: nat) {
    id in ids && id < |rows| && !Promotion.IsReferenced(rows, rows[id].privateObjectKey)
  }

  lemma {:induction false} MarkingKeepsReferences(rows: Table, later: Table, key: string)
    requires |rows| == |later| && forall i :: 0 <= i < |rows| ==>
      later[i].status == rows[i].status && later[i].privateObjectKey == rows[i].privateObjectKey
    ensures Promotion.IsReferenced(later, key) == Promotion.IsReferenced(rows, key)
  {
  }

  /** The loop of a sweep releases exactly the unreferenced candidates, whatever their order. */
  lemma {:induction false} SweepReleasesExactlyTheUnreferenced(s: Store, ids: seq<nat>)
    ensures var after := CleanupEach(s, ids, NoFaults);
      && |after.rows| == |s.rows|
      && (forall i :: 0 <= i < |s.rows| ==>
            after.rows[i] == if Releases(s.rows, ids, i) then s.rows[i].(privateObjectDeleted := true) else s.rows[i])
      && (forall key :: key in after.objects <==>
            key in s.objects && !exists i: nat :: Releases(s.rows, ids, i) && s.rows[i].privateObjectKey == key)
      && (forall key :: key in after.objects ==> after.objects[key] == s.objects[key])
  {
    hide Promotion.IsReferenced;
    if ids != [] {
      var init, last := ids[..|ids| - 1], ids[|ids| - 1];
      SweepReleasesExactlyTheUnreferenced(s, init);
      var before := CleanupEach(s, init, NoFaults);
      assert forall id :: id in ids <==> id in init || id == last;
      if last < |s.rows| {
        MarkingKeepsReferences(s.rows, before.rows, s.rows[last].privateObjectKey);
      }
      forall i: nat ensures Releases(s.rows, ids, i) <==>
        Releases(s.rows, init, i) || (i == last && Releases(s.rows, ids, last)) { }
    }
  }

  /** A row once its batch is expired, and before its object is looked at. */
  function Expired(u: Uploads.Upload, chosen: bool): Uploads.Upload {
    if chosen then Uploads.Sweep(u) else u
  }

  /** Row i of the batch loses its object: no row outside the batch is active and refers to it. */
  predicate Freed(rows: Table, ids: seq<nat>, i: nat) {
    i in ids && i < |rows| && forall j ::
      0 <= j < |rows| && Active(rows[j]) && rows[j].privateObjectKey == rows[i].privateObjectKey ==> j in ids
  }

  /** What a sweep of these candidates leaves of every row and every object. */
  lemma {:induction false} SweepLeaves(limits: Limits, s: Store, ids: seq<nat>, now: int)
    requires forall id :: id in ids ==> id < |s.rows| && Sweepable(s.rows[id], now)
    ensures var after := Clean(limits, s, ids, now);
      && |after.rows| == |s.rows|
      && (forall i :: 0 <= i < |s.rows| ==>
            after.rows[i] == Expired(s.rows[i], i in ids).(privateObjectDeleted := s.rows[i].privateObjectDeleted
              || Freed(s.rows, ids, i)))
      && (forall key :: key in after.objects <==>
        key in s.objects && !exists i: nat :: Freed(s.rows, ids, i) && s.rows[i].privateObjectKey == key)
  {
    var rows := Execute(limits, s.rows, ExpireBatch(Chosen(ids)), now);
    forall i | 0 <= i < |rows| ensures rows[i] == Expired(s.rows[i], i in ids) { }
    SweepReleasesExactlyTheUnreferenced(s.(rows := rows), ids);
    assert forall j :: 0 <= j < |rows| ==> (Active(rows[j]) <==> Active(s.rows[j]) && j !in ids);
    forall i: nat ensures Releases(rows, ids, i) <==> Freed(s.rows, ids, i) {
    }
  }

  // ---------------------------------------------------------------- what stands in the way

  /** Row j is active and refers to the object of row i. */
  predicate Holds(rows: Table, j: nat, i: nat)
    requires i < |rows|
  {
    j < |rows| && Active(rows[j]) && rows[j].privateObjectKey == rows[i].privateObjectKey
  }

  /** Row i is done but kept, by a row that is not due, or not reached before time at. */
  ghost predicate InTheWay(rows: Table, i: nat, at: int, now: int) {
    && i < |rows| && !Active(rows[i]) && !rows[i].privateObjectDeleted
    && exists j: nat :: Holds(rows, j, i) && (!Due(rows[j], now) || rows[j].expiresAt >= at)
  }

  /** The rows ahead of row n that no sweep can deal with before it has dealt with n. */
  ghost function Ahead(rows: Table, n: nat, now: int): set<nat>
    requires n < |rows|
  {
    set i: nat | i < |rows| && rows[i].expiresAt < rows[n].expiresAt && InTheWay(rows, i, rows[n].expiresAt, now)
  }

  ghost function AheadOrLevel(rows: Table, n: nat, now: int): set<nat>
    requires n < |rows|
  {
    set i: nat | i < |rows| && i != n && rows[i].expiresAt <= rows[n].expiresAt
      && InTheWay(rows, i, rows[n].expiresAt, now)
  }

  /** Rows that cannot be dealt with as long as the time stands: kept by a row that is not due. */
  ghost function Stuck(rows: Table, now: int): set<nat> {
    set i: nat | i < |rows| && !Active(rows[i]) && !rows[i].privateObjectDeleted && exists j: nat ::
      Holds(rows, j, i) && !Due(rows[j], now)
  }

  /** A candidate that is dealt with as soon as a sweep selects it. */
  predicate Movable(rows: Table, n: nat, now: int) {
    && n < |rows| && Sweepable(rows[n], now)
    && (Active(rows[n]) || !Promotion.IsReferenced(rows, rows[n].privateObjectKey))
  }

  // ---------------------------------------------------------------- too many in the way

  /** A sweep selects nothing that expires at or after n's time while the rows ahead fill its batch. */
  lemma {:induction false} BatchIsFull(rows: Table, n: nat, limit: nat, now: int, ids: seq<nat>, id: nat)
    requires n < |rows| && |Ahead(rows, n, now)| >= limit && EarliestCandidates(rows, limit, {}, now, ids)
    requires id in ids
    ensures id < |rows| && rows[id].expiresAt < rows[n].expiresAt
  {
    hide InTheWay;
    assert Sweeping(rows, {}, now, id);
    if rows[id].expiresAt >= rows[n].expiresAt {
      var ahead := Ahead(rows, n, now);
      forall i | i in ahead ensures i in ids {
        AheadAreCandidates(rows, n, now, i);
      }
      SmallerWithout(ahead, Chosen(ids), id);
      ChosenAreFew(ids);
    }
  }

  lemma {:induction false} AheadAreCandidates(rows: Table, n: nat, now: int, i: nat)
    requires n < |rows| && i in Ahead(rows, n, now)
    ensures Sweeping(rows, {}, now, i)
  {
  }

  lemma {:induction false} ChosenAreFew(ids: seq<nat>)
    ensures |Chosen(ids)| <= |ids|
  {
    if ids != [] {
      var init := ids[..|ids| - 1];
      ChosenAreFew(init);
      assert Chosen(ids) == Chosen(init) + {ids[|ids| - 1]};
    }
  }

  lemma {:induction false} SmallerWithout(a: set<nat>, b: set<nat>, x: nat)
    requires a <= b && x in b && x !in a
    ensures |a| < |b|
  {
    SetSize(a, b - {x});
  }

  lemma {:induction false} SetSize(a: set<nat>, b: set<nat>)
    requires a <= b
    ensures |a| <= |b|
  {
    if x :| x in a {
      SetSize(a - {x}, b - {x});
    }
  }

  lemma {:induction false} CrowdedRowStays(limits: Limits, s: Store, n: nat, limit: nat, now: int, ids: seq<nat>)
    requires n < |s.rows| && Sweepable(s.rows[n], now) && |Ahead(s.rows, n, now)| >= limit
    requires EarliestCandidates(s.rows, limit, {}, now, ids)
    ensures var after := Clean(limits, s, ids, now).rows;
      && |after| == |s.rows| && after[n] == s.rows[n] && |Ahead(after, n, now)| >= limit
  {
    hide Clean, Freed;
    var rows, at := s.rows, s.rows[n].expiresAt;
    forall id | id in ids ensures id < |rows| && Sweepable(rows[id], now) && rows[id].expiresAt < at {
      assert Sweeping(rows, {}, now, id);
      BatchIsFull(rows, n, limit, now, ids, id);
    }
    SweepLeaves(limits, s, ids, now);
    var after := Clean(limits, s, ids, now).rows;
    forall i | i in Ahead(rows, n, now) ensures i in Ahead(after, n, now) {
      var j: nat :| Holds(rows, j, i) && (!Due(rows[j], now) || rows[j].expiresAt >= at);
      HeldRowsAreKept(rows, ids, i, j);
      assert Holds(after, j, i);
    }
    SetSize(Ahead(rows, n, now), Ahead(after, n, now));
    if Freed(rows, ids, n) { FreedIsChosen(rows, ids, n); }
  }

  lemma {:induction false} HeldRowsAreKept(rows: Table, ids: seq<nat>, i: nat, j: nat)
    requires i < |rows| && Holds(rows, j, i) && j !in ids
    ensures !Freed(rows, ids, i) && !Freed(rows, ids, j)
  {
  }

  lemma {:induction false} FreedIsChosen(rows: Table, ids: seq<nat>, i: nat)
    requires Freed(rows, ids, i)
    ensures i in ids && i < |rows|
  {
  }

  // ---------------------------------------------------------------- room to move

  /** What the ownership theorems give at a quiet moment. */
  ghost predicate Settled(s: Store) {
    && ActiveKeysDiffer(s.rows)
    && (forall key :: key in s.objects ==> exists i :: 0 <= i < |s.rows| && Keeps(s.rows[i], key))
    && (forall i :: 0 <= i < |s.rows| && Active(s.rows[i]) ==>
      s.rows[i].privateObjectKey in s.objects && !s.rows[i].privateObjectDeleted)
  }

  ghost predicate ActiveKeysDiffer(rows: Table) {
    forall i, j :: 0 <= i < j < |rows| && Active(rows[i]) && Active(rows[j]) ==>
      rows[i].privateObjectKey != rows[j].privateObjectKey
  }

  predicate Keeps(u: Uploads.Upload, key: string) {
    u.privateObjectKey == key && !u.privateObjectDeleted
  }

  /** Every candidate that is not stuck has fewer rows in its way than a sweep selects. */
  ghost predicate Roomy(rows: Table, limit: nat, now: int) {
    forall n :: n in Remaining(rows, now) - Stuck(rows, now) ==> |AheadOrLevel(rows, n, now)| < limit
  }

  /** A row a sweep has dealt with: no longer active, its object gone. */
  predicate Done(u: Uploads.Upload, v: Uploads.Upload, now: int) {
    && Sweepable(u, now) && !Active(v) && v.privateObjectDeleted
    && v.privateObjectKey == u.privateObjectKey && v.expiresAt == u.expiresAt
  }

  ghost predicate Follows(rows: Table, later: Table, now: int) {
    |later| == |rows| && forall i: nat :: i < |rows| ==>
      later[i] == rows[i] || (Done(rows[i], later[i], now) && i !in Stuck(rows, now))
  }

  /** A sweep leaves every row exactly as it was, or deals with it for good. */
  lemma {:induction false} SweepDeals(limits: Limits, s: Store, ids: seq<nat>, now: int)
    requires Settled(s) && forall id :: id in ids ==> id < |s.rows| && Sweepable(s.rows[id], now)
    ensures var after := Clean(limits, s, ids, now);
      Follows(s.rows, after.rows, now) && forall i: nat :: Freed(s.rows, ids, i) ==>
        i < |after.rows| && after.rows[i].privateObjectDeleted
  {
    hide Clean, Freed, Stuck;
    SweepLeaves(limits, s, ids, now);
    var after := Clean(limits, s, ids, now);
    forall i: nat | i < |s.rows|
      ensures after.rows[i] == s.rows[i] || (Done(s.rows[i], after.rows[i], now) && i !in Stuck(s.rows, now))
    {
      if Freed(s.rows, ids, i) {
        FreedIsChosen(s.rows, ids, i);
        FreedIsNotStuck(s.rows, ids, now, i);
      }
      if i in ids && Active(s.rows[i]) { ActiveIsFreed(s, ids, i); }
    }
    forall i: nat | Freed(s.rows, ids, i) ensures i < |after.rows| && after.rows[i].privateObjectDeleted {
      FreedIsChosen(s.rows, ids, i);
    }
  }

  lemma {:induction false} FreedIsNotStuck(rows: Table, ids: seq<nat>, now: int, i: nat)
    requires Freed(rows, ids, i) && forall id :: id in ids ==> id < |rows| && Sweepable(rows[id], now)
    ensures i !in Stuck(rows, now)
  {
  }

  lemma {:induction false} ActiveIsFreed(s: Store, ids: seq<nat>, i: nat)
    requires Settled(s) && i < |s.rows| && i in ids && Active(s.rows[i])
    ensures Freed(s.rows, ids, i)
  {
  }

  lemma {:induction false} SweepKeepsOwners(limits: Limits, s: Store, ids: seq<nat>, now: int)
    requires Settled(s) && forall id :: id in ids ==> id < |s.rows| && Sweepable(s.rows[id], now)
    ensures var after := Clean(limits, s, ids, now);
      forall key :: key in after.objects ==> exists i :: 0 <= i < |after.rows| && Keeps(after.rows[i], key)
  {
    hide Clean, Freed, Active, ActiveKeysDiffer;
    SweepLeaves(limits, s, ids, now);
    var after := Clean(limits, s, ids, now);
    forall key | key in after.objects ensures exists i :: 0 <= i < |after.rows| && Keeps(after.rows[i], key) {
      var i: nat :| i < |s.rows| && Keeps(s.rows[i], key);
      assert !Freed(s.rows, ids, i);
      assert Keeps(after.rows[i], key);
    }
  }

  lemma {:induction false} SweepKeepsActiveObjects(limits: Limits, s: Store, ids: seq<nat>, now: int)
    requires Settled(s) && forall id :: id in ids ==> id < |s.rows| && Sweepable(s.rows[id], now)
    ensures var after := Clean(limits, s, ids, now);
      && |after.rows| == |s.rows|
      && forall i :: 0 <= i < |after.rows| && Active(after.rows[i]) ==>
        after.rows[i] == s.rows[i] && after.rows[i].privateObjectKey in after.objects
  {
    hide Clean, Freed, ActiveKeysDiffer, Stuck;
    SweepLeaves(limits, s, ids, now);
    SweepDeals(limits, s, ids, now);
    var after := Clean(limits, s, ids, now);
    forall i | 0 <= i < |after.rows| && Active(after.rows[i]) ensures after.rows[i].privateObjectKey in after.objects {
      assert after.rows[i] == s.rows[i];
      forall k: nat | Freed(s.rows, ids, k)
        ensures k < |s.rows| && s.rows[k].privateObjectKey != s.rows[i].privateObjectKey
      {
        FreedIsChosen(s.rows, ids, k);
        if s.rows[k].privateObjectKey == s.rows[i].privateObjectKey { FreedHasNoHolder(s.rows, ids, k, i); }
      }
    }
  }

  lemma {:induction false} SweepStaysSettled(limits: Limits, s: Store, ids: seq<nat>, now: int)
    requires Settled(s) && forall id :: id in ids ==> id < |s.rows| && Sweepable(s.rows[id], now)
    ensures Settled(Clean(limits, s, ids, now))
  {
    hide Clean;
    SweepKeepsOwners(limits, s, ids, now);
    SweepKeepsActiveObjects(limits, s, ids, now);
  }

  lemma {:induction false} FreedHasNoHolder(rows: Table, ids: seq<nat>, k: nat, i: nat)
    requires Freed(rows, ids, k) && i < |rows| && Active(rows[i])
    requires rows[k].privateObjectKey == rows[i].privateObjectKey
    ensures i in ids
  {
  }

  // ---------------------------------------------------------------- sweeps make progress

  /** Rows that are kept after a sweep were kept before it by the same rows, and no row is newly in
      the way of another. */
  lemma {:induction false} KeptAsBefore(rows: Table, later: Table, now: int)
    requires ActiveKeysDiffer(rows) && Follows(rows, later, now)
    ensures Stuck(later, now) == Stuck(rows, now) && Remaining(later, now) <= Remaining(rows, now)
    ensures forall n: nat :: n < |rows| && later[n] == rows[n] ==>
      AheadOrLevel(later, n, now) <= AheadOrLevel(rows, n, now)
  {
    forall i: nat, j: nat | i < |rows| && Holds(later, j, i) ensures Holds(rows, j, i) && later[j] == rows[j] { }
    forall i: nat, j: nat | i < |rows| && Holds(rows, j, i) && !Due(rows[j], now)
      ensures Holds(later, j, i) && later[j] == rows[j]
    {
      assert !Sweepable(rows[j], now);
    }
    forall i | i in Stuck(rows, now) ensures i in Stuck(later, now) {
      StuckIsKept(rows, later, now, i);
    }
  }

  lemma {:induction false} StuckIsKept(rows: Table, later: Table, now: int, i: nat)
    requires Follows(rows, later, now) && i in Stuck(rows, now)
    ensures i in Stuck(later, now)
  {
  }

  lemma {:induction false} StaysRoomy(rows: Table, later: Table, limit: nat, now: int)
    requires ActiveKeysDiffer(rows) && Follows(rows, later, now) && Roomy(rows, limit, now)
    ensures Roomy(later, limit, now)
  {
    hide AheadOrLevel, Stuck, ActiveKeysDiffer;
    KeptAsBefore(rows, later, now);
    forall n | n in Remaining(later, now) - Stuck(later, now) ensures |AheadOrLevel(later, n, now)| < limit {
      assert n in Remaining(rows, now) && later[n] == rows[n];
      SetSize(AheadOrLevel(later, n, now), AheadOrLevel(rows, n, now));
    }
  }

  /** Of the movable rows among the first k, one that expires first. */
  lemma {:induction false} FirstMovable(rows: Table, k: nat, now: int, m: nat) returns (n: nat)
    requires m < k <= |rows| && Movable(rows, m, now)
    ensures Movable(rows, n, now) && forall o: nat :: o < k && Movable(rows, o, now) ==>
      rows[n].expiresAt <= rows[o].expiresAt
  {
    hide Movable;
    n := m;
    var i: nat := 0;
    while i < k
      invariant i <= k && n < |rows| && Movable(rows, n, now)
      invariant forall o: nat :: o < i && Movable(rows, o, now) ==> rows[n].expiresAt <= rows[o].expiresAt
    {
      if Movable(rows, i, now) && rows[i].expiresAt < rows[n].expiresAt { n := i; }
      i := i + 1;
    }
  }

  /** Where a candidate is not stuck, some candidate is movable. */
  lemma {:induction false} SomeRowIsMovable(s: Store, now: int, r: nat)
    requires Settled(s) && r in Remaining(s.rows, now) - Stuck(s.rows, now)
    ensures exists m: nat :: Movable(s.rows, m, now)
  {
    if !Movable(s.rows, r, now) {
      var j: nat :| Holds(s.rows, j, r);
      assert Due(s.rows[j], now);
      assert Movable(s.rows, j, now);
    }
  }

  lemma {:induction false} MovableIsFreed(s: Store, ids: seq<nat>, now: int, n: nat)
    requires Settled(s) && n in ids && Movable(s.rows, n, now)
    ensures Freed(s.rows, ids, n)
  {
  }

  /** A selected row that is not freed is kept by an active row outside the batch. */
  lemma {:induction false} KeptRowIsHeld(s: Store, ids: seq<nat>, now: int, id: nat)
    requires Settled(s) && id in ids && id < |s.rows| && Sweepable(s.rows[id], now) && !Freed(s.rows, ids, id)
    ensures !Active(s.rows[id]) && exists j: nat ::
      j !in ids && Holds(s.rows, j, id) && (!Due(s.rows[j], now) || Movable(s.rows, j, now))
  {
    var j: nat :| j < |s.rows| && Active(s.rows[j]) && s.rows[j].privateObjectKey == s.rows[id].privateObjectKey
      && j !in ids;
    assert Holds(s.rows, j, id);
  }

  /** With room to move, every sweep that finds a candidate that is not stuck deals with one. */
  lemma {:induction false} SweepFreesOne(s: Store, ids: seq<nat>, limit: nat, now: int, r: nat)
    requires Settled(s) && Roomy(s.rows, limit, now) && EarliestCandidates(s.rows, limit, {}, now, ids)
    requires r in Remaining(s.rows, now) - Stuck(s.rows, now)
    ensures exists id: nat :: Freed(s.rows, ids, id)
  {
    hide Freed, Settled, Movable, Sweepable, Roomy;
    SomeRowIsMovable(s, now, r);
    var m: nat :| Movable(s.rows, m, now);
    assert m < |s.rows| by { MovableIsCandidate(s.rows, m, now); }
    var n := FirstMovable(s.rows, |s.rows|, now, m);
    MovableIsCandidate(s.rows, n, now);
    assert Sweeping(s.rows, {}, now, n);
    if n in ids {
      MovableIsFreed(s, ids, now, n);
    } else if forall id: nat :: !Freed(s.rows, ids, id) {
      forall id | id in ids ensures id in AheadOrLevel(s.rows, n, now) {
        assert Sweeping(s.rows, {}, now, id);
        KeptRowIsHeld(s, ids, now, id);
        var j: nat :| j !in ids && Holds(s.rows, j, id) && (!Due(s.rows[j], now) || Movable(s.rows, j, now));
        UndeletedCandidate(s.rows[id], now);
        assert InTheWay(s.rows, id, s.rows[n].expiresAt, now);
      }
      SetSize(Chosen(ids), AheadOrLevel(s.rows, n, now));
      DistinctAreMany(ids);
      RoomFor(s.rows, limit, now, n);
    }
  }

  lemma {:induction false} UndeletedCandidate(u: Uploads.Upload, now: int)
    requires Sweepable(u, now)
    ensures !u.privateObjectDeleted
  {
  }

  lemma {:induction false} MovableIsCandidate(rows: Table, n: nat, now: int)
    requires Movable(rows, n, now)
    ensures n < |rows| && Sweepable(rows[n], now) && n in Remaining(rows, now) && n !in Stuck(rows, now)
  {
  }

  lemma {:induction false} RoomFor(rows: Table, limit: nat, now: int, n: nat)
    requires Roomy(rows, limit, now) && n in Remaining(rows, now) && n !in Stuck(rows, now)
    ensures n < |rows| && |AheadOrLevel(rows, n, now)| < limit
  {
  }

  lemma {:induction false} DistinctAreMany(ids: seq<nat>)
    requires Uploads.Distinct(ids)
    ensures |Chosen(ids)| == |ids|
  {
    if ids != [] {
      var n := |ids| - 1;
      DistinctAreMany(ids[..n]);
      assert ids[n] !in Chosen(ids[..n]);
      assert Chosen(ids) == Chosen(ids[..n]) + {ids[n]};
    }
  }

  // ---------------------------------------------------------------- repeated sweeps

  function AfterPasses(limits: Limits, s: Store, passes: seq<seq<nat>>, now: int): Store {
    if passes == [] then s
    else Clean(limits, AfterPasses(limits, s, passes[..|passes| - 1], now), passes[|passes| - 1], now)
  }

  /** Each sweep selects what the batch statement would from the table it finds. */
  ghost predicate Sweeps(limits: Limits, s: Store, passes: seq<seq<nat>>, limit: nat, now: int) {
    forall k :: 0 <= k < |passes| ==>
      EarliestCandidates(AfterPasses(limits, s, passes[..k], now).rows, limit, {}, now, passes[k])
  }

  lemma {:induction false} SweepsSplit(limits: Limits, s: Store, passes: seq<seq<nat>>, limit: nat, now: int)
    requires passes != [] && Sweeps(limits, s, passes, limit, now)
    ensures var n := |passes| - 1;
      && Sweeps(limits, s, passes[..n], limit, now)
      && EarliestCandidates(AfterPasses(limits, s, passes[..n], now).rows, limit, {}, now, passes[n])
  {
    hide EarliestCandidates, AfterPasses;
    var n := |passes| - 1;
    forall k | 0 <= k < n
      ensures EarliestCandidates(AfterPasses(limits, s, passes[..n][..k], now).rows, limit, {}, now, passes[..n][k])
    {
      assert passes[..n][..k] == passes[..k];
    }
  }

  lemma {:induction false} FollowsOn(rows: Table, mid: Table, later: Table, now: int)
    requires ActiveKeysDiffer(rows) && Follows(rows, mid, now) && Follows(mid, later, now)
    ensures Follows(rows, later, now)
  {
    hide Stuck;
    KeptAsBefore(rows, mid, now);
  }

  lemma {:induction false} PassesDrain(limits: Limits, s: Store, passes: seq<seq<nat>>, limit: nat, now: int)
    requires Settled(s) && Roomy(s.rows, limit, now) && Sweeps(limits, s, passes, limit, now)
    ensures var after := AfterPasses(limits, s, passes, now);
      && Settled(after) && Follows(s.rows, after.rows, now) && Roomy(after.rows, limit, now)
      && (Remaining(after.rows, now) == Stuck(s.rows, now)
          || |Remaining(after.rows, now)| + |passes| <= |Remaining(s.rows, now)|)
  {
    hide Clean, Remaining, EarliestCandidates, Follows, Roomy, Stuck, Sweeps;
    if passes == [] {
      FollowsItself(s.rows, now);
    } else {
      var n := |passes| - 1;
      SweepsSplit(limits, s, passes, limit, now);
      PassesDrain(limits, s, passes[..n], limit, now);
      var mid := AfterPasses(limits, s, passes[..n], now);
      SweepShrinks(limits, mid, passes[n], limit, now);
      var after := AfterPasses(limits, s, passes, now);
      FollowsOn(s.rows, mid.rows, after.rows, now);
      KeptAsBefore(s.rows, mid.rows, now);
    }
  }

  lemma {:induction false} FollowsItself(rows: Table, now: int)
    ensures Follows(rows, rows, now)
  {
  }

  lemma {:induction false} SweepShrinks(limits: Limits, s: Store, ids: seq<nat>, limit: nat, now: int)
    requires Settled(s) && Roomy(s.rows, limit, now) && EarliestCandidates(s.rows, limit, {}, now, ids)
    ensures var after := Clean(limits, s, ids, now);
      && Settled(after) && Follows(s.rows, after.rows, now) && Roomy(after.rows, limit, now)
      && (if Remaining(s.rows, now) == Stuck(s.rows, now) then Remaining(after.rows, now) == Stuck(s.rows, now)
          else |Remaining(after.rows, now)| < |Remaining(s.rows, now)|)
  {
    hide Clean, Roomy, Stuck, Freed, Sweepable;
    forall id | id in ids ensures id < |s.rows| && Sweepable(s.rows[id], now) { assert Sweeping(s.rows, {}, now, id); }
    SweepDeals(limits, s, ids, now);
    SweepStaysSettled(limits, s, ids, now);
    var after := Clean(limits, s, ids, now);
    StaysRoomy(s.rows, after.rows, limit, now);
    KeptAsBefore(s.rows, after.rows, now);
    StuckRemains(after.rows, now);
    StuckRemains(s.rows, now);
    var others := Remaining(s.rows, now) - Stuck(s.rows, now);
    if others != {} {
      var r :| r in others;
      SweepFreesOne(s, ids, limit, now, r);
      var id: nat :| Freed(s.rows, ids, id);
      FreedIsChosen(s.rows, ids, id);
      DeletedIsDone(after.rows, now, id);
      SmallerWithout(Remaining(after.rows, now), Remaining(s.rows, now), id);
    } else {
      assert Remaining(s.rows, now) == others + Stuck(s.rows, now);
    }
  }

  lemma {:induction false} StuckRemains(rows: Table, now: int)
    ensures Stuck(rows, now) <= Remaining(rows, now)
  {
  }

  lemma {:induction false} DeletedIsDone(rows: Table, now: int, id: nat)
    requires id < |rows| && rows[id].privateObjectDeleted
    ensures id !in Remaining(rows, now)
  {
  }

  /** With time fixed, removals that succeed, and fewer rows in the way of each candidate than a sweep
      selects, sweeps drain: after as many of them as there were candidates only the stuck rows are
      left, and the bucket holds exactly the objects of the rows that are active and not due. */
  lemma {:induction false} CleanupDrains(limits: Limits, s: Store, passes: seq<seq<nat>>, limit: nat, now: int)
    requires Settled(s) && Roomy(s.rows, limit, now) && Sweeps(limits, s, passes, limit, now)
    requires |passes| >= |Remaining(s.rows, now)|
    ensures var after := AfterPasses(limits, s, passes, now);
      && Remaining(after.rows, now) == Stuck(s.rows, now)
      && (forall key :: key in after.objects <==>
            exists i :: 0 <= i < |s.rows| && s.rows[i].privateObjectKey == key && Active(s.rows[i])
              && !Due(s.rows[i], now))
  {
    hide AfterPasses, Sweeps, Roomy;
    PassesDrain(limits, s, passes, limit, now);
    var after := AfterPasses(limits, s, passes, now);
    KeptAsBefore(s.rows, after.rows, now);
    StuckRemains(after.rows, now);
    if |Remaining(after.rows, now)| + |passes| <= |Remaining(s.rows, now)| { EmptySet(Remaining(after.rows, now)); }
    assert Remaining(after.rows, now) == Stuck(s.rows, now);
    OnlyUndueObjects(s, after, now);
  }

  lemma {:induction false} EmptySet(a: set<nat>)
    requires |a| <= 0
    ensures a == {}
  {
  }

  lemma {:induction false} OnlyUndueObjects(s: Store, after: Store, now: int)
    requires Settled(s) && Settled(after) && Follows(s.rows, after.rows, now)
    requires Remaining(after.rows, now) == Stuck(after.rows, now)
    ensures forall key :: key in after.objects <==>
      exists i :: 0 <= i < |s.rows| && s.rows[i].privateObjectKey == key && Active(s.rows[i]) && !Due(s.rows[i], now)
  {
    forall key ensures key in after.objects <==>
      exists i :: 0 <= i < |s.rows| && s.rows[i].privateObjectKey == key && Active(s.rows[i]) && !Due(s.rows[i], now)
    {
      if key in after.objects {
        var i: nat :| i < |after.rows| && Keeps(after.rows[i], key);
        var j: nat := HolderOf(after.rows, now, i);
        assert after.rows[j] == s.rows[j];
      }
      if i :| 0 <= i < |s.rows| && s.rows[i].privateObjectKey == key && Active(s.rows[i]) && !Due(s.rows[i], now) {
        assert after.rows[i] == s.rows[i];
      }
    }
  }

  lemma {:induction false} HolderOf(rows: Table, now: int, i: nat) returns (j: nat)
    requires i < |rows| && !rows[i].privateObjectDeleted && Remaining(rows, now) == Stuck(rows, now)
    ensures j < |rows| && Active(rows[j]) && !Due(rows[j], now) && rows[j].privateObjectKey == rows[i].privateObjectKey
  {
    if Active(rows[i]) && !Due(rows[i], now) {
      j := i;
    } else {
      assert i in Remaining(rows, now);
      j :| Holds(rows, j, i) && !Due(rows[j], now);
    }
  }

  /** Whereas a candidate with as many rows strictly ahead in its way as a sweep selects is never
      dealt with, however often sweeps run. */
  lemma {:induction false} CrowdedRowIsNeverReached(limits: Limits, s: Store, passes: seq<seq<nat>>, n: nat, limit: nat,
          now: int)
    requires n in Remaining(s.rows, now) && |Ahead(s.rows, n, now)| >= limit && Sweeps(limits, s, passes, limit, now)
    ensures var after := AfterPasses(limits, s, passes, now).rows;
      n < |after| && after[n] == s.rows[n] && |Ahead(after, n, now)| >= limit && n in Remaining(after, now)
  {
    hide Clean, Sweeps, EarliestCandidates, Ahead, Sweepable;
    if passes != [] {
      var k := |passes| - 1;
      SweepsSplit(limits, s, passes, limit, now);
      CrowdedRowIsNeverReached(limits, s, passes[..k], n, limit, now);
      CrowdedRowStays(limits, AfterPasses(limits, s, passes[..k], now), n, limit, now, passes[k]);
    }
  }

  /** Candidates expire at different times. */
  ghost predicate ExpireApart(rows: Table, now: int) {
    forall i, j :: i in Remaining(rows, now) && j in Remaining(rows, now) && i != j ==>
      rows[i].expiresAt != rows[j].expiresAt
  }

  /** So where no two candidates expire at one time, enough sweeps deal with all but the stuck rows if
      and only if every candidate that is not stuck has room. */
  lemma {:induction false} CleanupDrainsExactlyWhen(limits: Limits, s: Store, passes: seq<seq<nat>>, limit: nat,
          now: int)
    requires Settled(s) && ExpireApart(s.rows, now) && Sweeps(limits, s, passes, limit, now)
    requires |passes| >= |Remaining(s.rows, now)|
    ensures Remaining(AfterPasses(limits, s, passes, now).rows, now) == Stuck(s.rows, now) <==>
      forall n :: n in Remaining(s.rows, now) - Stuck(s.rows, now) ==> |Ahead(s.rows, n, now)| < limit
  {
    hide AfterPasses, Sweeps, Stuck;
    forall n | n in Remaining(s.rows, now) ensures Ahead(s.rows, n, now) == AheadOrLevel(s.rows, n, now) {
      AheadIsStrict(s.rows, n, now);
    }
    if forall n :: n in Remaining(s.rows, now) - Stuck(s.rows, now) ==> |Ahead(s.rows, n, now)| < limit {
      CleanupDrains(limits, s, passes, limit, now);
    }
    if n :| n in Remaining(s.rows, now) - Stuck(s.rows, now) && |Ahead(s.rows, n, now)| >= limit {
      CrowdedRowIsNeverReached(limits, s, passes, n, limit, now);
    }
  }

  lemma {:induction false} AheadIsStrict(rows: Table, n: nat, now: int)
    requires ExpireApart(rows, now) && n in Remaining(rows, now)
    ensures Ahead(rows, n, now) == AheadOrLevel(rows, n, now)
  {
    forall i | i in AheadOrLevel(rows, n, now) ensures i in Ahead(rows, n, now) {
      assert i in Remaining(rows, now);
    }
  }

  // ---------------------------------------------------------------- a starved upload

  const LIMITS := Limits(100, 10, 1000)

  function SampleOf(digest: string): NewUpload {
    NewUpload("id" + digest, "0x" + digest, "cid" + digest, digest, 1, 1, UploadKey(digest), "chain" + digest, "0x0")
  }

  /** An upload is rejected and its object is not removed; a second one is staged; and while both are
      in the table the first one's bytes are staged again. */
  const STARVING: seq<Issued> :=
    [Issued(Create(SampleOf("1")), 0), Issued(ClaimOne(0, "hub", 60), 0), Issued(Reject(0, "STAGED_UPLOAD_INVALID"), 0),
     Issued(Create(SampleOf("2")), 1), Issued(Create(SampleOf("1")), 10)]

  function RowOf(digest: string, at: int): Uploads.Upload {
    NewRow(LIMITS, SampleOf(digest), at)
  }

  const REJECTED := RowOf("1", 0).(status := Rejected, lease := None, reasonCode := Some("STAGED_UPLOAD_INVALID"))

  lemma {:induction false} StarvingRuns()
    ensures After(LIMITS, [], STARVING) == [REJECTED, RowOf("2", 1), RowOf("1", 10)]
  {
    assert STARVING[..4][..3] == STARVING[..3];
    Rejects();
    SubjectsDiffer();
    SampleIsStaged([REJECTED], "2", 1);
    SampleIsStaged([REJECTED, RowOf("2", 1)], "1", 10);
    assert After(LIMITS, [], STARVING[..4]) == [REJECTED, RowOf("2", 1)];
  }

  lemma {:induction false} SubjectsDiffer()
    ensures RowOf("1", 0).subjectId != RowOf("2", 1).subjectId && Lower("0x" + "1") != Lower("0x" + "2")
  {
    assert Lower("0x1") == "0x1" && Lower("0x2") == "0x2";
  }

  lemma {:induction false} Rejects()
    ensures After(LIMITS, [], STARVING[..3]) == [REJECTED]
  {
    var run := STARVING[..3];
    assert run[..2][..1][..0] == [];
    assert run[..2] == STARVING[..2] && run[..2][..1] == STARVING[..1];
    SampleIsStaged([], "1", 0);
    assert After(LIMITS, [], STARVING[..1]) == [RowOf("1", 0)];
    assert After(LIMITS, [], STARVING[..2]) == [Renew(RowOf("1", 0), "hub", 60)];
  }

  /** Bytes whose digest and subject are free are staged; nothing here is due yet. */
  lemma {:induction false} SampleIsStaged(rows: Table, digest: string, now: int)
    requires |digest| == 1 && |rows| <= 2
    requires forall i :: 0 <= i < |rows| ==>
      rows[i].expiresAt > now && rows[i].compressedBytes == 1 && (Active(rows[i]) ==>
        rows[i].uploadDigest != digest && rows[i].subjectId != Lower("0x" + digest))
    ensures Execute(LIMITS, rows, Create(SampleOf(digest)), now) == rows + [RowOf(digest, now)]
  {
    assert ExpireDue(rows, now) == rows;
    SmallTotals(rows);
  }

  lemma {:induction false} SmallTotals(rows: Table)
    requires forall i :: 0 <= i < |rows| ==> rows[i].compressedBytes == 1
    ensures ActiveCount(rows) <= |rows| && ActiveBytes(rows) <= |rows|
  {
    if rows != [] { SmallTotals(rows[..|rows| - 1]); }
  }

  /** This run of statements from the empty table starves: from the moment the second upload is due,
      and at any later time, sweeps of one row at a time never deal with it. */
  lemma {:induction false} SharedKeyStarvesTheSweep(objects: Objects, passes: seq<seq<nat>>, now: int)
    requires now >= RowOf("2", 1).expiresAt
    requires Sweeps(LIMITS, Store(After(LIMITS, [], STARVING), objects), passes, 1, now)
    ensures var s := Store(After(LIMITS, [], STARVING), objects);
      && 1 in Remaining(s.rows, now) - Stuck(s.rows, now)
      && 1 in Remaining(AfterPasses(LIMITS, s, passes, now).rows, now)
  {
    hide AfterPasses, After, Sweeps;
    StarvingRuns();
    var s := Store(After(LIMITS, [], STARVING), objects);
    assert Holds(s.rows, 2, 0);
    assert {0} <= Ahead(s.rows, 1, now);
    SetSize({0}, Ahead(s.rows, 1, now));
    CrowdedRowIsNeverReached(LIMITS, s, passes, 1, 1, now);
  }

  // ---------------------------------------------------------------- the Hub at a quiet moment

  /** While store-then-insert and check-then-remove never interleave on one key, every state of the
      protocol in which no task is under way is settled. */
  lemma {:induction false} QuietHubIsSettled(rt: Promotion.Runtime, run: seq<Promotion.Timed>)
    requires PromotionProofs.Laws(rt) && VaultProofs.ExclusiveRun(rt, run) && Promotion.AfterRun(rt, run).tasks == map[]
    ensures var h := Promotion.AfterRun(rt, run);
      Settled(Store(h.uploads, h.vault))
  {
    hide PromotionProofs.Laws, Promotion.AfterRun, VaultProofs.ExclusiveRun, PromotionProofs.RowsStand,
      PromotionProofs.TasksStand, PromotionProofs.ChainsMatchDigests, VaultProofs.KeysMatchBytes;
    VaultProofs.OwnershipHolds(rt, run);
    PromotionProofs.BaseHolds(rt, run);
    var h := Promotion.AfterRun(rt, run);
    forall key | key in h.vault ensures exists i :: 0 <= i < |h.uploads| && Keeps(h.uploads[i], key) {
      assert VaultProofs.Owned(h, key);
      var j: nat :| VaultProofs.Answers(h, j, key);
      assert Keeps(h.uploads[j], key);
    }
    UniqueRowsHaveOwnKeys(rt, h);
  }

  lemma {:induction false} UniqueRowsHaveOwnKeys(rt: Promotion.Runtime, h: Promotion.Hub)
    requires PromotionProofs.RowsStand(rt, h) && ActiveUnique(h.uploads)
    ensures ActiveKeysDiffer(h.uploads)
  {
    hide PromotionProofs.RowsStand;
    forall i, j | 0 <= i < j < |h.uploads| && Active(h.uploads[i]) && Active(h.uploads[j])
      ensures h.uploads[i].privateObjectKey != h.uploads[j].privateObjectKey
    {
      RowKey(rt, h, i);
      RowKey(rt, h, j);
      if h.uploads[i].privateObjectKey == h.uploads[j].privateObjectKey {
        UploadKeyIsInjective(h.uploads[i].uploadDigest, h.uploads[j].uploadDigest);
      }
    }
  }

  lemma {:induction false} RowKey(rt: Promotion.Runtime, h: Promotion.Hub, i: nat)
    requires PromotionProofs.RowsStand(rt, h) && i < |h.uploads|
    ensures h.uploads[i].privateObjectKey == UploadKey(h.uploads[i].uploadDigest)
  {
    assert PromotionProofs.RowStands(rt, h.uploads[i], h.contents[i]);
  }
}
