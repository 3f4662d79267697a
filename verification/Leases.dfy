/** Admission control shared by every Hub process through three tables: ingress leases, the request
    window of the rate limit, and processing leases. Times are the transactions' NOW(). */
module Leases {
  import opened Basics

  datatype IngressLease = IngressLease(id: nat, expiresAt: int)

  datatype ProcessingLease = ProcessingLease(id: nat, reservedBytes: nat, expiresAt: int)

  datatype IngressTables = IngressTables(leases: seq<IngressLease>, requests: seq<int>)

  datatype IngressSettings = IngressSettings(concurrency: nat, windowSeconds: nat, maxRequests: nat, leaseSeconds: int)

  datatype ProcessingSettings = ProcessingSettings(concurrency: nat, maxReservedBytes: nat, leaseSeconds: int)

  // ---------------------------------------------------------------- the transactions

  function UnexpiredIngress(leases: seq<IngressLease>, now: int): seq<IngressLease> {
    Where(leases, (l: IngressLease) => l.expiresAt > now)
  }

  function Recent(requests: seq<int>, cut: int): seq<int> {
    Where(requests, (t: int) => t > cut)
  }

  /** Both limits apply to the pruned tables; a refusal rolls the pruning back. */
  function AcquireIngress(s: IngressSettings, t: IngressTables, id: nat, now: int): Result<IngressTables> {
    var leases := UnexpiredIngress(t.leases, now);
    var requests := Recent(t.requests, now - s.windowSeconds);
    if |requests| >= s.maxRequests then Err("UPLOAD_RATE_LIMITED")
    else if |leases| >= s.concurrency then Err("QUARANTINE_CAPACITY_EXHAUSTED")
    else Ok(IngressTables(leases + [IngressLease(id, now + s.leaseSeconds)], requests + [now]))
  }

  function ReleaseIngress(t: IngressTables, id: nat): (r: IngressTables)
    ensures r.requests == t.requests
    ensures forall l :: l in r.leases <==> l in t.leases && l.id != id
  {
    t.(leases := Where(t.leases, (l: IngressLease) => l.id != id))
  }

  function UnexpiredProcessing(leases: seq<ProcessingLease>, now: int): seq<ProcessingLease> {
    Where(leases, (l: ProcessingLease) => l.expiresAt > now)
  }

  function Reserved(leases: seq<ProcessingLease>): nat {
    if leases == [] then 0 else Reserved(leases[..|leases| - 1]) + leases[|leases| - 1].reservedBytes
  }

  function AcquireProcessing(s: ProcessingSettings, leases: seq<ProcessingLease>, id: nat, reservedBytes: nat, now: int)
    : Result<seq<ProcessingLease>>
  {
    var live := UnexpiredProcessing(leases, now);
    if |live| >= s.concurrency || Reserved(live) + reservedBytes > s.maxReservedBytes
      then Err("QUARANTINE_CAPACITY_EXHAUSTED")
    else if reservedBytes == 0 then Err("violates check constraint")
    else Ok(live + [ProcessingLease(id, reservedBytes, now + s.leaseSeconds)])
  }

  function ReleaseProcessing(leases: seq<ProcessingLease>, id: nat): (r: seq<ProcessingLease>)
    ensures forall l :: l in r <==> l in leases && l.id != id
  {
    Where(leases, (l: ProcessingLease) => l.id != id)
  }

  // ---------------------------------------------------------------- runs of ingress requests

  datatype IngressStep = Request(id: nat, now: int) | Finish(id: nat)

  function IngressAfter(s: IngressSettings, run: seq<IngressStep>): IngressTables {
    if run == [] then IngressTables([], [])
    else
      var t, last := IngressAfter(s, run[..|run| - 1]), run[|run| - 1];
      match last
      case Request(id, now) =>
        var r := AcquireIngress(s, t, id, now);
        if r.Ok? then r.value else t
      case Finish(id) => ReleaseIngress(t, id)
  }

  /** When each admitted request was admitted: the whole history, never pruned. */
  function Admissions(s: IngressSettings, run: seq<IngressStep>): seq<int> {
    if run == [] then []
    else
      var before, last := run[..|run| - 1], run[|run| - 1];
      Admissions(s, before) +
      if last.Request? && AcquireIngress(s, IngressAfter(s, before), last.id, last.now).Ok? then [last.now] else []
  }

  /** Transactions take the advisory lock in the order of their times. */
  predicate ClockIsMonotone(run: seq<IngressStep>) {
    forall i, j :: 0 <= i < j < |run| && run[i].Request? && run[j].Request? ==> run[i].now <= run[j].now
  }

  /** Admissions in the half-open interval (lo, hi]. */
  function CountIn(times: seq<int>, lo: int, hi: int): nat {
    if times == [] then 0
    else CountIn(times[..|times| - 1], lo, hi) + if lo < times[|times| - 1] <= hi then 1 else 0
  }

  function CountAfter(times: seq<int>, cut: int): nat {
    if times == [] then 0
    else CountAfter(times[..|times| - 1], cut) + if times[|times| - 1] > cut then 1 else 0
  }

  lemma {:induction false} CountAppend(times: seq<int>, t: int, cut: int)
    ensures CountAfter(times + [t], cut) == CountAfter(times, cut) + if t > cut then 1 else 0
  {
    assert (times + [t])[..|times|] == times;
  }

  lemma {:induction false} PruningForgetsOnlyOldRequests(times: seq<int>, cut: int, later: int)
    requires later >= cut
    ensures CountAfter(Recent(times, cut), later) == CountAfter(times, later)
    ensures |Recent(times, cut)| == CountAfter(times, cut)
  {
    if times != [] {
      var init, last := times[..|times| - 1], times[|times| - 1];
      PruningForgetsOnlyOldRequests(init, cut, later);
      if last > cut {
        assert Recent(times, cut) == Recent(init, cut) + [last];
        CountAppend(Recent(init, cut), last, later);
      }
    }
  }

  lemma {:induction false} CountShrinksWithTheCut(times: seq<int>, cut: int, later: int)
    requires cut <= later
    ensures CountAfter(times, later) <= CountAfter(times, cut)
  {
    if times != [] { CountShrinksWithTheCut(times[..|times| - 1], cut, later); }
  }

  /** The pruned table still answers every count a later admission can ask for. */
  lemma {:induction false} TableCountsLikeHistory(s: IngressSettings, run: seq<IngressStep>, now: int, cut: int)
    requires ClockIsMonotone(run)
    requires forall i :: 0 <= i < |run| && run[i].Request? ==> run[i].now <= now
    requires cut >= now - s.windowSeconds
    ensures CountAfter(IngressAfter(s, run).requests, cut) == CountAfter(Admissions(s, run), cut)
  {
    if run != [] {
      var before, last := run[..|run| - 1], run[|run| - 1];
      TableCountsLikeHistory(s, before, now, cut);
      if last.Request? {
        AdmissionAddsOne(s, IngressAfter(s, before), last.id, last.now, cut);
        CountAppend(Admissions(s, before), last.now, cut);
        assert Admissions(s, before) + [] == Admissions(s, before);
      }
    }
  }

  lemma {:induction false} AdmissionAddsOne(s: IngressSettings, t: IngressTables, id: nat, now: int, cut: int)
    requires cut >= now - s.windowSeconds
    ensures var r := AcquireIngress(s, t, id, now);
      r.Ok? ==> CountAfter(r.value.requests, cut) == CountAfter(t.requests, cut) + if now > cut then 1 else 0
  {
    PruningForgetsOnlyOldRequests(t.requests, now - s.windowSeconds, cut);
    CountAppend(Recent(t.requests, now - s.windowSeconds), now, cut);
  }

  lemma {:induction false} AdmissionFindsRoom(s: IngressSettings, t: IngressTables, id: nat, now: int)
    ensures AcquireIngress(s, t, id, now).Ok? ==> CountAfter(t.requests, now - s.windowSeconds) < s.maxRequests
  {
    PruningForgetsOnlyOldRequests(t.requests, now - s.windowSeconds, now - s.windowSeconds);
  }

  /** Every admission finds fewer than the maximum in the window that ends with it. */
  lemma {:induction false} EachAdmissionFits(s: IngressSettings, run: seq<IngressStep>, k: nat)
    requires ClockIsMonotone(run) && k < |Admissions(s, run)|
    ensures CountAfter(Admissions(s, run)[..k + 1], Admissions(s, run)[k] - s.windowSeconds) <= s.maxRequests
  {
    hide AcquireIngress, IngressAfter, CountAfter;
    if run != [] {
      var before, last := run[..|run| - 1], run[|run| - 1];
      var h := Admissions(s, before);
      if k < |h| {
        EachAdmissionFits(s, before, k);
        assert Admissions(s, run)[..k + 1] == h[..k + 1];
      } else {
        assert Admissions(s, run) == h + [last.now] && k == |h|;
        assert (h + [last.now])[..k + 1] == h + [last.now];
        TableCountsLikeHistory(s, before, last.now, last.now - s.windowSeconds);
        AdmissionFindsRoom(s, IngressAfter(s, before), last.id, last.now);
        CountAppend(h, last.now, last.now - s.windowSeconds);
      }
    }
  }

  lemma {:induction false} AnyWindowFits(s: IngressSettings, times: seq<int>, lo: int, hi: int)
    requires forall k :: 0 <= k < |times| ==> CountAfter(times[..k + 1], times[k] - s.windowSeconds) <= s.maxRequests
    requires hi - lo <= s.windowSeconds
    ensures CountIn(times, lo, hi) <= s.maxRequests
  {
    hide CountAfter;
    if times != [] {
      var n := |times| - 1;
      if times[n] > hi {
        var init := times[..n];
        forall k | 0 <= k < n ensures CountAfter(init[..k + 1], init[k] - s.windowSeconds) <= s.maxRequests {
          assert init[..k + 1] == times[..k + 1];
        }
        AnyWindowFits(s, init, lo, hi);
      } else {
        assert times[..n + 1] == times;
        CountInIsAtMostCountAfter(times, lo, hi);
        CountShrinksWithTheCut(times, times[n] - s.windowSeconds, lo);
      }
    }
  }

  lemma {:induction false} CountInIsAtMostCountAfter(times: seq<int>, lo: int, hi: int)
    ensures CountIn(times, lo, hi) <= CountAfter(times, lo)
  {
    if times != [] { CountInIsAtMostCountAfter(times[..|times| - 1], lo, hi); }
  }

  /** In every run, every interval (lo, hi] no longer than the window holds at most maxRequests
      admissions, although the table is pruned and counted only when a request arrives. */
  lemma {:induction false} RateIsBoundedInEveryWindow(s: IngressSettings, run: seq<IngressStep>, lo: int, hi: int)
    requires ClockIsMonotone(run) && hi - lo <= s.windowSeconds
    ensures CountIn(Admissions(s, run), lo, hi) <= s.maxRequests
  {
    hide Admissions, CountAfter, CountIn, ClockIsMonotone;
    forall k | 0 <= k < |Admissions(s, run)|
      ensures CountAfter(Admissions(s, run)[..k + 1], Admissions(s, run)[k] - s.windowSeconds) <= s.maxRequests
    {
      EachAdmissionFits(s, run, k);
    }
    AnyWindowFits(s, Admissions(s, run), lo, hi);
  }

  /** Admission is decided by the whole history, not by what happens to be left in the table: a
      request is rate-limited exactly when the window that ends with it already holds the maximum. */
  lemma {:induction false} AdmissionIsDecidedByHistory(s: IngressSettings, run: seq<IngressStep>, id: nat, now: int)
    requires ClockIsMonotone(run) && forall i :: 0 <= i < |run| && run[i].Request? ==> run[i].now <= now
    ensures var t, r := IngressAfter(s, run), AcquireIngress(s, IngressAfter(s, run), id, now);
      var full := CountAfter(Admissions(s, run), now - s.windowSeconds) >= s.maxRequests;
      && (r == Err("UPLOAD_RATE_LIMITED") <==> full)
      && (r.Ok? <==> !full && |UnexpiredIngress(t.leases, now)| < s.concurrency)
  {
    hide Admissions, IngressAfter, CountAfter, ClockIsMonotone, UnexpiredIngress, Recent;
    TableCountsLikeHistory(s, run, now, now - s.windowSeconds);
    var requests := IngressAfter(s, run).requests;
    PruningForgetsOnlyOldRequests(requests, now - s.windowSeconds, now - s.windowSeconds);
  }

  /** The interval must be half-open: one request at each end of a closed window are both admitted. */
  lemma {:induction false} ClosedWindowCanHoldOneMore(id: nat)
    ensures var s := IngressSettings(2, 60, 1, 10);
      Admissions(s, [Request(id, 0), Request(id, 60)]) == [0, 60]
  {
    var s := IngressSettings(2, 60, 1, 10);
    var first, both := [Request(id, 0)], [Request(id, 0), Request(id, 60)];
    var none: seq<IngressStep> := [];
    assert first[..0] == none && both[..1] == first;
    var empty := IngressTables([], []);
    assert IngressAfter(s, none) == empty;
    var t := IngressTables([IngressLease(id, 10)], [0]);
    assert UnexpiredIngress([], 0) + [IngressLease(id, 10)] == t.leases && Recent([], -60) + [0] == t.requests;
    assert AcquireIngress(s, empty, id, 0) == Ok(t);
    assert Admissions(s, none) == [] && Admissions(s, first) == [] + [0];
    assert AcquireIngress(s, t, id, 60).Ok? by {
      assert [0][..0] == [] && [IngressLease(id, 10)][..0] == [];
      assert |Recent([0], 0)| == 0;
      assert |UnexpiredIngress(t.leases, 60)| <= 1;
    }
  }

  /** Whatever the order of admissions and releases, even of lapsed leases, no moment has more
      unexpired ingress leases than the configured concurrency. */
  lemma {:induction false} IngressConcurrencyIsBounded(s: IngressSettings, run: seq<IngressStep>, now: int)
    ensures |UnexpiredIngress(IngressAfter(s, run).leases, now)| <= s.concurrency
  {
    IngressTableIsBounded(s, run);
  }

  lemma {:induction false} IngressTableIsBounded(s: IngressSettings, run: seq<IngressStep>)
    ensures |IngressAfter(s, run).leases| <= s.concurrency
  {
    if run != [] { IngressTableIsBounded(s, run[..|run| - 1]); }
  }

  // ---------------------------------------------------------------- runs of processing leases

  datatype ProcessingStep = Begin(id: nat, reservedBytes: nat, now: int) | End(id: nat)

  function ProcessingAfter(s: ProcessingSettings, run: seq<ProcessingStep>): seq<ProcessingLease> {
    if run == [] then []
    else
      var t, last := ProcessingAfter(s, run[..|run| - 1]), run[|run| - 1];
      match last
      case Begin(id, reservedBytes, now) =>
        var r := AcquireProcessing(s, t, id, reservedBytes, now);
        if r.Ok? then r.value else t
      case End(id) => ReleaseProcessing(t, id)
  }

  lemma {:induction false} DroppingLeasesReservesLess(leases: seq<ProcessingLease>, keep: ProcessingLease -> bool)
    ensures Reserved(Where(leases, keep)) <= Reserved(leases)
  {
    if leases != [] {
      var init, last := leases[..|leases| - 1], leases[|leases| - 1];
      DroppingLeasesReservesLess(init, keep);
      assert (Where(init, keep) + [last])[..|Where(init, keep)|] == Where(init, keep);
    }
  }

  /** The reservations of all leases together never exceed the byte budget, each reserves
      something, and there are never more than the configured concurrency. */
  lemma {:induction false} ReservationsStayWithinBudget(s: ProcessingSettings, run: seq<ProcessingStep>)
    ensures var t := ProcessingAfter(s, run);
      && Reserved(t) <= s.maxReservedBytes && |t| <= s.concurrency
      && forall l :: l in t ==> l.reservedBytes > 0
  {
    if run != [] {
      var before, last := run[..|run| - 1], run[|run| - 1];
      ReservationsStayWithinBudget(s, before);
      var t := ProcessingAfter(s, before);
      if last.Begin? {
        DroppingLeasesReservesLess(t, (l: ProcessingLease) => l.expiresAt > last.now);
        var live := UnexpiredProcessing(t, last.now);
        var row := ProcessingLease(last.id, last.reservedBytes, last.now + s.leaseSeconds);
        assert (live + [row])[..|live|] == live;
      } else {
        DroppingLeasesReservesLess(t, (l: ProcessingLease) => l.id != last.id);
      }
    }
  }

  lemma {:induction false} EveryLeaseReservesAtLeast(leases: seq<ProcessingLease>, bytes: nat)
    requires forall l :: l in leases ==> l.reservedBytes == bytes
    ensures Reserved(leases) == |leases| * bytes
  {
    if leases != [] { EveryLeaseReservesAtLeast(leases[..|leases| - 1], bytes); }
  }

  lemma {:induction false} LeasesReserveWhatWasAsked(s: ProcessingSettings, run: seq<ProcessingStep>, bytes: nat)
    requires forall k :: 0 <= k < |run| && run[k].Begin? ==> run[k].reservedBytes == bytes
    ensures forall l :: l in ProcessingAfter(s, run) ==> l.reservedBytes == bytes
  {
    if run != [] { LeasesReserveWhatWasAsked(s, run[..|run| - 1], bytes); }
  }

  lemma {:induction false} NoRoomForTwo(n: nat, bytes: nat)
    requires bytes > 0 && n * bytes <= bytes
    ensures n <= 1
  {
  }

  /** The quarantine service always reserves the whole byte budget, so processing is mutually
      exclusive whatever processing concurrency is configured. */
  lemma {:induction false} ProcessingIsMutuallyExclusive(s: ProcessingSettings, run: seq<ProcessingStep>, now: int)
    requires forall k :: 0 <= k < |run| && run[k].Begin? ==> run[k].reservedBytes == s.maxReservedBytes
    ensures |UnexpiredProcessing(ProcessingAfter(s, run), now)| <= 1
  {
    var t := ProcessingAfter(s, run);
    ReservationsStayWithinBudget(s, run);
    LeasesReserveWhatWasAsked(s, run, s.maxReservedBytes);
    EveryLeaseReservesAtLeast(t, s.maxReservedBytes);
    if t != [] {
      assert t[0].reservedBytes > 0;
      NoRoomForTwo(|t|, s.maxReservedBytes);
    }
  }

  // ---------------------------------------------------------------- how long a lease lasts

  predicate BeginsInOrder(run: seq<ProcessingStep>) {
    forall i, j :: 0 <= i < j < |run| && run[i].Begin? && run[j].Begin? ==> run[i].now <= run[j].now
  }

  predicate BegunBy(run: seq<ProcessingStep>, now: int) {
    forall k :: 0 <= k < |run| && run[k].Begin? ==> run[k].now <= now
  }

  /** Step k asked for processing and was granted it. */
  predicate Grants(s: ProcessingSettings, run: seq<ProcessingStep>, k: nat) {
    && k < |run| && run[k].Begin?
    && AcquireProcessing(s, ProcessingAfter(s, run[..k]), run[k].id, run[k].reservedBytes, run[k].now).Ok?
  }

  /** It was not released since, and the lease it got has not run out. */
  predicate StillHeld(s: ProcessingSettings, run: seq<ProcessingStep>, k: nat, now: int) {
    && Grants(s, run, k) && run[k].now + s.leaseSeconds > now
    && forall j :: k < j < |run| ==> run[j] != End(run[k].id)
  }

  function LeaseOf(s: ProcessingSettings, step: ProcessingStep): ProcessingLease
    requires step.Begin?
  {
    ProcessingLease(step.id, step.reservedBytes, step.now + s.leaseSeconds)
  }

  ghost predicate IsHeld(s: ProcessingSettings, run: seq<ProcessingStep>, now: int, l: ProcessingLease) {
    exists k: nat :: StillHeld(s, run, k, now) && l == LeaseOf(s, run[k])
  }

  lemma {:induction false} BeginAddsItsLease(s: ProcessingSettings, t: seq<ProcessingLease>, step: ProcessingStep,
          now: int, l: ProcessingLease)
    requires step.Begin? && step.now <= now
    ensures var r := AcquireProcessing(s, t, step.id, step.reservedBytes, step.now);
      r.Ok? ==>
        (l in UnexpiredProcessing(r.value, now) <==>
           l in UnexpiredProcessing(t, now) || (l == LeaseOf(s, step) && l.expiresAt > now))
  {
    hide Reserved;
  }

  lemma {:induction false} HoldingGoesOn(s: ProcessingSettings, run: seq<ProcessingStep>, now: int, l: ProcessingLease)
    requires run != []
    ensures var n := |run| - 1;
      IsHeld(s, run, now, l) <==>
        || (IsHeld(s, run[..n], now, l) && run[n] != End(l.id))
        || (Grants(s, run, n) && l == LeaseOf(s, run[n]) && l.expiresAt > now)
  {
    hide AcquireProcessing, ProcessingAfter;
    var n := |run| - 1;
    var before := run[..n];
    forall k: nat | k < n ensures Grants(s, run, k) == Grants(s, before, k) && before[k] == run[k] {
      assert before[..k] == run[..k];
    }
    if IsHeld(s, run, now, l) {
      var k: nat :| StillHeld(s, run, k, now) && l == LeaseOf(s, run[k]);
      assert k < n ==> StillHeld(s, before, k, now) && run[n] != End(l.id);
    }
    if IsHeld(s, before, now, l) && run[n] != End(l.id) {
      var k: nat :| StillHeld(s, before, k, now) && l == LeaseOf(s, before[k]);
      forall j | k < j < |run| ensures run[j] != End(run[k].id) { assert j < n ==> run[j] == before[j]; }
      assert StillHeld(s, run, k, now);
    }
    if Grants(s, run, n) && l == LeaseOf(s, run[n]) && l.expiresAt > now {
      assert StillHeld(s, run, n, now);
    }
  }

  /** The unexpired leases of the table are exactly those of the granted requests that were not
      released and were granted less than the lease time ago. */
  lemma {:induction false} TableHoldsExactlyTheHeld(s: ProcessingSettings, run: seq<ProcessingStep>, now: int,
          l: ProcessingLease)
    requires BeginsInOrder(run) && BegunBy(run, now)
    ensures l in UnexpiredProcessing(ProcessingAfter(s, run), now) <==> IsHeld(s, run, now, l)
  {
    hide AcquireProcessing, IsHeld, LeaseOf;
    if run != [] {
      var n := |run| - 1;
      TableHoldsExactlyTheHeld(s, run[..n], now, l);
      HoldingGoesOn(s, run, now, l);
      if run[n].Begin? { BeginAddsItsLease(s, ProcessingAfter(s, run[..n]), run[n], now, l); }
    } else {
      assert !IsHeld(s, run, now, l) by { NothingIsHeld(s, now, l); }
    }
  }

  lemma {:induction false} NothingIsHeld(s: ProcessingSettings, now: int, l: ProcessingLease)
    ensures !IsHeld(s, [], now, l)
  {
  }

  /** A granted lease lasts: as long as it is not released and its time has not passed, it is in the
      table with what it reserved. */
  lemma {:induction false} GrantedLeaseLasts(s: ProcessingSettings, run: seq<ProcessingStep>, k: nat, now: int)
    requires BeginsInOrder(run) && BegunBy(run, now) && Grants(s, run, k)
    requires now < run[k].now + s.leaseSeconds && forall j :: k < j < |run| ==> run[j] != End(run[k].id)
    ensures ProcessingLease(run[k].id, run[k].reservedBytes, run[k].now + s.leaseSeconds) in ProcessingAfter(s, run)
  {
    hide AcquireProcessing, ProcessingAfter;
    assert StillHeld(s, run, k, now);
    TableHoldsExactlyTheHeld(s, run, now, LeaseOf(s, run[k]));
  }

  /** When every lease reserves the whole budget, a request is granted if and only if every request
      granted before it was released since or was granted at least the lease time ago: two processes
      never prepare uploads at once, and no process is kept out by one that is gone. */
  lemma {:induction false} ProcessingIsGrantedExactlyWhenFree(s: ProcessingSettings, run: seq<ProcessingStep>, id: nat,
          now: int)
    requires forall k :: 0 <= k < |run| && run[k].Begin? ==> run[k].reservedBytes == s.maxReservedBytes
    requires BeginsInOrder(run) && BegunBy(run, now) && s.concurrency >= 1 && s.maxReservedBytes >= 1
    ensures AcquireProcessing(s, ProcessingAfter(s, run), id, s.maxReservedBytes, now).Ok? <==>
      forall k: nat :: Grants(s, run, k) ==>
        run[k].now + s.leaseSeconds <= now || exists j :: k < j < |run| && run[j] == End(run[k].id)
  {
    hide ProcessingAfter;
    var t := ProcessingAfter(s, run);
    var live := UnexpiredProcessing(t, now);
    LeasesReserveWhatWasAsked(s, run, s.maxReservedBytes);
    if live == [] {
      forall k: nat | Grants(s, run, k)
        ensures run[k].now + s.leaseSeconds <= now || exists j :: k < j < |run| && run[j] == End(run[k].id)
      {
        TableHoldsExactlyTheHeld(s, run, now, LeaseOf(s, run[k]));
        assert !StillHeld(s, run, k, now);
      }
    } else {
      EveryLeaseReservesAtLeast(live, s.maxReservedBytes);
      OneLeaseIsTooMuch(|live|, s.maxReservedBytes);
      TableHoldsExactlyTheHeld(s, run, now, live[0]);
      var k: nat :| StillHeld(s, run, k, now) && live[0] == LeaseOf(s, run[k]);
    }
  }

  lemma {:induction false} OneLeaseIsTooMuch(n: nat, bytes: nat)
    requires n >= 1 && bytes >= 1
    ensures n * bytes + bytes > bytes
  {
  }

  // ---------------------------------------------------------------- the same for ingress

  predicate RequestedBy(run: seq<IngressStep>, now: int) {
    forall k :: 0 <= k < |run| && run[k].Request? ==> run[k].now <= now
  }

  /** Each request has its own lease identifier. */
  predicate OwnIdentifiers(run: seq<IngressStep>) {
    forall i, j :: 0 <= i < j < |run| && run[i].Request? && run[j].Request? ==> run[i].id != run[j].id
  }

  predicate Admits(s: IngressSettings, run: seq<IngressStep>, k: nat) {
    k < |run| && run[k].Request? && AcquireIngress(s, IngressAfter(s, run[..k]), run[k].id, run[k].now).Ok?
  }

  /** The upload admitted at step k is still being received, as far as the Hub can know. */
  predicate StillIn(s: IngressSettings, run: seq<IngressStep>, k: nat, now: int) {
    && Admits(s, run, k) && run[k].now + s.leaseSeconds > now
    && forall j :: k < j < |run| ==> run[j] != Finish(run[k].id)
  }

  function EntryOf(s: IngressSettings, step: IngressStep): IngressLease
    requires step.Request?
  {
    IngressLease(step.id, step.now + s.leaseSeconds)
  }

  ghost predicate IsIn(s: IngressSettings, run: seq<IngressStep>, now: int, l: IngressLease) {
    exists k: nat :: StillIn(s, run, k, now) && l == EntryOf(s, run[k])
  }

  lemma {:induction false} RequestAddsItsLease(s: IngressSettings, t: IngressTables, step: IngressStep, now: int,
          l: IngressLease)
    requires step.Request? && step.now <= now
    ensures var r := AcquireIngress(s, t, step.id, step.now);
      r.Ok? ==>
        (l in UnexpiredIngress(r.value.leases, now) <==>
           l in UnexpiredIngress(t.leases, now) || (l == EntryOf(s, step) && l.expiresAt > now))
  {
    hide Recent;
  }

  lemma {:induction false} BeingInGoesOn(s: IngressSettings, run: seq<IngressStep>, now: int, l: IngressLease)
    requires run != []
    ensures var n := |run| - 1;
      IsIn(s, run, now, l) <==>
        || (IsIn(s, run[..n], now, l) && run[n] != Finish(l.id))
        || (Admits(s, run, n) && l == EntryOf(s, run[n]) && l.expiresAt > now)
  {
    hide AcquireIngress, IngressAfter;
    var n := |run| - 1;
    var before := run[..n];
    forall k: nat | k < n ensures Admits(s, run, k) == Admits(s, before, k) && before[k] == run[k] {
      assert before[..k] == run[..k];
    }
    if IsIn(s, run, now, l) {
      var k: nat :| StillIn(s, run, k, now) && l == EntryOf(s, run[k]);
      assert k < n ==> StillIn(s, before, k, now) && run[n] != Finish(l.id);
    }
    if IsIn(s, before, now, l) && run[n] != Finish(l.id) {
      var k: nat :| StillIn(s, before, k, now) && l == EntryOf(s, before[k]);
      forall j | k < j < |run| ensures run[j] != Finish(run[k].id) { assert j < n ==> run[j] == before[j]; }
      assert StillIn(s, run, k, now);
    }
    if Admits(s, run, n) && l == EntryOf(s, run[n]) && l.expiresAt > now {
      assert StillIn(s, run, n, now);
    }
  }

  /** The unexpired ingress leases are exactly those of the admitted requests that have not finished
      and were admitted less than the lease time ago. */
  lemma {:induction false} TableHoldsExactlyTheAdmitted(s: IngressSettings, run: seq<IngressStep>, now: int,
          l: IngressLease)
    requires ClockIsMonotone(run) && RequestedBy(run, now)
    ensures l in UnexpiredIngress(IngressAfter(s, run).leases, now) <==> IsIn(s, run, now, l)
  {
    hide AcquireIngress, IsIn, EntryOf;
    if run != [] {
      var n := |run| - 1;
      TableHoldsExactlyTheAdmitted(s, run[..n], now, l);
      BeingInGoesOn(s, run, now, l);
      if run[n].Request? { RequestAddsItsLease(s, IngressAfter(s, run[..n]), run[n], now, l); }
    } else {
      assert !IsIn(s, run, now, l) by { NobodyIsIn(s, now, l); }
    }
  }

  lemma {:induction false} NobodyIsIn(s: IngressSettings, now: int, l: IngressLease)
    ensures !IsIn(s, [], now, l)
  {
  }

  predicate DistinctLeases(leases: seq<IngressLease>) {
    forall i, j :: 0 <= i < j < |leases| ==> leases[i].id != leases[j].id
  }

  lemma {:induction false} FewerLeasesAreDistinct(leases: seq<IngressLease>, keep: IngressLease -> bool)
    requires DistinctLeases(leases)
    ensures DistinctLeases(Where(leases, keep))
  {
    if leases != [] {
      var n := |leases| - 1;
      FewerLeasesAreDistinct(leases[..n], keep);
      forall l | l in Where(leases[..n], keep) ensures l.id != leases[n].id {
        var i :| 0 <= i < n && leases[..n][i] == l;
        assert leases[i] == l;
      }
    }
  }

  predicate IsRequested(run: seq<IngressStep>, id: nat) {
    exists k :: 0 <= k < |run| && run[k].Request? && run[k].id == id
  }

  lemma {:induction false} NewIdentifiers(run: seq<IngressStep>, id: nat)
    requires run != [] && OwnIdentifiers(run)
    ensures var n := |run| - 1;
      && OwnIdentifiers(run[..n])
      && (IsRequested(run[..n], id) ==> IsRequested(run, id) && (run[n].Request? ==> run[n].id != id))
      && (run[n].Request? ==> IsRequested(run, run[n].id))
  {
    var n := |run| - 1;
    if IsRequested(run[..n], id) {
      var k :| 0 <= k < n && run[..n][k].Request? && run[..n][k].id == id;
      assert run[k].Request? && run[k].id == id;
    }
  }

  lemma {:induction false} LeasesAreOfRequests(s: IngressSettings, run: seq<IngressStep>)
    requires OwnIdentifiers(run)
    ensures DistinctLeases(IngressAfter(s, run).leases)
    ensures forall l :: l in IngressAfter(s, run).leases ==> IsRequested(run, l.id)
  {
    hide Recent, IsRequested, OwnIdentifiers;
    if run != [] {
      var n := |run| - 1;
      var before, last := run[..n], run[n];
      NewIdentifiers(run, last.id);
      LeasesAreOfRequests(s, before);
      var t := IngressAfter(s, before);
      forall l | l in t.leases ensures IsRequested(run, l.id) && (last.Request? ==> last.id != l.id) {
        NewIdentifiers(run, l.id);
      }
      if last.Request? {
        FewerLeasesAreDistinct(t.leases, (l: IngressLease) => l.expiresAt > last.now);
      } else {
        FewerLeasesAreDistinct(t.leases, (l: IngressLease) => l.id != last.id);
      }
    }
  }

  ghost function RequestsIn(s: IngressSettings, run: seq<IngressStep>, now: int): set<nat> {
    set k: nat | k < |run| && StillIn(s, run, k, now)
  }

  /** As many leases as steps when each step has its own lease. */
  lemma {:induction false} AsManyLeases(s: IngressSettings, run: seq<IngressStep>, leases: seq<IngressLease>,
          ks: set<nat>)
    requires OwnIdentifiers(run) && DistinctLeases(leases)
    requires forall k :: k in ks ==> k < |run| && run[k].Request?
    requires forall l :: l in leases <==> exists k :: k in ks && l == EntryOf(s, run[k])
    ensures |leases| == |ks|
  {
    assert forall k :: k in ks ==> EntryOf(s, run[k]) in leases;
    if leases == [] {
      assert ks == {};
    } else {
      var n := |leases| - 1;
      assert leases[n] in leases;
      var k :| k in ks && leases[n] == EntryOf(s, run[k]);
      var rest := ks - {k};
      forall l ensures l in leases[..n] <==> exists j :: j in rest && l == EntryOf(s, run[j]) {
        assert l in leases <==> l in leases[..n] || l == leases[n];
        if l in leases[..n] {
          var j :| j in ks && l == EntryOf(s, run[j]);
          assert j in rest;
        }
        if j :| j in rest && l == EntryOf(s, run[j]) {
          assert run[j].id != run[k].id;
        }
      }
      AsManyLeases(s, run, leases[..n], rest);
    }
  }

  /** So a request is admitted if and only if the window that ends with it holds fewer than the maximum
      of admissions, and fewer than the configured number of earlier requests are still in. */
  lemma {:induction false} RequestIsAdmittedExactlyWhen(s: IngressSettings, run: seq<IngressStep>, id: nat, now: int)
    requires ClockIsMonotone(run) && RequestedBy(run, now) && OwnIdentifiers(run)
    ensures AcquireIngress(s, IngressAfter(s, run), id, now).Ok? <==>
      && CountAfter(Admissions(s, run), now - s.windowSeconds) < s.maxRequests
      && |RequestsIn(s, run, now)| < s.concurrency
  {
    hide AcquireIngress, IngressAfter, CountAfter;
    AdmissionIsDecidedByHistory(s, run, id, now);
    var leases := UnexpiredIngress(IngressAfter(s, run).leases, now);
    LeasesAreOfRequests(s, run);
    FewerLeasesAreDistinct(IngressAfter(s, run).leases, (l: IngressLease) => l.expiresAt > now);
    forall l ensures l in leases <==> exists k :: k in RequestsIn(s, run, now) && l == EntryOf(s, run[k]) {
      TableHoldsExactlyTheAdmitted(s, run, now, l);
      if IsIn(s, run, now, l) {
        var k: nat :| StillIn(s, run, k, now) && l == EntryOf(s, run[k]);
        assert k in RequestsIn(s, run, now);
      }
    }
    AsManyLeases(s, run, leases, RequestsIn(s, run, now));
  }
}
