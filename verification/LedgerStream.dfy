/** From ledger to viewer: what the indexer commits meets the assumptions of the stream theorems. */
module LedgerStream {
  import opened Basics
  import opened Indexing
  import opened IndexingProofs
  import opened Streaming
  import opened StreamProofs
  import opened StreamOrder

  /** The public events of a stretch of the ledger, as one identity's rows and messages carry them. */
  function Notices(id: Identity, events: seq<Event>): seq<Notice> {
    if events == [] then []
    else
      var init, last := Notices(id, events[..|events| - 1]), events[|events| - 1];
      if IsPublic(last) then init + [Notice(id, last)] else init
  }

  lemma {:induction false} NoticesConcat(id: Identity, a: seq<Event>, b: seq<Event>)
    ensures Notices(id, a + b) == Notices(id, a) + Notices(id, b)
  {
    if b == [] {
      assert a + b == a;
    } else {
      assert (a + b)[..|a + b| - 1] == a + b[..|b| - 1];
      NoticesConcat(id, a, b[..|b| - 1]);
    }
  }

  lemma {:induction false} NoticesMembers(id: Identity, events: seq<Event>)
    ensures forall n :: n in Notices(id, events) ==> n == Notice(id, n.event) && n.event in events
  {
    if events != [] {
      NoticesMembers(id, events[..|events| - 1]);
      assert events == events[..|events| - 1] + [events[|events| - 1]];
    }
  }

  lemma {:induction false} NoticesKeepOrder(id: Identity, events: seq<Event>)
    requires Ordered(events)
    ensures InLedgerOrder(Notices(id, events))
  {
    hide Before;
    if events != [] {
      var init, last := events[..|events| - 1], events[|events| - 1];
      NoticesKeepOrder(id, init);
      NoticesMembers(id, init);
      var s := Notices(id, init);
      forall i | 0 <= i < |s| ensures Before(s[i].event, last) {
        assert s[i] in s;
        var k :| 0 <= k < |init| && init[k] == s[i].event;
        assert events[k] == s[i].event;
      }
    }
  }

  lemma {:induction false} OrderedKeysDiffer(s: seq<Notice>)
    requires InLedgerOrder(s)
    ensures DistinctKeys(s)
  {
    forall i, j | 0 <= i < j < |s| ensures DedupeKey(s[i]) != DedupeKey(s[j]) {
      assert Before(s[i].event, s[j].event);
    }
  }

  lemma {:induction false} EventsAreNormalised(id: Identity, ledger: Ledger, from: nat, next: nat)
    requires next <= |ledger|
    ensures forall e :: e in EventsIn(ledger, from, next) ==> Normalised(Notice(id, e))
  {
    hide Sort, Decoded, Normalised;
    if next > from {
      EventsAreNormalised(id, ledger, from, next - 1);
      SortedElements(Decoded(ledger[next - 1]));
      forall e | e in Decoded(ledger[next - 1]) ensures Normalised(Notice(id, e)) {
        var i :| 0 <= i < |Decoded(ledger[next - 1])| && Decoded(ledger[next - 1])[i] == e;
        DecodedComesFromLogs(ledger[next - 1], i);
        var k :| 0 <= k < |ledger[next - 1]| && Decode(ledger[next - 1][k]) == Some(e);
        DecodedEventsAreNormalised(ledger[next - 1][k], id);
      }
    }
  }

  /** The public events of any stretch of a ledger are in ledger order, have distinct keys and carry
      their subjects in lower case: everything the stream theorems ask of the committed table. */
  lemma {:induction false} LedgerSuitsTheStream(watch: Watch, id: Identity, ledger: Ledger, from: nat, next: nat)
    requires ValidLedger(ledger) && from <= next <= |ledger|
    ensures var committed := Notices(id, EventsIn(ledger, from, next));
      && DistinctKeys(committed) && (forall n :: n in committed ==> Normalised(n))
      && MineOrdered(watch, committed)
  {
    hide Normalised, EventsIn;
    var events := EventsIn(ledger, from, next);
    EventsAreOrdered(ledger, from, next);
    NoticesKeepOrder(id, events);
    OrderedKeysDiffer(Notices(id, events));
    EventsAreNormalised(id, ledger, from, next);
    NoticesMembers(id, events);
    forall n | n in Notices(id, events) ensures Normalised(n) {
      assert Normalised(Notice(id, n.event));
    }
  }

  /** What the indexer publishes for a window is what the stream expects to be published for it: the
      window's committed public events that are complete, in the same order, under the same identity. */
  lemma {:induction false} AnnouncesWhatItCommitted(id: Identity, events: seq<Event>)
    ensures Announce(id, events) == Announceables(Notices(Canon(id), events))
  {
    if events != [] {
      var init, last := events[..|events| - 1], events[|events| - 1];
      AnnouncesWhatItCommitted(id, init);
      if IsPublic(last) {
        var n := Notices(Canon(id), init);
        assert (n + [Notice(Canon(id), last)])[..|n|] == n;
      }
    }
  }

  /** Each window committed after the others keeps the committed table a stretch of the ledger. */
  lemma {:induction false} WindowsExtendTheStretch(id: Identity, ledger: Ledger, from: nat, mid: nat, next: nat)
    requires from <= mid <= next <= |ledger|
    ensures Notices(id, EventsIn(ledger, from, next)) ==
      Notices(id, EventsIn(ledger, from, mid)) + Notices(id, EventsIn(ledger, mid, next))
  {
    EventsSplit(ledger, from, mid, next);
    NoticesConcat(id, EventsIn(ledger, from, mid), EventsIn(ledger, mid, next));
  }

  /** Whoever commits a window, and however often, it is a stretch of the ledger. */
  ghost predicate DrawsFrom(id: Identity, ledger: Ledger, run: seq<Step>) {
    forall k :: 0 <= k < |run| && run[k].CommitWindow? ==> IsStretch(id, ledger, run[k].window)
  }

  ghost predicate IsStretch(id: Identity, ledger: Ledger, window: seq<Notice>) {
    exists from: nat, next: nat :: from <= next <= |ledger| && window == Notices(id, EventsIn(ledger, from, next))
  }

  lemma {:induction false} StretchIsOfTheLedger(id: Identity, ledger: Ledger, window: seq<Notice>)
    requires IsStretch(id, ledger, window)
    ensures forall n :: n in window ==> n in Notices(id, EventsIn(ledger, 0, |ledger|))
  {
    hide EventsIn;
    var from: nat, next: nat :| from <= next <= |ledger| && window == Notices(id, EventsIn(ledger, from, next));
    WindowsExtendTheStretch(id, ledger, 0, from, |ledger|);
    WindowsExtendTheStretch(id, ledger, from, next, |ledger|);
  }

  lemma {:induction false} IndexedIsOfTheLedger(watch: Watch, id: Identity, ledger: Ledger, run: seq<Step>)
    requires DrawsFrom(id, ledger, run)
    ensures forall n :: n in AfterSteps(watch, run).indexed ==> n in Notices(id, EventsIn(ledger, 0, |ledger|))
  {
    hide Take, EventsIn;
    if run != [] {
      var k := |run| - 1;
      IndexedIsOfTheLedger(watch, id, ledger, run[..k]);
      OtherStepsIndexNothing(watch, AfterSteps(watch, run[..k]), run[k]);
      if run[k].CommitWindow? { StretchIsOfTheLedger(id, ledger, run[k].window); }
    }
  }

  lemma {:induction false} OtherStepsIndexNothing(watch: Watch, w: World, s: Step)
    ensures Take(watch, w, s).indexed == if s.CommitWindow? then w.indexed + s.window else w.indexed
  {
    hide Hear, Drain, Query, StoreRows;
  }

  lemma {:induction false} LedgerKeysName(id: Identity, ledger: Ledger)
    requires ValidLedger(ledger) && KeysNameEvents(id, EventsIn(ledger, 0, |ledger|))
    ensures KeysNameNotices(Notices(id, EventsIn(ledger, 0, |ledger|)))
  {
    hide EventsIn, DedupeKey, KeyOf;
    var events := EventsIn(ledger, 0, |ledger|);
    var all := Notices(id, events);
    EventsAreOrdered(ledger, 0, |ledger|);
    NoticesKeepOrder(id, events);
    OrderedKeysDiffer(all);
    NoticesMembers(id, events);
    forall n, m | n in all && m in all && (DedupeKey(n) == DedupeKey(m) || RowKey(n) == RowKey(m)) ensures n == m {
      var i :| 0 <= i < |events| && events[i] == n.event;
      var j :| 0 <= j < |events| && events[j] == m.event;
      var a :| 0 <= a < |all| && all[a] == n;
      var b :| 0 <= b < |all| && all[b] == m;
    }
  }

  lemma {:induction false} DrawnIsSane(watch: Watch, id: Identity, ledger: Ledger, run: seq<Step>)
    requires ValidLedger(ledger) && KeysNameEvents(id, EventsIn(ledger, 0, |ledger|)) && DrawsFrom(id, ledger, run)
    ensures Sane(AfterSteps(watch, run))
  {
    hide AfterSteps, EventsIn, KeysNameNotices, Normalised, ValidLedger, KeysNameEvents;
    IndexedIsOfTheLedger(watch, id, ledger, run);
    LedgerKeysName(id, ledger);
    LedgerSuitsTheStream(watch, id, ledger, 0, |ledger|);
    FewerKeysName(AfterSteps(watch, run).indexed, Notices(id, EventsIn(ledger, 0, |ledger|)));
  }

  /** End to end, for every interleaving of any number of indexers over one ledger, windows committed
      and announced any number of times in any order: no key is shown twice, and a due event of any
      committed window is shown once a notification of it was published and has been delivered. */
  lemma {:induction false} ViewersSeeTheLedger(watch: Watch, id: Identity, ledger: Ledger, run: seq<Step>, n: Notice)
    requires ValidLedger(ledger) && KeysNameEvents(id, EventsIn(ledger, 0, |ledger|)) && DrawsFrom(id, ledger, run)
    ensures var w := AfterSteps(watch, run);
      && DistinctKeys(w.viewer.emitted)
      && (w.viewer.replayReady && n in w.indexed && Due(watch, n) ==>
            n in w.published && Wire(n, false) !in w.channel ==> DedupeKey(n) in Keys(w.viewer.emitted))
  {
    hide AfterSteps, EventsIn, DedupeKey, Due, ValidLedger, KeysNameEvents, Sane, DrawsFrom;
    DrawnIsSane(watch, id, ledger, run);
    ReachableWorlds(watch, run);
    var w := AfterSteps(watch, run);
    if w.viewer.replayReady && n in w.indexed && Due(watch, n) && n in w.published && Wire(n, false) !in w.channel {
      EveryDueEventIsEmittedOnce(watch, run, n);
      var e := w.viewer.emitted;
      var i :| 0 <= i < |e| && DedupeKey(e[i]) == DedupeKey(n);
      assert e[i] in e;
    }
  }

  // ---------------------------------------------------------------- one indexer

  /** One indexer per slot: each commit of a run is the next stretch of the ledger. */
  ghost predicate IndexesLedger(id: Identity, ledger: Ledger, run: seq<Step>, ends: seq<nat>) {
    && |ends| == |run| + 1
    && (forall k :: 0 <= k < |ends| ==> ends[k] <= |ledger|)
    && (forall k :: 0 <= k < |run| ==> Covers(id, ledger, run[k], ends[k], ends[k + 1]))
  }

  ghost predicate Covers(id: Identity, ledger: Ledger, s: Step, from: nat, next: nat)
    requires next <= |ledger|
  {
    if s.CommitWindow? then from <= next && s.window == Notices(id, EventsIn(ledger, from, next)) else next == from
  }

  lemma {:induction false} IndexedIsAStretch(watch: Watch, id: Identity, ledger: Ledger, run: seq<Step>, ends: seq<nat>)
    requires IndexesLedger(id, ledger, run, ends)
    ensures ends[0] <= ends[|run|] <= |ledger|
    ensures AfterSteps(watch, run).indexed == Notices(id, EventsIn(ledger, ends[0], ends[|run|]))
  {
    hide Take, EventsIn;
    if run == [] {
      NoNotices(id, ledger, ends[0]);
    } else {
      var n := |run| - 1;
      IndexedIsAStretch(watch, id, ledger, run[..n], ends[..n + 1]);
      assert Covers(id, ledger, run[n], ends[n], ends[n + 1]);
      OtherStepsIndexNothing(watch, AfterSteps(watch, run[..n]), run[n]);
      WindowsExtendTheStretch(id, ledger, ends[0], ends[n], ends[n + 1]);
    }
  }

  lemma {:induction false} NoNotices(id: Identity, ledger: Ledger, at: nat)
    requires at <= |ledger|
    ensures Notices(id, EventsIn(ledger, at, at)) == []
  {
  }

  lemma {:induction false} SequentialRunsDraw(id: Identity, ledger: Ledger, run: seq<Step>, ends: seq<nat>)
    requires IndexesLedger(id, ledger, run, ends)
    ensures DrawsFrom(id, ledger, run)
  {
    hide EventsIn;
    forall k | 0 <= k < |run| && run[k].CommitWindow? ensures IsStretch(id, ledger, run[k].window) {
      assert Covers(id, ledger, run[k], ends[k], ends[k + 1]);
    }
  }

  /** The table of a world in which each event was indexed once is what was indexed. */
  lemma {:induction false} CommittedIsIndexed(watch: Watch, run: seq<Step>)
    requires Sane(AfterSteps(watch, run)) && CommittedOnce(AfterSteps(watch, run))
    ensures AfterSteps(watch, run).committed == AfterSteps(watch, run).indexed
  {
    hide Take, Sane, DistinctKeys, TableInvariant, ViewerInvariant, FlowInvariant;
    if run != [] {
      var before, last := run[..|run| - 1], run[|run| - 1];
      var w := AfterSteps(watch, before);
      SaneBefore(watch, w, last);
      ReachableWorlds(watch, before);
      IndexedOnlyGrows(watch, w, last);
      EarlierPartsAreOrdered(watch, w.indexed, AfterSteps(watch, run).indexed);
      CommittedIsIndexed(watch, before);
      OtherStepsIndexNothing(watch, w, last);
      if last.CommitWindow? { WindowKeepsTable(watch, w, last.window); } else { OtherStepsKeepTable(watch, w, last); }
    }
  }

  /** With one indexer that commits its windows one after the other, and a channel that delivers in
      order, what is shown from the requested block on is strictly increasing in the ledger. */
  lemma {:induction false} ViewersSeeTheLedgerInOrder(watch: Watch, id: Identity, ledger: Ledger, run: seq<Step>,
          ends: seq<nat>, local: bool)
    requires ValidLedger(ledger) && KeysNameEvents(id, EventsIn(ledger, 0, |ledger|))
    requires IndexesLedger(id, ledger, run, ends) && InOrder(run, local)
    ensures OrderedFrom(watch, AfterSteps(watch, run).viewer.emitted)
  {
    hide AfterSteps, EventsIn, DedupeKey, Before, ValidLedger, KeysNameEvents, Sane, DrawsFrom, InOrder;
    IndexedIsAStretch(watch, id, ledger, run, ends);
    SequentialRunsDraw(id, ledger, run, ends);
    DrawnIsSane(watch, id, ledger, run);
    LedgerSuitsTheStream(watch, id, ledger, ends[0], ends[|run|]);
    CommittedIsIndexed(watch, run);
    EmittedInLedgerOrder(watch, run, local);
  }
}
