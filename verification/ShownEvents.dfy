/** What viewers are shown, told by the columns of the events themselves: nothing but complete events of
    the watched subjects and contract, each with its own content, and every one of them once. */
module ShownEvents {
  import opened Basics
  import opened Indexing
  import opened Streaming
  import opened StreamProofs
  import IndexingProofs

  /** A complete public event of a watched subject, from the watched contract. */
  predicate Watched(watch: Watch, n: Notice) {
    && n.identity.slotName == watch.identity.slotName && n.identity.chainId == watch.identity.chainId
    && n.identity.contract == watch.identity.contract
    && n.event.payload.Public?
    && n.event.payload.subjectId.Some? && n.event.payload.subjectId.value in watch.subjects
    && n.event.payload.sourceAddress.Some? && n.event.payload.eventType.Some? && n.event.payload.dataHex.Some?
  }

  /** The replayed message says what its event says, with hashes, addresses and data in lower case. */
  predicate ReplaysEvent(m: Notice, n: Notice) {
    && n.event.payload.Public? && m.event.payload.Public? && m.identity == n.identity
    && m.event.blockNumber == n.event.blockNumber && m.event.transactionIndex == n.event.transactionIndex
    && m.event.logIndex == n.event.logIndex && m.event.timestamp == n.event.timestamp
    && m.event.transactionHash == Lower(n.event.transactionHash) && m.event.blockHash == Lower(n.event.blockHash)
    && IndexingProofs.LowerCased(n.event.payload.subjectId, m.event.payload.subjectId)
    && IndexingProofs.LowerCased(n.event.payload.sourceAddress, m.event.payload.sourceAddress)
    && m.event.payload.eventType == n.event.payload.eventType
    && IndexingProofs.LowerCased(n.event.payload.dataHex, m.event.payload.dataHex)
  }

  /** m was shown for event n: it is the message that arrived, or the row that the query found. */
  ghost predicate ShownFor(watch: Watch, w: World, m: Notice, n: Notice) {
    && Watched(watch, n)
    && (|| (m == n && n in w.arrived)
        || (n in w.snapshot && n.event.blockNumber >= watch.fromBlock && ReplaysEvent(m, n)))
  }

  ghost predicate AllAccountedFor(watch: Watch, w: World) {
    forall m :: m in w.viewer.emitted ==> exists n :: ShownFor(watch, w, m, n)
  }

  lemma {:induction false} RowReplaysEvent(n: Notice)
    requires n.event.payload.Public?
    ensures ReplaysEvent(AsRow(n), n)
  {
  }

  lemma {:induction false} MatchingIsWatching(watch: Watch, n: Notice)
    ensures Matches(watch, n) && Announceable(n.event) <==> Watched(watch, n)
  {
    assert n.identity == Identity(n.identity.slotName, n.identity.chainId, n.identity.contract);
  }

  lemma {:induction false} MoreArrived(watch: Watch, w: World, after: World)
    requires AllAccountedFor(watch, w) && after.viewer.emitted == w.viewer.emitted && after.snapshot == w.snapshot
    requires forall n :: n in w.arrived ==> n in after.arrived
    ensures AllAccountedFor(watch, after)
  {
    hide Watched, ReplaysEvent;
    forall m | m in after.viewer.emitted ensures exists n :: ShownFor(watch, after, m, n) {
      var n :| ShownFor(watch, w, m, n);
      assert ShownFor(watch, after, m, n);
    }
  }

  lemma {:induction false} HearingAccounts(watch: Watch, w: World, n: Notice)
    requires AllAccountedFor(watch, w) && Announceable(n.event)
    ensures AllAccountedFor(watch, w.(viewer := Hear(watch, w.viewer, n), arrived := w.arrived + [n]))
  {
    hide Watched, ReplaysEvent, Announceable, Matches;
    var after := w.(viewer := Hear(watch, w.viewer, n), arrived := w.arrived + [n]);
    forall m | m in after.viewer.emitted ensures exists p :: ShownFor(watch, after, m, p) {
      if m in w.viewer.emitted {
        var p :| ShownFor(watch, w, m, p);
        assert ShownFor(watch, after, m, p);
      } else {
        MatchingIsWatching(watch, n);
        assert ShownFor(watch, after, n, n);
      }
    }
  }

  lemma {:induction false} ReceivingAccounts(watch: Watch, w: World, n: Notice)
    requires AllAccountedFor(watch, w) && Announceable(n.event)
    ensures AllAccountedFor(watch, Receive(watch, w, n))
  {
    hide AllAccountedFor, Hear;
    if w.viewer.subscribed {
      HearingAccounts(watch, w, n);
    } else {
      MoreArrived(watch, w, w.(missed := w.missed + [n]));
    }
  }

  lemma {:induction false} EmitAllMembers(v: Viewer, messages: seq<Notice>)
    ensures forall m :: m in EmitAll(v, messages).emitted ==> m in v.emitted || m in messages
  {
    if messages != [] { EmitAllMembers(v, messages[..|messages| - 1]); }
  }

  lemma {:induction false} DrainingAccounts(watch: Watch, w: World)
    requires ViewerInvariant(watch, w) && FlowInvariant(w) && TableInvariant(w) && Sane(w) && AllAccountedFor(watch, w)
    ensures AllAccountedFor(watch, w.(viewer := Drain(watch, w.viewer)))
  {
    hide Watched, ReplaysEvent, Announceable, Matches, DedupeKey, AsRow, Query, EmitRows, EmitAll;
    var v := w.viewer;
    if v.subscribed && v.replay.Some? && !v.replayReady {
      var after := w.(viewer := Drain(watch, v));
      SnapshotIsSane(w);
      ReplayEmitsDue(watch, v, w.snapshot);
      EmitAllMembers(EmitRows(watch, v, v.replay.value).(replayReady := true), v.buffered);
      MineMembers(watch, w.arrived);
      forall m | m in after.viewer.emitted ensures exists n :: ShownFor(watch, after, m, n) {
        if m in v.buffered {
          MatchingIsWatching(watch, m);
          assert ShownFor(watch, after, m, m);
        } else {
          ShownRowReplays(watch, w, m);
          var n :| ShownFor(watch, w, m, n);
          assert ShownFor(watch, after, m, n);
        }
      }
    }
  }

  lemma {:induction false} ShownRowReplays(watch: Watch, w: World, m: Notice)
    requires (forall n :: n in w.snapshot ==> Normalised(n)) && m in Shown(watch, Query(watch, w.snapshot))
    ensures exists n :: ShownFor(watch, w, m, n)
  {
    hide Watched, ReplaysEvent, Matches, Normalised, AsRow, Announceable;
    ShownMembers(watch, Query(watch, w.snapshot));
    OrderByPermutes(Select(watch, w.snapshot));
    SelectedMembers(watch, w.snapshot);
    var n :| StandsFor(watch, w.snapshot, m, n);
    RowKeepsKey(watch, n);
    MatchingIsWatching(watch, n);
    WatchedIsPublic(watch, n);
    RowReplaysEvent(n);
    assert ShownFor(watch, w, m, n);
  }

  lemma {:induction false} WatchedIsPublic(watch: Watch, n: Notice)
    requires Watched(watch, n)
    ensures n.event.payload.Public?
  {
  }

  lemma {:induction false} StepAccounts(watch: Watch, w: World, s: Step)
    requires ViewerInvariant(watch, w) && FlowInvariant(w) && TableInvariant(w) && Sane(w) && AllAccountedFor(watch, w)
    ensures AllAccountedFor(watch, Take(watch, w, s))
  {
    hide AllAccountedFor, Hear, Drain, Query, TableInvariant, Sane, StoreRows, DedupeKey, Announceable, Announceables;
    var after := Take(watch, w, s);
    match s
    case Publish(index, here) =>
      if index < |w.unpublished| {
        var n := w.unpublished[index];
        var sent := w.(unpublished := Without(w.unpublished, index, index + 1), published := w.published + [n],
                       channel := w.channel + [Wire(n, here)]);
        MoreArrived(watch, w, sent);
        assert n in w.unpublished;
        ReceivingAccounts(watch, sent, n);
      }
    case Arrive(index, again) =>
      if index < |w.channel| {
        var m := w.channel[index];
        var kept := if again then w else w.(channel := w.channel[..index] + w.channel[index + 1..]);
        MoreArrived(watch, w, kept);
        assert m in w.channel && m.notice in w.published;
        ReceivingAccounts(watch, kept, m.notice);
      }
    case DrainReplay => DrainingAccounts(watch, w);
    case RunQuery => if w.viewer.replay.None? { NothingShownYet(watch, after); } else { MoreArrived(watch, w, after); }
    case _ => MoreArrived(watch, w, after);
  }

  lemma {:induction false} NothingShownYet(watch: Watch, w: World)
    requires w.viewer.emitted == []
    ensures AllAccountedFor(watch, w)
  {
  }

  /** Whatever the interleaving, every message a viewer was shown is for a complete public event of a
      watched subject and the watched contract that was indexed: the very message that arrived, or a row
      that says what the event says and lies at or after the requested block. */
  lemma {:induction false} NothingElseIsShown(watch: Watch, run: seq<Step>)
    requires Sane(AfterSteps(watch, run))
    ensures var w := AfterSteps(watch, run);
      forall m :: m in w.viewer.emitted ==> exists n :: n in w.indexed && ShownFor(watch, w, m, n)
  {
    hide Sane, Take, ShownFor, AfterSteps, DedupeKey, Announceable;
    AccountsHold(watch, run);
    ReachableWorlds(watch, run);
    var w := AfterSteps(watch, run);
    forall m | m in w.viewer.emitted ensures exists n :: n in w.indexed && ShownFor(watch, w, m, n) {
      var n :| ShownFor(watch, w, m, n);
      ShownWasIndexed(watch, w, m, n);
    }
  }

  lemma {:induction false} ShownWasIndexed(watch: Watch, w: World, m: Notice, n: Notice)
    requires ViewerInvariant(watch, w) && FlowInvariant(w) && TableInvariant(w) && ShownFor(watch, w, m, n)
    ensures n in w.indexed
  {
    hide DedupeKey, Announceable, Watched, Query, DueIn, Mine;
    if n in w.snapshot {
      var i :| 0 <= i < |w.snapshot| && w.snapshot[i] == n;
      assert w.committed[i] == n;
    }
  }

  lemma {:induction false} AccountsHold(watch: Watch, run: seq<Step>)
    requires Sane(AfterSteps(watch, run))
    ensures AllAccountedFor(watch, AfterSteps(watch, run))
  {
    hide Sane, Take, AllAccountedFor, ViewerInvariant, FlowInvariant, TableInvariant;
    if run == [] {
      NothingShownYet(watch, START);
    } else {
      var before, last := run[..|run| - 1], run[|run| - 1];
      SaneBefore(watch, AfterSteps(watch, before), last);
      AccountsHold(watch, before);
      ReachableWorlds(watch, before);
      StepAccounts(watch, AfterSteps(watch, before), last);
    }
  }

  /** The message shows this event: it is the event itself, or a row that says the same. */
  predicate Shows(m: Notice, n: Notice) {
    m == n || ReplaysEvent(m, n)
  }

  /** And the other way: a watched event at or after the requested block is shown, with its own content,
      exactly once, when one of its notifications was published and has arrived, or when none is needed
      because nothing of it is waiting or lost. */
  lemma {:induction false} EveryWatchedEventIsShownOnce(watch: Watch, run: seq<Step>, n: Notice)
    requires Sane(AfterSteps(watch, run))
    requires var w := AfterSteps(watch, run);
      w.viewer.replayReady && n in w.indexed && Watched(watch, n) && n.event.blockNumber >= watch.fromBlock
    requires var w := AfterSteps(watch, run);
      (n in w.published || (n !in w.unpublished && n !in w.lost)) && Wire(n, false) !in w.channel
    ensures var e := AfterSteps(watch, run).viewer.emitted;
      exists i :: 0 <= i < |e| && Shows(e[i], n) &&
        forall j :: 0 <= j < |e| && j != i ==> DedupeKey(e[j]) != DedupeKey(n)
  {
    hide AfterSteps, Sane, DedupeKey, Watched, ReplaysEvent, Announceable, Matches, KeysNameNotices;
    var w := AfterSteps(watch, run);
    MatchingIsWatching(watch, n);
    EveryDueEventIsEmittedOnce(watch, run, n);
    var e := w.viewer.emitted;
    var i :| 0 <= i < |e| && DedupeKey(e[i]) == DedupeKey(n)
      && forall j :: 0 <= j < |e| && j != i ==> DedupeKey(e[j]) != DedupeKey(n);
    NothingElseIsShown(watch, run);
    assert e[i] in e;
    var p :| p in w.indexed && ShownFor(watch, w, e[i], p);
    if e[i] != p { ReplayKeepsKey(e[i], p); }
    SameKeySameNotice(w, p, n);
    assert Shows(e[i], n);
  }

  lemma {:induction false} ReplayKeepsKey(m: Notice, n: Notice)
    requires ReplaysEvent(m, n)
    ensures DedupeKey(m) == DedupeKey(n)
  {
    LowerIsIdempotent(n.event.transactionHash);
    LowerIsIdempotent(SubjectOf(n.event));
  }

  lemma {:induction false} SameKeySameNotice(w: World, p: Notice, n: Notice)
    requires Sane(w) && p in w.indexed && n in w.indexed && DedupeKey(p) == DedupeKey(n)
    ensures p == n
  {
  }

  // ---------------------------------------------------------------- the order of the replay

  /** a lies no later in the ledger than b: by block, then by transaction, then by log. */
  predicate NoLater(a: Event, b: Event) {
    && a.blockNumber <= b.blockNumber
    && (a.blockNumber == b.blockNumber ==> a.transactionIndex <= b.transactionIndex)
    && (a.blockNumber == b.blockNumber && a.transactionIndex == b.transactionIndex ==> a.logIndex <= b.logIndex)
  }

  ghost predicate InOrder(s: seq<Notice>) {
    forall i, j :: 0 <= i < j < |s| ==> NoLater(s[i].event, s[j].event)
  }

  lemma {:induction false} LaterOrNot(a: Event, b: Event, c: Event)
    ensures Before(a, b) ==> NoLater(a, b)
    ensures !Before(a, b) ==> NoLater(b, a)
    ensures NoLater(a, b) && NoLater(b, c) ==> NoLater(a, c)
  {
  }

  lemma {:induction false} PlacingKeepsOrder(sorted: seq<Notice>, n: Notice)
    requires InOrder(sorted)
    ensures InOrder(Place(sorted, n))
  {
    hide Before, NoLater;
    if sorted != [] {
      var init, last := sorted[..|sorted| - 1], sorted[|sorted| - 1];
      LaterOrNot(n.event, last.event, last.event);
      if Before(n.event, last.event) {
        PlacingKeepsOrder(init, n);
        forall m | m in Place(init, n) ensures NoLater(m.event, last.event) {
          PlacedMembers(init, n, m);
          if m in init {
            var i :| 0 <= i < |init| && init[i] == m;
            assert sorted[i] == m;
          }
        }
      } else {
        forall i | 0 <= i < |sorted| ensures NoLater(sorted[i].event, n.event) {
          LaterOrNot(sorted[i].event, last.event, n.event);
        }
      }
    }
  }

  lemma {:induction false} PlacedMembers(sorted: seq<Notice>, n: Notice, m: Notice)
    ensures m in Place(sorted, n) <==> m in sorted || m == n
  {
    PlaceAdds(sorted, n);
  }

  /** The query answers in ledger order, in whatever order the rows were committed. */
  lemma {:induction false} QueryIsInOrder(rows: seq<Notice>)
    ensures InOrder(OrderBy(rows))
  {
    hide Place;
    if rows != [] {
      QueryIsInOrder(rows[..|rows| - 1]);
      PlacingKeepsOrder(OrderBy(rows[..|rows| - 1]), rows[|rows| - 1]);
    }
  }

  lemma {:induction false} ShownStaysInOrder(watch: Watch, rows: seq<Notice>)
    requires InOrder(rows)
    ensures InOrder(Shown(watch, rows))
  {
    hide NoLater, Announceable;
    if rows != [] {
      var init, last := rows[..|rows| - 1], rows[|rows| - 1];
      ShownStaysInOrder(watch, init);
      ShownMembers(watch, init);
      forall m | m in Shown(watch, init) ensures NoLater(m.event, last.event) {
        var i :| 0 <= i < |init| && init[i] == m;
        assert rows[i] == m;
      }
    }
  }

  lemma {:induction false} EmittingAppends(v: Viewer, messages: seq<Notice>)
    ensures v.emitted <= EmitAll(v, messages).emitted
  {
    if messages != [] { EmittingAppends(v, messages[..|messages| - 1]); }
  }

  ghost predicate StartsWithReplay(watch: Watch, w: World) {
    w.viewer.replayReady ==> Shown(watch, Query(watch, w.snapshot)) <= w.viewer.emitted
  }

  lemma {:induction false} StepKeepsReplay(watch: Watch, w: World, s: Step)
    requires ViewerInvariant(watch, w) && TableInvariant(w) && Sane(w) && StartsWithReplay(watch, w)
    ensures StartsWithReplay(watch, Take(watch, w, s))
  {
    hide Query, Shown, Sane, TableInvariant, DueIn, Mine, DedupeKey, Matches, StoreRows, Announceables, EmitRows,
      EmitAll, Consistent;
    if s.DrainReplay? {
      var v := w.viewer;
      if v.subscribed && v.replay.Some? && !v.replayReady {
        ReplayIsEmitted(watch, w);
        EmittingAppends(EmitRows(watch, v, v.replay.value).(replayReady := true), v.buffered);
      }
    }
  }

  lemma {:induction false} ReplayIsEmitted(watch: Watch, w: World)
    requires ViewerInvariant(watch, w) && TableInvariant(w) && Sane(w) && !w.viewer.replayReady && w.viewer.replay.Some?
    ensures EmitRows(watch, w.viewer, w.viewer.replay.value).emitted == Shown(watch, Query(watch, w.snapshot))
  {
    hide Query, Shown, Announceable;
    SnapshotIsSane(w);
    ReplayEmitsDue(watch, w.viewer, w.snapshot);
  }

  lemma {:induction false} ReplayComesFirst(watch: Watch, run: seq<Step>)
    requires Sane(AfterSteps(watch, run))
    ensures StartsWithReplay(watch, AfterSteps(watch, run))
  {
    hide Sane, Take, ViewerInvariant, FlowInvariant, TableInvariant, StartsWithReplay;
    if run == [] {
      NotReadyYet(watch);
    } else {
      var before, last := run[..|run| - 1], run[|run| - 1];
      SaneBefore(watch, AfterSteps(watch, before), last);
      ReplayComesFirst(watch, before);
      ReachableWorlds(watch, before);
      StepKeepsReplay(watch, AfterSteps(watch, before), last);
    }
  }

  lemma {:induction false} NotReadyYet(watch: Watch)
    ensures StartsWithReplay(watch, START)
  {
  }

  /** Whatever the order in which indexers committed them, the events of the history come first, all of
      them, and in ledger order: what a viewer was shown begins with a stretch in ledger order that has
      each watched event the query found from the requested block on. */
  lemma {:induction false} HistoryComesFirstInOrder(watch: Watch, run: seq<Step>)
    requires Sane(AfterSteps(watch, run)) && AfterSteps(watch, run).viewer.replayReady
    ensures var w := AfterSteps(watch, run);
      exists history :: history <= w.viewer.emitted && InOrder(history)
        && forall n :: n in w.snapshot && Watched(watch, n) && n.event.blockNumber >= watch.fromBlock ==>
             exists m :: m in history && ReplaysEvent(m, n)
  {
    hide Sane, AfterSteps, ReplaysEvent, Watched, Normalised, AsRow, Announceable, Matches;
    var w := AfterSteps(watch, run);
    ReplayComesFirst(watch, run);
    ReachableWorlds(watch, run);
    SnapshotIsSane(w);
    var history := Shown(watch, Query(watch, w.snapshot));
    QueryIsInOrder(Select(watch, w.snapshot));
    ShownStaysInOrder(watch, Query(watch, w.snapshot));
    forall n | n in w.snapshot && Watched(watch, n) && n.event.blockNumber >= watch.fromBlock
      ensures exists m :: m in history && ReplaysEvent(m, n)
    {
      HistoryHasItsRow(watch, w.snapshot, n);
    }
  }

  lemma {:induction false} HistoryHasItsRow(watch: Watch, table: seq<Notice>, n: Notice)
    requires (forall p :: p in table ==> Normalised(p)) && n in table && Watched(watch, n)
    requires n.event.blockNumber >= watch.fromBlock
    ensures AsRow(n) in Shown(watch, Query(watch, table)) && ReplaysEvent(AsRow(n), n)
  {
    hide ReplaysEvent, Watched, AsRow, Announceable, Normalised;
    MatchingIsWatching(watch, n);
    WatchedIsPublic(watch, n);
    RowReplaysEvent(n);
    RowKeepsKey(watch, n);
    assert StandsFor(watch, table, AsRow(n), n);
    SelectedMembers(watch, table);
    OrderByPermutes(Select(watch, table));
    ShownMembers(watch, Query(watch, table));
  }
}
