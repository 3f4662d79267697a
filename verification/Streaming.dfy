/** The replay-then-live stream of public events: a viewer subscribes, buffers what it hears, queries
    the indexed history, emits it, drains the buffer and goes live. */
module Streaming {
  import opened Basics
  import opened Indexing

  /** What a viewer asks for. The identity's contract address is already in lower case. */
  datatype Watch = Watch(subjects: set<string>, identity: Identity, fromBlock: nat)

  datatype StreamKey = StreamKey(subjectId: string, blockNumber: nat, transactionHash: string, transactionIndex: nat,
          logIndex: nat)

  datatype Viewer = Viewer(
    subscribed: bool,
    replay: Option<seq<Notice>>,
    replayReady: bool,
    buffered: seq<Notice>,
    seen: set<StreamKey>,
    emitted: seq<Notice>)

  function SubjectOf(e: Event): string {
    if e.payload.Public? && e.payload.subjectId.Some? then e.payload.subjectId.value else ""
  }

  /** The deduplication key; it reads the same from an indexed row and from a live message. */
  function DedupeKey(n: Notice): StreamKey {
    StreamKey(Lower(SubjectOf(n.event)), n.event.blockNumber, Lower(n.event.transactionHash), n.event.transactionIndex,
      n.event.logIndex)
  }

  function AsRow(n: Notice): Notice {
    Notice(n.identity, RowOf(n.identity, n.event).event)
  }

  predicate Matches(watch: Watch, n: Notice) {
    SubjectOf(n.event) in watch.subjects && n.identity == watch.identity
  }

  /** The rows of watched subjects from a block on. */
  function Select(watch: Watch, table: seq<Notice>): seq<Notice> {
    if table == [] then []
    else
      var init, last := Select(watch, table[..|table| - 1]), table[|table| - 1];
      if Matches(watch, AsRow(last)) && last.event.blockNumber >= watch.fromBlock then init + [AsRow(last)] else init
  }

  function Place(sorted: seq<Notice>, n: Notice): seq<Notice> {
    if sorted != [] && Before(n.event, sorted[|sorted| - 1].event)
    then Place(sorted[..|sorted| - 1], n) + [sorted[|sorted| - 1]]
    else sorted + [n]
  }

  /** ORDER BY block_number, transaction_index, log_index. */
  function OrderBy(rows: seq<Notice>): seq<Notice> {
    if rows == [] then [] else Place(OrderBy(rows[..|rows| - 1]), rows[|rows| - 1])
  }

  /** The history query. */
  function Query(watch: Watch, table: seq<Notice>): seq<Notice> {
    OrderBy(Select(watch, table))
  }

  function EmitLive(v: Viewer, n: Notice): Viewer {
    if DedupeKey(n) in v.seen then v
    else v.(seen := v.seen + {DedupeKey(n)}, emitted := v.emitted + [n])
  }

  function Hear(watch: Watch, v: Viewer, n: Notice): Viewer {
    if !v.subscribed || !Matches(watch, n) then v
    else if !v.replayReady then v.(buffered := v.buffered + [n])
    else EmitLive(v, n)
  }

  function EmitRows(watch: Watch, v: Viewer, rows: seq<Notice>): Viewer {
    if rows == [] then v
    else
      var before, row := EmitRows(watch, v, rows[..|rows| - 1]), rows[|rows| - 1];
      if Announceable(row.event) && SubjectOf(row.event) in watch.subjects
      then before.(seen := before.seen + {DedupeKey(row)}, emitted := before.emitted + [row])
      else before
  }

  function EmitAll(v: Viewer, messages: seq<Notice>): Viewer {
    if messages == [] then v else EmitLive(EmitAll(v, messages[..|messages| - 1]), messages[|messages| - 1])
  }

  /** The block that runs when the query's answer arrives: no message can interleave with it. */
  function Drain(watch: Watch, v: Viewer): Viewer {
    if !v.subscribed || v.replay.None? || v.replayReady then v
    else EmitAll(EmitRows(watch, v, v.replay.value).(replayReady := true), v.buffered)
  }

  /** The subscriber object behind one stream. */
  class PublicEventStream {
    const watch: Watch
    var seenEventKeys: set<StreamKey>
    var bufferedLiveMessages: seq<Notice>
    var replayReady: bool
    var emitted: seq<Notice>

    constructor (watch: Watch)
      ensures this.watch == watch && State(None) == Viewer(true, None, false, [], {}, [])
    {
      this.watch := watch;
      seenEventKeys, bufferedLiveMessages, replayReady, emitted := {}, [], false, [];
    }

    function State(replay: Option<seq<Notice>>): Viewer
      reads this
    {
      Viewer(true, replay, replayReady, bufferedLiveMessages, seenEventKeys, emitted)
    }

    method EmitLiveMessage(n: Notice)
      modifies this
      ensures forall r :: State(r) == EmitLive(old(State(r)), n)
    {
      var key := DedupeKey(n);
      if key in seenEventKeys {
        return;
      }
      seenEventKeys := seenEventKeys + {key};
      emitted := emitted + [n];
    }

    /** A live message that passed the subscription's filter or not. */
    method Next(n: Notice)
      modifies this
      ensures forall r :: State(r) == Hear(watch, old(State(r)), n)
    {
      if !Matches(watch, n) {
        return;
      }
      if !replayReady {
        bufferedLiveMessages := bufferedLiveMessages + [n];
        return;
      }
      EmitLiveMessage(n);
    }

    /** The history rows have arrived. */
    method Replay(rows: seq<Notice>)
      requires !replayReady
      modifies this
      ensures State(Some(rows)) == Drain(watch, old(State(Some(rows))))
    {
      ghost var start := State(Some(rows));
      for i := 0 to |rows|
        invariant State(Some(rows)) == EmitRows(watch, start, rows[..i])
        invariant !replayReady && bufferedLiveMessages == start.buffered
      {
        assert rows[..i + 1][..i] == rows[..i];
        if Announceable(rows[i].event) && SubjectOf(rows[i].event) in watch.subjects {
          seenEventKeys := seenEventKeys + {DedupeKey(rows[i])};
          emitted := emitted + [rows[i]];
        }
      }
      assert rows[..|rows|] == rows;
      replayReady := true;
      ghost var replayed := State(Some(rows));
      var messages := bufferedLiveMessages;
      for i := 0 to |messages|
        invariant State(Some(rows)) == EmitAll(replayed, messages[..i])
        invariant replayReady
      {
        assert messages[..i + 1][..i] == messages[..i];
        EmitLiveMessage(messages[i]);
      }
      assert messages[..|messages|] == messages;
    }
  }
}

/** One viewer among indexers, crashes and an unreliable channel. */
module StreamProofs {
  import opened Basics
  import opened Indexing
  import opened Streaming

  /** A notification on the cross-process channel; own when this process published it. */
  datatype Wire = Wire(notice: Notice, own: bool)

  datatype World = World(
    /** The rows of the public-event table. */
    committed: seq<Notice>,
    /** Committed by some indexer and still to be handed to the transport by it. */
    unpublished: seq<Notice>,
    channel: seq<Wire>,
    viewer: Viewer,
    // history
    indexed: seq<Notice>,
    published: seq<Notice>,
    lost: seq<Notice>,
    missed: seq<Notice>,
    arrived: seq<Notice>,
    snapshot: seq<Notice>)

  datatype Step =
    /** An indexer commits a window's public events; another indexer may have committed them before. */
    | CommitWindow(window: seq<Notice>)
    /** An indexer hands one of its events to the transport, in this process or in another one. */
    | Publish(index: nat, inThisProcess: bool)
    /** An indexer dies between commit and publication and takes a stretch of events with it. */
    | Crash(first: nat, next: nat)
    /** A notification arrives, in any order; the channel may deliver it again. */
    | Arrive(index: nat, again: bool)
    | Subscribe
    | RunQuery
    | DrainReplay

  function Announceables(s: seq<Notice>): seq<Notice> {
    if s == [] then []
    else
      var init, last := Announceables(s[..|s| - 1]), s[|s| - 1];
      if Announceable(last.event) then init + [last] else init
  }

  /** The unique key of the event table: slot, transaction and log. */
  function RowKey(n: Notice): Key {
    KeyOf(n.identity, n.event)
  }

  function FindRow(table: seq<Notice>, key: Key): (r: Option<nat>)
    ensures r.Some? ==> r.value < |table| && RowKey(table[r.value]) == key
    ensures r.None? ==> forall i :: 0 <= i < |table| ==> RowKey(table[i]) != key
  {
    if table == [] then None
    else if RowKey(table[|table| - 1]) == key then Some(|table| - 1)
    else FindRow(table[..|table| - 1], key)
  }

  /** INSERT ... ON CONFLICT DO UPDATE. */
  function StoreRow(table: seq<Notice>, n: Notice): seq<Notice> {
    var found := FindRow(table, RowKey(n));
    if found.Some? then table[found.value := n] else table + [n]
  }

  function StoreRows(table: seq<Notice>, window: seq<Notice>): seq<Notice> {
    if window == [] then table else StoreRow(StoreRows(table, window[..|window| - 1]), window[|window| - 1])
  }

  function Without<T>(s: seq<T>, first: nat, next: nat): seq<T>
    requires first <= next <= |s|
  {
    s[..first] + s[next..]
  }

  function Receive(watch: Watch, w: World, n: Notice): World {
    if w.viewer.subscribed
    then w.(viewer := Hear(watch, w.viewer, n), arrived := w.arrived + [n])
    else w.(missed := w.missed + [n])
  }

  function Take(watch: Watch, w: World, s: Step): World {
    match s
    case CommitWindow(window) =>
      w.(committed := StoreRows(w.committed, window), indexed := w.indexed + window,
         unpublished := w.unpublished + Announceables(window))
    case Publish(index, here) =>
      if index >= |w.unpublished| then w
      else
        var n := w.unpublished[index];
        var sent := w.(unpublished := Without(w.unpublished, index, index + 1), published := w.published + [n],
                       channel := w.channel + [Wire(n, here)]);
        if here then Receive(watch, sent, n) else sent
    case Crash(first, next) =>
      if first <= next <= |w.unpublished|
      then w.(unpublished := Without(w.unpublished, first, next), lost := w.lost + w.unpublished[first..next])
      else w
    case Arrive(index, again) =>
      if index >= |w.channel| then w
      else
        var m := w.channel[index];
        var after := if again then w else w.(channel := w.channel[..index] + w.channel[index + 1..]);
        if m.own then after else Receive(watch, after, m.notice)
    case Subscribe => w.(viewer := w.viewer.(subscribed := true))
    case RunQuery =>
      if !w.viewer.subscribed || w.viewer.replay.Some? then w
      else w.(viewer := w.viewer.(replay := Some(Query(watch, w.committed))), snapshot := w.committed)
    case DrainReplay => w.(viewer := Drain(watch, w.viewer))
  }

  const START := World([], [], [], Viewer(false, None, false, [], {}, []), [], [], [], [], [], [])

  function AfterSteps(watch: Watch, run: seq<Step>): World {
    if run == [] then START else Take(watch, AfterSteps(watch, run[..|run| - 1]), run[|run| - 1])
  }

  // ---------------------------------------------------------------- what is assumed of the table

  ghost predicate DistinctKeys(s: seq<Notice>) {
    forall i, j :: 0 <= i < j < |s| ==> DedupeKey(s[i]) != DedupeKey(s[j])
  }

  /** Subjects were put in lower case when the log was decoded. */
  predicate Normalised(n: Notice) {
    SubjectOf(n.event) == Lower(SubjectOf(n.event))
  }

  lemma {:induction false} DecodedEventsAreNormalised(log: Log, id: Identity)
    requires Decode(log).Some?
    ensures Normalised(Notice(id, Decode(log).value))
  {
    var e := Decode(log).value;
    if e.payload.Public? && e.payload.subjectId.Some? {
      LowerIsIdempotent(AsNullableString(log.arguments.subjectId).value);
    }
  }

  ghost predicate KeysNameNotices(s: seq<Notice>) {
    forall n, m :: n in s && m in s && (DedupeKey(n) == DedupeKey(m) || RowKey(n) == RowKey(m)) ==> n == m
  }

  /** Of everything ever indexed, by whichever process and however often, equal keys mean the same
      event; stated for the end of a run, it covers every moment before. */
  ghost predicate Sane(w: World) {
    KeysNameNotices(w.indexed) && forall n :: n in w.indexed ==> Normalised(n)
  }

  /** A committed event this viewer should be shown. */
  predicate Due(watch: Watch, n: Notice) {
    Matches(watch, n) && Announceable(n.event) && n.event.blockNumber >= watch.fromBlock
  }

  function DueIn(watch: Watch, s: seq<Notice>): seq<Notice> {
    if s == [] then []
    else
      var init, last := DueIn(watch, s[..|s| - 1]), s[|s| - 1];
      if Due(watch, last) then init + [last] else init
  }

  function Mine(watch: Watch, s: seq<Notice>): seq<Notice> {
    if s == [] then []
    else
      var init, last := Mine(watch, s[..|s| - 1]), s[|s| - 1];
      if Matches(watch, last) then init + [last] else init
  }

  function Keys(s: seq<Notice>): set<StreamKey> {
    set n | n in s :: DedupeKey(n)
  }

  // ---------------------------------------------------------------- keys

  /** A row and the live message of the same event deduplicate against each other. */
  lemma {:induction false} RowKeepsKey(watch: Watch, n: Notice)
    ensures DedupeKey(AsRow(n)) == DedupeKey(n)
    ensures Announceable(AsRow(n).event) == Announceable(n.event)
    ensures Normalised(n) ==>
      SubjectOf(AsRow(n).event) == SubjectOf(n.event) && Matches(watch, AsRow(n)) == Matches(watch, n)
  {
    LowerIsIdempotent(SubjectOf(n.event));
    LowerIsIdempotent(n.event.transactionHash);
  }

  lemma {:induction false} KeysAppend(s: seq<Notice>, n: Notice)
    ensures Keys(s + [n]) == Keys(s) + {DedupeKey(n)}
  {
    assert forall m :: m in s + [n] <==> m in s || m == n;
  }

  lemma {:induction false} KeysTell(s: seq<Notice>, n: Notice)
    requires DedupeKey(n) !in Keys(s) && DistinctKeys(s)
    ensures DistinctKeys(s + [n])
  {
    forall i | 0 <= i < |s| ensures DedupeKey(s[i]) != DedupeKey(n) { assert s[i] in s; }
  }

  lemma {:induction false} DueInMembers(watch: Watch, s: seq<Notice>)
    ensures forall n :: n in DueIn(watch, s) <==> n in s && Due(watch, n)
  {
    if s != [] {
      DueInMembers(watch, s[..|s| - 1]);
      assert s == s[..|s| - 1] + [s[|s| - 1]];
    }
  }

  lemma {:induction false} MineMembers(watch: Watch, s: seq<Notice>)
    ensures forall n :: n in Mine(watch, s) <==> n in s && Matches(watch, n)
  {
    if s != [] {
      MineMembers(watch, s[..|s| - 1]);
      assert s == s[..|s| - 1] + [s[|s| - 1]];
    }
  }

  // ---------------------------------------------------------------- the viewer

  /** What has been emitted is exactly what has been seen, each key once. */
  ghost predicate Consistent(v: Viewer) {
    v.seen == Keys(v.emitted) && DistinctKeys(v.emitted)
  }

  lemma {:induction false} EmitLiveKeepsConsistent(v: Viewer, n: Notice)
    requires Consistent(v)
    ensures Consistent(EmitLive(v, n)) && EmitLive(v, n).seen == v.seen + {DedupeKey(n)}
  {
    if DedupeKey(n) !in v.seen {
      KeysAppend(v.emitted, n);
      KeysTell(v.emitted, n);
    }
  }

  lemma {:induction false} EmitAllKeepsConsistent(v: Viewer, messages: seq<Notice>)
    requires Consistent(v)
    ensures Consistent(EmitAll(v, messages)) && EmitAll(v, messages).seen == v.seen + Keys(messages)
    ensures EmitAll(v, messages).(seen := v.seen, emitted := v.emitted) == v
  {
    hide Consistent, EmitLive, DedupeKey;
    if messages != [] {
      var init, last := messages[..|messages| - 1], messages[|messages| - 1];
      EmitAllKeepsConsistent(v, init);
      EmitLiveKeepsConsistent(EmitAll(v, init), last);
      EmitLiveKeepsRest(EmitAll(v, init), last);
      KeysAppend(init, last);
      assert messages == init + [last];
    } else {
      assert Keys(messages) == {};
    }
  }

  lemma {:induction false} EmitLiveKeepsRest(v: Viewer, n: Notice)
    ensures EmitLive(v, n).(seen := v.seen, emitted := v.emitted) == v
  {
  }

  /** The rows a replay shows; the others lack a column or a watched subject. */
  function Shown(watch: Watch, rows: seq<Notice>): seq<Notice> {
    if rows == [] then []
    else
      var init, last := Shown(watch, rows[..|rows| - 1]), rows[|rows| - 1];
      if Announceable(last.event) && SubjectOf(last.event) in watch.subjects then init + [last] else init
  }

  lemma {:induction false} ShownMembers(watch: Watch, rows: seq<Notice>)
    ensures forall n :: n in Shown(watch, rows) <==>
      n in rows && Announceable(n.event) && SubjectOf(n.event) in watch.subjects
  {
    if rows != [] {
      ShownMembers(watch, rows[..|rows| - 1]);
      assert rows == rows[..|rows| - 1] + [rows[|rows| - 1]];
    }
  }

  lemma {:induction false} EmitRowsShows(watch: Watch, v: Viewer, rows: seq<Notice>)
    requires v.seen == {} && v.emitted == [] && DistinctKeys(rows)
    ensures var r := EmitRows(watch, v, rows);
      && Consistent(r) && r.emitted == Shown(watch, rows) && r.(seen := {}, emitted := []) == v
  {
    hide DedupeKey;
    if rows != [] {
      var init, last := rows[..|rows| - 1], rows[|rows| - 1];
      EmitRowsShows(watch, v, init);
      ShownMembers(watch, init);
      var r := EmitRows(watch, v, init);
      forall n | n in r.emitted ensures DedupeKey(n) != DedupeKey(last) {
        var i :| 0 <= i < |init| && init[i] == n;
        assert rows[i] == n;
      }
      KeysAppend(r.emitted, last);
      KeysTell(r.emitted, last);
    }
  }

  lemma {:induction false} PlaceAdds(sorted: seq<Notice>, n: Notice)
    ensures forall m :: m in Place(sorted, n) <==> m in sorted || m == n
    ensures DistinctKeys(sorted) && DedupeKey(n) !in Keys(sorted) ==> DistinctKeys(Place(sorted, n))
  {
    hide Before, DedupeKey;
    if sorted != [] && Before(n.event, sorted[|sorted| - 1].event) {
      var init, last := sorted[..|sorted| - 1], sorted[|sorted| - 1];
      PlaceAdds(init, n);
      assert sorted == init + [last];
      if DistinctKeys(sorted) && DedupeKey(n) !in Keys(sorted) {
        assert last in sorted;
        forall m | m in Place(init, n) ensures DedupeKey(m) != DedupeKey(last) {
          if m != n {
            var i :| 0 <= i < |init| && init[i] == m;
            assert sorted[i] == m;
          }
        }
        KeysTell(Place(init, n), last);
      }
    } else if DedupeKey(n) !in Keys(sorted) && DistinctKeys(sorted) {
      KeysTell(sorted, n);
    }
  }

  lemma {:induction false} OrderByKeepsMembers(rows: seq<Notice>)
    ensures forall m :: m in OrderBy(rows) <==> m in rows
  {
    hide Place, DedupeKey, DistinctKeys;
    if rows != [] {
      var init, last := rows[..|rows| - 1], rows[|rows| - 1];
      OrderByKeepsMembers(init);
      PlaceAdds(OrderBy(init), last);
      assert rows == init + [last];
    }
  }

  lemma {:induction false} LastKeyIsNew(rows: seq<Notice>)
    requires rows != [] && DistinctKeys(rows)
    ensures DistinctKeys(rows[..|rows| - 1])
    ensures forall m :: m in rows[..|rows| - 1] ==> DedupeKey(m) != DedupeKey(rows[|rows| - 1])
  {
    hide DedupeKey;
    var init := rows[..|rows| - 1];
    forall m | m in init ensures DedupeKey(m) != DedupeKey(rows[|rows| - 1]) {
      var i :| 0 <= i < |init| && init[i] == m;
      assert rows[i] == m;
    }
  }

  /** Ordering rows neither loses nor repeats one. */
  lemma {:induction false} OrderByPermutes(rows: seq<Notice>)
    ensures forall m :: m in OrderBy(rows) <==> m in rows
    ensures DistinctKeys(rows) ==> DistinctKeys(OrderBy(rows))
  {
    hide Place, DedupeKey, DistinctKeys;
    OrderByKeepsMembers(rows);
    if rows != [] && DistinctKeys(rows) {
      var init, last := rows[..|rows| - 1], rows[|rows| - 1];
      OrderByPermutes(init);
      LastKeyIsNew(rows);
      PlaceAdds(OrderBy(init), last);
    }
  }

  ghost predicate InLedgerOrder(s: seq<Notice>) {
    forall i, j :: 0 <= i < j < |s| ==> Before(s[i].event, s[j].event)
  }

  lemma {:induction false} OrderedRowsStay(rows: seq<Notice>)
    requires InLedgerOrder(rows)
    ensures OrderBy(rows) == rows
  {
    if rows != [] {
      var init, last := rows[..|rows| - 1], rows[|rows| - 1];
      OrderedRowsStay(init);
      assert init != [] ==> !Before(last.event, init[|init| - 1].event);
      assert rows == init + [last];
    }
  }

  ghost predicate StandsFor(watch: Watch, table: seq<Notice>, m: Notice, n: Notice) {
    n in table && m == AsRow(n) && Matches(watch, n) && n.event.blockNumber >= watch.fromBlock
  }

  lemma {:induction false} SelectedMembers(watch: Watch, table: seq<Notice>)
    requires forall n :: n in table ==> Normalised(n)
    ensures forall m :: m in Select(watch, table) <==> exists n :: StandsFor(watch, table, m, n)
  {
    hide Matches, AsRow, Normalised;
    if table != [] {
      var init, last := table[..|table| - 1], table[|table| - 1];
      SelectedMembers(watch, init);
      assert last in table && table == init + [last];
      RowKeepsKey(watch, last);
      forall m, n ensures StandsFor(watch, table, m, n) <==>
        StandsFor(watch, init, m, n) || (n == last && StandsFor(watch, table, m, last)) { }
      assert Matches(watch, last) && last.event.blockNumber >= watch.fromBlock ==>
        StandsFor(watch, table, AsRow(last), last);
    }
  }

  lemma {:induction false} SelectedKeysDiffer(watch: Watch, table: seq<Notice>)
    requires DistinctKeys(table) && forall n :: n in table ==> Normalised(n)
    ensures DistinctKeys(Select(watch, table))
  {
    hide DedupeKey, Matches, AsRow, Normalised;
    if table != [] {
      var init, last := table[..|table| - 1], table[|table| - 1];
      SelectedKeysDiffer(watch, init);
      SelectedMembers(watch, init);
      RowKeepsKey(watch, last);
      forall m | m in Select(watch, init) ensures DedupeKey(m) != DedupeKey(AsRow(last)) {
        var n :| StandsFor(watch, init, m, n);
        RowKeepsKey(watch, n);
        var i :| 0 <= i < |init| && init[i] == n;
        assert table[i] == n;
      }
      KeysTell(Select(watch, init), AsRow(last));
    }
  }

  /** Replaying the query's answer shows exactly the due events of the snapshot, each key once. */
  lemma {:induction false} ReplayEmitsDue(watch: Watch, v: Viewer, table: seq<Notice>)
    requires DistinctKeys(table) && forall n :: n in table ==> Normalised(n)
    requires v.seen == {} && v.emitted == []
    ensures var r := EmitRows(watch, v, Query(watch, table));
      && Consistent(r) && r.seen == Keys(DueIn(watch, table))
      && r.emitted == Shown(watch, Query(watch, table)) && r.(seen := {}, emitted := []) == v
  {
    hide DedupeKey, EmitRows, OrderBy, Select, Shown, AsRow, DueIn;
    var rows := Query(watch, table);
    SelectedMembers(watch, table);
    SelectedKeysDiffer(watch, table);
    OrderByPermutes(Select(watch, table));
    EmitRowsShows(watch, v, rows);
    ShownMembers(watch, rows);
    DueInMembers(watch, table);
    forall n | n in table
      ensures Announceable(AsRow(n).event) == Announceable(n.event) && SubjectOf(AsRow(n).event) == SubjectOf(n.event)
      && DedupeKey(AsRow(n)) == DedupeKey(n)
    {
      RowKeepsKey(watch, n);
    }
    assert forall n :: n in DueIn(watch, table) ==> StandsFor(watch, table, AsRow(n), n);
    SameKeys(Shown(watch, rows), DueIn(watch, table));
  }

  lemma {:induction false} SameKeys(shown: seq<Notice>, due: seq<Notice>)
    requires forall m :: m in shown ==> exists n :: n in due && m == AsRow(n) && DedupeKey(m) == DedupeKey(n)
    requires forall n :: n in due ==> AsRow(n) in shown && DedupeKey(AsRow(n)) == DedupeKey(n)
    ensures Keys(shown) == Keys(due)
  {
    hide DedupeKey, AsRow;
  }

  /** When the watched events were committed in ledger order, the query's order is theirs. */
  lemma {:induction false} ShownInOrder(watch: Watch, table: seq<Notice>)
    requires forall n :: n in table ==> Normalised(n)
    requires InLedgerOrder(Select(watch, table))
    ensures var shown, due := Shown(watch, Query(watch, table)), DueIn(watch, table);
      |shown| == |due| && forall i :: 0 <= i < |shown| ==> shown[i] == AsRow(due[i])
  {
    OrderedRowsStay(Select(watch, table));
    ShownIsDue(watch, table);
  }

  lemma {:induction false} ShownIsDue(watch: Watch, table: seq<Notice>)
    requires forall n :: n in table ==> Normalised(n)
    ensures var shown, due := Shown(watch, Select(watch, table)), DueIn(watch, table);
      |shown| == |due| && forall i :: 0 <= i < |shown| ==> shown[i] == AsRow(due[i])
  {
    hide AsRow;
    if table != [] {
      var init, last := table[..|table| - 1], table[|table| - 1];
      ShownIsDue(watch, init);
      RowKeepsKey(watch, last);
      assert last in table;
      var q := Select(watch, init);
      assert (q + [AsRow(last)])[..|q|] == q;
      RowKeepsBlock(last);
    }
  }

  lemma {:induction false} RowKeepsBlock(n: Notice)
    ensures AsRow(n).event.blockNumber == n.event.blockNumber
      && AsRow(n).event.transactionIndex == n.event.transactionIndex
    ensures AsRow(n).event.logIndex == n.event.logIndex
  {
  }

  // ---------------------------------------------------------------- the table

  /** The table holds each indexed event in exactly one row. */
  ghost predicate TableInvariant(w: World) {
    DistinctKeys(w.committed) && forall n :: n in w.committed <==> n in w.indexed
  }

  /** Storing an event that was stored before changes nothing; storing a new one appends its row. */
  lemma {:induction false} StoringAgainChangesNothing(table: seq<Notice>, n: Notice)
    requires DistinctKeys(table)
    requires forall m :: m in table && (DedupeKey(n) == DedupeKey(m) || RowKey(n) == RowKey(m)) ==> n == m
    ensures StoreRow(table, n) == if n in table then table else table + [n]
    ensures DistinctKeys(StoreRow(table, n))
  {
    hide DedupeKey, RowKey;
    var found := FindRow(table, RowKey(n));
    if found.Some? {
      assert table[found.value] in table;
    } else {
      assert n !in table;
      assert forall m :: m in table ==> DedupeKey(m) != DedupeKey(n);
      KeysTell(table, n);
    }
  }

  lemma {:induction false} StoringKeepsTable(table: seq<Notice>, indexed: seq<Notice>, window: seq<Notice>)
    requires DistinctKeys(table) && (forall n :: n in table <==> n in indexed) && KeysNameNotices(indexed + window)
    ensures var after := StoreRows(table, window);
      table <= after && DistinctKeys(after) && (forall n :: n in after <==> n in indexed + window)
  {
    hide DedupeKey, RowKey, StoreRow, DistinctKeys;
    if window != [] {
      var init, last := window[..|window| - 1], window[|window| - 1];
      assert window == init + [last];
      assert indexed + window == indexed + init + [last];
      assert forall n :: n in indexed + window <==> n in indexed + init || n == last;
      StoringKeepsTable(table, indexed, init);
      StoringAgainChangesNothing(StoreRows(table, init), last);
    } else {
      assert indexed + window == indexed;
    }
  }

  /** Events that are indexed for the first time are all appended. */
  lemma {:induction false} StoringOnceAppends(table: seq<Notice>, indexed: seq<Notice>, window: seq<Notice>)
    requires DistinctKeys(table) && (forall n :: n in table <==> n in indexed) && KeysNameNotices(indexed + window)
    requires DistinctKeys(indexed + window)
    ensures StoreRows(table, window) == table + window
  {
    hide DedupeKey, RowKey, StoreRow, KeysNameNotices;
    if window != [] {
      var init, last := window[..|window| - 1], window[|window| - 1];
      var all, most := indexed + window, indexed + init;
      assert window == init + [last] && all == most + [last];
      assert forall i :: 0 <= i < |most| ==> most[i] == all[i];
      FewerKeysName(most, all);
      StoringOnceAppends(table, indexed, init);
      StoringKeepsTable(table, indexed, init);
      assert last !in most by {
        assert forall i :: 0 <= i < |most| ==> DedupeKey(all[i]) != DedupeKey(all[|most|]);
      }
      LastIsNamed(most, last);
      StoringAgainChangesNothing(StoreRows(table, init), last);
      assert table + init + [last] == table + window;
    }
  }

  lemma {:induction false} FewerKeysName(some: seq<Notice>, all: seq<Notice>)
    requires KeysNameNotices(all) && forall n :: n in some ==> n in all
    ensures KeysNameNotices(some)
  {
  }

  lemma {:induction false} LastIsNamed(most: seq<Notice>, last: Notice)
    requires KeysNameNotices(most + [last])
    ensures forall m :: m in most && (DedupeKey(last) == DedupeKey(m) || RowKey(last) == RowKey(m)) ==> last == m
  {
    assert forall m :: m in most + [last] <==> m in most || m == last;
  }

  // ---------------------------------------------------------------- the invariant

  ghost predicate ViewerInvariant(watch: Watch, w: World) {
    var v := w.viewer;
    && Consistent(v)
    && (!v.subscribed ==> v == START.viewer && w.arrived == [])
    && (v.replay.None? ==> w.snapshot == [] && !v.replayReady)
    && (v.replay.Some? ==> v.replay.value == Query(watch, w.snapshot) && w.snapshot <= w.committed)
    && (!v.replayReady ==> v.emitted == [] && v.buffered == Mine(watch, w.arrived))
    && (v.replayReady ==> v.seen == Keys(DueIn(watch, w.snapshot)) + Keys(Mine(watch, w.arrived)))
  }

  lemma {:induction false} HearKeepsViewer(watch: Watch, w: World, n: Notice)
    requires ViewerInvariant(watch, w) && w.viewer.subscribed
    ensures ViewerInvariant(watch, w.(viewer := Hear(watch, w.viewer, n), arrived := w.arrived + [n]))
  {
    hide DedupeKey, DueIn, Query, Matches, DistinctKeys;
    assert (w.arrived + [n])[..|w.arrived|] == w.arrived;
    if Matches(watch, n) {
      KeysAppend(Mine(watch, w.arrived), n);
      EmitLiveKeepsConsistent(w.viewer, n);
    }
  }

  lemma {:induction false} DrainKeepsViewer(watch: Watch, w: World)
    requires ViewerInvariant(watch, w) && Sane(w) && TableInvariant(w)
    ensures ViewerInvariant(watch, w.(viewer := Drain(watch, w.viewer)))
  {
    var v := w.viewer;
    if v.subscribed && v.replay.Some? && !v.replayReady {
      SnapshotIsSane(w);
      ReplayEmitsDue(watch, v, w.snapshot);
      var r := EmitRows(watch, v, v.replay.value).(replayReady := true);
      EmitAllKeepsConsistent(r, v.buffered);
    }
  }

  lemma {:induction false} SnapshotIsSane(w: World)
    requires Sane(w) && TableInvariant(w) && w.snapshot <= w.committed
    ensures DistinctKeys(w.snapshot) && forall n :: n in w.snapshot ==> Normalised(n) && n in w.committed
  {
    assert forall i :: 0 <= i < |w.snapshot| ==> w.snapshot[i] == w.committed[i];
  }

  lemma {:induction false} StepKeepsViewer(watch: Watch, w: World, s: Step)
    requires ViewerInvariant(watch, w) && TableInvariant(w) && Sane(w) && Sane(Take(watch, w, s))
    ensures ViewerInvariant(watch, Take(watch, w, s))
  {
    hide Hear, Drain, Query, TableInvariant, Sane, StoreRows, DedupeKey;
    match s
    case CommitWindow(window) =>
      WindowKeepsTable(watch, w, window);
    case Publish(index, here) =>
      if index < |w.unpublished| && here && w.viewer.subscribed {
        var n := w.unpublished[index];
        HearKeepsViewer(watch, w.(unpublished := Without(w.unpublished, index, index + 1), published := w.published +
          [n],
                                  channel := w.channel + [Wire(n, here)]), n);
      }
    case Arrive(index, again) =>
      if index < |w.channel| && !w.channel[index].own && w.viewer.subscribed {
        var after := if again then w else w.(channel := w.channel[..index] + w.channel[index + 1..]);
        HearKeepsViewer(watch, after, w.channel[index].notice);
      }
    case DrainReplay => DrainKeepsViewer(watch, w);
    case _ =>
  }

  lemma {:induction false} WindowKeepsTable(watch: Watch, w: World, window: seq<Notice>)
    requires TableInvariant(w) && Sane(Take(watch, w, CommitWindow(window)))
    ensures var after := Take(watch, w, CommitWindow(window));
      && TableInvariant(after) && w.committed <= after.committed
      && (DistinctKeys(after.indexed) ==> after.committed == w.committed + window)
  {
    hide KeysNameNotices, DistinctKeys;
    StoringKeepsTable(w.committed, w.indexed, window);
    if DistinctKeys(w.indexed + window) { StoringOnceAppends(w.committed, w.indexed, window); }
  }

  lemma {:induction false} StepKeepsTable(watch: Watch, w: World, s: Step)
    requires TableInvariant(w) && Sane(Take(watch, w, s))
    ensures TableInvariant(Take(watch, w, s)) && w.committed <= Take(watch, w, s).committed
  {
    hide Hear, Drain, Query, StoreRows, Sane, TableInvariant;
    if s.CommitWindow? {
      WindowKeepsTable(watch, w, s.window);
    } else {
      OtherStepsKeepTable(watch, w, s);
    }
  }

  lemma {:induction false} OtherStepsKeepTable(watch: Watch, w: World, s: Step)
    requires !s.CommitWindow?
    ensures Take(watch, w, s).committed == w.committed && Take(watch, w, s).indexed == w.indexed
    ensures TableInvariant(Take(watch, w, s)) == TableInvariant(w)
  {
    hide Hear, Drain, Query, DedupeKey;
  }

  lemma {:induction false} IndexedOnlyGrows(watch: Watch, w: World, s: Step)
    ensures w.indexed <= Take(watch, w, s).indexed
  {
    hide Hear, Drain, Query, StoreRows;
  }

  /** Where every announceable committed event is, and where everything heard came from. */
  ghost predicate FlowInvariant(w: World) {
    && (forall n :: n in w.published || n in w.unpublished || n in w.lost <==>
      n in w.committed && Announceable(n.event))
    && (forall n :: n in w.published ==> n in w.arrived || n in w.missed || Wire(n, false) in w.channel)
    && (forall n :: n in w.arrived || n in w.missed ==> n in w.published)
    && (forall m :: m in w.channel ==> m.notice in w.published)
    && (w.viewer.replay.Some? ==> forall n :: n in w.missed ==> n in w.snapshot)
    && (w.viewer.replay.Some? ==> w.viewer.subscribed)
  }

  lemma {:induction false} ReceiveKeepsFlow(watch: Watch, w: World, n: Notice)
    requires n in w.published
    requires forall p :: p in w.published || p in w.unpublished || p in w.lost <==>
      p in w.committed && Announceable(p.event)
    requires forall p :: p in w.published && p != n ==> p in w.arrived || p in w.missed || Wire(p, false) in w.channel
    requires forall p :: p in w.arrived || p in w.missed ==> p in w.published
    requires forall m :: m in w.channel ==> m.notice in w.published
    requires w.viewer.replay.Some? ==> w.viewer.subscribed && forall p :: p in w.missed ==> p in w.snapshot
    ensures FlowInvariant(Receive(watch, w, n))
  {
    hide Announceable, Hear;
    var after := Receive(watch, w, n);
    HearKeepsQuery(watch, w.viewer, n);
    assert forall p :: p in w.arrived + [n] <==> p in w.arrived || p == n;
    assert forall p :: p in w.missed + [n] <==> p in w.missed || p == n;
  }

  lemma {:induction false} HearKeepsQuery(watch: Watch, v: Viewer, n: Notice)
    ensures Hear(watch, v, n).replay == v.replay && Hear(watch, v, n).subscribed == v.subscribed
  {
  }

  lemma {:induction false} AnnounceablesMembers(s: seq<Notice>)
    ensures forall n :: n in Announceables(s) <==> n in s && Announceable(n.event)
  {
    if s != [] {
      AnnounceablesMembers(s[..|s| - 1]);
      assert s == s[..|s| - 1] + [s[|s| - 1]];
    }
  }

  lemma {:induction false} WithoutMembers<T>(s: seq<T>, first: nat, next: nat)
    requires first <= next <= |s|
    ensures forall x :: x in s <==> x in Without(s, first, next) || x in s[first..next]
  {
    assert s == s[..first] + s[first..next] + s[next..];
  }

  lemma {:induction false} PublishKeepsFlow(watch: Watch, w: World, index: nat, here: bool)
    requires FlowInvariant(w) && index < |w.unpublished|
    ensures FlowInvariant(Take(watch, w, Publish(index, here)))
  {
    hide Announceable, Hear, Without;
    var n := w.unpublished[index];
    WithoutMembers(w.unpublished, index, index + 1);
    assert w.unpublished[index..index + 1] == [n];
    var sent := w.(unpublished := Without(w.unpublished, index, index + 1), published := w.published + [n],
                   channel := w.channel + [Wire(n, here)]);
    assert forall p :: p in sent.published <==> p in w.published || p == n;
    assert forall m :: m in sent.channel <==> m in w.channel || m == Wire(n, here);
    if here {
      ReceiveKeepsFlow(watch, sent, n);
    }
  }

  lemma {:induction false} ArriveKeepsFlow(watch: Watch, w: World, index: nat, again: bool)
    requires FlowInvariant(w) && index < |w.channel|
    ensures FlowInvariant(Take(watch, w, Arrive(index, again)))
  {
    hide Announceables, Hear;
    var m := w.channel[index];
    var rest := w.channel[..index] + w.channel[index + 1..];
    assert m in w.channel;
    forall x | x in w.channel && x != m ensures x in rest {
      var k :| 0 <= k < |w.channel| && w.channel[k] == x;
      assert x in w.channel[..index] || x in w.channel[index + 1..] by {
        if k < index { assert w.channel[..index][k] == x; } else { assert w.channel[index + 1..][k - index - 1] == x; }
      }
    }
    assert forall x :: x in rest ==> x in w.channel;
    var after := if again then w else w.(channel := rest);
    if !m.own {
      ReceiveKeepsFlow(watch, after, m.notice);
    }
  }

  lemma {:induction false} CommitKeepsFlow(watch: Watch, w: World, window: seq<Notice>)
    requires FlowInvariant(w) && TableInvariant(w) && TableInvariant(Take(watch, w, CommitWindow(window)))
    ensures FlowInvariant(Take(watch, w, CommitWindow(window)))
  {
    hide Announceable, Announceables, StoreRows, DistinctKeys;
    AnnounceablesMembers(window);
  }

  lemma {:induction false} CrashKeepsFlow(watch: Watch, w: World, first: nat, next: nat)
    requires FlowInvariant(w)
    ensures FlowInvariant(Take(watch, w, Crash(first, next)))
  {
    hide Announceable, Without;
    if first <= next <= |w.unpublished| { WithoutMembers(w.unpublished, first, next); }
  }

  lemma {:induction false} StepKeepsFlow(watch: Watch, w: World, s: Step)
    requires FlowInvariant(w) && ViewerInvariant(watch, w) && TableInvariant(w) && TableInvariant(Take(watch, w, s))
    ensures FlowInvariant(Take(watch, w, s))
  {
    match s
    case CommitWindow(window) => CommitKeepsFlow(watch, w, window);
    case Publish(index, here) => if index < |w.unpublished| { PublishKeepsFlow(watch, w, index, here); }
    case Crash(first, next) => CrashKeepsFlow(watch, w, first, next);
    case Arrive(index, again) => if index < |w.channel| { ArriveKeepsFlow(watch, w, index, again); }
    case DrainReplay => DrainKeepsQuery(watch, w.viewer);
    case _ =>
  }

  lemma {:induction false} DrainKeepsQuery(watch: Watch, v: Viewer)
    requires Consistent(v)
    ensures Drain(watch, v).replay == v.replay && Drain(watch, v).subscribed == v.subscribed
  {
    if v.subscribed && v.replay.Some? && !v.replayReady {
      EmitRowsKeepRest(watch, v, v.replay.value);
      EmitAllKeepRest(EmitRows(watch, v, v.replay.value).(replayReady := true), v.buffered);
    }
  }

  lemma {:induction false} EmitRowsKeepRest(watch: Watch, v: Viewer, rows: seq<Notice>)
    ensures EmitRows(watch, v, rows).(seen := v.seen, emitted := v.emitted) == v
  {
    if rows != [] { EmitRowsKeepRest(watch, v, rows[..|rows| - 1]); }
  }

  lemma {:induction false} EmitAllKeepRest(v: Viewer, messages: seq<Notice>)
    ensures EmitAll(v, messages).(seen := v.seen, emitted := v.emitted) == v
  {
    if messages != [] {
      EmitAllKeepRest(v, messages[..|messages| - 1]);
      EmitLiveKeepsRest(EmitAll(v, messages[..|messages| - 1]), messages[|messages| - 1]);
    }
  }

  lemma {:induction false} SaneBefore(watch: Watch, w: World, s: Step)
    requires Sane(Take(watch, w, s))
    ensures Sane(w)
  {
    hide Take, KeysNameNotices, Normalised;
    IndexedOnlyGrows(watch, w, s);
    var after := Take(watch, w, s).indexed;
    forall n | n in w.indexed ensures n in after {
      var i :| 0 <= i < |w.indexed| && w.indexed[i] == n;
      assert after[i] == n;
    }
    FewerKeysName(w.indexed, after);
  }

  /** Every reachable world satisfies the invariants, whatever the interleaving. */
  lemma {:induction false} ReachableWorlds(watch: Watch, run: seq<Step>)
    requires Sane(AfterSteps(watch, run))
    ensures ViewerInvariant(watch, AfterSteps(watch, run)) && FlowInvariant(AfterSteps(watch, run))
    ensures TableInvariant(AfterSteps(watch, run))
  {
    hide Take, Sane, ViewerInvariant, FlowInvariant, TableInvariant;
    if run == [] {
      StartStands(watch);
    } else {
      var before, last := run[..|run| - 1], run[|run| - 1];
      var w := AfterSteps(watch, before);
      SaneBefore(watch, w, last);
      ReachableWorlds(watch, before);
      StepKeepsTable(watch, w, last);
      StepKeepsViewer(watch, w, last);
      StepKeepsFlow(watch, w, last);
    }
  }

  lemma {:induction false} StartStands(watch: Watch)
    ensures ViewerInvariant(watch, START) && FlowInvariant(START) && TableInvariant(START)
  {
  }

  // ---------------------------------------------------------------- exactly once

  /** No key is ever emitted twice, and once the replay is drained a watched event has been emitted
      exactly when the query saw it, from the requested block on, or a notification of it arrived. */
  lemma {:induction false} EmittedExactlyWhen(watch: Watch, run: seq<Step>, n: Notice)
    requires Sane(AfterSteps(watch, run))
    requires var w := AfterSteps(watch, run);
      w.viewer.replayReady && n in w.indexed && Matches(watch, n) && Announceable(n.event)
    ensures var w := AfterSteps(watch, run);
      && DistinctKeys(w.viewer.emitted)
      && (DedupeKey(n) in Keys(w.viewer.emitted) <==>
            (n in w.snapshot && n.event.blockNumber >= watch.fromBlock) || n in w.arrived)
  {
    hide AfterSteps, DedupeKey, Matches, Announceable, Normalised;
    var w := AfterSteps(watch, run);
    ReachableWorlds(watch, run);
    DueInMembers(watch, w.snapshot);
    MineMembers(watch, w.arrived);
    SnapshotIsSane(w);
    assert forall m :: m in w.arrived || m in w.snapshot ==> m in w.indexed;
    assert forall m :: m in w.indexed && DedupeKey(m) == DedupeKey(n) ==> m == n;
  }

  /** Of the due events, therefore, exactly those the query saw or a notification brought. */
  lemma {:induction false} EmittedExactlyWhenSeenOrHeard(watch: Watch, run: seq<Step>, n: Notice)
    requires Sane(AfterSteps(watch, run))
    requires var w := AfterSteps(watch, run); w.viewer.replayReady && n in w.indexed && Due(watch, n)
    ensures var w := AfterSteps(watch, run);
      && DistinctKeys(w.viewer.emitted)
      && (DedupeKey(n) in Keys(w.viewer.emitted) <==> n in w.snapshot || n in w.arrived)
  {
    hide AfterSteps, DedupeKey, Matches, Announceable;
    EmittedExactlyWhen(watch, run, n);
  }

  /** Live messages are not held back by the requested block: a watched event below it has been
      emitted exactly when a notification of it arrived. */
  lemma {:induction false} LiveEventsIgnoreFromBlock(watch: Watch, run: seq<Step>, n: Notice)
    requires Sane(AfterSteps(watch, run))
    requires var w := AfterSteps(watch, run);
      w.viewer.replayReady && n in w.indexed && Matches(watch, n) && Announceable(n.event)
    requires n.event.blockNumber < watch.fromBlock
    ensures var w := AfterSteps(watch, run); DedupeKey(n) in Keys(w.viewer.emitted) <==> n in w.arrived
  {
    hide AfterSteps, DedupeKey, Matches, Announceable;
    EmittedExactlyWhen(watch, run, n);
  }

  /** The stream's promise, for every interleaving of commits, publications, crashes, deliveries,
      subscription, query and drain: a due committed event is emitted exactly once, unless its
      notification is still on its way, or none of its notifications was published yet. */
  lemma {:induction false} EveryDueEventIsEmittedOnce(watch: Watch, run: seq<Step>, n: Notice)
    requires Sane(AfterSteps(watch, run))
    requires var w := AfterSteps(watch, run); w.viewer.replayReady && n in w.indexed && Due(watch, n)
    requires var w := AfterSteps(watch, run);
      (n in w.published || (n !in w.unpublished && n !in w.lost)) && Wire(n, false) !in w.channel
    ensures var e := AfterSteps(watch, run).viewer.emitted;
      exists i :: 0 <= i < |e| && DedupeKey(e[i]) == DedupeKey(n) &&
        forall j :: 0 <= j < |e| && j != i ==> DedupeKey(e[j]) != DedupeKey(n)
  {
    hide AfterSteps, DedupeKey, Matches, Announceable, Sane;
    var w := AfterSteps(watch, run);
    ReachableWorlds(watch, run);
    assert n in w.committed && n in w.published;
    EmittedExactlyWhenSeenOrHeard(watch, run, n);
    var e := w.viewer.emitted;
    assert n in w.snapshot || n in w.arrived;
    var m :| m in e && DedupeKey(m) == DedupeKey(n);
    var i :| 0 <= i < |e| && e[i] == m;
    assert forall j :: 0 <= j < |e| && j != i ==> DedupeKey(e[j]) != DedupeKey(n);
  }

  /** Publication of every committed window is a real assumption: an event committed after the query,
      none of whose announcements survived its indexer, is never emitted, however the run continues. */
  lemma {:induction false} LostAfterTheQueryIsNeverEmitted(watch: Watch, run: seq<Step>, n: Notice)
    requires Sane(AfterSteps(watch, run))
    requires var w := AfterSteps(watch, run); w.viewer.replayReady && n in w.indexed && Due(watch, n)
    requires var w := AfterSteps(watch, run); n !in w.snapshot && n !in w.published
    ensures DedupeKey(n) !in Keys(AfterSteps(watch, run).viewer.emitted)
  {
    hide AfterSteps, DedupeKey, Matches, Announceable, Sane;
    ReachableWorlds(watch, run);
    EmittedExactlyWhenSeenOrHeard(watch, run, n);
  }

  // ---------------------------------------------------------------- an event below the requested block

  lemma {:induction false} OneMore(watch: Watch, run: seq<Step>, s: Step)
    ensures AfterSteps(watch, run + [s]) == Take(watch, AfterSteps(watch, run), s)
  {
    assert (run + [s])[..|run|] == run;
  }

  const GOING_LIVE := [Subscribe, RunQuery, DrainReplay]

  lemma {:induction false} GoesLive(watch: Watch)
    ensures AfterSteps(watch, GOING_LIVE) == START.(viewer := Viewer(true, Some([]), true, [], {}, []))
  {
    hide AfterSteps;
    var one, two := [Subscribe], [Subscribe, RunQuery];
    assert [] + [Subscribe] == one && one + [RunQuery] == two && two + [DrainReplay] == GOING_LIVE;
    assert AfterSteps(watch, []) == START by { NothingYet(watch); }
    OneMore(watch, [], Subscribe);
    OneMore(watch, one, RunQuery);
    OneMore(watch, two, DrainReplay);
    assert AfterSteps(watch, one) == START.(viewer := START.viewer.(subscribed := true));
    assert AfterSteps(watch, two) == START.(viewer := Viewer(true, Some([]), false, [], {}, []));
  }

  lemma {:induction false} NothingYet(watch: Watch)
    ensures AfterSteps(watch, []) == START
  {
  }

  lemma {:induction false} CommitsOne(watch: Watch, w: World, n: Notice)
    requires w.committed == [] && w.indexed == [] && w.unpublished == [] && Announceable(n.event)
    ensures Take(watch, w, CommitWindow([n])) == w.(committed := [n], indexed := [n], unpublished := [n])
  {
    assert [n][..0] == [] && StoreRows([], []) == [] && StoreRows([], [n]) == [n];
    assert Announceables([]) == [] && Announceables([n]) == [n];
  }

  lemma {:induction false} PublishesOne(watch: Watch, w: World, n: Notice)
    requires w.unpublished == [n] && w.viewer.subscribed && w.viewer.replayReady && w.viewer.seen == {}
    requires w.viewer.emitted == [] && Matches(watch, n)
    ensures Take(watch, w, Publish(0, true)).viewer.emitted == [n]
      && Take(watch, w, Publish(0, true)).indexed == w.indexed
  {
  }

  /** For every viewer and every watched event below its requested block there is a run that shows it:
      the viewer goes live, an indexer then commits the block the event is in, and publishes it. */
  lemma {:induction false} EventsBelowFromBlockCanBeShown(watch: Watch, n: Notice)
    requires Matches(watch, n) && Announceable(n.event) && Normalised(n) && n.event.blockNumber < watch.fromBlock
    ensures var run := GOING_LIVE + [CommitWindow([n])] + [Publish(0, true)];
      Sane(AfterSteps(watch, run)) && AfterSteps(watch, run).viewer.emitted == [n]
  {
    hide AfterSteps, Take, Announceable, Matches, Normalised;
    GoesLive(watch);
    OneMore(watch, GOING_LIVE, CommitWindow([n]));
    CommitsOne(watch, AfterSteps(watch, GOING_LIVE), n);
    OneMore(watch, GOING_LIVE + [CommitWindow([n])], Publish(0, true));
    PublishesOne(watch, AfterSteps(watch, GOING_LIVE + [CommitWindow([n])]), n);
  }

  /** One such viewer and event. */
  lemma {:induction false} SomeEventBelowFromBlockIsShown()
    ensures exists watch, n, run ::
      Sane(AfterSteps(watch, run)) && n in AfterSteps(watch, run).viewer.emitted
        && n.event.blockNumber < watch.fromBlock
  {
    var id := Identity("s", "1", "c");
    var watch := Watch({"a"}, id, 5);
    var n := Notice(id, Event(Public(Some("a"), Some("b"), Some("t"), Some("d")), Some(0), 1, "h", "x", 0, 0));
    assert Lower("a") == "a" by { assert "a"[1..] == ""; }
    EventsBelowFromBlockCanBeShown(watch, n);
    var run := GOING_LIVE + [CommitWindow([n])] + [Publish(0, true)];
    assert n in AfterSteps(watch, run).viewer.emitted;
  }
}

/** Order: with one indexer per slot and a channel that delivers in order, what a viewer is shown
    comes in ledger order. */
module StreamOrder {
  import opened Basics
  import opened Indexing
  import opened Streaming
  import opened StreamProofs

  /** Notifications arrive once and in order, and the indexer stays in one process. */
  predicate InOrder(run: seq<Step>, local: bool) {
    forall k :: 0 <= k < |run| ==>
      (run[k].Arrive? ==> run[k] == Arrive(0, false)) && (run[k].Publish? ==> run[k] == Publish(0, local))
  }

  /** One indexer: every event is committed once. */
  ghost predicate CommittedOnce(w: World) {
    DistinctKeys(w.indexed)
  }

  /** The watched notices of a sequence are in ledger order. */
  ghost predicate MineOrdered(watch: Watch, s: seq<Notice>) {
    forall i, j :: 0 <= i < j < |s| && Matches(watch, s[i]) && Matches(watch, s[j]) ==> Before(s[i].event, s[j].event)
  }

  predicate From(watch: Watch, n: Notice) {
    n.event.blockNumber >= watch.fromBlock
  }

  ghost predicate OrderedFrom(watch: Watch, s: seq<Notice>) {
    forall i, j :: 0 <= i < j < |s| && From(watch, s[i]) && From(watch, s[j]) ==> Before(s[i].event, s[j].event)
  }

  function Foreign(channel: seq<Wire>): seq<Notice> {
    if channel == [] then []
    else
      var init, last := Foreign(channel[..|channel| - 1]), channel[|channel| - 1];
      if last.own then init else init + [last.notice]
  }

  /** Everything this process has heard or will hear, in the order it hears it. */
  function Line(w: World): seq<Notice> {
    w.arrived + (Foreign(w.channel) + w.unpublished)
  }

  /** Emitting n now would not go back in the ledger. */
  ghost predicate MayFollow(watch: Watch, v: Viewer, n: Notice) {
    || n.event.blockNumber < watch.fromBlock
    || DedupeKey(n) in v.seen
    || forall m :: m in v.emitted && m.event.blockNumber >= watch.fromBlock ==> Before(m.event, n.event)
  }

  lemma {:induction false} EmitLiveKeepsOrder(watch: Watch, v: Viewer, n: Notice, rest: seq<Notice>)
    requires OrderedFrom(watch, v.emitted) && MayFollow(watch, v, n)
    requires forall x :: x in rest ==> MayFollow(watch, v, x) && Before(n.event, x.event)
    ensures OrderedFrom(watch, EmitLive(v, n).emitted)
    ensures forall x :: x in rest ==> MayFollow(watch, EmitLive(v, n), x)
  {
    hide DedupeKey, Before;
    var r := EmitLive(v, n);
    if DedupeKey(n) !in v.seen {
      forall i | 0 <= i < |v.emitted| && v.emitted[i].event.blockNumber >= watch.fromBlock
        && n.event.blockNumber >= watch.fromBlock
        ensures Before(v.emitted[i].event, n.event)
      {
        assert v.emitted[i] in v.emitted;
      }
      forall x | x in rest ensures MayFollow(watch, r, x) {
        assert MayFollow(watch, v, x);
      }
    }
  }

  lemma {:induction false} EmitAllKeepsOrder(watch: Watch, v: Viewer, messages: seq<Notice>, rest: seq<Notice>)
    requires OrderedFrom(watch, v.emitted)
    requires forall n :: n in messages + rest ==> MayFollow(watch, v, n) && Matches(watch, n)
    requires MineOrdered(watch, messages + rest)
    ensures OrderedFrom(watch, EmitAll(v, messages).emitted)
    ensures forall n :: n in rest ==> MayFollow(watch, EmitAll(v, messages), n)
  {
    hide DedupeKey, Before, Matches, EmitLive;
    if messages == [] {
      assert messages + rest == rest;
    } else {
      var k := |messages| - 1;
      var init, last := messages[..k], messages[k];
      assert messages + rest == init + ([last] + rest);
      EmitAllKeepsOrder(watch, v, init, [last] + rest);
      assert last in [last] + rest;
      forall x | x in rest ensures MayFollow(watch, EmitAll(v, init), x) && Before(last.event, x.event) {
        assert x in [last] + rest;
        var j :| 0 <= j < |rest| && rest[j] == x;
        var all := messages + rest;
        assert all[k] == last && all[k + 1 + j] == x;
        assert all[k] in all && all[k + 1 + j] in all;
      }
      EmitLiveKeepsOrder(watch, EmitAll(v, init), last, rest);
    }
  }

  function Pending(w: World): seq<Notice> {
    Foreign(w.channel) + w.unpublished
  }

  predicate SamePlace(a: Event, b: Event) {
    a.blockNumber == b.blockNumber && a.transactionIndex == b.transactionIndex && a.logIndex == b.logIndex
  }

  ghost predicate CommittedAt(watch: Watch, committed: seq<Notice>, m: Notice) {
    exists c :: c in committed && Matches(watch, c) && SamePlace(c.event, m.event)
  }

  /** An event on its way is either in the query's answer or later than all of it. */
  ghost predicate AfterSnapshot(watch: Watch, w: World, n: Notice) {
    n in w.snapshot || forall c :: c in w.snapshot && Matches(watch, c) ==> Before(c.event, n.event)
  }

  ghost predicate OrderInvariant(watch: Watch, w: World) {
    && MineOrdered(watch, w.committed)
    && MineOrdered(watch, Line(w))
    && (forall n :: n in Line(w) ==> n in w.committed && Announceable(n.event))
    && (w.viewer.replay.Some? ==> forall n :: n in Line(w) && Matches(watch, n) ==> AfterSnapshot(watch, w, n))
    && (forall m :: m in w.viewer.emitted ==> CommittedAt(watch, w.committed, m))
    && (w.viewer.replayReady ==>
          && OrderedFrom(watch, w.viewer.emitted)
          && forall n :: n in Pending(w) && Matches(watch, n) ==> MayFollow(watch, w.viewer, n))
  }

  lemma {:induction false} MineConcat(watch: Watch, a: seq<Notice>, b: seq<Notice>)
    ensures Mine(watch, a + b) == Mine(watch, a) + Mine(watch, b)
  {
    if b == [] {
      assert a + b == a;
    } else {
      assert (a + b)[..|a + b| - 1] == a + b[..|b| - 1];
      MineConcat(watch, a, b[..|b| - 1]);
    }
  }

  lemma {:induction false} MineKeepsOrder(watch: Watch, s: seq<Notice>)
    requires MineOrdered(watch, s)
    ensures MineOrdered(watch, Mine(watch, s))
  {
    hide Before, Matches;
    if s != [] {
      var k := |s| - 1;
      MineKeepsOrder(watch, s[..k]);
      MineMembers(watch, s[..k]);
      var m := Mine(watch, s[..k]);
      forall i | 0 <= i < |m| && Matches(watch, s[k]) ensures Before(m[i].event, s[k].event) {
        assert m[i] in m;
        var j :| 0 <= j < k && s[j] == m[i];
      }
    }
  }

  lemma {:induction false} AnnounceablesKeepOrder(watch: Watch, s: seq<Notice>)
    requires MineOrdered(watch, s)
    ensures MineOrdered(watch, Announceables(s))
  {
    hide Before, Matches, Announceable;
    if s != [] {
      var k := |s| - 1;
      AnnounceablesKeepOrder(watch, s[..k]);
      AnnounceablesMembers(s[..k]);
      var m := Announceables(s[..k]);
      forall i | 0 <= i < |m| && Matches(watch, m[i]) && Matches(watch, s[k]) ensures Before(m[i].event, s[k].event) {
        assert m[i] in m;
        var j :| 0 <= j < k && s[j] == m[i];
      }
    }
  }

  lemma {:induction false} EarlierBlocks(watch: Watch, committed: seq<Notice>, window: seq<Notice>, x: Notice,
          y: Notice)
    requires MineOrdered(watch, committed + window)
    requires x in committed && y in window && Matches(watch, x) && Matches(watch, y)
    ensures Before(x.event, y.event)
  {
    hide Before, Matches;
    var i :| 0 <= i < |committed| && committed[i] == x;
    var j :| 0 <= j < |window| && window[j] == y;
    assert (committed + window)[i] == x && (committed + window)[|committed| + j] == y;
  }

  lemma {:induction false} CommitKeepsOrder(watch: Watch, w: World, window: seq<Notice>)
    requires OrderInvariant(watch, w) && MineOrdered(watch, w.committed + window)
    requires w.snapshot <= w.committed
    requires Take(watch, w, CommitWindow(window)).committed == w.committed + window
    ensures OrderInvariant(watch, Take(watch, w, CommitWindow(window)))
  {
    hide Before, Matches, Announceable, Foreign, Announceables, DedupeKey, StoreRows;
    var after := Take(watch, w, CommitWindow(window));
    var added := Announceables(window);
    AnnounceablesMembers(window);
    assert MineOrdered(watch, window) by {
      forall i, j | 0 <= i < j < |window| && Matches(watch, window[i]) && Matches(watch, window[j])
        ensures Before(window[i].event, window[j].event)
      {
        assert (w.committed + window)[|w.committed| + i] == window[i]
          && (w.committed + window)[|w.committed| + j] == window[j];
      }
    }
    AnnounceablesKeepOrder(watch, window);
    assert Line(after) == Line(w) + added && Pending(after) == Pending(w) + added;
    forall x, y | x in w.committed && y in added && Matches(watch, x) && Matches(watch, y)
      ensures Before(x.event, y.event)
    {
      EarlierBlocks(watch, w.committed, window, x, y);
    }
    assert MineOrdered(watch, Line(after)) by {
      var line := Line(after);
      forall i, j | 0 <= i < j < |line| && Matches(watch, line[i]) && Matches(watch, line[j])
        ensures Before(line[i].event, line[j].event)
      {
        if i < |Line(w)| <= j {
          assert line[i] == Line(w)[i] && line[j] == added[j - |Line(w)|];
          assert line[i] in Line(w) && line[j] in added;
        } else if i >= |Line(w)| {
          assert line[i] == added[i - |Line(w)|] && line[j] == added[j - |Line(w)|];
        } else {
          assert line[i] == Line(w)[i] && line[j] == Line(w)[j];
        }
      }
    }
    assert forall c :: c in w.snapshot ==> c in w.committed;
    forall n | n in added && Matches(watch, n) ensures MayFollow(watch, w.viewer, n) {
      forall m | m in w.viewer.emitted ensures Before(m.event, n.event) {
        assert CommittedAt(watch, w.committed, m);
        var c :| c in w.committed && Matches(watch, c) && SamePlace(c.event, m.event);
        assert Before(c.event, n.event);
        SamePlaceSameOrder(c.event, m.event, n.event);
      }
    }
    forall m | m in w.viewer.emitted ensures CommittedAt(watch, after.committed, m) {
      assert CommittedAt(watch, w.committed, m);
      var c :| c in w.committed && Matches(watch, c) && SamePlace(c.event, m.event);
      assert c in after.committed;
    }
    forall n | n in Line(after) && Matches(watch, n) && w.viewer.replay.Some? ensures AfterSnapshot(watch, after, n) {
      if n in Line(w) { assert AfterSnapshot(watch, w, n); }
    }
  }

  lemma {:induction false} SamePlaceSameOrder(a: Event, b: Event, c: Event)
    requires SamePlace(a, b)
    ensures Before(a, c) == Before(b, c)
  {
  }

  /** What a viewer's process loses or hears is always the head of the line. */
  predicate Sends(w: World, sent: World, n: Notice) {
    && sent == w.(channel := sent.channel, unpublished := sent.unpublished, published := sent.published)
    && Pending(w) == [n] + Pending(sent)
  }

  lemma {:induction false} MissKeepsOrder(watch: Watch, w: World, sent: World, n: Notice)
    requires OrderInvariant(watch, w) && ViewerInvariant(watch, w)
    requires Sends(w, sent, n) && !w.viewer.subscribed
    ensures OrderInvariant(watch, Receive(watch, sent, n))
  {
    hide Before, Matches, Announceable, Foreign, DedupeKey, EmitLive, Consistent;
    var after := Receive(watch, sent, n);
    assert Line(w) == [n] + Line(after);
    assert Line(after) == Line(w)[1..];
    TailIsOrdered(watch, Line(w));
    assert forall x :: AfterSnapshot(watch, after, x) == AfterSnapshot(watch, w, x);
  }

  lemma {:induction false} TailIsOrdered(watch: Watch, s: seq<Notice>)
    requires MineOrdered(watch, s) && s != []
    ensures MineOrdered(watch, s[1..]) && forall x :: x in s[1..] ==> x in s
  {
  }

  lemma {:induction false} HearKeepsEmission(watch: Watch, w: World, n: Notice, rest: seq<Notice>)
    requires OrderInvariant(watch, w) && Pending(w) == [n] + rest && w.viewer.subscribed
    ensures var v := Hear(watch, w.viewer, n);
      && (forall m :: m in v.emitted ==> CommittedAt(watch, w.committed, m))
      && v.replay == w.viewer.replay
      && (v.replayReady ==>
            && OrderedFrom(watch, v.emitted)
            && forall x :: x in rest && Matches(watch, x) ==> MayFollow(watch, v, x))
  {
    hide Before, Matches, Announceable, Foreign, DedupeKey, EmitLive, CommittedAt;
    var v := w.viewer;
    HearKeepsQuery(watch, v, n);
    assert n in Pending(w) && forall x :: x in rest ==> x in Pending(w);
    if v.replayReady && Matches(watch, n) {
      HeadBeforeRest(watch, w, n, rest);
      MineMembers(watch, rest);
      EmitLiveKeepsOrder(watch, v, n, Mine(watch, rest));
      EmitLiveEmits(v, n);
      assert n in Line(w);
      IsCommittedAt(watch, w.committed, n);
    }
  }

  lemma {:induction false} IsCommittedAt(watch: Watch, committed: seq<Notice>, n: Notice)
    requires n in committed && Matches(watch, n)
    ensures CommittedAt(watch, committed, n)
  {
    assert SamePlace(n.event, n.event);
  }

  lemma {:induction false} ReceiveKeepsOrder(watch: Watch, w: World, sent: World, n: Notice)
    requires OrderInvariant(watch, w) && ViewerInvariant(watch, w) && Sends(w, sent, n)
    ensures OrderInvariant(watch, Receive(watch, sent, n))
  {
    hide Before, Matches, Announceable, Foreign, DedupeKey, EmitLive, Consistent, Hear, MayFollow, CommittedAt;
    if w.viewer.subscribed {
      HearKeepsEmission(watch, w, n, Pending(sent));
      var after := Receive(watch, sent, n);
      assert Line(after) == Line(w) && Pending(after) == Pending(sent);
      assert forall x :: AfterSnapshot(watch, after, x) == AfterSnapshot(watch, w, x);
    } else {
      MissKeepsOrder(watch, w, sent, n);
    }
  }

  lemma {:induction false} EmitLiveEmits(v: Viewer, n: Notice)
    ensures forall m :: m in EmitLive(v, n).emitted ==> m in v.emitted || m == n
    ensures EmitLive(v, n).replayReady == v.replayReady
  {
  }

  lemma {:induction false} HeadBeforeRest(watch: Watch, w: World, n: Notice, rest: seq<Notice>)
    requires MineOrdered(watch, Line(w)) && Pending(w) == [n] + rest && Matches(watch, n)
    ensures forall x :: x in rest && Matches(watch, x) ==> Before(n.event, x.event)
  {
    hide Before, Matches, Foreign;
    var line := Line(w);
    forall x | x in rest && Matches(watch, x) ensures Before(n.event, x.event) {
      var j :| 0 <= j < |rest| && rest[j] == x;
      assert line[|w.arrived|] == Pending(w)[0] && line[|w.arrived| + 1 + j] == Pending(w)[1 + j];
    }
  }

  /** After the rows, everything buffered or pending may follow. */
  lemma {:induction false} ReplayedRowsLeadTheLine(watch: Watch, w: World, r: Viewer)
    requires OrderInvariant(watch, w) && ViewerInvariant(watch, w) && Sane(w) && TableInvariant(w)
    requires w.viewer.subscribed && w.viewer.replay.Some? && !w.viewer.replayReady
    requires r == EmitRows(watch, w.viewer, w.viewer.replay.value).(replayReady := true)
    ensures OrderedFrom(watch, r.emitted)
    ensures forall m :: m in r.emitted ==> CommittedAt(watch, w.snapshot, m)
    ensures forall n :: n in w.viewer.buffered + Mine(watch, Pending(w)) ==> MayFollow(watch, r, n) && Matches(watch, n)
    ensures MineOrdered(watch, w.viewer.buffered + Mine(watch, Pending(w)))
  {
    var v := w.viewer;
    assert v.seen == {};
    hide Before, Matches, Announceable, Foreign, DedupeKey, EmitLive, EmitAll, EmitRows, Query, Consistent, MayFollow;
    SnapshotIsSane(w);
    ReplayEmitsDue(watch, v, w.snapshot);
    SelectIsOrdered(watch, w.committed, w.snapshot);
    ShownInOrder(watch, w.snapshot);
    ReplayIsOrdered(watch, w, r.emitted);
    MineConcat(watch, w.arrived, Pending(w));
    MineKeepsOrder(watch, Line(w));
    MineMembers(watch, Line(w));
    forall n | n in Mine(watch, Line(w)) ensures MayFollow(watch, r, n) && Matches(watch, n) {
      LineMayFollow(watch, w, r, n);
    }
  }

  lemma {:induction false} DrainKeepsOrder(watch: Watch, w: World)
    requires OrderInvariant(watch, w) && ViewerInvariant(watch, w) && Sane(w) && TableInvariant(w)
    ensures OrderInvariant(watch, w.(viewer := Drain(watch, w.viewer)))
  {
    hide Before, Matches, Announceable, Foreign, DedupeKey, EmitLive, EmitAll, EmitRows, Query, Consistent, MayFollow,
      CommittedAt;
    var v := w.viewer;
    if v.subscribed && v.replay.Some? && !v.replayReady {
      var r := EmitRows(watch, v, v.replay.value).(replayReady := true);
      var rest := Mine(watch, Pending(w));
      ReplayedRowsLeadTheLine(watch, w, r);
      EmitAllKeepsOrder(watch, r, v.buffered, rest);
      EmitRowsKeepRest(watch, v, v.replay.value);
      EmitAllKeepRest(r, v.buffered);
      MineMembers(watch, Pending(w));
      var after := w.(viewer := EmitAll(r, v.buffered));
      assert Line(after) == Line(w) && Pending(after) == Pending(w);
      EmittedIsCommitted(watch, w, r);
      assert forall x :: AfterSnapshot(watch, after, x) == AfterSnapshot(watch, w, x);
    }
  }

  lemma {:induction false} EmittedIsCommitted(watch: Watch, w: World, r: Viewer)
    requires OrderInvariant(watch, w) && w.snapshot <= w.committed && w.viewer.buffered == Mine(watch, w.arrived)
    requires forall m :: m in r.emitted ==> CommittedAt(watch, w.snapshot, m)
    ensures forall m :: m in EmitAll(r, w.viewer.buffered).emitted ==> CommittedAt(watch, w.committed, m)
  {
    hide Before, Matches, EmitAll;
    EmitAllEmits(r, w.viewer.buffered);
    MineMembers(watch, w.arrived);
    assert forall c :: c in w.snapshot ==> c in w.committed;
    forall m | m in EmitAll(r, w.viewer.buffered).emitted ensures CommittedAt(watch, w.committed, m) {
      if m in r.emitted {
        assert CommittedAt(watch, w.snapshot, m);
      } else {
        assert m in Line(w);
        IsCommittedAt(watch, w.committed, m);
      }
    }
  }

  lemma {:induction false} EmitAllEmits(v: Viewer, messages: seq<Notice>)
    ensures forall m :: m in EmitAll(v, messages).emitted ==> m in v.emitted || m in messages
  {
    hide EmitLive;
    if messages != [] {
      EmitAllEmits(v, messages[..|messages| - 1]);
      EmitLiveEmits(EmitAll(v, messages[..|messages| - 1]), messages[|messages| - 1]);
    }
  }

  /** The replayed rows are in ledger order and stand for committed events. */
  lemma {:induction false} ReplayIsOrdered(watch: Watch, w: World, emitted: seq<Notice>)
    requires MineOrdered(watch, w.committed) && w.snapshot <= w.committed
    requires |emitted| == |DueIn(watch, w.snapshot)|
    requires forall i :: 0 <= i < |emitted| ==> emitted[i] == AsRow(DueIn(watch, w.snapshot)[i])
    ensures OrderedFrom(watch, emitted)
    ensures forall m :: m in emitted ==> CommittedAt(watch, w.snapshot, m)
  {
    var due := DueIn(watch, w.snapshot);
    DueIsOrdered(watch, w.committed, w.snapshot);
    assert InLedgerOrder(due);
    DueInMembers(watch, w.snapshot);
    forall m | m in emitted ensures CommittedAt(watch, w.snapshot, m) {
      var i :| 0 <= i < |emitted| && emitted[i] == m;
      assert due[i] in due && due[i] in w.snapshot;
      assert SamePlace(due[i].event, m.event);
    }
  }

  /** The selected rows inherit the order of the committed events they stand for. */
  lemma {:induction false} SelectIsOrdered(watch: Watch, committed: seq<Notice>, s: seq<Notice>)
    requires MineOrdered(watch, committed) && s <= committed && forall n :: n in s ==> Normalised(n)
    ensures InLedgerOrder(Select(watch, s))
  {
    hide Before, AsRow, DedupeKey, Matches, Announceable, Normalised, SubjectOf;
    if s != [] {
      var k := |s| - 1;
      SelectIsOrdered(watch, committed, s[..k]);
      SelectedMembers(watch, s[..k]);
      RowKeepsKey(watch, s[k]);
      var rows := Select(watch, s[..k]);
      forall i | 0 <= i < |rows| && Matches(watch, AsRow(s[k])) ensures Before(rows[i].event, AsRow(s[k]).event) {
        assert rows[i] in rows;
        var n :| StandsFor(watch, s[..k], rows[i], n);
        var j :| 0 <= j < k && s[j] == n;
        assert committed[j] == n && committed[k] == s[k];
        RowsComeInTheSameOrder(n, s[k]);
      }
    }
  }

  lemma {:induction false} RowsComeInTheSameOrder(a: Notice, b: Notice)
    ensures Before(AsRow(a).event, AsRow(b).event) == Before(a.event, b.event)
  {
  }

  lemma {:induction false} DueIsOrdered(watch: Watch, committed: seq<Notice>, s: seq<Notice>)
    requires MineOrdered(watch, committed) && s <= committed
    ensures InLedgerOrder(DueIn(watch, s))
  {
    hide Before;
    if s != [] {
      var k := |s| - 1;
      DueIsOrdered(watch, committed, s[..k]);
      DueInMembers(watch, s[..k]);
      var d := DueIn(watch, s[..k]);
      forall i | 0 <= i < |d| && Due(watch, s[k]) ensures Before(d[i].event, s[k].event) {
        assert d[i] in d;
        var j :| 0 <= j < k && s[j] == d[i];
        assert committed[j] == s[j] && committed[k] == s[k];
      }
    }
  }

  lemma {:induction false} LineMayFollow(watch: Watch, w: World, r: Viewer, n: Notice)
    requires n in w.committed && Matches(watch, n) && Announceable(n.event) && AfterSnapshot(watch, w, n)
    requires r.seen == Keys(DueIn(watch, w.snapshot))
    requires forall m :: m in r.emitted ==> CommittedAt(watch, w.snapshot, m)
    ensures MayFollow(watch, r, n)
  {
    DueInMembers(watch, w.snapshot);
    if n !in w.snapshot {
      forall m | m in r.emitted && CommittedAt(watch, w.snapshot, m) ensures Before(m.event, n.event) {
        var c :| c in w.snapshot && Matches(watch, c) && SamePlace(c.event, m.event);
        SamePlaceSameOrder(c.event, m.event, n.event);
      }
    }
  }

  // ---------------------------------------------------------------- every step of an in-order run

  /** With the indexer here, only copies this process ignores travel on the channel; with the
      indexer elsewhere, none of them does. */
  ghost predicate OneOrigin(w: World, local: bool) {
    forall m :: m in w.channel ==> m.own == local
  }

  lemma {:induction false} ForeignOf(channel: seq<Wire>, local: bool)
    requires forall m :: m in channel ==> m.own == local
    ensures if local then Foreign(channel) == []
            else |Foreign(channel)| == |channel| && forall i :: 0 <= i < |channel| ==>
              Foreign(channel)[i] == channel[i].notice
  {
    if channel != [] {
      assert channel[|channel| - 1] in channel;
      ForeignOf(channel[..|channel| - 1], local);
    }
  }

  /** A notification that leaves what this process will hear as it was. */
  lemma {:induction false} SameLineKeepsOrder(watch: Watch, w: World, after: World)
    requires OrderInvariant(watch, w) && Line(after) == Line(w) && Pending(after) == Pending(w)
    requires after.committed == w.committed && after.snapshot == w.snapshot && after.viewer == w.viewer
    ensures OrderInvariant(watch, after)
  {
    hide Before, Matches, Announceable, MayFollow, CommittedAt, Line, Pending, MineOrdered, OrderedFrom;
    assert forall x :: AfterSnapshot(watch, after, x) == AfterSnapshot(watch, w, x);
  }

  lemma {:induction false} PublishingTheHead(watch: Watch, w: World, local: bool)
    requires w.unpublished != []
    ensures var n := w.unpublished[0];
      var sent :=
        w.(unpublished := w.unpublished[1..], published := w.published + [n], channel := w.channel + [Wire(n, local)]);
      Take(watch, w, Publish(0, local)) == if local then Receive(watch, sent, n) else sent
  {
    hide Receive;
    assert Without(w.unpublished, 0, 1) == w.unpublished[1..];
  }

  lemma {:induction false} PublishInOrder(watch: Watch, w: World, local: bool)
    requires OrderInvariant(watch, w) && ViewerInvariant(watch, w) && OneOrigin(w, local) && w.unpublished != []
    ensures OrderInvariant(watch, Take(watch, w, Publish(0, local)))
      && OneOrigin(Take(watch, w, Publish(0, local)), local)
  {
    hide OrderInvariant, ViewerInvariant, Foreign, Hear, Take;
    PublishingTheHead(watch, w, local);
    var n := w.unpublished[0];
    var wire := Wire(n, local);
    var sent := w.(unpublished := w.unpublished[1..], published := w.published + [n], channel := w.channel + [wire]);
    ForeignOf(w.channel, local);
    ForeignOf(sent.channel, local);
    assert w.unpublished == [n] + w.unpublished[1..];
    if local {
      assert Pending(w) == [n] + Pending(sent);
      ReceiveKeepsOrder(watch, w, sent, n);
    } else {
      assert Foreign(sent.channel) == Foreign(w.channel) + [n];
      SameLineKeepsOrder(watch, w, sent);
    }
  }

  lemma {:induction false} DeliveringTheHead(watch: Watch, w: World)
    requires w.channel != []
    ensures var sent := w.(channel := w.channel[1..]);
      Take(watch, w, Arrive(0, false)) == if w.channel[0].own then sent else Receive(watch, sent, w.channel[0].notice)
  {
    hide Receive;
    assert w.channel[..0] + w.channel[0 + 1..] == w.channel[1..];
  }

  lemma {:induction false} TailOfChannel(w: World, local: bool)
    requires w.channel != [] && OneOrigin(w, local)
    ensures w.channel[0].own == local && OneOrigin(w.(channel := w.channel[1..]), local)
    ensures if local then Foreign(w.channel) == Foreign(w.channel[1..]) == []
            else Foreign(w.channel) == [w.channel[0].notice] + Foreign(w.channel[1..])
  {
    hide Foreign;
    assert w.channel[0] in w.channel && forall x :: x in w.channel[1..] ==> x in w.channel;
    ForeignOf(w.channel, local);
    ForeignOf(w.channel[1..], local);
  }

  lemma {:induction false} ArriveInOrder(watch: Watch, w: World, local: bool)
    requires OrderInvariant(watch, w) && ViewerInvariant(watch, w) && OneOrigin(w, local) && w.channel != []
    ensures OrderInvariant(watch, Take(watch, w, Arrive(0, false)))
      && OneOrigin(Take(watch, w, Arrive(0, false)), local)
  {
    hide OrderInvariant, ViewerInvariant, Foreign, Hear, Take;
    var sent := w.(channel := w.channel[1..]);
    DeliveringTheHead(watch, w);
    TailOfChannel(w, local);
    if local {
      SameLineKeepsOrder(watch, w, sent);
    } else {
      assert Pending(w) == [w.channel[0].notice] + Pending(sent);
      ReceiveKeepsOrder(watch, w, sent, w.channel[0].notice);
    }
  }

  /** What this process will hear may lose a stretch. */
  lemma {:induction false} FewerKeepOrder(watch: Watch, w: World, after: World)
    requires OrderInvariant(watch, w) && MineOrdered(watch, Line(after))
    requires after.committed == w.committed && after.snapshot == w.snapshot && after.viewer == w.viewer
    requires (forall x :: x in Line(after) ==> x in Line(w)) && (forall x :: x in Pending(after) ==> x in Pending(w))
    ensures OrderInvariant(watch, after)
  {
    hide Before, Matches, Announceable, MayFollow, CommittedAt, Line, Pending, MineOrdered, OrderedFrom;
    assert forall x :: AfterSnapshot(watch, after, x) == AfterSnapshot(watch, w, x);
  }

  lemma {:induction false} CrashInOrder(watch: Watch, w: World, first: nat, next: nat)
    requires OrderInvariant(watch, w) && first <= next <= |w.unpublished|
    ensures OrderInvariant(watch, Take(watch, w, Crash(first, next)))
  {
    hide OrderInvariant, Foreign, MineOrdered;
    assert MineOrdered(watch, Line(w)) by { OrderedLine(watch, w); }
    var after := Take(watch, w, Crash(first, next));
    WithoutMembers(w.unpublished, first, next);
    var head := w.arrived + Foreign(w.channel);
    assert Line(w) == head + w.unpublished && Line(after) == head + Without(w.unpublished, first, next);
    assert Line(after) == Without(Line(w), |head| + first, |head| + next);
    CutIsOrdered(watch, Line(w), |head| + first, |head| + next);
    FewerKeepOrder(watch, w, after);
  }

  lemma {:induction false} OrderedLine(watch: Watch, w: World)
    requires OrderInvariant(watch, w)
    ensures MineOrdered(watch, Line(w))
  {
  }

  lemma {:induction false} CutIsOrdered(watch: Watch, s: seq<Notice>, first: nat, next: nat)
    requires MineOrdered(watch, s) && first <= next <= |s|
    ensures MineOrdered(watch, Without(s, first, next))
  {
    hide Before, Matches;
    var cut := Without(s, first, next);
    forall i, j | 0 <= i < j < |cut| && Matches(watch, cut[i]) && Matches(watch, cut[j])
      ensures Before(cut[i].event, cut[j].event)
    {
      var a, b := if i < first then i else i + next - first, if j < first then j else j + next - first;
      assert cut[i] == s[a] && cut[j] == s[b];
    }
  }

  lemma {:induction false} QuietStepInOrder(watch: Watch, w: World, s: Step, local: bool)
    requires OrderInvariant(watch, w) && ViewerInvariant(watch, w) && FlowInvariant(w) && OneOrigin(w, local)
    requires s.Subscribe? || s.RunQuery?
    ensures OrderInvariant(watch, Take(watch, w, s)) && OneOrigin(Take(watch, w, s), local)
  {
    hide Before, Matches, Announceable, DedupeKey, Consistent, MayFollow, CommittedAt, Foreign, Query;
    var after := Take(watch, w, s);
    assert Line(after) == Line(w) && Pending(after) == Pending(w);
    assert !w.viewer.replayReady ==> after.viewer.emitted == [];
    if s.Subscribe? {
      assert forall x :: AfterSnapshot(watch, after, x) == AfterSnapshot(watch, w, x);
      assert forall x :: MayFollow(watch, after.viewer, x) == MayFollow(watch, w.viewer, x) by {
        SubscribingEmitsNothing(watch, w.viewer);
      }
    }
  }

  lemma {:induction false} SubscribingEmitsNothing(watch: Watch, v: Viewer)
    ensures forall x :: MayFollow(watch, v.(subscribed := true), x) == MayFollow(watch, v, x)
  {
  }

  lemma {:induction false} StepKeepsOrder(watch: Watch, w: World, s: Step, local: bool)
    requires OrderInvariant(watch, w) && ViewerInvariant(watch, w) && FlowInvariant(w) && TableInvariant(w)
    requires Sane(w) && Sane(Take(watch, w, s)) && CommittedOnce(Take(watch, w, s)) && OneOrigin(w, local)
    requires (s.Arrive? ==> s == Arrive(0, false)) && (s.Publish? ==> s == Publish(0, local))
    requires MineOrdered(watch, Take(watch, w, s).committed)
    ensures OrderInvariant(watch, Take(watch, w, s)) && OneOrigin(Take(watch, w, s), local)
  {
    hide Before, Matches, Announceable, DedupeKey, Consistent, MayFollow, CommittedAt, Foreign, Query, OrderInvariant,
      Drain, FlowInvariant, TableInvariant, Sane, StoreRows, ViewerInvariant, MineOrdered;
    match s
    case CommitWindow(window) =>
      SnapshotIsCommitted(watch, w);
      WindowKeepsTable(watch, w, window);
      CommitKeepsOrder(watch, w, window);
    case Publish(index, here) => if w.unpublished != [] { PublishInOrder(watch, w, local); }
    case Crash(first, next) => if first <= next <= |w.unpublished| { CrashInOrder(watch, w, first, next); }
    case Arrive(index, again) => if w.channel != [] { ArriveInOrder(watch, w, local); }
    case DrainReplay => DrainKeepsOrder(watch, w);
    case _ => QuietStepInOrder(watch, w, s, local);
  }

  lemma {:induction false} SnapshotIsCommitted(watch: Watch, w: World)
    requires ViewerInvariant(watch, w)
    ensures w.snapshot <= w.committed
  {
  }

  lemma {:induction false} EarlierPartsAreOrdered(watch: Watch, a: seq<Notice>, b: seq<Notice>)
    requires a <= b
    ensures MineOrdered(watch, b) ==> MineOrdered(watch, a)
    ensures DistinctKeys(b) ==> DistinctKeys(a)
  {
    hide Before, Matches, DedupeKey;
    assert forall i :: 0 <= i < |a| ==> a[i] == b[i];
  }

  lemma {:induction false} OrderHoldsThroughout(watch: Watch, run: seq<Step>, local: bool)
    requires InOrder(run, local) && Sane(AfterSteps(watch, run)) && CommittedOnce(AfterSteps(watch, run))
    requires MineOrdered(watch, AfterSteps(watch, run).committed)
    ensures OrderInvariant(watch, AfterSteps(watch, run)) && OneOrigin(AfterSteps(watch, run), local)
  {
    hide Before, Matches, DedupeKey, OrderInvariant, Take, Sane, MineOrdered, DistinctKeys, ViewerInvariant,
      FlowInvariant, TableInvariant;
    if run == [] {
      StartIsOrdered(watch);
    } else {
      var before, last := run[..|run| - 1], run[|run| - 1];
      var w, after := AfterSteps(watch, before), AfterSteps(watch, run);
      SaneBefore(watch, w, last);
      ReachableWorlds(watch, before);
      StepKeepsTable(watch, w, last);
      IndexedOnlyGrows(watch, w, last);
      EarlierPartsAreOrdered(watch, w.committed, after.committed);
      EarlierPartsAreOrdered(watch, w.indexed, after.indexed);
      OrderHoldsThroughout(watch, before, local);
      StepKeepsOrder(watch, w, last, local);
    }
  }

  lemma {:induction false} StartIsOrdered(watch: Watch)
    ensures OrderInvariant(watch, START)
  {
  }

  /** For every in-order run of one indexer, including its crashes, the emitted events from the
      requested block on are strictly increasing in (block, transaction, log). */
  lemma {:induction false} EmittedInLedgerOrder(watch: Watch, run: seq<Step>, local: bool)
    requires InOrder(run, local) && Sane(AfterSteps(watch, run)) && CommittedOnce(AfterSteps(watch, run))
    requires MineOrdered(watch, AfterSteps(watch, run).committed)
    ensures OrderedFrom(watch, AfterSteps(watch, run).viewer.emitted)
  {
    OrderHoldsThroughout(watch, run, local);
    ReachableWorlds(watch, run);
  }
}
