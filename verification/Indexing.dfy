/** Event indexing: decoding and ordering contract logs, the keyed event tables with their cursor,
    and the windowed scan. The scan may fail at any window and restart under a longer chain; it is
    shown to build the same tables as one pass over the blocks it has covered. */
module Indexing {
  import opened Basics

  const MAX_LOG_BLOCK_RANGE := 2000

  /** What the contract interface makes of a log: an unknown log, or one of the two known events. */
  datatype Arguments =
    | Unrecognised
    | Anchored(key: Option<string>, value: Option<string>, sender: Option<string>)
    | PublicEvent(subjectId: Option<string>, source: Option<string>, eventType: Option<string>, data: Option<string>)

  datatype Log = Log(
    arguments: Arguments,
    timestamp: Option<nat>,
    blockNumber: nat,
    blockHash: string,
    transactionHash: string,
    transactionIndex: nat,
    logIndex: nat)

  datatype Payload =
    | Anchor(key: Option<string>, value: Option<string>, ownerAddress: Option<string>)
    | Public(subjectId: Option<string>, sourceAddress: Option<string>, eventType: Option<string>,
      dataHex: Option<string>)

  datatype Event = Event(
    payload: Payload,
    timestamp: Option<nat>,
    blockNumber: nat,
    blockHash: string,
    transactionHash: string,
    transactionIndex: nat,
    logIndex: nat)

  datatype Identity = Identity(slotName: string, chainId: string, contract: string)

  datatype Slot = Slot(identity: Identity, startBlock: nat)

  datatype Key = Key(slotName: string, transactionHash: string, logIndex: nat)

  datatype Row = Row(identity: Identity, event: Event)

  type EventTable = map<Key, Row>

  datatype Tail = Tail(transactionHash: string, transactionIndex: nat, logIndex: nat)

  datatype Cursor = Cursor(identity: Identity, nextFromBlock: nat, lastScannedBlock: nat, tail: Option<Tail>)

  datatype Tables = Tables(cursors: map<Identity, Cursor>, anchors: EventTable, publics: EventTable)

  // ---------------------------------------------------------------- decoding and ordering

  /** What String.prototype.trim removes. */
  predicate Blank(c: char) {
    var code := c as int;
    || 0x09 <= code <= 0x0D || code == 0x20 || code == 0xA0 || code == 0x1680 || 0x2000 <= code <= 0x200A
    || code == 0x2028 || code == 0x2029 || code == 0x202F || code == 0x205F || code == 0x3000 || code == 0xFEFF
  }

  function TrimLeft(s: string): string {
    if s != "" && Blank(s[0]) then TrimLeft(s[1..]) else s
  }

  function TrimRight(s: string): string {
    if s != "" && Blank(s[|s| - 1]) then TrimRight(s[..|s| - 1]) else s
  }

  function AsNullableString(value: Option<string>): Option<string> {
    if value.None? || TrimRight(TrimLeft(value.value)) == "" then None
    else Some(TrimRight(TrimLeft(value.value)))
  }

  function LowerOption(value: Option<string>): Option<string> {
    if value.None? then None else Some(Lower(value.value))
  }

  function Decode(log: Log): Option<Event> {
    match log.arguments
    case Unrecognised => None
    case Anchored(key, value, sender) =>
      Some(EventOf(log, Anchor(LowerOption(AsNullableString(key)), LowerOption(AsNullableString(value)),
                               LowerOption(AsNullableString(sender)))))
    case PublicEvent(subjectId, source, eventType, data) =>
      Some(EventOf(log, Public(LowerOption(AsNullableString(subjectId)), LowerOption(AsNullableString(source)),
                               AsNullableString(eventType), LowerOption(AsNullableString(data)))))
  }

  function EventOf(log: Log, payload: Payload): Event {
    Event(payload, log.timestamp, log.blockNumber, log.blockHash, log.transactionHash, log.transactionIndex,
      log.logIndex)
  }

  function Decoded(logs: seq<Log>): seq<Event> {
    if logs == [] then []
    else
      var init, last := Decoded(logs[..|logs| - 1]), Decode(logs[|logs| - 1]);
      if last.Some? then init + [last.value] else init
  }

  /** Ledger order: block, then transaction, then log. */
  predicate Before(a: Event, b: Event) {
    || a.blockNumber < b.blockNumber
    || (a.blockNumber == b.blockNumber &&
        (a.transactionIndex < b.transactionIndex ||
         (a.transactionIndex == b.transactionIndex && a.logIndex < b.logIndex)))
  }

  /** Array.prototype.sort with the comparator: equal elements keep their order. */
  function Insert(sorted: seq<Event>, e: Event): seq<Event> {
    if sorted != [] && Before(e, sorted[|sorted| - 1])
    then Insert(sorted[..|sorted| - 1], e) + [sorted[|sorted| - 1]]
    else sorted + [e]
  }

  function Sort(events: seq<Event>): seq<Event> {
    if events == [] then [] else Insert(Sort(events[..|events| - 1]), events[|events| - 1])
  }

  function Normalize(logs: seq<Log>): seq<Event> {
    Sort(Decoded(logs))
  }

  predicate IsAnchor(e: Event) { e.payload.Anchor? }

  predicate IsPublic(e: Event) { e.payload.Public? }

  // ---------------------------------------------------------------- tables

  function Canon(id: Identity): Identity {
    id.(contract := Lower(id.contract))
  }

  function LowerPayload(p: Payload): Payload {
    match p
    case Anchor(key, value, owner) => Anchor(key, value, LowerOption(owner))
    case Public(subject, source, eventType, data) =>
      Public(LowerOption(subject), LowerOption(source), eventType, LowerOption(data))
  }

  function RowOf(id: Identity, e: Event): Row {
    Row(Canon(id), e.(payload := LowerPayload(e.payload), blockHash := Lower(e.blockHash), transactionHash :=
      Lower(e.transactionHash)))
  }

  function KeyOf(id: Identity, e: Event): Key {
    Key(id.slotName, Lower(e.transactionHash), e.logIndex)
  }

  /** INSERT ... ON CONFLICT (slot, transaction, log) DO UPDATE, once per event. */
  function Upsert(t: EventTable, id: Identity, events: seq<Event>): EventTable {
    if events == [] then t
    else
      var e := events[|events| - 1];
      Upsert(t, id, events[..|events| - 1])[KeyOf(id, e) := RowOf(id, e)]
  }

  function TailOf(events: seq<Event>): Option<Tail> {
    if events == [] then None
    else
      var e := events[|events| - 1];
      Some(Tail(e.transactionHash, e.transactionIndex, e.logIndex))
  }

  /** One committed window: both event tables and the cursor move together. */
  function Persist(t: Tables, id: Identity, windowTo: nat, events: seq<Event>): Tables {
    Tables(
      t.cursors[Canon(id) := Cursor(Canon(id), windowTo + 1, windowTo, TailOf(events))],
      Upsert(t.anchors, id, Where(events, IsAnchor)),
      Upsert(t.publics, id, Where(events, IsPublic)))
  }

  // ---------------------------------------------------------------- the scan

  datatype Window = Window(identity: Identity, from: nat, to: nat)

  /** A live notification of one public event. */
  datatype Notice = Notice(identity: Identity, event: Event)

  datatype Progress = Progress(tables: Tables, windows: seq<Window>, notices: seq<Notice>)

  /** Where an exception is thrown while a window is handled, if at all. */
  datatype Fault = NoFault | BeforeCommit | AfterCommit

  type Provider = (nat, nat) -> seq<Log>

  function ResolveFromBlock(slot: Slot, cursor: Option<Cursor>): Result<nat> {
    if cursor.None? then Ok(slot.startBlock)
    else if cursor.value.identity.slotName != slot.identity.slotName
      || cursor.value.identity.chainId != slot.identity.chainId
            || Lower(cursor.value.identity.contract) != Lower(slot.identity.contract) then Ok(slot.startBlock)
    else if slot.startBlock > cursor.value.nextFromBlock - 1 then Err("Invalid anchor start block")
    else Ok(cursor.value.nextFromBlock)
  }

  predicate Announceable(e: Event) {
    e.payload.Public? && e.payload.subjectId.Some? && e.payload.sourceAddress.Some?
    && e.payload.eventType.Some? && e.payload.dataHex.Some?
  }

  /** No column of a public event's row may be null, so one event that lacks a part fails its window. */
  predicate Storable(e: Event) {
    e.payload.Public? ==> Announceable(e) && e.timestamp.Some?
  }

  predicate AllStorable(events: seq<Event>) {
    forall e :: e in events ==> Storable(e)
  }

  /** Where handling a window with these events fails. */
  function FaultAt(faults: nat -> Fault, from: nat, events: seq<Event>): Fault {
    if AllStorable(events) then faults(from) else BeforeCommit
  }

  function Announce(id: Identity, events: seq<Event>): seq<Notice> {
    if events == [] then []
    else
      var init, e := Announce(id, events[..|events| - 1]), events[|events| - 1];
      if Announceable(e) then init + [Notice(Canon(id), e)] else init
  }

  function WindowEnd(from: nat, to: nat): nat {
    if from + MAX_LOG_BLOCK_RANGE - 1 <= to then from + MAX_LOG_BLOCK_RANGE - 1 else to
  }

  function Commit(p: Progress, id: Identity, from: nat, to: nat, events: seq<Event>): Progress {
    p.(tables := Persist(p.tables, id, to, events), windows := p.windows + [Window(Canon(id), from, to)])
  }

  function Scan(p: Progress, id: Identity, logs: Provider, faults: nat -> Fault, from: nat, to: nat): Progress
    decreases MAX_LOG_BLOCK_RANGE + to - from
  {
    if from > to then p
    else
      var end := WindowEnd(from, to);
      var events := Normalize(logs(from, end));
      match FaultAt(faults, from, events)
      case BeforeCommit => p
      case AfterCommit => Commit(p, id, from, end, events)
      case NoFault =>
        var committed := Commit(p, id, from, end, events);
        Scan(committed.(notices := p.notices + Announce(id, events)), id, logs, faults, from + MAX_LOG_BLOCK_RANGE, to)
  }

  function CursorOf(t: Tables, id: Identity): Option<Cursor> {
    if Canon(id) in t.cursors then Some(t.cursors[Canon(id)]) else None
  }

  /** One call of runSlot against a chain whose last block is head. */
  function RunSlot(p: Progress, slot: Slot, head: nat, logs: Provider, faults: nat -> Fault): Progress {
    var from := ResolveFromBlock(slot, CursorOf(p.tables, slot.identity));
    if from.Err? then p else Scan(p, slot.identity, logs, faults, from.value, head)
  }
}

/** What the scan amounts to over all runs. */
module IndexingProofs {
  import opened Basics
  import opened Indexing

  /** The ledger behind one identity: block number to the logs of that block. */
  type Ledger = seq<seq<Log>>

  ghost predicate ValidLedger(ledger: Ledger) {
    forall b, i :: 0 <= b < |ledger| && 0 <= i < |ledger[b]| ==>
      ledger[b][i].blockNumber == b &&
      forall j :: 0 <= j < i ==>
        ledger[b][i].transactionIndex != ledger[b][j].transactionIndex || ledger[b][i].logIndex != ledger[b][j].logIndex
  }

  function LogsIn(ledger: Ledger, from: nat, next: nat): seq<Log>
    requires next <= |ledger|
  {
    if next <= from then [] else LogsIn(ledger, from, next - 1) + ledger[next - 1]
  }

  /** The specification: the events of blocks [from, next) in ledger order. */
  function EventsIn(ledger: Ledger, from: nat, next: nat): seq<Event>
    requires next <= |ledger|
  {
    if next <= from then [] else EventsIn(ledger, from, next - 1) + Sort(Decoded(ledger[next - 1]))
  }

  // ---------------------------------------------------------------- ordering

  ghost predicate Ordered(s: seq<Event>) {
    forall i, j :: 0 <= i < j < |s| ==> Before(s[i], s[j])
  }

  ghost predicate WeaklyOrdered(s: seq<Event>) {
    forall i, j :: 0 <= i < j < |s| ==> !Before(s[j], s[i])
  }

  lemma {:induction false} BeforeIsAnOrder(a: Event, b: Event, c: Event)
    ensures Before(a, b) ==> !Before(b, a)
    ensures Before(a, b) && Before(b, c) ==> Before(a, c)
    ensures !Before(a, b) && !Before(b, c) ==> !Before(a, c)
  {
  }

  lemma {:induction false} InsertAdds(s: seq<Event>, e: Event)
    ensures multiset(Insert(s, e)) == multiset(s) + multiset{e}
  {
    if s != [] && Before(e, s[|s| - 1]) {
      InsertAdds(s[..|s| - 1], e);
      assert s == s[..|s| - 1] + [s[|s| - 1]];
    }
  }

  lemma {:induction false} InsertedElements(s: seq<Event>, e: Event, i: nat)
    requires i < |Insert(s, e)|
    ensures Insert(s, e)[i] == e || Insert(s, e)[i] in s
  {
    InsertAdds(s, e);
    assert Insert(s, e)[i] in multiset(Insert(s, e));
  }

  lemma {:induction false} InsertKeepsWeakOrder(s: seq<Event>, e: Event)
    requires WeaklyOrdered(s)
    ensures WeaklyOrdered(Insert(s, e))
  {
    hide Before;
    if s != [] {
      var init, last := s[..|s| - 1], s[|s| - 1];
      if Before(e, last) {
        InsertKeepsWeakOrder(init, e);
        forall i | 0 <= i < |Insert(init, e)| ensures !Before(last, Insert(init, e)[i]) {
          InsertedElements(init, e, i);
          BeforeIsAnOrder(e, last, last);
        }
      } else {
        forall i | 0 <= i < |s| ensures !Before(e, s[i]) { BeforeIsAnOrder(e, last, s[i]); }
      }
    }
  }

  lemma {:induction false} InsertKeepsStrictOrder(s: seq<Event>, e: Event)
    requires Ordered(s) && forall x :: x in s ==> Before(x, e) || Before(e, x)
    ensures Ordered(Insert(s, e))
  {
    hide Before;
    if s != [] {
      var init, last := s[..|s| - 1], s[|s| - 1];
      assert last in s;
      if Before(e, last) {
        InsertKeepsStrictOrder(init, e);
        forall i | 0 <= i < |Insert(init, e)| ensures Before(Insert(init, e)[i], last) {
          InsertedElements(init, e, i);
        }
      } else {
        forall i | 0 <= i < |s| ensures Before(s[i], e) { BeforeIsAnOrder(s[i], last, e); }
      }
    }
  }

  lemma {:induction false} SortOrders(s: seq<Event>)
    ensures multiset(Sort(s)) == multiset(s)
    ensures WeaklyOrdered(Sort(s))
  {
    hide Before, Insert;
    if s != [] {
      var init := s[..|s| - 1];
      SortOrders(init);
      InsertAdds(Sort(init), s[|s| - 1]);
      InsertKeepsWeakOrder(Sort(init), s[|s| - 1]);
      assert s == init + [s[|s| - 1]];
    }
  }

  lemma {:induction false} SortedElements(s: seq<Event>)
    ensures forall e :: e in Sort(s) ==> e in s
  {
    SortOrders(s);
    forall e | e in Sort(s) ensures e in s { assert e in multiset(Sort(s)); }
  }

  /** No two events share a position in the ledger. */
  ghost predicate AllApart(s: seq<Event>) {
    forall i, j :: 0 <= i < j < |s| ==> Before(s[i], s[j]) || Before(s[j], s[i])
  }

  lemma {:induction false} SortOrdersStrictly(s: seq<Event>)
    requires AllApart(s)
    ensures Ordered(Sort(s))
  {
    hide Before;
    if s != [] {
      var init, last := s[..|s| - 1], s[|s| - 1];
      SortOrdersStrictly(init);
      SortedElements(init);
      InsertKeepsStrictOrder(Sort(init), last);
    }
  }

  /** The ledger order of a set of events is unique, however they arrived. */
  lemma {:induction false} OrderIsUnique(s: seq<Event>, t: seq<Event>)
    requires multiset(s) == multiset(t) && WeaklyOrdered(s) && Ordered(t)
    ensures s == t
  {
    if t == [] {
      assert |multiset(s)| == 0;
    } else {
      assert |s| == |multiset(s)| == |multiset(t)| == |t|;
      assert s[0] in multiset(t) && t[0] in multiset(s);
      assert s[0] == t[0];
      assert s == [s[0]] + s[1..] && t == [t[0]] + t[1..];
      assert multiset(s[1..]) == multiset(s) - multiset{s[0]};
      OrderIsUnique(s[1..], t[1..]);
    }
  }

  lemma {:induction false} DecodedConcat(a: seq<Log>, b: seq<Log>)
    ensures Decoded(a + b) == Decoded(a) + Decoded(b)
  {
    if b == [] {
      assert a + b == a;
    } else {
      var init := b[..|b| - 1];
      assert (a + b)[..|a + b| - 1] == a + init;
      DecodedConcat(a, init);
    }
  }

  lemma {:induction false} DecodedWithout(b: seq<Log>, k: nat)
    requires k < |b|
    ensures multiset(Decoded(b)) == multiset(Decoded(b[..k] + b[k + 1..])) + multiset(Decoded([b[k]]))
  {
    hide Decode;
    assert b == b[..k] + ([b[k]] + b[k + 1..]);
    DecodedConcat(b[..k], [b[k]] + b[k + 1..]);
    DecodedConcat([b[k]], b[k + 1..]);
    DecodedConcat(b[..k], b[k + 1..]);
  }

  lemma {:induction false} MultisetWithout<T>(b: seq<T>, k: nat)
    requires k < |b|
    ensures multiset(b[..k] + b[k + 1..]) == multiset(b) - multiset{b[k]}
  {
    assert b == b[..k] + [b[k]] + b[k + 1..];
  }

  /** Dropping the same log from both sides drops the same events. */
  lemma {:induction false} DecodedRest(a: seq<Log>, b: seq<Log>, k: nat)
    requires a != [] && k < |b| && b[k] == a[0]
    requires multiset(Decoded(a[1..])) == multiset(Decoded(b[..k] + b[k + 1..]))
    ensures multiset(Decoded(a)) == multiset(Decoded(b))
  {
    hide Decoded;
    assert a[..0] + a[1..] == a[1..];
    DecodedWithout(a, 0);
    DecodedWithout(b, k);
  }

  lemma {:induction false} MultisetTail<T>(a: seq<T>)
    requires a != []
    ensures multiset(a[1..]) == multiset(a) - multiset{a[0]} && a[0] in multiset(a)
  {
    assert a == [a[0]] + a[1..];
  }

  lemma {:induction false} FindIn<T>(x: T, b: seq<T>) returns (k: nat)
    requires x in multiset(b)
    ensures k < |b| && b[k] == x
  {
    k :| 0 <= k < |b| && b[k] == x;
  }

  lemma {:induction false} DropCommon<T>(a: seq<T>, b: seq<T>) returns (k: nat)
    requires a != [] && multiset(a) == multiset(b)
    ensures k < |b| && b[k] == a[0] && multiset(a[1..]) == multiset(b[..k] + b[k + 1..])
  {
    MultisetTail(a);
    k := FindIn(a[0], b);
    MultisetWithout(b, k);
  }

  lemma {:induction false} DecodedIgnoresOrder(a: seq<Log>, b: seq<Log>)
    requires multiset(a) == multiset(b)
    ensures multiset(Decoded(a)) == multiset(Decoded(b))
  {
    hide Decoded;
    if a == [] {
      assert |multiset(b)| == 0;
    } else {
      var k := DropCommon(a, b);
      DecodedIgnoresOrder(a[1..], b[..k] + b[k + 1..]);
      DecodedRest(a, b, k);
    }
  }

  lemma {:induction false} DecodedComesFromLogs(logs: seq<Log>, i: nat)
    requires i < |Decoded(logs)|
    ensures exists k :: 0 <= k < |logs| && Decode(logs[k]) == Some(Decoded(logs)[i])
  {
    var init := logs[..|logs| - 1];
    if i < |Decoded(init)| {
      DecodedComesFromLogs(init, i);
      var k :| 0 <= k < |init| && Decode(init[k]) == Some(Decoded(init)[i]);
      assert Decode(logs[k]) == Some(Decoded(logs)[i]);
    } else {
      assert Decode(logs[|logs| - 1]) == Some(Decoded(logs)[i]);
    }
  }

  lemma {:induction false} BlockEventsAreDistinct(logs: seq<Log>, b: nat)
    requires forall i :: 0 <= i < |logs| ==> logs[i].blockNumber == b
    requires forall i, j :: 0 <= j < i < |logs| ==>
      logs[i].transactionIndex != logs[j].transactionIndex || logs[i].logIndex != logs[j].logIndex
    ensures AllApart(Decoded(logs))
    ensures forall e :: e in Decoded(logs) ==> e.blockNumber == b
  {
    if logs != [] {
      var init := logs[..|logs| - 1];
      BlockEventsAreDistinct(init, b);
      var d := Decoded(init);
      forall i | 0 <= i < |d| && Decode(logs[|logs| - 1]).Some?
        ensures Before(d[i], Decode(logs[|logs| - 1]).value) || Before(Decode(logs[|logs| - 1]).value, d[i])
      {
        DecodedComesFromLogs(init, i);
        var k :| 0 <= k < |init| && Decode(init[k]) == Some(d[i]);
        assert init[k] == logs[k];
      }
    }
  }

  lemma {:induction false} BlockIsOrdered(block: seq<Log>, b: nat)
    requires forall i :: 0 <= i < |block| ==> block[i].blockNumber == b
    requires forall i, j :: 0 <= j < i < |block| ==>
      block[i].transactionIndex != block[j].transactionIndex || block[i].logIndex != block[j].logIndex
    ensures Ordered(Sort(Decoded(block))) && forall e :: e in Sort(Decoded(block)) ==> e.blockNumber == b
    ensures multiset(Sort(Decoded(block))) == multiset(Decoded(block))
  {
    hide Sort, Decoded;
    BlockEventsAreDistinct(block, b);
    SortOrdersStrictly(Decoded(block));
    SortOrders(Decoded(block));
    SortedElements(Decoded(block));
  }

  lemma {:induction false} OrderedConcat(a: seq<Event>, b: seq<Event>)
    requires Ordered(a) && Ordered(b)
    requires forall x, y :: x in a && y in b ==> x.blockNumber < y.blockNumber
    ensures Ordered(a + b)
  {
  }

  /** By block, then by transaction, then by log. */
  ghost predicate InLexicographicOrder(s: seq<Event>) {
    forall i, j :: 0 <= i < j < |s| ==>
      && s[i].blockNumber <= s[j].blockNumber
      && (s[i].blockNumber == s[j].blockNumber ==> s[i].transactionIndex <= s[j].transactionIndex)
      && (s[i].blockNumber == s[j].blockNumber && s[i].transactionIndex == s[j].transactionIndex ==>
            s[i].logIndex < s[j].logIndex)
  }

  lemma {:induction false} OrderIsLexicographic(s: seq<Event>)
    requires Ordered(s)
    ensures InLexicographicOrder(s)
  {
  }

  lemma {:induction false} EventsAreOrdered(ledger: Ledger, from: nat, next: nat)
    requires ValidLedger(ledger) && next <= |ledger|
    ensures Ordered(EventsIn(ledger, from, next))
    ensures InLexicographicOrder(EventsIn(ledger, from, next))
    ensures forall e :: e in EventsIn(ledger, from, next) ==> from <= e.blockNumber < next
    ensures multiset(EventsIn(ledger, from, next)) == multiset(Decoded(LogsIn(ledger, from, next)))
  {
    hide Sort, Decoded, Before, Ordered, InLexicographicOrder;
    if next > from {
      EventsAreOrdered(ledger, from, next - 1);
      BlockIsOrdered(ledger[next - 1], next - 1);
      OrderedConcat(EventsIn(ledger, from, next - 1), Sort(Decoded(ledger[next - 1])));
      DecodedConcat(LogsIn(ledger, from, next - 1), ledger[next - 1]);
    } else {
      NothingIsOrdered();
    }
    OrderIsLexicographic(EventsIn(ledger, from, next));
  }

  lemma {:induction false} NothingIsOrdered()
    ensures Ordered([]) && Decoded([]) == []
  {
  }

  /** Whatever order the node returns a window's logs in, normalising them gives the window's events. */
  lemma {:induction false} NormalizeIsCanonical(ledger: Ledger, answer: seq<Log>, from: nat, next: nat)
    requires ValidLedger(ledger) && next <= |ledger|
    requires multiset(answer) == multiset(LogsIn(ledger, from, next))
    ensures Normalize(answer) == EventsIn(ledger, from, next)
  {
    EventsAreOrdered(ledger, from, next);
    DecodedIgnoresOrder(answer, LogsIn(ledger, from, next));
    SortOrders(Decoded(answer));
    OrderIsUnique(Normalize(answer), EventsIn(ledger, from, next));
  }

  lemma {:induction false} EventsSplit(ledger: Ledger, from: nat, mid: nat, next: nat)
    requires from <= mid <= next <= |ledger|
    ensures EventsIn(ledger, from, next) == EventsIn(ledger, from, mid) + EventsIn(ledger, mid, next)
  {
    if next > mid { EventsSplit(ledger, from, mid, next - 1); }
  }

  lemma {:induction false} WhereConcat<T>(a: seq<T>, b: seq<T>, p: T -> bool)
    ensures Where(a + b, p) == Where(a, p) + Where(b, p)
  {
    if b == [] {
      assert a + b == a;
    } else {
      var init := b[..|b| - 1];
      assert (a + b)[..|a + b| - 1] == a + init;
      WhereConcat(a, init, p);
    }
  }

  // ---------------------------------------------------------------- tables

  /** The specification of one event table: a single keyed pass over the events of [from, next). */
  function OnePass(id: Identity, ledger: Ledger, from: nat, next: nat, kind: Event -> bool): EventTable
    requires next <= |ledger|
  {
    Upsert(map[], id, Where(EventsIn(ledger, from, next), kind))
  }

  /** A transaction's log index names one event of an identity. */
  ghost predicate KeysNameEvents(id: Identity, events: seq<Event>) {
    forall i, j :: 0 <= i < j < |events| ==> KeyOf(id, events[i]) != KeyOf(id, events[j])
  }

  /** A row tells of its event: the same position and content, with addresses, subjects, data and
      hashes in lower case. */
  predicate TellsOf(row: Row, id: Identity, e: Event) {
    && row.identity == Identity(id.slotName, id.chainId, Lower(id.contract))
    && row.event.blockNumber == e.blockNumber && row.event.timestamp == e.timestamp
    && row.event.transactionIndex == e.transactionIndex && row.event.logIndex == e.logIndex
    && row.event.transactionHash == Lower(e.transactionHash) && row.event.blockHash == Lower(e.blockHash)
    && match e.payload
       case Anchor(key, value, owner) =>
         row.event.payload.Anchor? && row.event.payload.key == key && row.event.payload.value == value
         && LowerCased(owner, row.event.payload.ownerAddress)
       case Public(subject, source, eventType, data) =>
         row.event.payload.Public? && LowerCased(subject, row.event.payload.subjectId)
         && LowerCased(source, row.event.payload.sourceAddress) && row.event.payload.eventType == eventType
         && LowerCased(data, row.event.payload.dataHex)
  }

  predicate LowerCased(value: Option<string>, stored: Option<string>) {
    (value.None? <==> stored.None?) && (value.Some? ==> stored.value == Lower(value.value))
  }

  lemma {:induction false} RowTellsOfEvent(id: Identity, e: Event)
    ensures TellsOf(RowOf(id, e), id, e)
  {
  }

  /** The key of an event: the slot, the transaction in lower case, and the log. */
  predicate Names(k: Key, id: Identity, e: Event) {
    k.slotName == id.slotName && k.transactionHash == Lower(e.transactionHash) && k.logIndex == e.logIndex
  }

  ghost predicate HasItsRow(t: EventTable, id: Identity, e: Event) {
    var k := Key(id.slotName, Lower(e.transactionHash), e.logIndex);
    k in t && TellsOf(t[k], id, e)
  }

  lemma {:induction false} UpsertHoldsEach(id: Identity, events: seq<Event>, i: nat)
    requires KeysNameEvents(id, events) && i < |events|
    ensures HasItsRow(Upsert(map[], id, events), id, events[i])
  {
    hide TellsOf, RowOf;
    var init, last := events[..|events| - 1], events[|events| - 1];
    if i < |init| {
      UpsertHoldsEach(id, init, i);
    } else {
      RowTellsOfEvent(id, last);
    }
  }

  lemma {:induction false} UpsertHoldsNothingElse(id: Identity, events: seq<Event>, k: Key)
    requires k in Upsert(map[], id, events)
    ensures exists e :: e in events && k == KeyOf(id, e)
  {
    hide KeyOf, RowOf;
    var init, last := events[..|events| - 1], events[|events| - 1];
    if k == KeyOf(id, last) {
      assert last in events;
    } else {
      UpsertHoldsNothingElse(id, init, k);
      var e :| e in init && k == KeyOf(id, e);
      assert e in events;
    }
  }

  /** The specification holds exactly the events of the covered blocks: each has a row that tells of it,
      and there is no other row. */
  lemma {:induction false} OnePassHoldsExactlyTheEvents(id: Identity, ledger: Ledger, from: nat, next: nat,
          kind: Event -> bool)
    requires next <= |ledger| && KeysNameEvents(id, Where(EventsIn(ledger, from, next), kind))
    ensures var t := OnePass(id, ledger, from, next, kind);
      && (forall e :: e in EventsIn(ledger, from, next) && kind(e) ==> HasItsRow(t, id, e))
      && (forall k :: k in t ==> exists e :: e in EventsIn(ledger, from, next) && kind(e) && Names(k, id, e))
  {
    hide EventsIn, Upsert, HasItsRow;
    var events := Where(EventsIn(ledger, from, next), kind);
    var t := OnePass(id, ledger, from, next, kind);
    forall e | e in events ensures HasItsRow(t, id, e) {
      var i :| 0 <= i < |events| && events[i] == e;
      UpsertHoldsEach(id, events, i);
    }
    forall k | k in t ensures exists e :: e in EventsIn(ledger, from, next) && kind(e) && Names(k, id, e) {
      UpsertHoldsNothingElse(id, events, k);
      var e :| e in events && k == KeyOf(id, e);
      assert e in EventsIn(ledger, from, next) && Names(k, id, e);
    }
  }

  function RowsFor(t: EventTable, id: Identity): EventTable {
    map k | k in t && t[k].identity == id :: t[k]
  }

  /** Which identity a (slot, transaction, log) key belongs to: two identities never share one. */
  type Ownership = Key -> Identity

  ghost predicate OwnedRows(owner: Ownership, t: EventTable) {
    forall k :: k in t ==> t[k].identity == owner(k)
  }

  ghost predicate OwnedEvents(owner: Ownership, id: Identity, events: seq<Event>) {
    forall e :: e in events ==> owner(KeyOf(id, e)) == id
  }

  lemma {:induction false} UpsertConcat(t: EventTable, id: Identity, a: seq<Event>, b: seq<Event>)
    ensures Upsert(t, id, a + b) == Upsert(Upsert(t, id, a), id, b)
  {
    if b == [] {
      assert a + b == a;
    } else {
      assert (a + b)[..|a + b| - 1] == a + b[..|b| - 1];
      UpsertConcat(t, id, a, b[..|b| - 1]);
    }
  }

  lemma {:induction false} UpsertIgnoresCase(t: EventTable, id: Identity, events: seq<Event>)
    ensures Upsert(t, id, events) == Upsert(t, Canon(id), events)
  {
    LowerIsIdempotent(id.contract);
    if events != [] { UpsertIgnoresCase(t, id, events[..|events| - 1]); }
  }

  /** An upsert for one identity extends that identity's rows and leaves every other identity's alone. */
  lemma {:induction false} UpsertStaysWithinIdentity(owner: Ownership, t: EventTable, id: Identity, events: seq<Event>,
          other: Identity)
    requires Canon(id) == id && OwnedRows(owner, t) && OwnedEvents(owner, id, events)
    ensures OwnedRows(owner, Upsert(t, id, events))
    ensures RowsFor(Upsert(t, id, events), other) == if other == id then Upsert(RowsFor(t, id), id, events)
      else RowsFor(t, other)
  {
    if events != [] {
      var init, e := events[..|events| - 1], events[|events| - 1];
      UpsertStaysWithinIdentity(owner, t, id, init, other);
      assert e in events;
    }
  }

  // ---------------------------------------------------------------- every run

  /** One runSlot call: its configuration, the head it saw, what the node answered, where it failed. */
  datatype Run = Run(slot: Slot, head: nat, logs: Provider, faults: nat -> Fault)

  type Ledgers = Identity -> Ledger

  ghost predicate Faithful(ledgers: Ledgers, run: Run) {
    var ledger := ledgers(Canon(run.slot.identity));
    && run.head < |ledger|
    && forall a, b :: 0 <= a <= b <= run.head ==> multiset(run.logs(a, b)) == multiset(LogsIn(ledger, a, b + 1))
  }

  ghost predicate World(ledgers: Ledgers, owner: Ownership) {
    forall id :: ValidLedger(ledgers(id)) &&
      forall b, i :: 0 <= b < |ledgers(id)| && 0 <= i < |ledgers(id)[b]| ==>
        owner(Key(id.slotName, Lower(ledgers(id)[b][i].transactionHash), ledgers(id)[b][i].logIndex)) == id
  }

  function AfterRuns(runs: seq<Run>): Progress {
    if runs == [] then Progress(Tables(map[], map[], map[]), [], [])
    else
      var r := runs[|runs| - 1];
      RunSlot(AfterRuns(runs[..|runs| - 1]), r.slot, r.head, r.logs, r.faults)
  }

  function WindowsOf(windows: seq<Window>, id: Identity): seq<Window> {
    Where(windows, (w: Window) => w.identity == id)
  }

  /** Contiguous, disjoint windows of at most 2000 blocks that cover exactly [first, next). */
  ghost predicate Partition(windows: seq<Window>, first: nat, next: nat) {
    && windows != [] && windows[0].from == first && windows[|windows| - 1].to + 1 == next
    && (forall k :: 0 <= k < |windows| ==> windows[k].from <= windows[k].to < windows[k].from + MAX_LOG_BLOCK_RANGE)
    && (forall k :: 0 <= k < |windows| - 1 ==> windows[k].to + 1 == windows[k + 1].from)
  }

  /** The refinement relation for one identity. */
  ghost predicate Refines(ledgers: Ledgers, p: Progress, id: Identity) {
    var t, mine := p.tables, WindowsOf(p.windows, id);
    if id in t.cursors then
      var next := t.cursors[id].nextFromBlock;
      && mine != [] && Partition(mine, mine[0].from, next) && next <= |ledgers(id)|
      && t.cursors[id].identity == id && AllStorable(EventsIn(ledgers(id), mine[0].from, next))
      && RowsFor(t.anchors, id) == OnePass(id, ledgers(id), mine[0].from, next, IsAnchor)
      && RowsFor(t.publics, id) == OnePass(id, ledgers(id), mine[0].from, next, IsPublic)
    else
      mine == [] && RowsFor(t.anchors, id) == map[] && RowsFor(t.publics, id) == map[]
  }

  ghost predicate Invariant(ledgers: Ledgers, owner: Ownership, p: Progress) {
    OwnedRows(owner, p.tables.anchors) && OwnedRows(owner, p.tables.publics) && forall id :: Refines(ledgers, p, id)
  }

  lemma {:induction false} BlockEventsAreOwned(owner: Ownership, id: Identity, block: seq<Log>)
    requires forall i :: 0 <= i < |block| ==>
      owner(Key(id.slotName, Lower(block[i].transactionHash), block[i].logIndex)) == id
    ensures OwnedEvents(owner, id, Sort(Decoded(block)))
  {
    hide Lower;
    forall i | 0 <= i < |Decoded(block)| ensures owner(KeyOf(id, Decoded(block)[i])) == id {
      DecodedComesFromLogs(block, i);
    }
    SortedElements(Decoded(block));
  }

  lemma {:induction false} LedgerEventsAreOwned(ledgers: Ledgers, owner: Ownership, id: Identity, from: nat, next: nat)
    requires World(ledgers, owner) && next <= |ledgers(id)|
    ensures OwnedEvents(owner, id, EventsIn(ledgers(id), from, next))
  {
    hide Sort, Decoded;
    if next > from {
      LedgerEventsAreOwned(ledgers, owner, id, from, next - 1);
      BlockEventsAreOwned(owner, id, ledgers(id)[next - 1]);
    }
  }

  /** One table after one committed window. */
  lemma {:induction false} WindowExtendsTable(ledgers: Ledgers, owner: Ownership, t: EventTable, id: Identity,
          first: nat, from: nat, next: nat, kind: Event -> bool)
    requires World(ledgers, owner) && Canon(id) == id && OwnedRows(owner, t)
    requires first <= from <= next <= |ledgers(id)|
    requires RowsFor(t, id) == Upsert(map[], id, Where(EventsIn(ledgers(id), first, from), kind))
    ensures var after := Upsert(t, id, Where(EventsIn(ledgers(id), from, next), kind));
      OwnedRows(owner, after) && RowsFor(after, id) == OnePass(id, ledgers(id), first, next, kind)
  {
    hide EventsIn, Upsert;
    var events := Where(EventsIn(ledgers(id), from, next), kind);
    LedgerEventsAreOwned(ledgers, owner, id, from, next);
    assert OwnedEvents(owner, id, events);
    UpsertStaysWithinIdentity(owner, t, id, events, id);
    EventsSplit(ledgers(id), first, from, next);
    WhereConcat(EventsIn(ledgers(id), first, from), EventsIn(ledgers(id), from, next), kind);
    UpsertConcat(map[], id, Where(EventsIn(ledgers(id), first, from), kind), events);
  }

  lemma {:induction false} AppendWindow(windows: seq<Window>, w: Window, id: Identity)
    ensures WindowsOf(windows + [w], id) == if w.identity == id then WindowsOf(windows, id) + [w]
      else WindowsOf(windows, id)
  {
    assert (windows + [w])[..|windows|] == windows;
  }

  /** Where a scan of this identity resumes. */
  ghost predicate Resumes(p: Progress, id: Identity, from: nat) {
    id in p.tables.cursors ==> p.tables.cursors[id].nextFromBlock == from
  }

  lemma {:induction false} CommitRefinesOther(ledgers: Ledgers, owner: Ownership, p: Progress, id: Identity, from: nat,
          to: nat, other: Identity)
    requires World(ledgers, owner) && Canon(id) == id && to < |ledgers(id)|
    requires OwnedRows(owner, p.tables.anchors) && OwnedRows(owner, p.tables.publics)
    requires Refines(ledgers, p, other) && other != id
    ensures Refines(ledgers, Commit(p, id, from, to, EventsIn(ledgers(id), from, to + 1)), other)
  {
    hide EventsIn, Upsert, OnePass;
    var events := EventsIn(ledgers(id), from, to + 1);
    LedgerEventsAreOwned(ledgers, owner, id, from, to + 1);
    UpsertStaysWithinIdentity(owner, p.tables.anchors, id, Where(events, IsAnchor), other);
    UpsertStaysWithinIdentity(owner, p.tables.publics, id, Where(events, IsPublic), other);
    AppendWindow(p.windows, Window(id, from, to), other);
  }

  lemma {:induction false} NothingYet(id: Identity, ledger: Ledger, from: nat, kind: Event -> bool)
    requires from <= |ledger|
    ensures OnePass(id, ledger, from, from, kind) == map[]
  {
  }

  lemma {:induction false} PartitionGrows(windows: seq<Window>, w: Window, first: nat, from: nat)
    requires windows == [] ==> first == from
    requires windows != [] ==> Partition(windows, first, from)
    requires w.from == from <= w.to < from + MAX_LOG_BLOCK_RANGE
    ensures Partition(windows + [w], first, w.to + 1)
  {
  }

  lemma {:induction false} CommitMovesCursor(p: Progress, id: Identity, from: nat, to: nat, events: seq<Event>)
    ensures var after := Commit(p, id, from, to, events);
      && after.windows == p.windows + [Window(Canon(id), from, to)] && after.notices == p.notices
      && after.tables.cursors == p.tables.cursors[Canon(id) := Cursor(Canon(id), to + 1, to, TailOf(events))]
  {
  }

  lemma {:induction false} CommitExtendsTables(ledgers: Ledgers, owner: Ownership, p: Progress, id: Identity,
          first: nat, from: nat, to: nat)
    requires World(ledgers, owner) && Canon(id) == id && first <= from <= to < |ledgers(id)|
    requires OwnedRows(owner, p.tables.anchors) && OwnedRows(owner, p.tables.publics)
    requires RowsFor(p.tables.anchors, id) == OnePass(id, ledgers(id), first, from, IsAnchor)
    requires RowsFor(p.tables.publics, id) == OnePass(id, ledgers(id), first, from, IsPublic)
    ensures var after := Commit(p, id, from, to, EventsIn(ledgers(id), from, to + 1)).tables;
      && OwnedRows(owner, after.anchors) && OwnedRows(owner, after.publics)
      && RowsFor(after.anchors, id) == OnePass(id, ledgers(id), first, to + 1, IsAnchor)
      && RowsFor(after.publics, id) == OnePass(id, ledgers(id), first, to + 1, IsPublic)
  {
    hide EventsIn, Upsert, World, OwnedRows, RowsFor, Where;
    WindowExtendsTable(ledgers, owner, p.tables.anchors, id, first, from, to + 1, IsAnchor);
    WindowExtendsTable(ledgers, owner, p.tables.publics, id, first, from, to + 1, IsPublic);
  }

  lemma {:induction false} CommitRefinesSelf(ledgers: Ledgers, owner: Ownership, p: Progress, id: Identity, from: nat,
          to: nat)
    requires World(ledgers, owner) && Canon(id) == id && from <= to < |ledgers(id)| && to < from + MAX_LOG_BLOCK_RANGE
    requires OwnedRows(owner, p.tables.anchors) && OwnedRows(owner, p.tables.publics)
    requires Refines(ledgers, p, id) && Resumes(p, id, from) && AllStorable(EventsIn(ledgers(id), from, to + 1))
    ensures var after := Commit(p, id, from, to, EventsIn(ledgers(id), from, to + 1));
      && Refines(ledgers, after, id) && Resumes(after, id, to + 1)
      && OwnedRows(owner, after.tables.anchors) && OwnedRows(owner, after.tables.publics)
  {
    hide Commit, EventsIn, OnePass, Partition, World, OwnedRows, RowsFor, WindowsOf;
    var mine := WindowsOf(p.windows, id);
    var first := if mine == [] then from else mine[0].from;
    NothingYet(id, ledgers(id), from, IsAnchor);
    NothingYet(id, ledgers(id), from, IsPublic);
    PartitionStartsFirst(mine, first, from);
    CommitExtendsTables(ledgers, owner, p, id, first, from, to);
    CommitMovesCursor(p, id, from, to, EventsIn(ledgers(id), from, to + 1));
    AppendWindow(p.windows, Window(id, from, to), id);
    PartitionGrows(mine, Window(id, from, to), first, from);
    NothingStored(ledgers(id), from);
    EventsSplit(ledgers(id), first, from, to + 1);
  }

  lemma {:induction false} NothingStored(ledger: Ledger, from: nat)
    requires from <= |ledger|
    ensures AllStorable(EventsIn(ledger, from, from))
  {
  }

  lemma {:induction false} CommitKeepsInvariant(ledgers: Ledgers, owner: Ownership, p: Progress, id: Identity,
          from: nat, to: nat, answer: seq<Log>)
    requires World(ledgers, owner) && Invariant(ledgers, owner, p) && Resumes(p, Canon(id), from)
    requires from <= to < |ledgers(Canon(id))| && to < from + MAX_LOG_BLOCK_RANGE
    requires multiset(answer) == multiset(LogsIn(ledgers(Canon(id)), from, to + 1)) && AllStorable(Normalize(answer))
    ensures var after := Commit(p, id, from, to, Normalize(answer));
      Invariant(ledgers, owner, after) && Resumes(after, Canon(id), to + 1)
  {
    var me := Canon(id);
    LowerIsIdempotent(id.contract);
    assert ValidLedger(ledgers(me));
    NormalizeIsCanonical(ledgers(me), answer, from, to + 1);
    CommitIgnoresCase(p, id, from, to, Normalize(answer));
    assert Refines(ledgers, p, me);
    CommitRefinesSelf(ledgers, owner, p, me, from, to);
    var after := Commit(p, me, from, to, EventsIn(ledgers(me), from, to + 1));
    hide Commit, Refines;
    forall other ensures Refines(ledgers, after, other) {
      assert Refines(ledgers, p, other);
      if other != me { CommitRefinesOther(ledgers, owner, p, me, from, to, other); }
    }
  }

  lemma {:induction false} CommitIgnoresCase(p: Progress, id: Identity, from: nat, to: nat, events: seq<Event>)
    ensures Commit(p, id, from, to, events) == Commit(p, Canon(id), from, to, events)
  {
    LowerIsIdempotent(id.contract);
    UpsertIgnoresCase(p.tables.anchors, id, Where(events, IsAnchor));
    UpsertIgnoresCase(p.tables.publics, id, Where(events, IsPublic));
  }

  lemma {:induction false} PartitionStartsFirst(windows: seq<Window>, first: nat, next: nat)
    requires windows == [] ==> first == next
    requires windows != [] ==> Partition(windows, first, next)
    ensures first <= next
  {
    if |windows| > 1 {
      var init := windows[..|windows| - 1];
      assert Partition(init, first, windows[|windows| - 1].from);
      PartitionStartsFirst(init, first, windows[|windows| - 1].from);
    }
  }

  lemma {:induction false} NoticesDoNotMatter(ledgers: Ledgers, owner: Ownership, p: Progress, notices: seq<Notice>)
    requires Invariant(ledgers, owner, p)
    ensures Invariant(ledgers, owner, p.(notices := notices))
  {
    forall id ensures Refines(ledgers, p.(notices := notices), id) { assert Refines(ledgers, p, id); }
  }

  lemma {:induction false} ScanKeepsInvariant(ledgers: Ledgers, owner: Ownership, p: Progress, run: Run, from: nat)
    requires World(ledgers, owner) && Invariant(ledgers, owner, p) && Faithful(ledgers, run)
    requires from <= run.head ==> Resumes(p, Canon(run.slot.identity), from)
    ensures Invariant(ledgers, owner, Scan(p, run.slot.identity, run.logs, run.faults, from, run.head))
    decreases run.head + MAX_LOG_BLOCK_RANGE - from
  {
    hide Commit, Refines, Normalize, Announce, World, Invariant, LogsIn, AllStorable;
    var id := run.slot.identity;
    var end := WindowEnd(from, run.head);
    var events := Normalize(run.logs(from, end));
    if from <= run.head && FaultAt(run.faults, from, events) != BeforeCommit {
      CommitKeepsInvariant(ledgers, owner, p, id, from, end, run.logs(from, end));
      if run.faults(from) == NoFault {
        var committed := Commit(p, id, from, end, events);
        var next := committed.(notices := p.notices + Announce(id, events));
        NoticesDoNotMatter(ledgers, owner, committed, next.notices);
        ScanKeepsInvariant(ledgers, owner, next, run, from + MAX_LOG_BLOCK_RANGE);
      }
    }
  }

  /** After any sequence of runs of any slots, with failures at any window, restarts, changed start
      blocks and longer chains, each identity's event tables are those of one pass over the blocks
      [first start, nextFromBlock), and its committed windows partition that range. */
  lemma {:induction false} IndexerRefinesOnePass(ledgers: Ledgers, owner: Ownership, runs: seq<Run>)
    requires World(ledgers, owner)
    requires forall k :: 0 <= k < |runs| ==> Faithful(ledgers, runs[k])
    ensures Invariant(ledgers, owner, AfterRuns(runs))
  {
    if runs != [] {
      var before, r := runs[..|runs| - 1], runs[|runs| - 1];
      IndexerRefinesOnePass(ledgers, owner, before);
      var p := AfterRuns(before);
      var id := Canon(r.slot.identity);
      LowerIsIdempotent(r.slot.identity.contract);
      assert Refines(ledgers, p, id);
      var from := ResolveFromBlock(r.slot, CursorOf(p.tables, r.slot.identity));
      if from.Ok? {
        ScanKeepsInvariant(ledgers, owner, p, r, from.value);
      }
    }
  }

  // ---------------------------------------------------------------- rows and logs

  /** t is s without the blanks around it. */
  ghost predicate Trims(s: string, t: string) {
    exists i, j :: 0 <= i <= j <= |s| && TrimsBetween(s, t, i, j)
  }

  predicate TrimsBetween(s: string, t: string, i: nat, j: nat)
    requires i <= j <= |s|
  {
    && t == s[i..j]
    && (forall k :: 0 <= k < i ==> Blank(s[k])) && (forall k :: j <= k < |s| ==> Blank(s[k]))
    && (t != "" ==> !Blank(t[0]) && !Blank(t[|t| - 1]))
  }

  /** The column holds the argument without blanks around it, in lower case, or nothing when that is empty. */
  ghost predicate LowerPart(argument: Option<string>, column: Option<string>) {
    && (column.None? <==> argument.None? || Trims(argument.value, ""))
    && (column.Some? ==> exists t :: t != "" && Trims(argument.value, t) && column.value == Lower(t))
  }

  ghost predicate PlainPart(argument: Option<string>, column: Option<string>) {
    && (column.None? <==> argument.None? || Trims(argument.value, ""))
    && (column.Some? ==> column.value != "" && Trims(argument.value, column.value))
  }

  lemma {:induction false} LeftTrims(s: string) returns (i: nat)
    ensures i <= |s| && TrimLeft(s) == s[i..] && forall k :: 0 <= k < i ==> Blank(s[k])
    ensures TrimLeft(s) != "" ==> !Blank(TrimLeft(s)[0])
  {
    if s != "" && Blank(s[0]) {
      i := LeftTrims(s[1..]);
      i := i + 1;
    } else {
      i := 0;
    }
  }

  lemma {:induction false} RightTrims(s: string) returns (j: nat)
    ensures j <= |s| && TrimRight(s) == s[..j] && forall k :: j <= k < |s| ==> Blank(s[k])
    ensures TrimRight(s) != "" ==> !Blank(TrimRight(s)[j - 1])
  {
    if s != "" && Blank(s[|s| - 1]) {
      j := RightTrims(s[..|s| - 1]);
      assert s[..|s| - 1][..j] == s[..j];
    } else {
      j := |s|;
    }
  }

  lemma {:induction false} TrimmingTrims(s: string)
    ensures Trims(s, TrimRight(TrimLeft(s)))
    ensures TrimRight(TrimLeft(s)) == "" <==> Trims(s, "")
  {
    hide Blank;
    var i := LeftTrims(s);
    var rest := TrimLeft(s);
    var j := RightTrims(rest);
    var t := TrimRight(rest);
    assert t == s[i..i + j];
    forall k | i + j <= k < |s| ensures Blank(s[k]) { assert s[k] == rest[k - i]; }
    assert t != "" ==> t[0] == rest[0];
    assert TrimsBetween(s, t, i, i + j);
    if Trims(s, "") { OnlyBlanksTrimToNothing(s); }
    assert t != "" ==> t[0] == s[i];
  }

  lemma {:induction false} OnlyBlanksTrimToNothing(s: string)
    requires Trims(s, "")
    ensures forall k :: 0 <= k < |s| ==> Blank(s[k])
  {
    hide Blank;
  }

  lemma {:induction false} NullableIsPlain(argument: Option<string>)
    ensures PlainPart(argument, AsNullableString(argument))
    ensures LowerPart(argument, LowerOption(AsNullableString(argument)))
  {
    hide Trims;
    if argument.Some? { TrimmingTrims(argument.value); }
  }

  /** What a log says: which event it is, and each of its parts. */
  ghost predicate EventTellsOf(e: Event, log: Log) {
    && e.timestamp == log.timestamp && e.blockNumber == log.blockNumber && e.blockHash == log.blockHash
    && e.transactionHash == log.transactionHash && e.transactionIndex == log.transactionIndex
    && e.logIndex == log.logIndex
    && match log.arguments
       case Unrecognised => false
       case Anchored(key, value, sender) =>
         e.payload.Anchor? && LowerPart(key, e.payload.key) && LowerPart(value, e.payload.value)
         && LowerPart(sender, e.payload.ownerAddress)
       case PublicEvent(subject, source, eventType, data) =>
         e.payload.Public? && LowerPart(subject, e.payload.subjectId) && LowerPart(source, e.payload.sourceAddress)
         && PlainPart(eventType, e.payload.eventType) && LowerPart(data, e.payload.dataHex)
  }

  /** Exactly the recognised logs are decoded, each to an event that says what the log says. */
  lemma {:induction false} DecodeTellsOfTheLog(log: Log)
    ensures Decode(log).None? <==> log.arguments.Unrecognised?
    ensures Decode(log).Some? ==> EventTellsOf(Decode(log).value, log)
  {
    hide AsNullableString, LowerPart, PlainPart, LowerOption;
    match log.arguments
    case Unrecognised =>
    case Anchored(key, value, sender) =>
      NullableIsPlain(key);
      NullableIsPlain(value);
      NullableIsPlain(sender);
    case PublicEvent(subject, source, eventType, data) =>
      NullableIsPlain(subject);
      NullableIsPlain(source);
      NullableIsPlain(eventType);
      NullableIsPlain(data);
  }

  /** What a row says of a log. */
  ghost predicate RowTellsOf(row: Row, id: Identity, log: Log) {
    && row.identity == id
    && row.event.timestamp == log.timestamp && row.event.blockNumber == log.blockNumber
    && row.event.blockHash == Lower(log.blockHash) && row.event.transactionHash == Lower(log.transactionHash)
    && row.event.transactionIndex == log.transactionIndex && row.event.logIndex == log.logIndex
    && match log.arguments
       case Unrecognised => false
       case Anchored(key, value, sender) =>
         row.event.payload.Anchor? && LowerPart(key, row.event.payload.key)
         && LowerPart(value, row.event.payload.value) && LowerPart(sender, row.event.payload.ownerAddress)
       case PublicEvent(subject, source, eventType, data) =>
         row.event.payload.Public? && LowerPart(subject, row.event.payload.subjectId)
         && LowerPart(source, row.event.payload.sourceAddress) && PlainPart(eventType, row.event.payload.eventType)
         && LowerPart(data, row.event.payload.dataHex)
  }

  lemma {:induction false} LowerPartStays(argument: Option<string>, part: Option<string>, column: Option<string>)
    requires LowerPart(argument, part) && LowerCased(part, column)
    ensures column == part
  {
    hide Trims;
    if part.Some? {
      var t :| t != "" && Trims(argument.value, t) && part.value == Lower(t);
      LowerIsIdempotent(t);
    }
  }

  lemma {:induction false} RowOfEventTellsOfLog(row: Row, id: Identity, e: Event, log: Log)
    requires Canon(id) == id && TellsOf(row, id, e) && EventTellsOf(e, log)
    ensures RowTellsOf(row, id, log)
  {
    hide LowerPart, PlainPart, LowerCased;
    match log.arguments
    case Unrecognised =>
    case Anchored(key, value, sender) =>
      LowerPartStays(sender, e.payload.ownerAddress, row.event.payload.ownerAddress);
    case PublicEvent(subject, source, eventType, data) =>
      LowerPartStays(subject, e.payload.subjectId, row.event.payload.subjectId);
      LowerPartStays(source, e.payload.sourceAddress, row.event.payload.sourceAddress);
      LowerPartStays(data, e.payload.dataHex, row.event.payload.dataHex);
  }

  lemma {:induction false} DecodedMembers(logs: seq<Log>)
    ensures forall e :: e in Decoded(logs) <==> exists log :: log in logs && Decode(log) == Some(e)
  {
    hide Decode;
    if logs != [] {
      var init, last := logs[..|logs| - 1], logs[|logs| - 1];
      DecodedMembers(init);
      assert forall log :: log in logs <==> log in init || log == last;
    }
  }

  predicate OfKind(log: Log, anchored: bool) {
    if anchored then log.arguments.Anchored? else log.arguments.PublicEvent?
  }

  /** The table holds exactly one row for each of these logs, and each row tells of its log. */
  ghost predicate HoldsExactly(t: EventTable, id: Identity, logs: seq<Log>, anchored: bool) {
    && (forall log :: log in logs && OfKind(log, anchored) ==>
          var k := Key(id.slotName, Lower(log.transactionHash), log.logIndex);
          k in t && RowTellsOf(t[k], id, log))
    && (forall k :: k in t ==> exists log :: log in logs && OfKind(log, anchored) && NamesLog(k, id, log))
  }

  predicate NamesLog(k: Key, id: Identity, log: Log) {
    k.slotName == id.slotName && k.transactionHash == Lower(log.transactionHash) && k.logIndex == log.logIndex
  }

  lemma {:induction false} OnePassHoldsExactlyTheLogs(id: Identity, ledger: Ledger, from: nat, next: nat,
          anchored: bool)
    requires ValidLedger(ledger) && next <= |ledger| && Canon(id) == id
    requires KeysNameEvents(id, Where(EventsIn(ledger, from, next), if anchored then IsAnchor else IsPublic))
    ensures HoldsExactly(OnePass(id, ledger, from, next, if anchored then IsAnchor else IsPublic), id,
      LogsIn(ledger, from, next), anchored)
  {
    hide EventsIn, LogsIn, Decoded, OnePass, KeysNameEvents, TellsOf, RowTellsOf, EventTellsOf, ValidLedger;
    var kind := if anchored then IsAnchor else IsPublic;
    var events, logs := EventsIn(ledger, from, next), LogsIn(ledger, from, next);
    EventsAreOrdered(ledger, from, next);
    DecodedMembers(logs);
    SameMembers(events, Decoded(logs));
    OnePassHoldsExactlyTheEvents(id, ledger, from, next, kind);
    var t := OnePass(id, ledger, from, next, kind);
    forall log | log in logs && OfKind(log, anchored)
      ensures var k := Key(id.slotName, Lower(log.transactionHash), log.logIndex); k in t && RowTellsOf(t[k], id, log)
    {
      LogHasItsRow(t, id, events, log, anchored);
    }
    forall k | k in t ensures exists log :: log in logs && OfKind(log, anchored) && NamesLog(k, id, log) {
      var e :| e in events && kind(e) && Names(k, id, e);
      var log :| log in logs && Decode(log) == Some(e);
      LogOfKind(log, e, anchored);
      assert NamesLog(k, id, log);
    }
  }

  lemma {:induction false} LogOfKind(log: Log, e: Event, anchored: bool)
    requires Decode(log) == Some(e)
    ensures OfKind(log, anchored) <==> if anchored then IsAnchor(e) else IsPublic(e)
    ensures e.transactionHash == log.transactionHash && e.logIndex == log.logIndex
  {
  }

  lemma {:induction false} LogHasItsRow(t: EventTable, id: Identity, events: seq<Event>, log: Log, anchored: bool)
    requires Canon(id) == id && OfKind(log, anchored) && forall e :: Decode(log) == Some(e) ==> e in events
    requires forall e :: e in events && (if anchored then IsAnchor(e) else IsPublic(e)) ==> HasItsRow(t, id, e)
    ensures var k := Key(id.slotName, Lower(log.transactionHash), log.logIndex); k in t && RowTellsOf(t[k], id, log)
  {
    hide TellsOf, RowTellsOf, EventTellsOf, Decode;
    DecodeTellsOfTheLog(log);
    var e := Decode(log).value;
    LogOfKind(log, e, anchored);
    assert HasItsRow(t, id, e);
    RowOfEventTellsOfLog(t[Key(id.slotName, Lower(log.transactionHash), log.logIndex)], id, e, log);
  }

  lemma {:induction false} SameMembers(a: seq<Event>, b: seq<Event>)
    requires multiset(a) == multiset(b)
    ensures forall e :: e in a <==> e in b
  {
    forall e ensures e in a <==> e in b { assert e in multiset(a) <==> e in multiset(b); }
  }

  /** End to end, from the logs of the contract to the rows of the tables: after any runs with failures
      and restarts, the rows of an identity with a cursor are exactly those of the recognised logs of
      the blocks from its first window to its cursor, one row for each, which says what the log says. */
  lemma {:induction false} TablesHoldExactlyTheLogs(ledgers: Ledgers, owner: Ownership, runs: seq<Run>, id: Identity)
    requires World(ledgers, owner) && forall k :: 0 <= k < |runs| ==> Faithful(ledgers, runs[k])
    requires Canon(id) == id && id in AfterRuns(runs).tables.cursors
    requires KeysNameEvents(id, EventsIn(ledgers(id), 0, |ledgers(id)|))
    ensures var p := AfterRuns(runs);
      var windows, next := WindowsOf(p.windows, id), p.tables.cursors[id].nextFromBlock;
      && windows != [] && windows[0].from <= next <= |ledgers(id)|
      && HoldsExactly(RowsFor(p.tables.anchors, id), id, LogsIn(ledgers(id), windows[0].from, next), true)
      && HoldsExactly(RowsFor(p.tables.publics, id), id, LogsIn(ledgers(id), windows[0].from, next), false)
  {
    hide AfterRuns, OnePass, HoldsExactly, EventsIn, LogsIn, KeysNameEvents, RowsFor, World, AllStorable;
    IndexerRefinesOnePass(ledgers, owner, runs);
    var p := AfterRuns(runs);
    assert Refines(ledgers, p, id);
    var windows, next := WindowsOf(p.windows, id), p.tables.cursors[id].nextFromBlock;
    PartitionStartsFirst(windows, windows[0].from, next);
    WorldIsValid(ledgers, owner, id);
    KeysOfFewer(id, ledgers(id), windows[0].from, next, IsAnchor);
    KeysOfFewer(id, ledgers(id), windows[0].from, next, IsPublic);
    OnePassHoldsExactlyTheLogs(id, ledgers(id), windows[0].from, next, true);
    OnePassHoldsExactlyTheLogs(id, ledgers(id), windows[0].from, next, false);
  }

  lemma {:induction false} KeysOfFewer(id: Identity, ledger: Ledger, from: nat, next: nat, kind: Event -> bool)
    requires from <= next <= |ledger| && KeysNameEvents(id, EventsIn(ledger, 0, |ledger|))
    ensures KeysNameEvents(id, Where(EventsIn(ledger, from, next), kind))
  {
    hide KeyOf, EventsIn;
    EventsSplit(ledger, 0, from, |ledger|);
    EventsSplit(ledger, from, next, |ledger|);
    var all := EventsIn(ledger, 0, |ledger|);
    var before, middle, after :=
      EventsIn(ledger, 0, from), EventsIn(ledger, from, next), EventsIn(ledger, next, |ledger|);
    assert all == before + middle + after;
    assert middle == all[|before|..|before| + |middle|];
    KeysOfSome(id, middle, kind);
  }

  lemma {:induction false} KeysOfSome(id: Identity, events: seq<Event>, kind: Event -> bool)
    requires KeysNameEvents(id, events)
    ensures KeysNameEvents(id, Where(events, kind))
  {
    hide KeyOf;
    if events != [] {
      var init, last := events[..|events| - 1], events[|events| - 1];
      KeysOfSome(id, init, kind);
      forall e | e in Where(init, kind) ensures KeyOf(id, e) != KeyOf(id, last) {
        var i :| 0 <= i < |init| && init[i] == e;
        assert events[i] == e;
      }
    }
  }

  // ---------------------------------------------------------------- progress of one run

  /** A run only appends windows, never moves a cursor back, and without a fault reaches the head. */
  lemma {:induction false} ScanMovesForward(p: Progress, id: Identity, logs: Provider, faults: nat -> Fault, from: nat,
          to: nat, other: Identity)
    requires Resumes(p, Canon(id), from)
    requires other in p.tables.cursors
    ensures var after := Scan(p, id, logs, faults, from, to);
      && p.windows <= after.windows && p.notices <= after.notices
      && other in after.tables.cursors
      && p.tables.cursors[other].nextFromBlock <= after.tables.cursors[other].nextFromBlock
    decreases MAX_LOG_BLOCK_RANGE + to - from
  {
    if from <= to {
      CommitMovesCursor(p, id, from, WindowEnd(from, to), Normalize(logs(from, WindowEnd(from, to))));
    }
    hide Commit, Normalize, Announce;
    var end := WindowEnd(from, to);
    var events := Normalize(logs(from, end));
    if from <= to && FaultAt(faults, from, events) == NoFault {
      var next := Commit(p, id, from, end, events).(notices := p.notices + Announce(id, events));
      if from + MAX_LOG_BLOCK_RANGE <= to {
        ScanMovesForward(next, id, logs, faults, from + MAX_LOG_BLOCK_RANGE, to, other);
      }
    }
  }

  /** A fault-free scan reaches its last block if and only if every public event on the way is complete. */
  lemma {:induction false} ScanReachesHeadExactlyWhen(ledger: Ledger, p: Progress, id: Identity, logs: Provider,
          faults: nat -> Fault, from: nat, to: nat)
    requires from <= to < |ledger| && ValidLedger(ledger) && forall b :: faults(b) == NoFault
    requires forall a, b :: 0 <= a <= b <= to ==> multiset(logs(a, b)) == multiset(LogsIn(ledger, a, b + 1))
    requires Resumes(p, Canon(id), from)
    ensures var after := CursorOf(Scan(p, id, logs, faults, from, to).tables, id);
      after.Some? && after.value.nextFromBlock == to + 1 <==> AllStorable(EventsIn(ledger, from, to + 1))
    decreases MAX_LOG_BLOCK_RANGE + to - from
  {
    hide Commit, Normalize, Announce, LogsIn, ValidLedger, AllStorable;
    var end := WindowEnd(from, to);
    var events := Normalize(logs(from, end));
    NormalizeIsCanonical(ledger, logs(from, end), from, end + 1);
    EventsSplit(ledger, from, end + 1, to + 1);
    StorableConcat(EventsIn(ledger, from, end + 1), EventsIn(ledger, end + 1, to + 1));
    if AllStorable(events) {
      CommitMovesCursor(p, id, from, end, events);
      var next := Commit(p, id, from, end, events).(notices := p.notices + Announce(id, events));
      if from + MAX_LOG_BLOCK_RANGE <= to {
        ScanReachesHeadExactlyWhen(ledger, next, id, logs, faults, from + MAX_LOG_BLOCK_RANGE, to);
      } else {
        NothingStored(ledger, to + 1);
      }
    }
  }

  lemma {:induction false} StorableConcat(a: seq<Event>, b: seq<Event>)
    ensures AllStorable(a + b) <==> AllStorable(a) && AllStorable(b)
  {
    forall e | e in a || e in b ensures e in a + b { }
  }

  /** A cursor never moves backwards in any run, and the blocks it has passed since its first window hold
      no incomplete public event. */
  lemma {:induction false} RunsMoveForward(ledgers: Ledgers, owner: Ownership, runs: seq<Run>, r: Run, id: Identity)
    requires World(ledgers, owner)
    requires forall k :: 0 <= k < |runs| ==> Faithful(ledgers, runs[k])
    requires id in AfterRuns(runs).tables.cursors
    ensures var p := AfterRuns(runs);
      var after := RunSlot(p, r.slot, r.head, r.logs, r.faults);
      var windows, next := WindowsOf(p.windows, id), p.tables.cursors[id].nextFromBlock;
      && id in after.tables.cursors && next <= after.tables.cursors[id].nextFromBlock
      && windows != [] && windows[0].from <= next <= |ledgers(id)|
      && AllStorable(EventsIn(ledgers(id), windows[0].from, next))
  {
    hide World, Faithful, RunSlot, Refines, AfterRuns;
    IndexerRefinesOnePass(ledgers, owner, runs);
    var p := AfterRuns(runs);
    assert Refines(ledgers, p, id);
    PassedAreComplete(ledgers, p, id);
    CursorMovesForward(ledgers, p, r, id);
  }

  lemma {:induction false} ResumesAtCursor(ledgers: Ledgers, p: Progress, slot: Slot)
    requires Refines(ledgers, p, Canon(slot.identity))
    ensures var from := ResolveFromBlock(slot, CursorOf(p.tables, slot.identity));
      from.Ok? ==> Resumes(p, Canon(slot.identity), from.value)
  {
    hide OnePass, Partition, AllStorable, RowsFor, WindowsOf;
    LowerIsIdempotent(slot.identity.contract);
  }

  lemma {:induction false} PassedAreComplete(ledgers: Ledgers, p: Progress, id: Identity)
    requires Refines(ledgers, p, id) && id in p.tables.cursors
    ensures var windows, next := WindowsOf(p.windows, id), p.tables.cursors[id].nextFromBlock;
      && windows != [] && windows[0].from <= next <= |ledgers(id)|
      && AllStorable(EventsIn(ledgers(id), windows[0].from, next))
  {
    hide OnePass, RowsFor, WindowsOf, AllStorable;
    var mine := WindowsOf(p.windows, id);
    PartitionStartsFirst(mine, mine[0].from, p.tables.cursors[id].nextFromBlock);
  }

  lemma {:induction false} CursorMovesForward(ledgers: Ledgers, p: Progress, r: Run, id: Identity)
    requires forall other :: Refines(ledgers, p, other)
    ensures var after := RunSlot(p, r.slot, r.head, r.logs, r.faults);
      id in p.tables.cursors ==>
        id in after.tables.cursors && p.tables.cursors[id].nextFromBlock <= after.tables.cursors[id].nextFromBlock
  {
    hide Scan, Refines;
    assert Refines(ledgers, p, Canon(r.slot.identity));
    ResumesAtCursor(ledgers, p, r.slot);
    var from := ResolveFromBlock(r.slot, CursorOf(p.tables, r.slot.identity));
    if from.Ok? && id in p.tables.cursors {
      ScanMovesForward(p, r.slot.identity, r.logs, r.faults, from.value, r.head, id);
    }
  }

  /** Where a run resumes, in every state that runs can reach and for a node that answers faithfully.
      A cursor at next is resumed there; a configured start at or above it refuses the run. Without a
      cursor the run starts at the configured block. A run that meets no fault then covers everything up
      to the head if and only if the public events on the way are complete. */
  lemma {:induction false} RunsResumeWhereTheyStopped(ledgers: Ledgers, owner: Ownership, runs: seq<Run>, r: Run)
    requires World(ledgers, owner) && Faithful(ledgers, r) && forall b :: r.faults(b) == NoFault
    requires forall k :: 0 <= k < |runs| ==> Faithful(ledgers, runs[k])
    ensures var p, slot := AfterRuns(runs), r.slot;
      var me := Identity(slot.identity.slotName, slot.identity.chainId, Lower(slot.identity.contract));
      var after := RunSlot(p, slot, r.head, r.logs, r.faults);
      if me in p.tables.cursors && slot.startBlock >= p.tables.cursors[me].nextFromBlock then after == p
      else
        var start := if me in p.tables.cursors then p.tables.cursors[me].nextFromBlock else slot.startBlock;
        if start > r.head then after == p
        else CoversTo(after, me, r.head) <==> AllStorable(EventsIn(ledgers(me), start, r.head + 1))
  {
    hide World, Faithful, Refines, AfterRuns, Scan, AllStorable, EventsIn, CoversTo;
    IndexerRefinesOnePass(ledgers, owner, runs);
    var p, me := AfterRuns(runs), Canon(r.slot.identity);
    assert Refines(ledgers, p, me);
    CursorNamesItsIdentity(ledgers, p, me);
    LowerIsIdempotent(r.slot.identity.contract);
    var start := if me in p.tables.cursors then p.tables.cursors[me].nextFromBlock else r.slot.startBlock;
    if !(me in p.tables.cursors && r.slot.startBlock >= start) {
      assert ResolveFromBlock(r.slot, CursorOf(p.tables, r.slot.identity)) == Ok(start);
      if start > r.head {
        NothingToScan(p, r, start);
      } else {
        WorldIsValid(ledgers, owner, me);
        FaithfulAnswers(ledgers, r);
        ScanReachesHeadExactlyWhen(ledgers(me), p, r.slot.identity, r.logs, r.faults, start, r.head);
        CoveringIsReaching(Scan(p, r.slot.identity, r.logs, r.faults, start, r.head), r.slot.identity, r.head);
      }
    }
  }

  /** The identity's cursor stands at the block after head. */
  predicate CoversTo(p: Progress, id: Identity, head: nat) {
    id in p.tables.cursors && p.tables.cursors[id].nextFromBlock == head + 1
  }

  lemma {:induction false} CoveringIsReaching(p: Progress, id: Identity, head: nat)
    ensures var cursor := CursorOf(p.tables, id);
      CoversTo(p, Canon(id), head) <==> cursor.Some? && cursor.value.nextFromBlock == head + 1
  {
  }

  lemma {:induction false} CursorNamesItsIdentity(ledgers: Ledgers, p: Progress, id: Identity)
    requires Refines(ledgers, p, id)
    ensures id in p.tables.cursors ==> p.tables.cursors[id].identity == id && p.tables.cursors[id].nextFromBlock >= 1
  {
    hide OnePass, RowsFor, WindowsOf, AllStorable;
  }

  lemma {:induction false} FaithfulAnswers(ledgers: Ledgers, r: Run)
    requires Faithful(ledgers, r)
    ensures var ledger := ledgers(Canon(r.slot.identity));
      && r.head < |ledger|
      && forall a, b :: 0 <= a <= b <= r.head ==> multiset(r.logs(a, b)) == multiset(LogsIn(ledger, a, b + 1))
  {
  }

  lemma {:induction false} NothingToScan(p: Progress, r: Run, from: nat)
    requires from > r.head
    ensures Scan(p, r.slot.identity, r.logs, r.faults, from, r.head) == p
  {
  }

  lemma {:induction false} WorldIsValid(ledgers: Ledgers, owner: Ownership, id: Identity)
    requires World(ledgers, owner)
    ensures ValidLedger(ledgers(id))
  {
  }
}
