/** The indexer as it runs: normalising a node's answer in place, committing a window through the
    repository, publishing its events through the transport, and the loop over windows. */
module IndexerService {
  import opened Basics
  import opened Indexing
  import Repository
  import Transport

  lemma {:induction false} InsertStep(sorted: seq<Event>, e: Event, j: nat)
    requires 0 < j <= |sorted| && Before(e, sorted[j - 1])
    ensures Insert(sorted[..j], e) + sorted[j..] == Insert(sorted[..j - 1], e) + sorted[j - 1..]
  {
    assert sorted[..j][..j - 1] == sorted[..j - 1] && sorted[..j][j - 1] == sorted[j - 1];
    assert sorted[j - 1..] == [sorted[j - 1]] + sorted[j..];
    var rest := Insert(sorted[..j - 1], e);
    assert rest + [sorted[j - 1]] + sorted[j..] == rest + ([sorted[j - 1]] + sorted[j..]);
  }

  lemma {:induction false} InsertStops(sorted: seq<Event>, e: Event, j: nat)
    requires j <= |sorted| && (j > 0 ==> !Before(e, sorted[j - 1]))
    ensures Insert(sorted[..j], e) == sorted[..j] + [e]
  {
  }

  /** Every window of a scan, two thousand blocks each and the last one up to the head, is free of throws
      and of incomplete public events. */
  ghost predicate ScansClean(logs: Provider, faults: nat -> Fault, from: nat, head: nat) {
    forall at: nat :: from <= at <= head && (at - from) % 2000 == 0 ==> WindowIsClean(logs, faults, at, head)
  }

  predicate WindowIsClean(logs: Provider, faults: nat -> Fault, at: nat, head: nat)
    requires at <= head
  {
    faults(at) == NoFault && AllStorable(Normalize(logs(at, if at + 1999 <= head then at + 1999 else head)))
  }

  lemma {:induction false} CleanStepByStep(logs: Provider, faults: nat -> Fault, from: nat, head: nat)
    requires from <= head
    ensures ScansClean(logs, faults, from, head) <==>
      WindowIsClean(logs, faults, from, head) && ScansClean(logs, faults, from + 2000, head)
  {
    hide WindowIsClean;
    if ScansClean(logs, faults, from, head) {
      forall at: nat | from + 2000 <= at <= head && (at - (from + 2000)) % 2000 == 0
        ensures WindowIsClean(logs, faults, at, head)
      {
        assert (at - from) % 2000 == 0;
      }
      assert (from - from) % 2000 == 0;
    }
    if WindowIsClean(logs, faults, from, head) && ScansClean(logs, faults, from + 2000, head) {
      forall at: nat | from <= at <= head && (at - from) % 2000 == 0 ensures WindowIsClean(logs, faults, at, head) {
        assert at != from ==> at >= from + 2000 && (at - (from + 2000)) % 2000 == 0;
      }
    }
  }

  /** The cursor found for the slot is of the slot's own name, chain and contract. */
  predicate IsOfSlot(cursor: Cursor, slot: Slot) {
    && cursor.identity.slotName == slot.identity.slotName && cursor.identity.chainId == slot.identity.chainId
    && Lower(cursor.identity.contract) == Lower(slot.identity.contract)
  }

  /** Where a run starts: at the slot's cursor when the configured block lies below it, nowhere when it
      does not, and at the configured block when there is no cursor of the slot. */
  lemma {:induction false} StartsWhereItStopped(slot: Slot, cursors: map<Identity, Cursor>)
    ensures var key := Identity(slot.identity.slotName, slot.identity.chainId, Lower(slot.identity.contract));
      var from := ResolveFromBlock(slot, if key in cursors then Some(cursors[key]) else None);
      if key !in cursors || !IsOfSlot(cursors[key], slot) then from == Ok(slot.startBlock)
      else if slot.startBlock >= cursors[key].nextFromBlock then from.Err?
      else from == Ok(cursors[key].nextFromBlock)
  {
  }

  lemma {:induction false} CleanBeyondHead(logs: Provider, faults: nat -> Fault, from: nat, head: nat)
    ensures from > head ==> ScansClean(logs, faults, from, head)
  {
  }

  lemma {:induction false} AnnouncesTheComplete(id: Identity, events: seq<Event>)
    ensures forall n :: n in Announce(id, events) <==>
      && n.event in events && n.identity == Identity(id.slotName, id.chainId, Lower(id.contract))
      && n.event.payload.Public? && n.event.payload.subjectId.Some? && n.event.payload.sourceAddress.Some?
      && n.event.payload.eventType.Some? && n.event.payload.dataHex.Some?
  {
    if events != [] {
      var init, last := events[..|events| - 1], events[|events| - 1];
      AnnouncesTheComplete(id, init);
      assert forall e :: e in events <==> e in init || e == last;
    }
  }

  class Indexer {
    const repository: Repository.HubStateRepository
    const transport: Transport.OwnableTransportService
    /** Every window ever committed by this indexer. */
    ghost var windows: seq<Window>

    constructor (repository: Repository.HubStateRepository, transport: Transport.OwnableTransportService)
      ensures this.repository == repository && this.transport == transport && windows == []
    {
      this.repository, this.transport := repository, transport;
      windows := [];
    }

    ghost function State(): Progress
      reads this, repository, transport
    {
      Progress(repository.indexed, windows, transport.subject)
    }

    method NormalizeLogs(logs: seq<Log>) returns (events: seq<Event>)
      ensures events == Normalize(logs)
    {
      events := [];
      for i := 0 to |logs|
        invariant events == Decoded(logs[..i])
      {
        assert logs[..i + 1][..i] == logs[..i];
        var decoded := Decode(logs[i]);
        if decoded.None? {
          continue;
        }
        events := events + [decoded.value];
      }
      assert logs[..|logs|] == logs;
      events := SortInPlace(events);
    }

    /** A stable sort by block, transaction and log. */
    method SortInPlace(input: seq<Event>) returns (events: seq<Event>)
      ensures events == Sort(input)
    {
      hide Before, Insert;
      events := input;
      for i := 0 to |input|
        invariant |events| == |input|
        invariant events[..i] == Sort(input[..i]) && events[i..] == input[i..]
      {
        assert input[..i + 1][..i] == input[..i] && events[i] == input[i];
        events := Sink(events, i);
      }
      assert input[..|input|] == input && events[..|input|] == events;
    }

    /** Moves the event at index i down to its place among the sorted ones before it. */
    method Sink(events: seq<Event>, i: nat) returns (r: seq<Event>)
      requires i < |events|
      ensures |r| == |events| && r[..i + 1] == Insert(events[..i], events[i]) && r[i + 1..] == events[i + 1..]
    {
      hide Before, Insert;
      ghost var sorted, e := events[..i], events[i];
      r := events;
      var j := i;
      assert sorted[..i] == sorted && sorted[i..] == [];
      assert Insert(sorted, e) == Insert(sorted[..i], e) + sorted[i..];
      while j > 0 && Before(r[j], r[j - 1])
        invariant 0 <= j <= i && |r| == |events| && r[j] == e
        invariant forall k :: 0 <= k < j ==> r[k] == sorted[k]
        invariant forall k :: j < k <= i ==> r[k] == sorted[k - 1]
        invariant forall k :: i < k < |r| ==> r[k] == events[k]
        invariant Insert(sorted, e) == Insert(sorted[..j], e) + sorted[j..]
      {
        InsertStep(sorted, e, j);
        r := r[j := r[j - 1]][j - 1 := r[j]];
        j := j - 1;
      }
      InsertStops(sorted, e, j);
      assert r[..i + 1] == sorted[..j] + [e] + sorted[j..];
    }

    /** The window's events and its cursor are committed together or not at all. */
    method PersistWindow(id: Identity, windowTo: nat, events: seq<Event>, fault: Option<nat>) returns (ok: bool)
      modifies repository`indexed
      ensures ok <==>
        !(fault.Some? && fault.value <= |Where(events, IsAnchor)| + |Where(events, IsPublic)|) && AllStorable(events)
      ensures repository.indexed == if ok then Persist(old(repository.indexed), id, windowTo, events)
        else old(repository.indexed)
      ensures ok ==>
        var key := Identity(id.slotName, id.chainId, Lower(id.contract));
        && key in repository.indexed.cursors
        && var cursor := repository.indexed.cursors[key];
          && cursor.identity == key && cursor.nextFromBlock == windowTo + 1 && cursor.lastScannedBlock == windowTo
          && (cursor.tail.None? <==> events == [])
          && (events != [] ==>
                var last := events[|events| - 1];
                && cursor.tail.value.transactionHash == last.transactionHash
                && cursor.tail.value.transactionIndex == last.transactionIndex
                && cursor.tail.value.logIndex == last.logIndex)
    {
      var anchorEvents := Where(events, IsAnchor);
      var publicEvents := Where(events, IsPublic);
      assert AllStorable(publicEvents) <==> AllStorable(events);
      ok := repository.WithIndexerPersistenceTransaction(id, windowTo, TailOf(events), anchorEvents, publicEvents,
        fault);
    }

    method PublishPublicEvents(id: Identity, events: seq<Event>)
      modifies transport
      ensures transport.subject == old(transport.subject) + Announce(id, events)
      ensures forall n :: n in Announce(id, events) <==>
        && n.event in events && n.identity == Identity(id.slotName, id.chainId, Lower(id.contract))
        && n.event.payload.Public? && n.event.payload.subjectId.Some? && n.event.payload.sourceAddress.Some?
        && n.event.payload.eventType.Some? && n.event.payload.dataHex.Some?
      ensures transport.notified == old(transport.notified) +
        Transport.Payloads(transport.instanceId, Announce(id, events))
    {
      ghost var subject, notified := transport.subject, transport.notified;
      for i := 0 to |events|
        invariant transport.subject == subject + Announce(id, events[..i])
        invariant transport.notified == notified + Transport.Payloads(transport.instanceId, Announce(id, events[..i]))
      {
        assert events[..i + 1][..i] == events[..i];
        if !Announceable(events[i]) {
          continue;
        }
        transport.PublishPublicEvent(Notice(id.(contract := Lower(id.contract)), events[i]));
      }
      assert events[..|events|] == events;
      AnnouncesTheComplete(id, events);
    }

    /** One run over a slot. faults says where an exception is thrown: while a window is fetched or
        committed, or by the promotions that follow its commit. */
    method RunSlot(slot: Slot, head: nat, logs: Provider, faults: nat -> Fault) returns (ok: bool)
      modifies this, repository`indexed, transport
      ensures State() == Indexing.RunSlot(old(State()), slot, head, logs, faults)
      ensures var key := Identity(slot.identity.slotName, slot.identity.chainId, Lower(slot.identity.contract));
        var cursors := old(repository.indexed.cursors);
        var known := key in cursors && IsOfSlot(cursors[key], slot);
        if known && slot.startBlock >= cursors[key].nextFromBlock then !ok && State() == old(State())
        else ok <==> ScansClean(logs, faults, if known then cursors[key].nextFromBlock else slot.startBlock, head)
    {
      hide Scan, ScansClean, Lower;
      var cursor := repository.GetIndexerCursor(slot.identity);
      var from := ResolveFromBlock(slot, cursor);
      StartsWhereItStopped(slot, repository.indexed.cursors);
      if from.Err? {
        return false;
      }
      ok := ScanWindows(slot.identity, from.value, head, logs, faults);
    }

    /** The loop over windows. */
    method ScanWindows(id: Identity, from: nat, head: nat, logs: Provider, faults: nat -> Fault) returns (ok: bool)
      modifies this, repository`indexed, transport
      ensures State() == Scan(old(State()), id, logs, faults, from, head)
      ensures ok <==> ScansClean(logs, faults, from, head)
    {
      hide Normalize, Announce, Persist, ScansClean, AllStorable;
      CleanBeyondHead(logs, faults, from, head);
      var windowFrom := from;
      while windowFrom <= head
        invariant Scan(State(), id, logs, faults, windowFrom, head) == Scan(old(State()), id, logs, faults, from, head)
        invariant ScansClean(logs, faults, from, head) <==> ScansClean(logs, faults, windowFrom, head)
        decreases head + MAX_LOG_BLOCK_RANGE - windowFrom
      {
        ghost var before := State();
        CleanStepByStep(logs, faults, windowFrom, head);
        var windowTo := if windowFrom + MAX_LOG_BLOCK_RANGE - 1 <= head then windowFrom + MAX_LOG_BLOCK_RANGE - 1
          else head;
        var normalized := NormalizeLogs(logs(windowFrom, windowTo));
        var committed :=
          PersistWindow(id, windowTo, normalized, if faults(windowFrom) == BeforeCommit then Some(0) else None);
        if !committed {
          return false;
        }
        windows := windows + [Window(Canon(id), windowFrom, windowTo)];
        assert State() == Commit(before, id, windowFrom, windowTo, normalized);
        if faults(windowFrom) == AfterCommit {
          return false;
        }
        PublishPublicEvents(id, normalized);
        windowFrom := windowFrom + MAX_LOG_BLOCK_RANGE;
      }
      CleanBeyondHead(logs, faults, windowFrom, head);
      ok := true;
    }
  }
}
