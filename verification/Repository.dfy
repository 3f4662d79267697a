/** The repository behind every Hub process. Its fields are the tables; each method is one
    transaction, run step by step on them and rolled back when it throws. Contracts tie the new tables
    to the table functions, whose theorems therefore hold of any sequence of calls.

    NOW() is a parameter of each transaction. Statements that skip locked rows take the set of rows
    other transactions hold at that moment. */
module Repository {
  import opened Basics
  import opened Bundles
  import opened Uploads
  import opened Leases
  import opened Ownership
  import opened Promotion
  import Indexing
  import PublicationProofs

  datatype Transition = Transition(recordId: nat, ownerAccount: Option<string>, ownerStateVersion: nat)

  // ---------------------------------------------------------------- what the batch statements select

  predicate Increasing(ids: seq<nat>) {
    forall i, j :: 0 <= i < j < |ids| ==> ids[i] < ids[j]
  }

  function Chosen(ids: seq<nat>): set<nat> {
    set id | id in ids
  }

  /** ORDER BY created_at SKIP LOCKED LIMIT n: the first n candidates in insertion order, fewer only
      when there are no more. */
  ghost predicate OldestCandidates(rows: Table, limit: nat, locked: set<nat>, now: int, ids: seq<nat>) {
    && |ids| <= limit && Increasing(ids)
    && (forall id :: id in ids ==> id < |rows| && id !in locked && Claimable(rows[id], now))
    && (forall id: nat :: id < |rows| && id !in locked && Claimable(rows[id], now) && id !in ids ==>
          |ids| == limit && forall other :: other in ids ==> other < id)
  }

  predicate Sweeping(rows: Table, locked: set<nat>, now: int, id: nat) {
    id < |rows| && id !in locked && Sweepable(rows[id], now)
  }

  ghost predicate ByExpiry(rows: Table, ids: seq<nat>) {
    forall i, j :: 0 <= i < j < |ids| ==>
      ids[i] < |rows| && ids[j] < |rows| && rows[ids[i]].expiresAt <= rows[ids[j]].expiresAt
  }

  /** ORDER BY expires_at SKIP LOCKED LIMIT n: candidates that expire first, fewer than n only when
      there are no more. */
  ghost predicate EarliestCandidates(rows: Table, limit: nat, locked: set<nat>, now: int, ids: seq<nat>) {
    && |ids| <= limit && Uploads.Distinct(ids)
    && (forall id :: id in ids ==> Sweeping(rows, locked, now, id))
    && ByExpiry(rows, ids)
    && (forall id: nat :: Sweeping(rows, locked, now, id) && id !in ids ==>
          |ids| == limit && forall other :: other in ids ==> rows[other].expiresAt <= rows[id].expiresAt)
  }

  ghost predicate EarlierThan(rows: Table, ids: seq<nat>, at: int) {
    forall id :: id in ids ==> id < |rows| && rows[id].expiresAt <= at
  }

  /** Among the first n rows, the candidate outside ids that expires first. */
  ghost predicate FirstRemaining(rows: Table, n: nat, locked: set<nat>, now: int, ids: seq<nat>, next: Option<nat>) {
    && (next.Some? ==> next.value < n && Sweeping(rows, locked, now, next.value) && next.value !in ids)
    && (forall id: nat :: id < n && Sweeping(rows, locked, now, id) && id !in ids ==>
          next.Some? && rows[next.value].expiresAt <= rows[id].expiresAt)
  }

  /** The record of the upload's subject is written, in place of the one that subject had or after all
      others; every other record stays. */
  ghost predicate WritesRecord(before: seq<Record>, after: seq<Record>, id: nat, p: Prepared) {
    && id < |after| && RecordHolds(after[id], p) && |before| <= |after| <= |before| + 1
    && (forall j :: 0 <= j < |before| && j != id ==> after[j] == before[j])
    && (id < |before| ==> |after| == |before| && before[id].subjectId == Lower(p.subjectId))
    && (id >= |before| ==> id == |before| && forall j :: 0 <= j < |before| ==>
      before[j].subjectId != Lower(p.subjectId))
  }

  /** The owner state of the record is what the replay derived; every other owner state stays. */
  ghost predicate WritesOwner(before: Owners, after: Owners, t: Transition, replay: ReplayState) {
    && after.Keys == before.Keys + {t.recordId} && OwnerHolds(after[t.recordId].holding, replay)
    && t.ownerAccount == replay.ownerAccount && t.ownerStateVersion == after[t.recordId].version
    && forall j :: j in before && j != t.recordId ==> after[j] == before[j]
  }

  class HubStateRepository {
    var uploads: Table
    var records: seq<Record>
    var owners: Owners
    var ingress: IngressTables
    var processing: seq<ProcessingLease>
    var indexed: Indexing.Tables

    constructor ()
      ensures uploads == [] && records == [] && owners == map[]
      ensures ingress == IngressTables([], []) && processing == []
      ensures indexed == Indexing.Tables(map[], map[], map[])
    {
      uploads, records, owners := [], [], map[];
      ingress, processing := IngressTables([], []), [];
      indexed := Indexing.Tables(map[], map[], map[]);
    }

    // -------------------------------------------------------------- quarantined uploads

    method FindActiveQuarantineByDigest(digest: string) returns (found: Option<nat>)
      ensures found.Some? <==> HasPending(uploads, digest)
      ensures found.Some? <==> exists i :: i in ActiveRows(uploads) && uploads[i].uploadDigest == digest
      ensures found.Some? ==>
        found.value in ActiveRows(uploads) && uploads[found.value].uploadDigest == digest
    {
      for i := 0 to |uploads|
        invariant !HasPending(uploads[..i], digest)
      {
        if Active(uploads[i]) && uploads[i].uploadDigest == digest {
          return Some(i);
        }
      }
      found := None;
    }

    method FindActiveQuarantineBySubjectId(subject: string) returns (found: Option<nat>)
      ensures found.Some? <==> HasPendingSubject(uploads, subject)
      ensures found.Some? <==> exists i :: i in ActiveRows(uploads) && uploads[i].subjectId == Lower(subject)
      ensures found.Some? ==>
        found.value in ActiveRows(uploads) && uploads[found.value].subjectId == Lower(subject)
    {
      for i := 0 to |uploads|
        invariant !HasPendingSubject(uploads[..i], subject)
      {
        if Active(uploads[i]) && uploads[i].subjectId == Lower(subject) {
          return Some(i);
        }
      }
      found := None;
    }

    method PrivateObjectIsReferenced(key: string) returns (present: bool)
      ensures present == IsReferenced(uploads, key)
      ensures present <==> exists i :: i in ActiveRows(uploads) && uploads[i].privateObjectKey == key
    {
      for i := 0 to |uploads|
        invariant !IsReferenced(uploads[..i], key)
      {
        if Active(uploads[i]) && uploads[i].privateObjectKey == key {
          return true;
        }
      }
      present := false;
    }

    /** The expiry statement of the insertion transaction. */
    method ExpireDueUploads(now: int)
      modifies this`uploads
      ensures uploads == ExpireDue(old(uploads), now)
    {
      ghost var rows := uploads;
      for i := 0 to |uploads|
        invariant |uploads| == |rows| && uploads[i..] == rows[i..]
        invariant forall k :: 0 <= k < i ==> uploads[k] == ExpireDue(rows, now)[k]
      {
        assert uploads[i] == rows[i];
        if Active(uploads[i]) && uploads[i].expiresAt <= now {
          uploads := uploads[i := Lapse(uploads[i])];
        }
      }
    }

    method CountActive() returns (objects: nat, bytes: nat)
      ensures objects == ActiveCount(uploads) && bytes == ActiveBytes(uploads)
    {
      objects, bytes := 0, 0;
      for i := 0 to |uploads|
        invariant objects == ActiveCount(uploads[..i]) && bytes == ActiveBytes(uploads[..i])
      {
        assert uploads[..i + 1][..i] == uploads[..i];
        if Active(uploads[i]) {
          objects, bytes := objects + 1, bytes + uploads[i].compressedBytes;
        }
      }
      assert uploads[..|uploads|] == uploads;
    }

    /** The two partial unique indexes on active rows. */
    method ViolatesUniqueIndex(input: NewUpload) returns (violates: bool)
      ensures violates == Conflicts(uploads, input)
    {
      for i := 0 to |uploads|
        invariant !Conflicts(uploads[..i], input)
      {
        if Active(uploads[i]) && (uploads[i].uploadDigest == input.uploadDigest
          || uploads[i].subjectId == Lower(input.subjectId)) {
          return true;
        }
      }
      violates := false;
    }

    /** Expire, count, check both budgets, insert; any failure rolls the expiry back. */
    method CreateQuarantinedUpload(limits: Limits, input: NewUpload, now: int) returns (r: Result<nat>)
      modifies this`uploads
      ensures uploads == Execute(limits, old(uploads), Create(input), now)
      ensures r.Ok? <==> Uploads.Insert(limits, old(uploads), input, now).Ok?
      ensures r.Ok? <==> HasRoom(limits, old(uploads), input, now) && !IsTaken(old(uploads), input, now)
      ensures r.Ok? ==> r.value == |old(uploads)| && Inserted(limits, old(uploads), input, now, uploads)
      ensures r.Err? ==> uploads == old(uploads)
      ensures r.Err? ==> r.error == Uploads.Insert(limits, old(uploads), input, now).error
      ensures r == Err("QUARANTINE_CAPACITY_EXHAUSTED") <==> !HasRoom(limits, old(uploads), input, now)
    {
      hide Inserted, HasRoom, IsTaken;
      InsertionSucceedsExactlyWhen(limits, uploads, input, now);
      var begin := uploads;
      ExpireDueUploads(now);
      var objects, bytes := CountActive();
      if objects >= limits.maxPendingObjects || bytes + input.compressedBytes > limits.maxPendingBytes {
        uploads := begin;
        return Err("QUARANTINE_CAPACITY_EXHAUSTED");
      }
      var violates := ViolatesUniqueIndex(input);
      if violates {
        uploads := begin;
        return Err("duplicate key value violates unique constraint");
      }
      r := Ok(|uploads|);
      uploads := uploads + [NewRow(limits, input, now)];
    }

    method ClaimQuarantinedUploads(owner: string, limit: nat, leaseSeconds: int, locked: set<nat>, now: int)
      returns (ids: seq<nat>)
      modifies this`uploads
      ensures OldestCandidates(old(uploads), limit, locked, now, ids)
      ensures forall limits ::
        uploads == Execute(limits, old(uploads), ClaimBatch(owner, leaseSeconds, Chosen(ids)), now)
      ensures |uploads| == |old(uploads)| && forall i :: 0 <= i < |uploads| ==> var u := old(uploads)[i];
        uploads[i] == if i in ids then u.(status := Promoting, lease := Some(Lease(owner, now + leaseSeconds))) else u
      ensures forall i :: 0 <= i < |uploads| && i !in locked ==> var u := old(uploads)[i];
        var lapsed := u.status == Promoting && u.lease.Some? && u.lease.value.expiresAt <= now;
        && (i in ids ==> u.expiresAt > now && (u.status == Pending || lapsed))
        && (u.expiresAt > now && (u.status == Pending || lapsed) ==>
              i in ids || (|ids| == limit && forall other :: other in ids ==> other < i))
    {
      ids := ClaimCandidates(limit, locked, now);
      ghost var rows := uploads;
      for i := 0 to |uploads|
        invariant |uploads| == |rows| && uploads[i..] == rows[i..]
        invariant forall k :: 0 <= k < i ==>
          uploads[k] == if k in ids then Renew(rows[k], owner, now + leaseSeconds) else rows[k]
      {
        assert uploads[i] == rows[i];
        if i in ids {
          uploads := uploads[i := Renew(uploads[i], owner, now + leaseSeconds)];
        }
      }
    }

    method ClaimCandidates(limit: nat, locked: set<nat>, now: int) returns (ids: seq<nat>)
      ensures OldestCandidates(uploads, limit, locked, now, ids)
    {
      ids := [];
      for i := 0 to |uploads|
        invariant |ids| <= limit && Increasing(ids)
        invariant forall k :: 0 <= k < |ids| ==> ids[k] < i
        invariant forall id :: id in ids ==> id < |uploads| && id !in locked && Claimable(uploads[id], now)
        invariant forall id: nat :: id < i && id !in locked && Claimable(uploads[id], now) && id !in ids ==>
          |ids| == limit && forall other :: other in ids ==> other < id
      {
        if |ids| < limit && i !in locked && Claimable(uploads[i], now) {
          ids := ids + [i];
        }
      }
    }

    method ClaimQuarantinedUpload(id: nat, owner: string, leaseSeconds: int, now: int) returns (claimed: bool)
      modifies this`uploads
      ensures claimed == Claims(old(uploads), ClaimOne(id, owner, leaseSeconds), id, now)
      ensures claimed <==>
        id < |old(uploads)| && old(uploads)[id].status == Pending && old(uploads)[id].expiresAt > now
      ensures claimed ==> uploads == old(uploads)[id :=
        old(uploads)[id].(status := Promoting, lease := Some(Lease(owner, now + leaseSeconds)))]
      ensures !claimed ==> uploads == old(uploads)
      ensures forall limits :: uploads == Execute(limits, old(uploads), ClaimOne(id, owner, leaseSeconds), now)
    {
      claimed := id < |uploads| && uploads[id].status == Pending && uploads[id].expiresAt > now;
      if claimed {
        uploads := uploads[id := Renew(uploads[id], owner, now + leaseSeconds)];
      }
    }

    method RestoreQuarantinePending(id: nat, reason: Option<string>)
      modifies this`uploads
      ensures forall limits, now :: uploads == Execute(limits, old(uploads), Restore(id, reason), now)
      ensures |uploads| == |old(uploads)| && forall i :: 0 <= i < |uploads| ==> var u := old(uploads)[i];
        uploads[i] == if i == id && u.status == Promoting
          then u.(status := Pending, lease := None, reasonCode := reason) else u
    {
      if id < |uploads| && uploads[id].status == Promoting {
        uploads := uploads[id := uploads[id].(status := Pending, lease := None, reasonCode := reason)];
      }
    }

    method RejectQuarantinedUpload(id: nat, code: string)
      modifies this`uploads
      ensures forall limits, now :: uploads == Execute(limits, old(uploads), Reject(id, code), now)
      ensures |uploads| == |old(uploads)| && forall i :: 0 <= i < |uploads| ==> var u := old(uploads)[i];
        uploads[i] == if i == id then u.(status := Rejected, lease := None, reasonCode := Some(code)) else u
    {
      if id < |uploads| {
        uploads := uploads[id := uploads[id].(status := Rejected, lease := None, reasonCode := Some(code))];
      }
    }

    method ExpireQuarantinedUploads(limit: nat, locked: set<nat>, now: int) returns (ids: seq<nat>)
      modifies this`uploads
      ensures EarliestCandidates(old(uploads), limit, locked, now, ids)
      ensures forall limits :: uploads == Execute(limits, old(uploads), ExpireBatch(Chosen(ids)), now)
      ensures |uploads| == |old(uploads)| && forall i :: 0 <= i < |uploads| ==> var u := old(uploads)[i];
        uploads[i] == if i in ids && (u.status == Pending || u.status == Promoting)
          then u.(status := Expired, lease := None, reasonCode := Some("EXPIRED")) else u
      ensures forall i :: 0 <= i < |uploads| && i !in locked ==> var u := old(uploads)[i];
        var quiet := (u.status != Pending && u.status != Promoting) || u.expiresAt <= now;
        && (i in ids ==> quiet && !u.privateObjectDeleted)
        && (quiet && !u.privateObjectDeleted ==>
          i in ids || (|ids| == limit && EarlierThan(old(uploads), ids, u.expiresAt)))
    {
      ids := SweepCandidates(limit, locked, now);
      ghost var rows := uploads;
      for i := 0 to |uploads|
        invariant |uploads| == |rows| && uploads[i..] == rows[i..]
        invariant forall k :: 0 <= k < i ==> uploads[k] == if k in ids then Uploads.Sweep(rows[k]) else rows[k]
      {
        assert uploads[i] == rows[i];
        if i in ids {
          uploads := uploads[i := Uploads.Sweep(uploads[i])];
        }
      }
    }

    method SweepCandidates(limit: nat, locked: set<nat>, now: int) returns (ids: seq<nat>)
      ensures EarliestCandidates(uploads, limit, locked, now, ids)
    {
      ids := [];
      var next := NextToSweep(ids, locked, now);
      while |ids| < limit && next.Some?
        invariant |ids| <= limit && Uploads.Distinct(ids) && forall id :: id in ids ==>
          Sweeping(uploads, locked, now, id)
        invariant ByExpiry(uploads, ids)
        invariant forall id: nat, other: nat :: Sweeping(uploads, locked, now, id) && id !in ids && other in ids ==>
          uploads[other].expiresAt <= uploads[id].expiresAt
        invariant FirstRemaining(uploads, |uploads|, locked, now, ids, next)
        decreases limit - |ids|
      {
        assert ByExpiry(uploads, ids + [next.value]) by { assert forall k :: 0 <= k < |ids| ==> ids[k] in ids; }
        ids := ids + [next.value];
        next := NextToSweep(ids, locked, now);
      }
    }

    /** The remaining candidate that expires first. */
    method NextToSweep(ids: seq<nat>, locked: set<nat>, now: int) returns (next: Option<nat>)
      ensures FirstRemaining(uploads, |uploads|, locked, now, ids, next)
    {
      next := None;
      for i := 0 to |uploads|
        invariant FirstRemaining(uploads, i, locked, now, ids, next)
      {
        if i !in locked && Sweepable(uploads[i], now) && i !in ids
          && (next.None? || uploads[i].expiresAt < uploads[next.value].expiresAt) {
          next := Some(i);
        }
      }
    }

    method MarkPrivateObjectDeleted(id: nat)
      modifies this`uploads
      ensures forall limits, now :: uploads == Execute(limits, old(uploads), MarkDeleted(id), now)
      ensures |uploads| == |old(uploads)| && forall i :: 0 <= i < |uploads| ==>
        uploads[i] == old(uploads)[i].(privateObjectDeleted := i == id || old(uploads)[i].privateObjectDeleted)
    {
      if id < |uploads| && !uploads[id].privateObjectDeleted {
        uploads := uploads[id := uploads[id].(privateObjectDeleted := true)];
      }
    }

    // -------------------------------------------------------------- publication

    method FindRecord(subject: string) returns (found: Option<nat>)
      ensures found == RecordOf(records, subject)
    {
      found := None;
      for i := 0 to |records|
        invariant found == RecordOf(records[..i], subject)
      {
        assert records[..i + 1][..i] == records[..i];
        if records[i].subjectId == subject {
          found := Some(i);
        }
      }
      assert records[..|records|] == records;
    }

    /** The owner-state upsert shared by publication and by direct corrections. */
    method SetOwnerState(a: Assignment)
      modifies this`owners
      ensures owners == Assign(old(owners), a)
      ensures owners.Keys == old(owners).Keys + {a.recordId}
      ensures forall j :: j in old(owners) && j != a.recordId ==> owners[j] == old(owners)[j]
      ensures owners[a.recordId].holding.owner == Lower(a.owner) && owners[a.recordId].holding.account == a.account
        && owners[a.recordId].holding.lastEventId == a.lastEventId
      ensures a.recordId in old(owners) ==>
        var before, after := old(owners)[a.recordId], owners[a.recordId];
        var same := after.holding.owner == before.holding.owner && after.holding.account == before.holding.account
                    && after.holding.lastEventId == before.holding.lastEventId;
        after.version == if same then before.version else before.version + 1
      ensures a.recordId !in old(owners) ==> owners[a.recordId].version == 1
    {
      var version := 1;
      if a.recordId in owners {
        var current := owners[a.recordId];
        version := current.version;
        if current.holding.owner != Lower(a.owner) || current.holding.account != a.account
          || current.holding.lastEventId != a.lastEventId {
          version := version + 1;
        }
      }
      owners := owners[a.recordId := OwnerState(Holding(Lower(a.owner), a.account, a.lastEventId), version)];
    }

    /** fault is the statement that throws: 0 the record upsert, 1 the owner state, 2 the row, 3 the
        notification; the transaction then leaves every table as it was. */
    method PublishQuarantinedUpload(id: nat, p: Prepared, replay: ReplayState, fault: Option<nat>, now: int)
      returns (r: Result<Transition>)
      modifies this`uploads, this`records, this`owners
      ensures r.Ok? <==> Publishable(old(uploads), id, now) && !(fault.Some? && fault.value <= 3)
      ensures r.Ok? ==>
        && id < |old(uploads)| && old(uploads)[id].status == Promoting && old(uploads)[id].expiresAt > now
        && uploads == old(uploads)[id := old(uploads)[id].(status := Available, lease := None)]
      ensures r.Err? ==> uploads == old(uploads) && records == old(records) && owners == old(owners)
      ensures r.Ok? ==> WritesRecord(old(records), records, r.value.recordId, p)
      ensures r.Ok? ==> WritesOwner(old(owners), owners, r.value, replay)
      ensures r.Ok? ==>
        var recordId := RecordIdFor(old(records), p);
        && (forall limits :: uploads == Execute(limits, old(uploads), Publish(id), now))
        && records == UpsertRecord(old(records), p)
        && owners == Assign(old(owners), AssignmentOf(recordId, replay))
        && r.value == Transition(recordId, replay.ownerAccount, owners[recordId].version)
    {
      var begin := (uploads, records, owners);
      if !(id < |uploads| && uploads[id].status == Promoting && uploads[id].expiresAt > now) {
        return Err("QUARANTINE_UPLOAD_NOT_PROMOTABLE");
      }
      if fault == Some(0) {
        return Err("record");
      }
      var found := FindRecord(Lower(p.subjectId));
      PublicationProofs.RecordOfFinds(records, Lower(p.subjectId));
      var recordId := if found.Some? then found.value else |records|;
      records := if found.Some? then records[recordId := RecordFrom(p)] else records + [RecordFrom(p)];
      if fault == Some(1) {
        records := begin.1;
        return Err("owner state");
      }
      SetOwnerState(Assignment(recordId, replay.owner, replay.ownerAccount, replay.latestAppliedPublicEventId));
      if fault == Some(2) {
        records, owners := begin.1, begin.2;
        return Err("row");
      }
      uploads := uploads[id := uploads[id].(status := Available, lease := None)];
      if fault == Some(3) {
        uploads, records, owners := begin.0, begin.1, begin.2;
        return Err("notification");
      }
      r := Ok(Transition(recordId, replay.ownerAccount, owners[recordId].version));
    }

    /** The record identifiers listed for an account; both tables are joined on the identifier. */
    method ListAvailableOwnablesByOwnerAccount(account: string) returns (ids: set<nat>)
      ensures forall j :: j in ids <==> j in owners && j < |records| && owners[j].holding.account == Some(account)
    {
      ids := {};
      for j := 0 to |records|
        invariant forall k :: k in ids <==> k in owners && k < j && owners[k].holding.account == Some(account)
      {
        if j in owners && owners[j].holding.account == Some(account) {
          ids := ids + {j};
        }
      }
    }

    // -------------------------------------------------------------- leases

    method AcquireIngressLease(s: IngressSettings, id: nat, now: int) returns (r: Result<nat>)
      modifies this`ingress
      ensures var expected := AcquireIngress(s, old(ingress), id, now);
        && (expected.Ok? ==> r == Ok(id) && ingress == expected.value)
        && (expected.Err? ==> r == Err(expected.error) && ingress == old(ingress))
    {
      var begin := ingress;
      ingress := ingress.(leases := UnexpiredIngress(ingress.leases, now));
      ingress := ingress.(requests := Recent(ingress.requests, now - s.windowSeconds));
      if |ingress.requests| >= s.maxRequests {
        ingress := begin;
        return Err("UPLOAD_RATE_LIMITED");
      }
      if |ingress.leases| >= s.concurrency {
        ingress := begin;
        return Err("QUARANTINE_CAPACITY_EXHAUSTED");
      }
      ingress := ingress.(requests := ingress.requests + [now]);
      ingress := ingress.(leases := ingress.leases + [IngressLease(id, now + s.leaseSeconds)]);
      r := Ok(id);
    }

    method ReleaseIngressLease(id: nat)
      modifies this`ingress
      ensures ingress == ReleaseIngress(old(ingress), id)
    {
      ingress := ingress.(leases := Where(ingress.leases, (l: IngressLease) => l.id != id));
    }

    method AcquireProcessingLease(s: ProcessingSettings, id: nat, reservedBytes: nat, now: int)
      returns (r: Result<nat>)
      modifies this`processing
      ensures var expected := AcquireProcessing(s, old(processing), id, reservedBytes, now);
        && (expected.Ok? ==> r == Ok(id) && processing == expected.value)
        && (expected.Err? ==> r == Err(expected.error) && processing == old(processing))
    {
      var begin := processing;
      processing := UnexpiredProcessing(processing, now);
      var bytes := 0;
      for i := 0 to |processing|
        invariant bytes == Reserved(processing[..i])
      {
        assert processing[..i + 1][..i] == processing[..i];
        bytes := bytes + processing[i].reservedBytes;
      }
      assert processing[..|processing|] == processing;
      if |processing| >= s.concurrency || bytes + reservedBytes > s.maxReservedBytes {
        processing := begin;
        return Err("QUARANTINE_CAPACITY_EXHAUSTED");
      }
      if reservedBytes == 0 {
        processing := begin;
        return Err("violates check constraint");
      }
      processing := processing + [ProcessingLease(id, reservedBytes, now + s.leaseSeconds)];
      r := Ok(id);
    }

    method ReleaseProcessingLease(id: nat)
      modifies this`processing
      ensures processing == ReleaseProcessing(old(processing), id)
    {
      processing := Where(processing, (l: ProcessingLease) => l.id != id);
    }

    // -------------------------------------------------------------- indexing

    method GetIndexerCursor(id: Indexing.Identity) returns (cursor: Option<Indexing.Cursor>)
      ensures cursor == Indexing.CursorOf(indexed, id)
      ensures var key := Indexing.Identity(id.slotName, id.chainId, Lower(id.contract));
        cursor == if key in indexed.cursors then Some(indexed.cursors[key]) else None
    {
      var key := id.(contract := Lower(id.contract));
      cursor := if key in indexed.cursors then Some(indexed.cursors[key]) else None;
    }

    /** fault is the statement that throws, counting anchor events, then public events, then the cursor;
        a public event with a missing part makes its own statement throw. */
    method WithIndexerPersistenceTransaction(id: Indexing.Identity, windowTo: nat, tail: Option<Indexing.Tail>,
            anchorEvents: seq<Indexing.Event>, publicEvents: seq<Indexing.Event>, fault: Option<nat>)
      returns (ok: bool)
      modifies this`indexed
      ensures ok <==>
        !(fault.Some? && fault.value <= |anchorEvents| + |publicEvents|) && Indexing.AllStorable(publicEvents)
      ensures ok <==>
        && (fault.None? || fault.value > |anchorEvents| + |publicEvents|)
        && forall e :: e in publicEvents && e.payload.Public? ==>
             && e.payload.subjectId.Some? && e.payload.sourceAddress.Some? && e.payload.eventType.Some?
             && e.payload.dataHex.Some? && e.timestamp.Some?
      ensures !ok ==> indexed == old(indexed)
      ensures ok ==> indexed == Indexing.Tables(
          old(indexed).cursors[Indexing.Canon(id) := Indexing.Cursor(Indexing.Canon(id), windowTo + 1, windowTo, tail)],
          Indexing.Upsert(old(indexed).anchors, id, anchorEvents),
          Indexing.Upsert(old(indexed).publics, id, publicEvents))
      ensures ok ==>
        var key := Indexing.Identity(id.slotName, id.chainId, Lower(id.contract));
        indexed.cursors == old(indexed).cursors[key := Indexing.Cursor(key, windowTo + 1, windowTo, tail)]
    {
      var begin := indexed;
      for i := 0 to |anchorEvents|
        invariant indexed == begin.(anchors := Indexing.Upsert(begin.anchors, id, anchorEvents[..i]))
        invariant fault.Some? ==> fault.value >= i
      {
        if fault == Some(i) {
          indexed := begin;
          return false;
        }
        assert anchorEvents[..i + 1][..i] == anchorEvents[..i];
        var e := anchorEvents[i];
        indexed := indexed.(anchors := indexed.anchors[Indexing.KeyOf(id, e) := Indexing.RowOf(id, e)]);
      }
      assert anchorEvents[..|anchorEvents|] == anchorEvents;
      for i := 0 to |publicEvents|
        invariant indexed == begin.(anchors := Indexing.Upsert(begin.anchors, id, anchorEvents),
                                    publics := Indexing.Upsert(begin.publics, id, publicEvents[..i]))
        invariant fault.Some? ==> fault.value >= |anchorEvents| + i
        invariant Indexing.AllStorable(publicEvents[..i])
      {
        if fault == Some(|anchorEvents| + i) || !Indexing.Storable(publicEvents[i]) {
          indexed := begin;
          return false;
        }
        assert publicEvents[..i + 1][..i] == publicEvents[..i];
        var e := publicEvents[i];
        indexed := indexed.(publics := indexed.publics[Indexing.KeyOf(id, e) := Indexing.RowOf(id, e)]);
      }
      assert publicEvents[..|publicEvents|] == publicEvents;
      if fault == Some(|anchorEvents| + |publicEvents|) {
        indexed := begin;
        return false;
      }
      var key := id.(contract := Lower(id.contract));
      indexed := indexed.(cursors := indexed.cursors[key := Indexing.Cursor(key, windowTo + 1, windowTo, tail)]);
      ok := true;
    }
  }
}
