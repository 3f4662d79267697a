/** The quarantine service: staging with its compensating failure path, cleanup sweeps, and lease
    acquisition, over the repository and the private bucket. */
module Quarantine {
  import opened Basics
  import opened Storage
  import opened Uploads
  import opened Leases
  import opened Repository
  import Promotion

  datatype Settings = Settings(
    limits: Limits,
    leaseSeconds: int,
    promotionBatchSize: nat,
    cleanupBatchSize: nat,
    ingressConcurrency: nat,
    rateLimitWindowSeconds: nat,
    rateLimitMaxRequests: nat,
    processingConcurrency: nat,
    maxExpandedProcessingBytes: nat)

  /** What a cleanup of one row does to rows and objects; its object may fail to be removed, or its
      row fail to be marked. Both failures are logged and swallowed. */
  datatype Fault = NoFault | RemovalFails | MarkingFails

  datatype Store = Store(rows: Table, objects: Objects)

  function Mark(rows: Table, id: nat): Table {
    if id < |rows| then rows[id := rows[id].(privateObjectDeleted := true)] else rows
  }

  function CleanupOne(s: Store, id: nat, key: string, fault: Fault): Store {
    if Promotion.IsReferenced(s.rows, key) || fault == RemovalFails then s
    else Store(if fault == MarkingFails then s.rows else Mark(s.rows, id), s.objects - {key})
  }

  function CleanupEach(s: Store, ids: seq<nat>, faults: nat -> Fault): Store {
    if ids == [] then s
    else
      var before, id := CleanupEach(s, ids[..|ids| - 1], faults), ids[|ids| - 1];
      if id < |before.rows| then CleanupOne(before, id, before.rows[id].privateObjectKey, faults(id)) else before
  }

  /** One sweep over the candidates it selected. */
  function Pass(limits: Limits, s: Store, ids: seq<nat>, faults: nat -> Fault, now: int): Store {
    CleanupEach(s.(rows := Execute(limits, s.rows, ExpireBatch(Chosen(ids)), now)), ids, faults)
  }

  datatype Retry = NoRetry | AlreadyPending(id: nat) | AlreadyAvailable(recordId: nat)

  /** The answer is an active row with the very bytes of the upload. */
  ghost predicate AnswersFor(rows: Table, input: NewUpload, r: Result<nat>) {
    r.Ok? && r.value < |rows| && Active(rows[r.value]) && rows[r.value].uploadDigest == input.uploadDigest
  }

  /** How staging ends once the object is stored and rows is what the insertion finds. */
  ghost predicate Settles(limits: Limits, objects: Objects, rows: Table, input: NewUpload, contents: Bytes, now: int,
          after: Store, r: Result<nat>) {
    var key := input.privateObjectKey;
    var stored := if key in objects then objects else objects[key := contents];
    if Uploads.Insert(limits, rows, input, now).Ok? then
      r == Ok(|rows|) && after == Store(ExpireDue(rows, now) + [NewRow(limits, input, now)], stored)
    else if Promotion.HasPending(rows, input.uploadDigest) then
      AnswersFor(rows, input, r) && after == Store(rows, stored)
    else
      && after == Store(rows, if Promotion.IsReferenced(rows, key) then stored else objects - {key})
      && r == Err(if Promotion.HasPendingSubject(rows, input.subjectId) then "OWNABLE_UPLOAD_CONFLICT"
        else "QUARANTINE_CAPACITY_EXHAUSTED")
  }

  lemma {:induction false} SettlingSucceedsExactlyWhen(limits: Limits, objects: Objects, rows: Table, input: NewUpload,
          contents: Bytes, now: int, after: Store, r: Result<nat>)
    requires Settles(limits, objects, rows, input, contents, now, after, r)
    ensures r.Ok? <==> Uploads.Insert(limits, rows, input, now).Ok? || Promotion.HasPending(rows, input.uploadDigest)
  {
  }

  /** Staging succeeds: the bytes are staged already, or the subject is free and either the row can be
      inserted or another process has staged the same bytes in the meantime. */
  predicate StagingSucceeds(limits: Limits, swept: Table, rows: Table, input: NewUpload, now: int) {
    || Promotion.HasPending(swept, input.uploadDigest)
    || (!Promotion.HasPendingSubject(swept, input.subjectId) &&
        (Uploads.Insert(limits, rows, input, now).Ok? || Promotion.HasPending(rows, input.uploadDigest)))
  }

  /** How staging ends: swept is what its own sweep leaves, rows what its insertion finds. */
  ghost predicate Stages(limits: Limits, swept: Store, rows: Table, input: NewUpload, contents: Bytes, now: int,
          after: Store, r: Result<nat>) {
    if Promotion.HasPending(swept.rows, input.uploadDigest) then AnswersFor(swept.rows, input, r) && after == swept
    else if Promotion.HasPendingSubject(swept.rows, input.subjectId) then r == Err("OWNABLE_UPLOAD_CONFLICT")
      && after == swept
    else Settles(limits, swept.objects, rows, input, contents, now, after, r)
  }

  class QuarantineService {
    const settings: Settings
    const promoterId: string
    const repository: HubStateRepository
    const storage: QuarantineStorageService

    constructor (settings: Settings, promoterId: string, repository: HubStateRepository,
            storage: QuarantineStorageService)
      ensures this.settings == settings && this.promoterId == promoterId
      ensures this.repository == repository && this.storage == storage
    {
      this.settings, this.promoterId, this.repository, this.storage := settings, promoterId, repository, storage;
    }

    ghost function State(): Store
      reads repository, storage.bucket
    {
      Store(repository.uploads, storage.bucket.objects)
    }

    /** An upload of bytes that are already pending, or already available, is answered without work. */
    method FindExactRetry(digest: string) returns (r: Retry)
      ensures r.AlreadyPending? <==> Promotion.HasPending(repository.uploads, digest)
      ensures r.AlreadyPending? <==>
        exists i :: i in ActiveRows(repository.uploads) && repository.uploads[i].uploadDigest == digest
      ensures r.AlreadyAvailable? <==> !r.AlreadyPending? && exists j ::
        0 <= j < |repository.records| && repository.records[j].uploadDigest == digest
      ensures r.AlreadyAvailable? <==>
        !Promotion.HasPending(repository.uploads, digest) && Promotion.HasAvailable(repository.records, digest)
      ensures r.AlreadyPending? ==>
        r.id < |repository.uploads| && Active(repository.uploads[r.id])
          && repository.uploads[r.id].uploadDigest == digest
      ensures r.AlreadyAvailable? ==>
        r.recordId < |repository.records| && repository.records[r.recordId].uploadDigest == digest
    {
      var pending := repository.FindActiveQuarantineByDigest(digest);
      if pending.Some? {
        return AlreadyPending(pending.value);
      }
      var records := repository.records;
      for i := 0 to |records|
        invariant !Promotion.HasAvailable(records[..i], digest)
      {
        if records[i].uploadDigest == digest {
          return AlreadyAvailable(i);
        }
      }
      r := NoRetry;
    }

    method CleanupPrivateObject(id: nat, key: string, fault: Fault)
      modifies repository`uploads, storage.bucket
      ensures State() == CleanupOne(old(State()), id, key, fault)
      ensures var rows, objects := old(repository.uploads), old(storage.bucket.objects);
        var kept := fault == RemovalFails || exists i :: i in ActiveRows(rows) && rows[i].privateObjectKey == key;
        && storage.bucket.objects == (if kept then objects else objects - {key})
        && |repository.uploads| == |rows|
        && forall i :: 0 <= i < |rows| ==>
             var marked := i == id && !kept && fault != MarkingFails;
             repository.uploads[i] == if marked then rows[i].(privateObjectDeleted := true) else rows[i]
    {
      var referenced := repository.PrivateObjectIsReferenced(key);
      if !referenced {
        if fault == RemovalFails {
          return;
        }
        storage.Remove(key);
        if fault == MarkingFails {
          return;
        }
        ghost var rows := repository.uploads;
        repository.MarkPrivateObjectDeleted(id);
        assert repository.uploads == Execute(settings.limits, rows, MarkDeleted(id), 0);
      }
    }

    method Cleanup(locked: set<nat>, faults: nat -> Fault, now: int) returns (ids: seq<nat>)
      modifies repository`uploads, storage.bucket
      ensures EarliestCandidates(old(repository.uploads), settings.cleanupBatchSize, locked, now, ids)
      ensures State() == Pass(settings.limits, old(State()), ids, faults, now)
    {
      ids := repository.ExpireQuarantinedUploads(settings.cleanupBatchSize, locked, now);
      ghost var expired := State();
      assert expired == old(State()).(rows :=
        Execute(settings.limits, old(repository.uploads), ExpireBatch(Chosen(ids)), now));
      for i := 0 to |ids|
        invariant State() == CleanupEach(expired, ids[..i], faults)
        invariant |repository.uploads| == |expired.rows|
      {
        assert ids[..i + 1][..i] == ids[..i];
        assert ids[i] in ids;
        CleanupPrivateObject(ids[i], repository.uploads[ids[i]].privateObjectKey, faults(ids[i]));
      }
      assert ids[..|ids|] == ids;
    }

    /** Statements other processes commit on the uploads table in the meantime. */
    method OtherProcesses(others: seq<Issued>)
      modifies repository`uploads
      ensures repository.uploads == After(settings.limits, old(repository.uploads), others)
    {
      ghost var rows := repository.uploads;
      for i := 0 to |others|
        invariant repository.uploads == After(settings.limits, rows, others[..i])
      {
        assert others[..i + 1][..i] == others[..i];
        repository.uploads := Execute(settings.limits, repository.uploads, others[i].statement, others[i].now);
      }
      assert others[..|others|] == others;
    }

    /** Staging, with whatever other processes commit between the look-ups and the insertion. The
        object is stored before the row is inserted; when the insertion fails, the same bytes staged
        by another process answer for this upload, and otherwise the object is removed again unless
        some active row refers to it. */
    method Stage(input: NewUpload, contents: Bytes, locked: set<nat>, faults: nat -> Fault, others: seq<Issued>,
            now: int)
      returns (r: Result<nat>, ghost ids: seq<nat>, ghost swept: Store, ghost rows: Table)
      requires input.privateObjectKey == UploadKey(input.uploadDigest)
      modifies repository`uploads, storage.bucket
      ensures EarliestCandidates(old(repository.uploads), settings.cleanupBatchSize, locked, now, ids)
      ensures swept == Pass(settings.limits, old(State()), ids, faults, now)
      ensures rows == After(settings.limits, swept.rows, others)
      ensures Stages(settings.limits, swept, rows, input, contents, now, State(), r)
      ensures r.Ok? <==> StagingSucceeds(settings.limits, swept.rows, rows, input, now)
      ensures r.Ok? ==> r.value < |repository.uploads| && repository.uploads[r.value].uploadDigest == input.uploadDigest
      ensures r.Ok? ==> Active(repository.uploads[r.value])
    {
      hide Pass, After, EarliestCandidates, Settles, Uploads.Insert;
      ids := Cleanup(locked, faults, now);
      swept := State();
      rows := After(settings.limits, swept.rows, others);
      var existing := repository.FindActiveQuarantineByDigest(input.uploadDigest);
      if existing.Some? {
        return Ok(existing.value), ids, swept, rows;
      }
      var activeSubject := repository.FindActiveQuarantineBySubjectId(input.subjectId);
      if activeSubject.Some? {
        return Err("OWNABLE_UPLOAD_CONFLICT"), ids, swept, rows;
      }
      OtherProcesses(others);
      r := StoreAndInsert(input, contents, now);
      SettlingSucceedsExactlyWhen(settings.limits, swept.objects, rows, input, contents, now, State(), r);
    }

    method StoreAndInsert(input: NewUpload, contents: Bytes, now: int) returns (r: Result<nat>)
      requires input.privateObjectKey == UploadKey(input.uploadDigest)
      modifies repository`uploads, storage.bucket
      ensures Settles(settings.limits, old(storage.bucket.objects), old(repository.uploads), input, contents, now,
        State(), r)
      ensures r.Ok? ==> r.value < |repository.uploads| && repository.uploads[r.value].uploadDigest == input.uploadDigest
      ensures r.Ok? ==> Active(repository.uploads[r.value])
    {
      hide Uploads.Insert, ExpireDue, Conflicts, OverBudget, Promotion.IsReferenced, Promotion.HasPendingSubject,
        HasRoom, IsTaken, Inserted;
      ghost var rows := repository.uploads;
      InsertionOutcome(settings.limits, rows, input, now);
      var key := storage.Store(input.uploadDigest, contents);
      var created := repository.CreateQuarantinedUpload(settings.limits, input, now);
      if created.Ok? {
        return created;
      }
      assert repository.uploads == rows;
      var matching := repository.FindActiveQuarantineByDigest(input.uploadDigest);
      if matching.Some? {
        return Ok(matching.value);
      }
      var referenced := repository.PrivateObjectIsReferenced(key);
      if !referenced {
        storage.Remove(key);
      }
      var activeSubject := repository.FindActiveQuarantineBySubjectId(input.subjectId);
      ConflictsAreVisible(rows, input, now);
      r := if activeSubject.Some? then Err("OWNABLE_UPLOAD_CONFLICT") else Err(created.error);
    }

    method AcquireIngress(id: nat, now: int) returns (r: Result<nat>)
      modifies repository`ingress
      ensures var s :=
        IngressSettings(settings.ingressConcurrency, settings.rateLimitWindowSeconds, settings.rateLimitMaxRequests,
          settings.leaseSeconds);
        var expected := Leases.AcquireIngress(s, old(repository.ingress), id, now);
        && (expected.Ok? ==> r == Ok(id) && repository.ingress == expected.value)
        && (expected.Err? ==> r == Err(expected.error) && repository.ingress == old(repository.ingress))
    {
      r := repository.AcquireIngressLease(
        IngressSettings(settings.ingressConcurrency, settings.rateLimitWindowSeconds, settings.rateLimitMaxRequests,
          settings.leaseSeconds), id, now);
    }

    /** Every processing lease reserves the whole byte budget. */
    method AcquireProcessing(id: nat, now: int) returns (r: Result<nat>)
      modifies repository`processing
      ensures var s :=
        ProcessingSettings(settings.processingConcurrency, settings.maxExpandedProcessingBytes, settings.leaseSeconds);
        var expected := Leases.AcquireProcessing(s, old(repository.processing), id, s.maxReservedBytes, now);
        && (expected.Ok? ==> r == Ok(id) && repository.processing == expected.value)
        && (expected.Err? ==> r == Err(expected.error) && repository.processing == old(repository.processing))
    {
      r := repository.AcquireProcessingLease(
        ProcessingSettings(settings.processingConcurrency, settings.maxExpandedProcessingBytes, settings.leaseSeconds),
        id, settings.maxExpandedProcessingBytes, now);
    }
  }

  lemma {:induction false} InsertionOutcome(limits: Limits, rows: Table, input: NewUpload, now: int)
    ensures var r := Uploads.Insert(limits, rows, input, now);
      if r.Ok? then r.value == ExpireDue(rows, now) + [NewRow(limits, input, now)] && |r.value| == |rows| + 1
      else r.error == "QUARANTINE_CAPACITY_EXHAUSTED" || Conflicts(ExpireDue(rows, now), input)
  {
  }

  /** Expiry makes no row active, so an index conflict always shows in one of the two look-ups. */
  lemma {:induction false} ConflictsAreVisible(rows: Table, input: NewUpload, now: int)
    ensures Conflicts(ExpireDue(rows, now), input) ==>
      Promotion.HasPending(rows, input.uploadDigest) || Promotion.HasPendingSubject(rows, input.subjectId)
  {
    if Conflicts(ExpireDue(rows, now), input) {
      var i :| 0 <= i < |rows| && Active(ExpireDue(rows, now)[i]) &&
        (ExpireDue(rows, now)[i].uploadDigest == input.uploadDigest
          || ExpireDue(rows, now)[i].subjectId == Lower(input.subjectId));
      assert Active(rows[i]);
    }
  }
}
