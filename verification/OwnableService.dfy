/** Uploading and promoting as the service runs them, with every exception handled where the code
    handles it. A promotion is shown to be the uninterrupted run of the protocol machine. */
module OwnableService {
  import opened Basics
  import opened Bundles
  import opened Storage
  import opened Uploads
  import opened Promotion
  import opened Driving
  import Leases
  import Quarantine
  import Repository
  import Ownership

  datatype Outcome =
    | Published(ownableId: string, cid: string, owner: string, ownerAccount: Option<string>)
    | Deferred(ownableId: string, expiresAt: int)
    | Refused

  /** A retry is answered without an owner, which only a publication derives. */
  datatype Answer =
    | AnswerPending(ownableId: string, expiresAt: int)
    | AnswerAvailable(created: bool, ownableId: string, cid: string, owner: Option<string>,
                      ownerAccount: Option<string>)

  /** The answer names the Ownable of this publication, its package, and the owner its replay derived. */
  predicate AnswersWith(a: Answer, e: Publication) {
    && a.AnswerAvailable? && a.created
    && a.ownableId == e.prepared.ownableId && a.cid == e.prepared.cid
    && a.owner == Some(e.replay.owner) && a.ownerAccount == e.replay.ownerAccount
  }

  /** The answer names the Ownable of an active row with these bytes, and when that row expires. */
  ghost predicate AnswersForRow(a: Answer, rows: Table, digest: string) {
    a.AnswerPending? && exists i :: i in ActiveRows(rows) && rows[i].uploadDigest == digest
                                    && rows[i].ownableId == a.ownableId && rows[i].expiresAt == a.expiresAt
  }

  /** The answer names the Ownable and the package of a record with these bytes. */
  ghost predicate AnswersForRecord(a: Answer, records: seq<Record>, digest: string) {
    a.AnswerAvailable? && !a.created && a.owner.None? && a.ownerAccount.None?
    && exists j :: 0 <= j < |records| && IsRetryOf(a, records[j], digest)
  }

  predicate IsRetryOf(a: Answer, r: Record, digest: string)
    requires a.AnswerAvailable?
  {
    r.uploadDigest == digest && r.ownableId == a.ownableId && r.packageCid == a.cid
  }

  /** What the Hub asks of an upload before it stages it. */
  predicate Admissible(rt: Runtime, h: Hub, buffer: Bytes) {
    PrepareUpload(rt.env, buffer).Ok? && Acceptable(rt, h, PrepareUpload(rt.env, buffer).value)
  }

  predicate Acceptable(rt: Runtime, h: Hub, p: Prepared) {
    var existing := RecordOf(h.records, p.subjectId);
    var replay := rt.replay(p.cid, p.eventChainBuffer, p.packageContent, h.evidence);
    && (existing.Some? && existing.value < |h.records| ==>
          IsStrictSuccessor(rt.env, h.archive, h.records[existing.value], p.eventChainBuffer))
    && replay.Some? && (HasOnlyMissingAnchorEvidence(replay.value) || PassesVerification(replay.value))
  }

  lemma {:induction false} ClaimedKeepsIdentity(limits: Limits, rows: Table, id: nat, owner: string, leaseSeconds: int,
          now: int)
    requires id < |rows|
    ensures var after := Execute(limits, rows, ClaimOne(id, owner, leaseSeconds), now);
      |after| == |rows| && SameIdentity(rows[id], after[id])
    ensures !Claims(rows, ClaimOne(id, owner, leaseSeconds), id, now) ==>
      Execute(limits, rows, ClaimOne(id, owner, leaseSeconds), now) == rows
  {
  }

  /** The Hub once a pending row is claimed by its uploader. */
  function ClaimedBy(rt: Runtime, h: Hub, id: nat, owner: string, leaseSeconds: int, now: int): Hub {
    h.(uploads := Execute(rt.limits, h.uploads, ClaimOne(id, owner, leaseSeconds), now))
  }

  /** The uploader's own promotion publishes: its claim succeeds and the promotion ends published. */
  predicate PublishesStaged(rt: Runtime, h: Hub, id: nat, owner: string, leaseSeconds: int, faults: Faults, now: int) {
    && Claims(h.uploads, ClaimOne(id, owner, leaseSeconds), id, now)
    && var c := ClaimedBy(rt, h, id, owner, leaseSeconds, now);
      id < |c.uploads| && EndsPublished(rt, c, id, c.uploads[id], faults, now)
  }

  /** What happened while an upload was staged: the rows its sweep selected, what that sweep left, the
      table its insertion found, the Hub afterwards and the row that answers. */
  datatype StagingRecord = StagingRecord(ids: seq<nat>, swept: Quarantine.Store, rows: Table, hub: Hub,
          result: Result<nat>)

  ghost predicate StagesAs(settings: Quarantine.Settings, before: Hub, input: NewUpload, buffer: Bytes,
          locked: set<nat>, cleanupFaults: nat -> Quarantine.Fault, others: seq<Issued>, now: int, g: StagingRecord) {
    && Repository.EarliestCandidates(before.uploads, settings.cleanupBatchSize, locked, now, g.ids)
    && g.swept ==
      Quarantine.Pass(settings.limits, Quarantine.Store(before.uploads, before.vault), g.ids, cleanupFaults, now)
    && g.rows == After(settings.limits, g.swept.rows, others)
    && g.hub == before.(uploads := g.hub.uploads, vault := g.hub.vault)
    && Quarantine.Stages(settings.limits, g.swept, g.rows, input, buffer, now,
                         Quarantine.Store(g.hub.uploads, g.hub.vault), g.result)
    && (g.result.Ok? <==> Quarantine.StagingSucceeds(settings.limits, g.swept.rows, g.rows, input, now))
  }

  /** A staged upload is answered: it lacks only anchors, or its own promotion publishes it. */
  ghost predicate Answered(rt: Runtime, g: StagingRecord, replay: ReplayState, owner: string, leaseSeconds: int,
          faults: Faults, now: int) {
    && g.result.Ok?
    && (|| HasOnlyMissingAnchorEvidence(replay)
        || PublishesStaged(rt, g.hub, g.result.value, owner, leaseSeconds, faults, now))
  }

  function LeaseSettings(settings: Quarantine.Settings): Leases.ProcessingSettings {
    Leases.ProcessingSettings(settings.processingConcurrency, settings.maxExpandedProcessingBytes,
      settings.leaseSeconds)
  }

  /** An accepted publication of bytes with this digest. */
  predicate PublishesBytes(e: Publication, digest: string) {
    e.prepared.uploadDigest == digest && PassesVerification(e.replay)
  }

  /** Whatever the order of its writes, the task's next statement leaves the state and ends here. */
  ghost predicate LeadsTo(rt: Runtime, h: Hub, task: Task, faults: Faults, next: Task, now: int) {
    forall order :: Advance(rt, h, task, faults(task), order, now) == Move(h, Some(next))
  }

  class Service {
    const rt: Runtime
    const quarantine: Quarantine.QuarantineService
    const repository: Repository.HubStateRepository
    const storage: QuarantineStorageService
    const archive: ArchiveStorageService
    ghost var contents: seq<Bytes>
    ghost var log: seq<Publication>

    constructor (rt: Runtime, quarantine: Quarantine.QuarantineService, archive: ArchiveStorageService)
      ensures this.rt == rt && this.quarantine == quarantine && this.archive == archive
      ensures repository == quarantine.repository && storage == quarantine.storage
    {
      this.rt, this.quarantine, this.archive := rt, quarantine, archive;
      repository, storage := quarantine.repository, quarantine.storage;
      contents, log := [], [];
    }

    ghost predicate Valid() {
      && repository == quarantine.repository && storage == quarantine.storage
      && storage.bucket != archive.bucket
    }

    /** Everything the service shares, as a state of the protocol machine without tasks. */
    ghost function View(): Hub
      reads this, repository, storage.bucket, archive.bucket
    {
      Hub(repository.uploads, repository.records, repository.owners, storage.bucket.objects, archive.bucket.objects,
          Evidence(repository.indexed.anchors, repository.indexed.publics), map[], contents, log)
    }

    method CleanupPrivateObject(id: nat, key: string, afterPublication: bool, faults: Faults, order: seq<string>,
            now: int) returns (threw: bool)
      requires Valid()
      modifies repository`uploads, storage.bucket
      ensures threw == faults(Releasing(id, key, afterPublication))
      ensures threw ==> View() == old(View())
      ensures !threw ==> View() == Drive(rt, old(View()), Releasing(id, key, afterPublication), faults, order, now)
    {
      hide Drive, IsReferenced, PrepareUpload, Execute;
      threw := faults(Releasing(id, key, afterPublication));
      if !threw {
        ghost var start := View();
        quarantine.CleanupPrivateObject(id, key,
          if faults(Removing(id, key)) then Quarantine.RemovalFails
          else if faults(Marking(id, key)) then Quarantine.MarkingFails else Quarantine.NoFault);
        CleanupDrives(rt, start, id, key, afterPublication, faults, order, now);
      }
    }

    /** What every failing path does: reject, then clean up. */
    method GiveUp(id: nat, key: string, code: string, faults: Faults, order: seq<string>, now: int)
      requires Valid()
      modifies repository`uploads, storage.bucket
      ensures View() == Drive(rt, old(View()), Rejecting(id, key, code), faults, order, now)
    {
      hide Drive, PrepareUpload, Execute;
      ghost var start := View();
      if faults(Rejecting(id, key, code)) {
        Driven(rt, start, Rejecting(id, key, code), faults, order, now, start, None);
        return;
      }
      repository.RejectQuarantinedUpload(id, code);
      ghost var rejected := View();
      assert repository.uploads == Execute(rt.limits, start.uploads, Reject(id, code), now);
      Driven(rt, start, Rejecting(id, key, code), faults, order, now, rejected, Some(Releasing(id, key, false)));
      var threw := CleanupPrivateObject(id, key, false, faults, order, now);
      if threw {
        Driven(rt, rejected, Releasing(id, key, false), faults, order, now, rejected, None);
      }
    }

    method PublishPreparedUpload(a: Judged, faults: Faults, order: seq<string>, now: int) returns (threw: bool)
      requires Valid() && forall name :: name in order <==> name in a.prepared.packageFiles
      modifies this, repository`uploads, repository`records, repository`owners, archive.bucket
      ensures var key := a.upload.privateObjectKey;
        Drive(rt, old(View()), Verified(a), faults, order, now) ==
        Drive(rt, View(), if threw then Refuse(a) else Releasing(a.id, key, true), faults, order, now)
      ensures !threw <==>
        !faults(Verified(a)) && !faults(ZipStored(a)) && !faults(ChainStored(a))
        && Publishable(old(repository.uploads), a.id, now)
      ensures threw ==> log == old(log)
      ensures !threw ==> log == old(log) + [PublicationOf(old(View()), a)]
    {
      hide Drive, Execute, UpsertRecord, RecordIdFor, Repository.WritesRecord, Repository.WritesOwner,
        Ownership.Assign, AssignmentOf, Publishable;
      threw := StoreParts(a, faults, order, now);
      if threw {
        return;
      }
      PublicationDrives(rt, View(), a, faults, order, now);
      threw := true;
      if faults(ChainStored(a)) {
        return;
      }
      ghost var before := View();
      var published := repository.PublishQuarantinedUpload(a.id, a.prepared, a.replay, None, now);
      if published.Err? {
        return;
      }
      assert repository.uploads == Execute(rt.limits, before.uploads, Publish(a.id), now);
      log := log + [Publication(a.id, RecordIdFor(before.records, a.prepared), a.prepared, a.replay, a.evidence)];
      assert View() == PublishTransaction(rt, before, a, now);
      threw := false;
    }

    /** Zip, assets and chain are archived before the publication transaction begins. */
    method StoreParts(a: Judged, faults: Faults, order: seq<string>, now: int) returns (threw: bool)
      requires Valid() && forall name :: name in order <==> name in a.prepared.packageFiles
      modifies archive.bucket
      ensures Drive(rt, old(View()), Verified(a), faults, order, now) ==
        Drive(rt, View(), if threw then Refuse(a) else ChainStored(a), faults, order, now)
      ensures threw <==> faults(Verified(a)) || faults(ZipStored(a))
      ensures View() == old(View()).(archive := archive.bucket.objects)
    {
      hide Drive, PutPackage, PutChain, StoresPackage, KeepsZip, NoSlash;
      ZipDrives(rt, View(), a, faults, order, now);
      if faults(Verified(a)) {
        return true;
      }
      archive.StorePackageArtifacts(a.prepared.cid, a.prepared.packageContent, a.prepared.packageFiles, order);
      ChainDrives(rt, View(), a, faults, order, now);
      if faults(ZipStored(a)) {
        return true;
      }
      var chainStorageKey :=
        archive.StoreImmutableEventChain(a.prepared.ownableId, a.prepared.eventChainDigest,
          a.prepared.eventChainBuffer);
      threw := false;
    }

    /** Loading and preparing the staged bytes under a processing lease; None when any of it throws. */
    method Rebuild(id: nat, upload: Uploads.Upload, faults: Faults, now: int) returns (next: Task)
      requires Valid()
      ensures next.Rebuilt? || next.Rejecting?
      ensures next.Rebuilt? <==> !faults(Claimed(id, upload)) && Reloads(rt, View(), upload)
      ensures next.Rebuilt? ==> next == Rebuilt(id, upload, Reloaded(rt, View(), upload))
      ensures next.Rejecting? ==>
        var objects := storage.bucket.objects;
        var unusable := faults(Claimed(id, upload)) || upload.privateObjectKey !in objects
                        || PrepareUpload(rt.env, objects[upload.privateObjectKey]).Err?;
        && next.id == id && next.key == upload.privateObjectKey
        && next.code == if unusable then "STAGED_UPLOAD_INVALID" else "STAGED_UPLOAD_IDENTITY_MISMATCH"
      ensures LeadsTo(rt, View(), Claimed(id, upload), faults, next, now)
    {
      hide PrepareUpload;
      var key := upload.privateObjectKey;
      var stored := storage.Read(key);
      next := Rejecting(id, key, STAGED_UPLOAD_INVALID);
      if !faults(Claimed(id, upload)) && stored.Some? {
        var prepared := Prepare(rt.env, stored.value);
        if prepared.Ok? {
          next := if MatchesRow(prepared.value, upload) then Rebuilt(id, upload, prepared.value)
          else Rejecting(id, key, STAGED_UPLOAD_IDENTITY_MISMATCH);
        }
      }
    }

    /** Replaying the prepared Ownable and deciding. */
    method Judge(id: nat, upload: Uploads.Upload, p: Prepared, faults: Faults, now: int) returns (next: Task)
      requires Valid()
      ensures next.Deferring? || next.Verified?
        || next == Rejecting(id, upload.privateObjectKey, PROMOTION_REPLAY_REJECTED)
      ensures var r, threw := ReplayNow(rt, View(), p), faults(Rebuilt(id, upload, p));
        && (next.Verified? <==> !threw && r.Some? && r.value.verified && !r.value.stale)
        && (next.Deferring? <==>
              && !threw && r.Some? && !r.value.verified
              && |r.value.anchors| > 0 && forall k :: k in r.value.anchors ==> r.value.anchors[k] == "")
      ensures next.Deferring? || next.Verified? ==>
        next.judged == Judged(id, upload, p, ReplayNow(rt, View(), p).value, View().evidence)
      ensures LeadsTo(rt, View(), Rebuilt(id, upload, p), faults, next, now)
    {
      hide PrepareUpload;
      next := Rejecting(id, upload.privateObjectKey, PROMOTION_REPLAY_REJECTED);
      var evidence := Evidence(repository.indexed.anchors, repository.indexed.publics);
      var replay := rt.replay(p.cid, p.eventChainBuffer, p.packageContent, evidence);
      if !faults(Rebuilt(id, upload, p)) && replay.Some? {
        var judged := Judged(id, upload, p, replay.value, evidence);
        if HasOnlyMissingAnchorEvidence(replay.value) {
          next := Deferring(judged);
        } else if PassesVerification(replay.value) {
          next := Verified(judged);
        }
      }
    }

    method Defer(a: Judged, faults: Faults, order: seq<string>, now: int) returns (threw: bool)
      requires Valid()
      modifies repository`uploads, storage.bucket
      ensures View() == Drive(rt, old(View()), Deferring(a), faults, order, now)
      ensures threw == faults(Deferring(a))
    {
      hide Drive, PrepareUpload, Execute;
      ghost var start := View();
      threw := faults(Deferring(a));
      if threw {
        Driven(rt, start, Deferring(a), faults, order, now, start, Some(Refuse(a)));
        GiveUp(a.id, a.upload.privateObjectKey, PROMOTION_REPLAY_REJECTED, faults, order, now);
      } else {
        repository.RestoreQuarantinePending(a.id, Some(MISSING_INDEXED_EVIDENCE));
        assert repository.uploads ==
          Execute(rt.limits, start.uploads, Restore(a.id, Some(MISSING_INDEXED_EVIDENCE)), now);
        Driven(rt, start, Deferring(a), faults, order, now, View(), None);
      }
    }

    /** One claimed upload, to its end: published, deferred for evidence alone, or refused. */
    method PromoteQuarantinedUpload(id: nat, upload: Uploads.Upload, faults: Faults, orderOf: Files -> seq<string>,
            now: int)
      returns (outcome: Outcome, order: seq<string>)
      requires Valid() && forall files, name :: name in orderOf(files) <==> name in files
      modifies this, repository`uploads, repository`records, repository`owners, storage.bucket, archive.bucket
      ensures View() == Drive(rt, old(View()), Claimed(id, upload), faults, order, now)
      ensures outcome.Published? <==> EndsPublished(rt, old(View()), id, upload, faults, now)
      ensures outcome.Deferred? <==> EndsDeferred(rt, old(View()), id, upload, faults)
      ensures outcome.Published? ==>
        var e := PublicationOf(old(View()), JudgedOf(rt, old(View()), id, upload, faults));
        && log == old(log) + [e]
        && outcome == Published(e.prepared.ownableId, e.prepared.cid, e.replay.owner, e.replay.ownerAccount)
      ensures outcome.Deferred? ==> outcome == Deferred(upload.ownableId, upload.expiresAt)
      ensures outcome.Deferred? ==> log == old(log) && archive.bucket.objects == old(archive.bucket.objects)
    {
      hide Drive, Advance, RecordIdFor, MatchesRow, PrepareUpload;
      ghost var start := View();
      outcome, order := Refused, [];
      var key := upload.privateObjectKey;
      var rebuilt := Rebuild(id, upload, faults, now);
      assert View() == start;
      assert LeadsTo(rt, start, Claimed(id, upload), faults, rebuilt, now);
      if rebuilt.Rejecting? {
        Driven(rt, start, Claimed(id, upload), faults, order, now, start, Some(rebuilt));
        GiveUp(id, key, rebuilt.code, faults, order, now);
        return;
      }
      order := orderOf(rebuilt.prepared.packageFiles);
      Driven(rt, start, Claimed(id, upload), faults, order, now, start, Some(rebuilt));
      var judgement := Judge(id, upload, rebuilt.prepared, faults, now);
      assert View() == start && rebuilt == Rebuilt(id, upload, rebuilt.prepared);
      Driven(rt, start, rebuilt, faults, order, now, start, Some(judgement));
      if judgement.Rejecting? {
        GiveUp(id, key, PROMOTION_REPLAY_REJECTED, faults, order, now);
        return;
      }
      OnlyMissingIsNotVerified(judgement.judged.replay);
      if judgement.Deferring? {
        var failed := Defer(judgement.judged, faults, order, now);
        outcome := if failed then Refused else Deferred(upload.ownableId, upload.expiresAt);
        return;
      }
      var threw := PublishPreparedUpload(judgement.judged, faults, order, now);
      if threw {
        GiveUp(id, key, PROMOTION_REPLAY_REJECTED, faults, order, now);
        return;
      }
      threw := CleanupPrivateObject(id, key, true, faults, order, now);
      if threw {
        ReleasingFallsBack(rt, View(), id, key, faults, order, now);
        GiveUp(id, key, PROMOTION_REPLAY_REJECTED, faults, order, now);
        return;
      }
      outcome := Published(rebuilt.prepared.ownableId, rebuilt.prepared.cid, judgement.judged.replay.owner,
        judgement.judged.replay.ownerAccount);
    }

    /** Is the chain a longer one that starts with every event of the record's stored chain? */
    method CheckStrictSuccessor(record: Record, chainBuffer: Bytes) returns (successor: bool)
      ensures successor == IsStrictSuccessor(rt.env, archive.bucket.objects, record, chainBuffer)
      ensures var stored := ReadEventChain(archive.bucket.objects, "", record.packageCid, Some(record.chainStorageKey));
        successor <==>
          && stored.Some? && rt.env.parseChain(stored.value).Some? && rt.env.parseChain(chainBuffer).Some?
          && var current, candidate :=
               rt.env.parseChain(stored.value).value.events, rt.env.parseChain(chainBuffer).value.events;
             |current| < |candidate| && forall i :: 0 <= i < |current| ==> current[i] == candidate[i]
    {
      var stored := archive.GetEventChain("", record.packageCid, Some(record.chainStorageKey));
      if stored.None? || rt.env.parseChain(stored.value).None? || rt.env.parseChain(chainBuffer).None? {
        return false;
      }
      var current, candidate :=
        rt.env.parseChain(stored.value).value.events, rt.env.parseChain(chainBuffer).value.events;
      if |candidate| <= |current| {
        return false;
      }
      for i := 0 to |current|
        invariant current[..i] == candidate[..i]
      {
        if current[i] != candidate[i] {
          assert current[i] == current[..|current|][i] && candidate[i] == candidate[..|current|][i];
          return false;
        }
      }
      assert current[..|current|] == current;
      successor := true;
    }

    /** The successor check and the replay of a prepared upload. */
    method Accept(p: Prepared) returns (accepted: Result<ReplayState>)
      ensures accepted.Ok? == Acceptable(rt, View(), p)
      ensures accepted.Ok? ==> Some(accepted.value) == ReplayNow(rt, View(), p)
    {
      hide IsStrictSuccessor, HasOnlyMissingAnchorEvidence, RecordOf;
      var existing := repository.FindRecord(p.subjectId);
      if existing.Some? && existing.value < |repository.records| {
        var successor := CheckStrictSuccessor(repository.records[existing.value], p.eventChainBuffer);
        if !successor {
          return Err("OWNABLE_UPLOAD_CONFLICT");
        }
      }
      var replay :=
        rt.replay(p.cid, p.eventChainBuffer, p.packageContent,
          Evidence(repository.indexed.anchors, repository.indexed.publics));
      if replay.None? {
        return Err("Unable to replay the Ownable");
      }
      if !HasOnlyMissingAnchorEvidence(replay.value) {
        if !replay.value.verified {
          return Err("UNVERIFIED_OWNABLE");
        }
        if replay.value.stale {
          return Err("STALE_OWNABLE");
        }
      }
      accepted := Ok(replay.value);
    }

    /** The uploader claims its own row, unless another promoter already has, and promotes it. */
    method PromoteStaged(id: nat, faults: Faults, orderOf: Files -> seq<string>, now: int) returns (outcome: Outcome)
      requires Valid() && id < |repository.uploads| && forall files, name :: name in orderOf(files) <==> name in files
      modifies this, repository`uploads, repository`records, repository`owners, storage.bucket, archive.bucket
      ensures outcome.Published? <==>
        PublishesStaged(rt, old(View()), id, quarantine.promoterId, quarantine.settings.leaseSeconds, faults, now)
      ensures outcome.Published? ==>
        |log| == |old(log)| + 1 && PassesVerification(log[|old(log)|].replay)
        && log[|old(log)|].uploadId == id && MatchesRow(log[|old(log)|].prepared, old(repository.uploads)[id])
        && var e := log[|old(log)|];
          outcome == Published(e.prepared.ownableId, e.prepared.cid, e.replay.owner, e.replay.ownerAccount)
      ensures !Claims(old(repository.uploads), ClaimOne(id, quarantine.promoterId, 0), id, now) ==>
        outcome == Refused && View() == old(View())
    {
      hide Execute, Drive, PrepareUpload;
      ghost var before := repository.uploads;
      var claimed :=
        repository.ClaimQuarantinedUpload(id, quarantine.promoterId, quarantine.settings.leaseSeconds, now);
      ClaimedKeepsIdentity(rt.limits, before, id, quarantine.promoterId, quarantine.settings.leaseSeconds, now);
      assert View() == ClaimedBy(rt, old(View()), id, quarantine.promoterId, quarantine.settings.leaseSeconds, now);
      if !claimed {
        return Refused;
      }
      var order;
      outcome, order := PromoteQuarantinedUpload(id, repository.uploads[id], faults, orderOf, now);
    }

    /** Preparation under a processing lease: a refused lease is the answer, and a granted one is
        released whatever the preparation gives. */
    method PrepareUnderLease(buffer: Bytes, leaseId: nat, now: int) returns (r: Result<Prepared>)
      requires Valid()
      modifies repository`processing
      ensures var s := LeaseSettings(quarantine.settings);
        var lease := Leases.AcquireProcessing(s, old(repository.processing), leaseId, s.maxReservedBytes, now);
        if lease.Ok? then
          r == PrepareUpload(rt.env, buffer) && repository.processing == Leases.ReleaseProcessing(lease.value, leaseId)
        else r == Err(lease.error) && repository.processing == old(repository.processing)
    {
      hide PrepareUpload;
      var lease := quarantine.AcquireProcessing(leaseId, now);
      if lease.Err? {
        return Err(lease.error);
      }
      r := Prepare(rt.env, buffer);
      repository.ReleaseProcessingLease(leaseId);
    }

    /** Staging an accepted upload and, unless it lacks anchors, promoting it at once. */
    method StageAndPublish(buffer: Bytes, p: Prepared, replay: ReplayState, locked: set<nat>,
            cleanupFaults: nat -> Quarantine.Fault, others: seq<Issued>, faults: Faults, orderOf: Files -> seq<string>,
            now: int)
      returns (r: Result<Answer>, ghost g: StagingRecord)
      requires Valid() && forall files, name :: name in orderOf(files) <==> name in files
      requires p.uploadDigest == rt.env.sha256(buffer)
      modifies this, repository`uploads, repository`records, repository`owners, storage.bucket, archive.bucket
      ensures StagesAs(quarantine.settings, old(View()), NewUploadOf(p, buffer), buffer, locked, cleanupFaults, others,
        now, g)
      ensures r.Ok? <==> Answered(rt, g, replay, quarantine.promoterId, quarantine.settings.leaseSeconds, faults, now)
      ensures r.Ok? ==> r.value.AnswerPending? == HasOnlyMissingAnchorEvidence(replay)
      ensures r.Ok? && r.value.AnswerPending? ==>
        AnswersForRow(r.value, repository.uploads, p.uploadDigest) && View() == g.hub
      ensures r.Ok? && r.value.AnswerAvailable? ==>
        && |log| == |old(log)| + 1 && PublishesBytes(log[|old(log)|], p.uploadDigest)
        && AnswersWith(r.value, log[|old(log)|])
    {
      hide PrepareUpload, PassesVerification, HasOnlyMissingAnchorEvidence, Drive, Execute, Quarantine.Pass,
        Quarantine.Stages, Quarantine.StagingSucceeds, Repository.EarliestCandidates, After, Claims, EndsPublished;
      var staged, ids, swept, rows :=
        quarantine.Stage(NewUploadOf(p, buffer), buffer, locked, cleanupFaults, others, now);
      g := StagingRecord(ids, swept, rows, View(), staged);
      if staged.Err? {
        return Err(staged.error), g;
      }
      if HasOnlyMissingAnchorEvidence(replay) {
        var row := repository.uploads[staged.value];
        assert staged.value in ActiveRows(repository.uploads);
        return Ok(AnswerPending(row.ownableId, row.expiresAt)), g;
      }
      var outcome := PromoteStaged(staged.value, faults, orderOf, now);
      if !outcome.Published? {
        return Err("Unable to publish verified Ownable"), g;
      }
      r := Ok(AnswerAvailable(true, outcome.ownableId, outcome.cid, Some(outcome.owner), outcome.ownerAccount));
    }

    /** One upload request. Bytes that are already pending or available are answered from the tables,
        and an upload that gets no processing lease or is not admissible leaves no trace. Otherwise it is
        answered exactly when its staging succeeds and it lacks only anchors or its own promotion
        publishes it; what is then published are these very bytes. */
    method UploadOwnable(buffer: Bytes, leaseId: nat, locked: set<nat>, cleanupFaults: nat -> Quarantine.Fault,
            others: seq<Issued>, faults: Faults, orderOf: Files -> seq<string>, now: int)
      returns (r: Result<Answer>, ghost g: StagingRecord)
      requires Valid() && forall files, name :: name in orderOf(files) <==> name in files
      modifies this, repository`uploads, repository`records, repository`owners, repository`processing, storage.bucket,
        archive.bucket
      ensures var digest, before := rt.env.sha256(buffer), old(View());
        var s := LeaseSettings(quarantine.settings);
        var leased := Leases.AcquireProcessing(s, old(repository.processing), leaseId, s.maxReservedBytes, now).Ok?;
        if |buffer| > MAX_UPLOAD_BYTES then
          r == Err("UPLOAD_TOO_LARGE") && View() == before
        else if HasPending(before.uploads, digest) then
          r.Ok? && AnswersForRow(r.value, before.uploads, digest) && View() == before
        else if HasAvailable(before.records, digest) then
          r.Ok? && AnswersForRecord(r.value, before.records, digest) && View() == before
        else if !leased || !Admissible(rt, before, buffer) then
          r.Err? && View() == before
        else
          var p := PrepareUpload(rt.env, buffer).value;
          var replay := ReplayNow(rt, before, p).value;
          var lacksAnchors := HasOnlyMissingAnchorEvidence(replay);
          && StagesAs(quarantine.settings, before, NewUploadOf(p, buffer), buffer, locked, cleanupFaults, others, now,
            g)
          && (r.Ok? <==> Answered(rt, g, replay, quarantine.promoterId, quarantine.settings.leaseSeconds, faults, now))
          && (r.Ok? ==> r.value.AnswerPending? == lacksAnchors)
          && (r.Ok? && lacksAnchors ==> AnswersForRow(r.value, repository.uploads, digest) && View() == g.hub)
          && (r.Ok? && !lacksAnchors ==>
                && |log| == |before.log| + 1 && PublishesBytes(log[|before.log|], digest)
                && AnswersWith(r.value, log[|before.log|]))
    {
      hide PrepareUpload, HasPending, HasAvailable, PassesVerification, HasOnlyMissingAnchorEvidence,
        IsStrictSuccessor, RecordOf, StagesAs, PublishesStaged, Leases.AcquireProcessing, Leases.ReleaseProcessing;
      g := StagingRecord([], Quarantine.Store([], map[]), [], NOTHING, Err(""));
      if |buffer| > MAX_UPLOAD_BYTES {
        return Err("UPLOAD_TOO_LARGE"), g;
      }
      var digest := rt.env.sha256(buffer);
      var retry := quarantine.FindExactRetry(digest);
      if retry.AlreadyPending? {
        var row := repository.uploads[retry.id];
        assert retry.id in ActiveRows(repository.uploads);
        return Ok(AnswerPending(row.ownableId, row.expiresAt)), g;
      }
      if retry.AlreadyAvailable? {
        var record := repository.records[retry.recordId];
        r := Ok(AnswerAvailable(false, record.ownableId, record.packageCid, None, None));
        assert IsRetryOf(r.value, repository.records[retry.recordId], digest);
        return;
      }
      var prepared := PrepareUnderLease(buffer, leaseId, now);
      assert View() == old(View());
      if prepared.Err? {
        return Err(prepared.error), g;
      }
      var accepted := Accept(prepared.value);
      if accepted.Err? {
        return Err(accepted.error), g;
      }
      PreparedPartsFitTogether(rt.env, buffer);
      r, g := StageAndPublish(buffer, prepared.value, accepted.value, locked, cleanupFaults, others, faults, orderOf,
        now);
    }
  }

  /** A sound upload is published: new bytes whose replay is verified and fresh, with a free subject and
      room in the quarantine, are staged and published by their own request when nothing throws and no
      other process interferes. */
  lemma {:induction false} SoundUploadIsPublished(rt: Runtime, settings: Quarantine.Settings, before: Hub,
          buffer: Bytes, locked: set<nat>, cleanupFaults: nat -> Quarantine.Fault, owner: string, faults: Faults,
          now: int, g: StagingRecord)
    requires !HasPending(before.uploads, rt.env.sha256(buffer)) && Admissible(rt, before, buffer)
    requires var p := PrepareUpload(rt.env, buffer).value;
      && PassesVerification(ReplayNow(rt, before, p).value)
      && StagesAs(settings, before, NewUploadOf(p, buffer), buffer, locked, cleanupFaults, [], now, g)
      && !HasPendingSubject(g.swept.rows, p.subjectId)
      && !OverBudget(settings.limits, ExpireDue(g.swept.rows, now), NewUploadOf(p, buffer))
      && (UploadKey(p.uploadDigest) in g.swept.objects ==> g.swept.objects[UploadKey(p.uploadDigest)] == buffer)
    requires Lower(PrepareUpload(rt.env, buffer).value.subjectId) == PrepareUpload(rt.env, buffer).value.subjectId
    requires settings.limits.retentionSeconds > 0 && forall task :: !faults(task)
    ensures g.result == Ok(|g.swept.rows|)
    ensures PublishesStaged(rt, g.hub, |g.swept.rows|, owner, settings.leaseSeconds, faults, now)
  {
    hide PrepareUpload, IsStrictSuccessor, HasOnlyMissingAnchorEvidence, Repository.EarliestCandidates, RecordOf,
      Quarantine.Pass, HasPending, HasPendingSubject, OverBudget, ExpireDue;
    var p := PrepareUpload(rt.env, buffer).value;
    PreparedPartsFitTogether(rt.env, buffer);
    SweepsKeepOthersOut(settings.limits, Quarantine.Store(before.uploads, before.vault), g.ids, cleanupFaults, now,
      p.uploadDigest);
    assert After(settings.limits, g.swept.rows, []) == g.swept.rows;
    FreeRowIsInserted(settings.limits, g.swept.rows, NewUploadOf(p, buffer), now);
    var rows := ExpireDue(g.swept.rows, now) + [NewRow(settings.limits, NewUploadOf(p, buffer), now)];
    assert g.hub.uploads == rows;
    var id := |g.swept.rows|;
    var claimed := ClaimedBy(rt, g.hub, id, owner, settings.leaseSeconds, now);
    FreshRowIsClaimed(rt.limits, settings.limits, g.swept.rows, NewUploadOf(p, buffer), owner, settings.leaseSeconds,
      now);
    assert claimed.vault[UploadKey(p.uploadDigest)] == buffer;
    assert ReplayNow(rt, claimed, p) == ReplayNow(rt, before, p);
    assert Reloads(rt, claimed, claimed.uploads[id]);
  }

  /** No sweep makes a row active. */
  lemma {:induction false} SweepsKeepOthersOut(limits: Limits, s: Quarantine.Store, ids: seq<nat>,
          faults: nat -> Quarantine.Fault, now: int, digest: string)
    ensures HasPending(Quarantine.Pass(limits, s, ids, faults, now).rows, digest) ==> HasPending(s.rows, digest)
  {
    ExecuteEvolves(limits, s.rows, ExpireBatch(Repository.Chosen(ids)), now);
    var swept := s.(rows := Execute(limits, s.rows, ExpireBatch(Repository.Chosen(ids)), now));
    CleanupKeepsPending(swept, ids, faults, digest);
    forall i | 0 <= i < |swept.rows| && Active(swept.rows[i])
      ensures Active(s.rows[i]) && s.rows[i].uploadDigest == swept.rows[i].uploadDigest
    {
      assert SameIdentity(s.rows[i], swept.rows[i]);
    }
  }

  lemma {:induction false} CleanupKeepsPending(s: Quarantine.Store, ids: seq<nat>, faults: nat -> Quarantine.Fault,
          digest: string)
    ensures HasPending(Quarantine.CleanupEach(s, ids, faults).rows, digest) ==> HasPending(s.rows, digest)
  {
    if ids != [] {
      CleanupKeepsPending(s, ids[..|ids| - 1], faults, digest);
      MarkKeepsPending(Quarantine.CleanupEach(s, ids[..|ids| - 1], faults).rows, ids[|ids| - 1], digest);
    }
  }

  lemma {:induction false} MarkKeepsPending(rows: Table, id: nat, digest: string)
    ensures HasPending(Quarantine.Mark(rows, id), digest) ==> HasPending(rows, digest)
  {
    if HasPending(Quarantine.Mark(rows, id), digest) {
      var i :| 0 <= i < |rows| && Active(Quarantine.Mark(rows, id)[i])
        && Quarantine.Mark(rows, id)[i].uploadDigest == digest;
      assert Active(rows[i]) && rows[i].uploadDigest == digest;
    }
  }

  lemma {:induction false} FreeRowIsInserted(limits: Limits, rows: Table, input: NewUpload, now: int)
    requires !HasPending(rows, input.uploadDigest) && !HasPendingSubject(rows, input.subjectId)
    requires !OverBudget(limits, ExpireDue(rows, now), input)
    ensures Uploads.Insert(limits, rows, input, now) == Ok(ExpireDue(rows, now) + [NewRow(limits, input, now)])
  {
    Quarantine.ConflictsAreVisible(rows, input, now);
  }

  lemma {:induction false} FreshRowIsClaimed(any: Limits, limits: Limits, rows: Table, input: NewUpload, owner: string,
          leaseSeconds: int, now: int)
    requires limits.retentionSeconds > 0
    ensures var after, id := ExpireDue(rows, now) + [NewRow(limits, input, now)], |rows|;
      var claimed := Execute(any, after, ClaimOne(id, owner, leaseSeconds), now);
      && Claims(after, ClaimOne(id, owner, leaseSeconds), id, now)
      && id < |claimed| && Publishable(claimed, id, now)
      && claimed[id] == Renew(NewRow(limits, input, now), owner, now + leaseSeconds)
  {
  }
}
