/** What the promotion protocol keeps in every reachable state, for any number of interleaved tasks. */
module PromotionProofs {
  import opened Basics
  import opened Bundles
  import opened Storage
  import opened Uploads
  import opened Ownership
  import opened Promotion

  /** What is assumed of hashing, CIDs, zip coding and identifiers. The last clause says that no
      package holds a file named after its own CID, which would be stored over its zip. */
  ghost predicate Laws(rt: Runtime) {
    && Injective(rt.env.sha256) && Injective(rt.env.cidOf) && ZipLaws(rt.env)
    && (forall f: Files :: NoSlash(rt.env.cidOf(f)))
    && (forall id: string :: rt.env.subjectOf(id).Some? ==> NoSlash(id))
    && (forall b: Bytes :: PrepareUpload(rt.env, b).Ok? ==>
          KeepsZip(PrepareUpload(rt.env, b).value.cid, PrepareUpload(rt.env, b).value.packageFiles))
  }

  ghost predicate IsPrepared(env: Environment, p: Prepared) {
    exists b: Bytes :: PrepareUpload(env, b) == Ok(p)
  }

  lemma {:induction false} PreparedFacts(rt: Runtime, p: Prepared)
    requires Laws(rt) && IsPrepared(rt.env, p)
    ensures p.eventChainDigest == rt.env.sha256(p.eventChainBuffer)
    ensures p.cid == rt.env.cidOf(Reassemble(p.packageFiles, p.eventChainBuffer))
    ensures NoSlash(p.cid) && NoSlash(p.ownableId) && KeepsZip(p.cid, p.packageFiles)
    ensures rt.env.unzip(p.packageContent).Some? && FilesOf(rt.env.unzip(p.packageContent).value) == p.packageFiles
    ensures rt.env.parseChain(p.eventChainBuffer).Some?
    ensures Lower(p.subjectId) == p.subjectId
  {
    hide PrepareUpload, FilesOf, KeepsZip, NoSlash, Reassemble;
    var b: Bytes :| PrepareUpload(rt.env, b) == Ok(p);
    PreparedPartsFitTogether(rt.env, b);
    LowerIsIdempotent(rt.env.subjectOf(p.ownableId).value);
  }

  // ---------------------------------------------------------------- the archive

  ghost predicate ZipIn(env: Environment, archive: Objects, p: Prepared) {
    var key := PackageZipKey(p.cid);
    key in archive && env.unzip(archive[key]).Some? && FilesOf(env.unzip(archive[key]).value) == p.packageFiles
  }

  ghost predicate ChainIn(archive: Objects, p: Prepared) {
    var key := ImmutableChainKey(p.ownableId, p.eventChainDigest);
    key in archive && archive[key] == p.eventChainBuffer
  }

  /** Every object under an immutable chain key has the digest its key names. */
  ghost predicate ChainsMatchDigests(rt: Runtime, archive: Objects) {
    forall id, digest :: NoSlash(id) && ImmutableChainKey(id, digest) in archive ==>
      rt.env.sha256(archive[ImmutableChainKey(id, digest)]) == digest
  }

  ghost predicate ArchiveGrows(rt: Runtime, a: Objects, b: Objects) {
    forall p :: IsPrepared(rt.env, p) ==>
      (ZipIn(rt.env, a, p) ==> ZipIn(rt.env, b, p)) && (ChainIn(a, p) ==> ChainIn(b, p))
  }

  lemma {:induction false} PackageWritesOnlyPackages(archive: Objects, p: Prepared, order: seq<string>, key: string)
    requires key != PackageZipKey(p.cid) && forall name :: name in p.packageFiles ==>
      PackageAssetKey(p.cid, name) != key
    ensures var after := PutPackage(archive, p.cid, p.packageContent, p.packageFiles, order);
      (key in after <==> key in archive) && (key in archive ==> after[key] == archive[key])
  {
    AssetsTouchOnlyTheirPackage(archive[PackageZipKey(p.cid) := p.packageContent], p.cid, p.packageFiles, order, key);
  }

  /** Storing a package never disturbs another package's zip: equal CIDs mean equal files. */
  lemma {:induction false} PackageKeepsZips(rt: Runtime, archive: Objects, p: Prepared, order: seq<string>, q: Prepared)
    requires Laws(rt) && IsPrepared(rt.env, p) && IsPrepared(rt.env, q)
    ensures var after := PutPackage(archive, p.cid, p.packageContent, p.packageFiles, order);
      && ZipIn(rt.env, after, p)
      && (ZipIn(rt.env, archive, q) ==> ZipIn(rt.env, after, q))
      && (ChainIn(archive, q) ==> ChainIn(after, q))
  {
    hide PrepareUpload, FilesOf, PutPackage, PutAssets;
    PreparedFacts(rt, p);
    PreparedFacts(rt, q);
    ZipIsStoredIntact(archive, p.cid, p.packageContent, p.packageFiles, order);
    var chainKey := ImmutableChainKey(q.ownableId, q.eventChainDigest);
    forall name | name in p.packageFiles ensures PackageAssetKey(p.cid, name) != chainKey {
      ChainsAreNotPackages(q.ownableId, q.eventChainDigest, p.cid, name);
    }
    ChainsAreNotPackages(q.ownableId, q.eventChainDigest, p.cid, "");
    PackageWritesOnlyPackages(archive, p, order, chainKey);
    var zipKey := PackageZipKey(q.cid);
    if q.cid == p.cid {
      var a: Bytes :| PrepareUpload(rt.env, a) == Ok(p);
      var b: Bytes :| PrepareUpload(rt.env, b) == Ok(q);
      CidDeterminesContent(rt.env, a, b);
    } else {
      if zipKey == PackageZipKey(p.cid) { ZipKeyIsInjective(q.cid, p.cid); }
      forall name | name in p.packageFiles ensures PackageAssetKey(p.cid, name) != zipKey {
        if PackageAssetKey(p.cid, name) == zipKey { AssetKeyMeetsZipKey(p.cid, name, q.cid); }
      }
      PackageWritesOnlyPackages(archive, p, order, zipKey);
    }
  }

  lemma {:induction false} PackageGrowsArchive(rt: Runtime, archive: Objects, p: Prepared, order: seq<string>)
    requires Laws(rt) && IsPrepared(rt.env, p) && ChainsMatchDigests(rt, archive)
    ensures var after := PutPackage(archive, p.cid, p.packageContent, p.packageFiles, order);
      ArchiveGrows(rt, archive, after) && ZipIn(rt.env, after, p) && ChainsMatchDigests(rt, after)
  {
    hide PrepareUpload, ZipIn, ChainIn, PutPackage, Laws, IsPrepared;
    PackageKeepsZips(rt, archive, p, order, p);
    var after := PutPackage(archive, p.cid, p.packageContent, p.packageFiles, order);
    forall q | IsPrepared(rt.env, q)
      ensures (ZipIn(rt.env, archive, q) ==> ZipIn(rt.env, after, q)) && (ChainIn(archive, q) ==> ChainIn(after, q))
    {
      PackageKeepsZips(rt, archive, p, order, q);
    }
    forall id, digest | NoSlash(id) && ImmutableChainKey(id, digest) in after
      ensures rt.env.sha256(after[ImmutableChainKey(id, digest)]) == digest
    {
      forall name | name in p.packageFiles ensures PackageAssetKey(p.cid, name) != ImmutableChainKey(id, digest) {
        ChainsAreNotPackages(id, digest, p.cid, name);
      }
      ChainsAreNotPackages(id, digest, p.cid, "");
      PackageWritesOnlyPackages(archive, p, order, ImmutableChainKey(id, digest));
    }
  }

  lemma {:induction false} ChainGrowsArchive(rt: Runtime, archive: Objects, p: Prepared)
    requires Laws(rt) && IsPrepared(rt.env, p) && ChainsMatchDigests(rt, archive)
    ensures var after := PutChain(archive, p.ownableId, p.eventChainDigest, p.eventChainBuffer);
      ArchiveGrows(rt, archive, after) && ChainIn(after, p) && ChainsMatchDigests(rt, after)
  {
    hide PrepareUpload, FilesOf, ImmutableChainKey, PackageZipKey, NoSlash, KeepsZip, Reassemble, ZipLaws;
    PreparedFacts(rt, p);
    var key := ImmutableChainKey(p.ownableId, p.eventChainDigest);
    var after := PutChain(archive, p.ownableId, p.eventChainDigest, p.eventChainBuffer);
    assert key in archive ==> rt.env.sha256(archive[key]) == rt.env.sha256(p.eventChainBuffer);
    forall q | IsPrepared(rt.env, q)
      ensures (ZipIn(rt.env, archive, q) ==> ZipIn(rt.env, after, q)) && (ChainIn(archive, q) ==> ChainIn(after, q))
    {
      ChainsAreNotPackages(p.ownableId, p.eventChainDigest, q.cid, "");
    }
    forall id, digest | NoSlash(id) && ImmutableChainKey(id, digest) in after
      ensures rt.env.sha256(after[ImmutableChainKey(id, digest)]) == digest
    {
      if ImmutableChainKey(id, digest) == key {
        ImmutableChainKeyIsInjective(id, digest, p.ownableId, p.eventChainDigest);
      }
    }
  }

  // ---------------------------------------------------------------- rows and tasks

  /** A row carries the identity of the bytes it was staged with. */
  ghost predicate RowStands(rt: Runtime, u: Uploads.Upload, contents: Bytes) {
    var r := PrepareUpload(rt.env, contents);
    && r.Ok?
    && u.ownableId == r.value.ownableId && u.subjectId == r.value.subjectId && u.packageCid == r.value.cid
    && u.uploadDigest == r.value.uploadDigest == rt.env.sha256(contents)
    && u.compressedBytes == |contents| && u.expandedBytes == r.value.expandedBytes
    && u.privateObjectKey == "quarantine/uploads/" + u.uploadDigest + ".zip"
    && u.eventChainDigest == r.value.eventChainDigest
    && u.previousOwnerAddress == Lower(r.value.previousOwnerAddress)
  }

  ghost predicate RowsStand(rt: Runtime, h: Hub) {
    |h.contents| == |h.uploads| && forall i :: 0 <= i < |h.uploads| ==> RowStands(rt, h.uploads[i], h.contents[i])
  }

  /** The Ownable a row was staged for. */
  ghost predicate StagedAs(rt: Runtime, h: Hub, id: nat, p: Prepared) {
    id < |h.contents| && PrepareUpload(rt.env, h.contents[id]) == Ok(p)
  }

  /** The replay a promotion was judged by really is that of the Ownable its row was staged for. */
  ghost predicate JudgedStands(rt: Runtime, h: Hub, a: Judged) {
    && a.id < |h.uploads| && SameIdentity(a.upload, h.uploads[a.id]) && StagedAs(rt, h, a.id, a.prepared)
    && rt.replay(a.prepared.cid, a.prepared.eventChainBuffer, a.prepared.packageContent, a.evidence) == Some(a.replay)
  }

  ghost predicate AcceptedStands(rt: Runtime, h: Hub, a: Judged) {
    JudgedStands(rt, h, a) && PassesVerification(a.replay)
  }

  ghost predicate TaskStands(rt: Runtime, h: Hub, task: Task) {
    match task
    case Received(_) => true
    case Checking(b, p) => PrepareUpload(rt.env, b) == Ok(p)
    case Replaying(b, p) => PrepareUpload(rt.env, b) == Ok(p)
    case Staging(b, p) => PrepareUpload(rt.env, b) == Ok(p)
    case Storing(b, p) => PrepareUpload(rt.env, b) == Ok(p)
    case Stored(b, p) => PrepareUpload(rt.env, b) == Ok(p)
    case Undoing(_) => true
    case Unmatched(_) => true
    case Discarding(_) => true
    case Claimed(id, u) => id < |h.uploads| && SameIdentity(u, h.uploads[id])
    case Rebuilt(id, u, p) => id < |h.uploads| && SameIdentity(u, h.uploads[id]) && StagedAs(rt, h, id, p)
    case Deferring(a) => JudgedStands(rt, h, a) && HasOnlyMissingAnchorEvidence(a.replay)
    case Verified(a) => AcceptedStands(rt, h, a)
    case ZipStored(a) => AcceptedStands(rt, h, a) && ZipIn(rt.env, h.archive, a.prepared)
    case ChainStored(a) => AcceptedStands(rt, h, a) && ZipIn(rt.env, h.archive, a.prepared)
      && ChainIn(h.archive, a.prepared)
    case Rejecting(id, key, _) => id < |h.uploads| && h.uploads[id].privateObjectKey == key
    case Releasing(id, key, _) => id < |h.uploads| && h.uploads[id].privateObjectKey == key && !Active(h.uploads[id])
    case Removing(id, key) => id < |h.uploads| && h.uploads[id].privateObjectKey == key && !Active(h.uploads[id])
    case Marking(id, key) => id < |h.uploads| && h.uploads[id].privateObjectKey == key && !Active(h.uploads[id])
  }

  ghost predicate TasksStand(rt: Runtime, h: Hub) {
    forall t :: t in h.tasks ==> TaskStands(rt, h, h.tasks[t])
  }

  /** What a step may do to the state tasks rely on. */
  ghost predicate Grows(rt: Runtime, h: Hub, after: Hub) {
    Evolves(h.uploads, after.uploads) && h.contents <= after.contents && ArchiveGrows(rt, h.archive, after.archive)
  }

  lemma {:induction false} JudgedStable(rt: Runtime, h: Hub, after: Hub, a: Judged)
    requires JudgedStands(rt, h, a) && Grows(rt, h, after)
    ensures JudgedStands(rt, after, a)
  {
    assert SameIdentity(h.uploads[a.id], after.uploads[a.id]);
  }

  lemma {:induction false} TaskStable(rt: Runtime, h: Hub, after: Hub, task: Task)
    requires TaskStands(rt, h, task) && Grows(rt, h, after)
    ensures TaskStands(rt, after, task)
  {
    hide PrepareUpload, ZipIn, ChainIn;
    if task.Deferring? || task.Verified? || task.ZipStored? || task.ChainStored? {
      JudgedStable(rt, h, after, task.judged);
      assert IsPrepared(rt.env, task.judged.prepared);
    }
  }

  lemma {:induction false} RowsStable(rt: Runtime, h: Hub, after: Hub)
    requires RowsStand(rt, h) && Evolves(h.uploads, after.uploads) && |h.uploads| == |after.uploads|
      && h.contents == after.contents
    ensures RowsStand(rt, after)
  {
    hide PrepareUpload;
    forall i | 0 <= i < |after.uploads| ensures RowStands(rt, after.uploads[i], after.contents[i]) {
      assert RowStands(rt, h.uploads[i], h.contents[i]) && SameIdentity(h.uploads[i], after.uploads[i]);
    }
  }

  /** An upload's bytes are recovered from its digest: rebuilding gives the Ownable that was staged. */
  lemma {:induction false} RebuiltIsStaged(rt: Runtime, h: Hub, id: nat, u: Uploads.Upload, bytes: Bytes)
    requires Laws(rt) && RowsStand(rt, h) && id < |h.uploads| && SameIdentity(u, h.uploads[id])
    requires PrepareUpload(rt.env, bytes).Ok? && MatchesRow(PrepareUpload(rt.env, bytes).value, u)
    ensures StagedAs(rt, h, id, PrepareUpload(rt.env, bytes).value)
  {
    hide PrepareUpload;
    PreparedPartsFitTogether(rt.env, bytes);
    assert RowStands(rt, h.uploads[id], h.contents[id]);
  }

  // ---------------------------------------------------------------- the statement a step issues

  /** The statement a task's next step issues, if it issues one that commits. */
  function TaskStatement(rt: Runtime, h: Hub, task: Task, fails: bool, now: int): Option<Statement> {
    match task
    case Stored(b, p) => if fails || Uploads.Insert(rt.limits, h.uploads, NewUploadOf(p, b), now).Err? then None
      else Some(Create(NewUploadOf(p, b)))
    case Deferring(a) => if fails then None else Some(Restore(a.id, Some(MISSING_INDEXED_EVIDENCE)))
    case ChainStored(a) => if fails || !Publishable(h.uploads, a.id, now) then None else Some(Publish(a.id))
    case Rejecting(id, _, code) => if fails then None else Some(Reject(id, code))
    case Marking(id, _) => if fails then None else Some(MarkDeleted(id))
    case _ => None
  }

  lemma {:induction false} TaskIssues(rt: Runtime, h: Hub, task: Task, fails: bool, order: seq<string>, now: int)
    ensures var s := TaskStatement(rt, h, task, fails, now);
      Advance(rt, h, task, fails, order, now).hub.uploads == if s.Some? then Execute(rt.limits, h.uploads, s.value, now)
        else h.uploads
  {
    hide PrepareUpload, Execute, Insert, PutPackage, PutChain, UpsertRecord, HasPending, IsReferenced,
      IsStrictSuccessor, HasAvailable, HasPendingSubject, RecordOf, RecordIdFor, Publishable,
      HasOnlyMissingAnchorEvidence, PassesVerification, Assign;
  }

  // ---------------------------------------------------------------- the base invariant

  ghost predicate Base(rt: Runtime, h: Hub) {
    RowsStand(rt, h) && ActiveUnique(h.uploads) && TasksStand(rt, h) && ChainsMatchDigests(rt, h.archive)
  }

  /** What a task's step does to the rest of the shared state. */
  lemma {:induction false} AdvanceMovesRest(rt: Runtime, h: Hub, task: Task, fails: bool, order: seq<string>, now: int)
    ensures var after, s := Advance(rt, h, task, fails, order, now).hub, TaskStatement(rt, h, task, fails, now);
      && after.tasks == h.tasks
      && after.contents == (if task.Stored? && s.Some? then h.contents + [task.buffer] else h.contents)
      && after.archive == (if fails then h.archive else ArchiveAfter(h.archive, task, order))
  {
    hide PrepareUpload, Execute, Insert, PutPackage, PutChain, UpsertRecord, HasPending, IsReferenced,
      IsStrictSuccessor, HasAvailable, HasPendingSubject, RecordOf, RecordIdFor, Publishable, MatchesRow,
      HasOnlyMissingAnchorEvidence, PassesVerification, Assign;
  }

  function ArchiveAfter(archive: Objects, task: Task, order: seq<string>): Objects {
    match task
    case Verified(a) => PutPackage(archive, a.prepared.cid, a.prepared.packageContent, a.prepared.packageFiles, order)
    case ZipStored(a) =>
      PutChain(archive, a.prepared.ownableId, a.prepared.eventChainDigest, a.prepared.eventChainBuffer)
    case _ => archive
  }

  lemma {:induction false} TaskGrowsArchive(rt: Runtime, h: Hub, task: Task, order: seq<string>)
    requires Laws(rt) && TaskStands(rt, h, task) && ChainsMatchDigests(rt, h.archive)
    ensures var after := ArchiveAfter(h.archive, task, order);
      ArchiveGrows(rt, h.archive, after) && ChainsMatchDigests(rt, after)
  {
    hide PrepareUpload, Laws, PutPackage, PutChain, ChainsMatchDigests, ZipIn, ChainIn, ArchiveGrows;
    ArchiveGrowsIsReflexive(rt, h.archive);
    if task.Verified? {
      assert IsPrepared(rt.env, task.judged.prepared);
      PackageGrowsArchive(rt, h.archive, task.judged.prepared, order);
    } else if task.ZipStored? {
      assert IsPrepared(rt.env, task.judged.prepared);
      ChainGrowsArchive(rt, h.archive, task.judged.prepared);
    }
  }

  /** The shared state one task's statement leaves behind. */
  lemma {:induction false} AdvanceGrows(rt: Runtime, h: Hub, task: Task, fails: bool, order: seq<string>, now: int)
    requires Laws(rt) && Base(rt, h) && TaskStands(rt, h, task)
    ensures var m := Advance(rt, h, task, fails, order, now);
      && Grows(rt, h, m.hub) && RowsStand(rt, m.hub) && ActiveUnique(m.hub.uploads)
      && ChainsMatchDigests(rt, m.hub.archive)
      && m.hub.tasks == h.tasks
  {
    hide Advance, PrepareUpload, Laws, ChainsMatchDigests, Execute, Insert, ActiveUnique, Evolves, RowsStand,
      Publishable, ArchiveGrows, ArchiveAfter, JudgedStands, ZipIn, ChainIn;
    var after := Advance(rt, h, task, fails, order, now).hub;
    AdvanceMovesRest(rt, h, task, fails, order, now);
    TaskIssues(rt, h, task, fails, order, now);
    TaskGrowsArchive(rt, h, task, order);
    ArchiveGrowsIsReflexive(rt, h.archive);
    EvolvesIsReflexive(h.uploads);
    var s := TaskStatement(rt, h, task, fails, now);
    if s.None? {
      RowsDependOnRows(rt, h, after);
    } else if s.value.Create? {
      InsertGrows(rt, h, task.buffer, task.prepared, now);
      var inserted :=
        h.(uploads := Execute(rt.limits, h.uploads, s.value, now), contents := h.contents + [task.buffer]);
      RowsDependOnRows(rt, inserted, after);
    } else {
      StatementGrows(rt, h, s.value, now);
      RowsDependOnRows(rt, h.(uploads := Execute(rt.limits, h.uploads, s.value, now)), after);
    }
  }

  lemma {:induction false} EvolvesIsReflexive(rows: Table)
    ensures Evolves(rows, rows)
  {
  }

  lemma {:induction false} RowsDependOnRows(rt: Runtime, h: Hub, after: Hub)
    requires h.uploads == after.uploads && h.contents == after.contents
    ensures RowsStand(rt, h) == RowsStand(rt, after)
  {
  }

  lemma {:induction false} StatementGrows(rt: Runtime, h: Hub, s: Statement, now: int)
    requires RowsStand(rt, h) && ActiveUnique(h.uploads) && !s.Create?
    ensures var after := h.(uploads := Execute(rt.limits, h.uploads, s, now));
      Evolves(h.uploads, after.uploads) && RowsStand(rt, after) && ActiveUnique(after.uploads)
  {
    ExecuteEvolves(rt.limits, h.uploads, s, now);
    ExecuteKeepsUnique(rt.limits, h.uploads, s, now);
    RowsStable(rt, h, h.(uploads := Execute(rt.limits, h.uploads, s, now)));
  }

  /** A row inserted for prepared bytes stands for them. */
  lemma {:induction false} InsertGrows(rt: Runtime, h: Hub, b: Bytes, p: Prepared, now: int)
    requires Laws(rt) && RowsStand(rt, h) && ActiveUnique(h.uploads) && PrepareUpload(rt.env, b) == Ok(p)
    requires Insert(rt.limits, h.uploads, NewUploadOf(p, b), now).Ok?
    ensures var after :=
      h.(uploads := Execute(rt.limits, h.uploads, Create(NewUploadOf(p, b)), now), contents := h.contents + [b]);
      && Evolves(h.uploads, after.uploads) && RowsStand(rt, after) && ActiveUnique(after.uploads)
      && |after.uploads| == |h.uploads| + 1
      && after.uploads[|h.uploads|] == NewRow(rt.limits, NewUploadOf(p, b), now)
  {
    hide PrepareUpload, ZipLaws, KeepsZip;
    var s := Create(NewUploadOf(p, b));
    ExecuteEvolves(rt.limits, h.uploads, s, now);
    ExecuteKeepsUnique(rt.limits, h.uploads, s, now);
    PreparedPartsFitTogether(rt.env, b);
    assert IsPrepared(rt.env, p);
    PreparedFacts(rt, p);
    var after := h.(uploads := Execute(rt.limits, h.uploads, s, now), contents := h.contents + [b]);
    forall i | 0 <= i < |after.uploads| ensures RowStands(rt, after.uploads[i], after.contents[i]) {
      if i < |h.uploads| {
        assert RowStands(rt, h.uploads[i], h.contents[i]) && SameIdentity(h.uploads[i], after.uploads[i]);
      }
    }
  }

  /** A row published or rejected is no longer active, and keeps its object. */
  lemma {:induction false} EndedRow(rt: Runtime, rows: Table, s: Statement, now: int, id: nat)
    requires id < |rows|
    requires (s == Publish(id) && Publishable(rows, id, now)) || (s.Reject? && s.id == id)
    ensures var after := Execute(rt.limits, rows, s, now);
      |after| == |rows| && !Active(after[id]) && after[id].privateObjectKey == rows[id].privateObjectKey
  {
  }

  lemma {:induction false} NextUploadTaskStands(rt: Runtime, h: Hub, task: Task, fails: bool, order: seq<string>,
          now: int)
    requires Laws(rt) && Base(rt, h) && TaskStands(rt, h, task)
    requires !task.Verified? && !task.ZipStored? && !task.ChainStored? && !task.Claimed? && !task.Rebuilt?
    ensures var m := Advance(rt, h, task, fails, order, now);
      m.next.Some? ==> TaskStands(rt, m.hub, m.next.value)
  {
    hide PrepareUpload, Laws, PutPackage, PutChain, ChainsMatchDigests, ZipIn, ChainIn, Execute, Insert, ActiveUnique,
      Evolves, RowsStand, Publishable, UpsertRecord, HasPending, IsReferenced, HasOnlyMissingAnchorEvidence,
      IsStrictSuccessor, Active;
    match task
    case Rejecting(id, key, code) => EndedRow(rt, h.uploads, Reject(id, code), now, id);
    case _ =>
  }

  lemma {:induction false} NextRebuiltTaskStands(rt: Runtime, h: Hub, task: Task, fails: bool, order: seq<string>,
          now: int)
    requires Laws(rt) && Base(rt, h) && TaskStands(rt, h, task)
    requires task.Claimed? || task.Rebuilt?
    ensures var m := Advance(rt, h, task, fails, order, now);
      m.next.Some? ==> TaskStands(rt, m.hub, m.next.value)
  {
    hide PrepareUpload, Laws, PutPackage, PutChain, ChainsMatchDigests, ZipIn, ChainIn, Execute, Insert, ActiveUnique,
      Evolves, RowsStand, Publishable, UpsertRecord, HasPending, IsReferenced, HasOnlyMissingAnchorEvidence,
      IsStrictSuccessor, Active;
    if task.Claimed? {
      var key, u := task.upload.privateObjectKey, task.upload;
      if key in h.vault && PrepareUpload(rt.env, h.vault[key]).Ok?
        && MatchesRow(PrepareUpload(rt.env, h.vault[key]).value, u) {
        RebuiltIsStaged(rt, h, task.id, u, h.vault[key]);
      }
    }
  }

  lemma {:induction false} NextAcceptedTaskStands(rt: Runtime, h: Hub, task: Task, fails: bool, order: seq<string>,
          now: int)
    requires Laws(rt) && Base(rt, h) && TaskStands(rt, h, task)
    requires task.Verified? || task.ZipStored? || task.ChainStored?
    ensures var m := Advance(rt, h, task, fails, order, now);
      m.next.Some? ==> TaskStands(rt, m.hub, m.next.value)
  {
    hide PrepareUpload, Laws, PutPackage, PutChain, ChainsMatchDigests, ZipIn, ChainIn, Execute, Insert, ActiveUnique,
      Evolves, RowsStand, Publishable, UpsertRecord, HasPending, IsReferenced, HasOnlyMissingAnchorEvidence,
      IsStrictSuccessor, Active;
    var a := task.judged;
    assert IsPrepared(rt.env, a.prepared);
    if task.Verified? {
      PackageGrowsArchive(rt, h.archive, a.prepared, order);
    } else if task.ZipStored? {
      ChainGrowsArchive(rt, h.archive, a.prepared);
    } else if Publishable(h.uploads, a.id, now) {
      EndedRow(rt, h.uploads, Publish(a.id), now, a.id);
    }
  }

  lemma {:induction false} NextTaskStands(rt: Runtime, h: Hub, task: Task, fails: bool, order: seq<string>, now: int)
    requires Laws(rt) && Base(rt, h) && TaskStands(rt, h, task)
    ensures var m := Advance(rt, h, task, fails, order, now);
      m.next.Some? ==> TaskStands(rt, m.hub, m.next.value)
  {
    hide Laws, Base, TaskStands, Advance;
    if task.Verified? || task.ZipStored? || task.ChainStored? {
      NextAcceptedTaskStands(rt, h, task, fails, order, now);
    } else if task.Claimed? || task.Rebuilt? {
      NextRebuiltTaskStands(rt, h, task, fails, order, now);
    } else {
      NextUploadTaskStands(rt, h, task, fails, order, now);
    }
  }

  lemma {:induction false} TakeKeepsBase(rt: Runtime, h: Hub, s: Step, now: int)
    requires Laws(rt) && Base(rt, h)
    ensures Base(rt, Promotion.Take(rt, h, s, now))
    ensures Grows(rt, h, Promotion.Take(rt, h, s, now))
  {
    hide PrepareUpload, Laws, ChainsMatchDigests, ActiveUnique, Evolves, RowsStand, TaskStands, Advance, Execute,
      ArchiveGrows;
    var after := Promotion.Take(rt, h, s, now);
    EvolvesIsReflexive(h.uploads);
    ArchiveGrowsIsReflexive(rt, h.archive);
    match s
    case Resume(t, fails, order) =>
      if t in h.tasks {
        AdvanceGrows(rt, h, h.tasks[t], fails, order, now);
        NextTaskStands(rt, h, h.tasks[t], fails, order, now);
        var m := Advance(rt, h, h.tasks[t], fails, order, now);
        RowsDependOnRows(rt, m.hub, after);
        forall x | x in after.tasks ensures TaskStands(rt, after, after.tasks[x]) {
          if x != t {
            TaskStable(rt, h, m.hub, h.tasks[x]);
          }
          TaskReadsShared(rt, m.hub, after, after.tasks[x]);
        }
      }
    case Claim(t, id, _, _, _) =>
      if t !in h.tasks && Claims(h.uploads, ClaimStatement(s), id, now) {
        StatementGrows(rt, h, ClaimStatement(s), now);
        ClaimedTaskStands(rt, h, s, now);
        var claimed := h.(uploads := Execute(rt.limits, h.uploads, ClaimStatement(s), now));
        RowsDependOnRows(rt, claimed, after);
        forall x | x in h.tasks ensures TaskStands(rt, claimed, h.tasks[x]) { TaskStable(rt, h, claimed, h.tasks[x]); }
        forall x | x in after.tasks ensures TaskStands(rt, after, after.tasks[x]) {
          TaskReadsShared(rt, claimed, after, after.tasks[x]);
        }
      }
    case Sweep(chosen) =>
      StatementGrows(rt, h, ExpireBatch(chosen), now);
      forall x | x in h.tasks ensures TaskStands(rt, after, h.tasks[x]) { TaskStable(rt, h, after, h.tasks[x]); }
    case Upload(t, buffer) =>
      RowsDependOnRows(rt, h, after);
      ReceivedStands(rt, h, buffer);
      forall x | x in after.tasks ensures TaskStands(rt, after, after.tasks[x]) {
        TaskReadsShared(rt, h, after, after.tasks[x]);
      }
    case Collect(t, id) =>
      RowsDependOnRows(rt, h, after);
      if id < |h.uploads| && !Active(h.uploads[id]) { ReleasingStands(rt, h, id); }
      forall x | x in after.tasks ensures TaskStands(rt, after, after.tasks[x]) {
        TaskReadsShared(rt, h, after, after.tasks[x]);
      }
    case Index(e) =>
      RowsDependOnRows(rt, h, after);
      forall x | x in after.tasks ensures TaskStands(rt, after, after.tasks[x]) {
        TaskReadsShared(rt, h, after, after.tasks[x]);
      }
  }

  lemma {:induction false} ArchiveGrowsIsReflexive(rt: Runtime, a: Objects)
    ensures ArchiveGrows(rt, a, a)
  {
  }

  lemma {:induction false} ReceivedStands(rt: Runtime, h: Hub, buffer: Bytes)
    ensures TaskStands(rt, h, Received(buffer))
  {
  }

  lemma {:induction false} ReleasingStands(rt: Runtime, h: Hub, id: nat)
    requires id < |h.uploads| && !Active(h.uploads[id])
    ensures TaskStands(rt, h, Releasing(id, h.uploads[id].privateObjectKey, false))
  {
  }

  lemma {:induction false} ClaimedTaskStands(rt: Runtime, h: Hub, s: Step, now: int)
    requires s.Claim? && Claims(h.uploads, ClaimStatement(s), s.id, now)
    ensures var uploads := Execute(rt.limits, h.uploads, ClaimStatement(s), now);
      s.id < |uploads| && TaskStands(rt, h.(uploads := uploads), Claimed(s.id, uploads[s.id]))
  {
    ExecuteEvolves(rt.limits, h.uploads, ClaimStatement(s), now);
  }

  /** Whether a task stands depends on rows, contents and archive only. */
  lemma {:induction false} TaskReadsShared(rt: Runtime, h: Hub, after: Hub, task: Task)
    requires h.uploads == after.uploads && h.contents == after.contents && h.archive == after.archive
    ensures TaskStands(rt, h, task) == TaskStands(rt, after, task)
  {
    hide PrepareUpload, ZipIn, ChainIn;
  }

  lemma {:induction false} BaseHolds(rt: Runtime, run: seq<Timed>)
    requires Laws(rt)
    ensures Base(rt, AfterRun(rt, run))
  {
    if run != [] {
      BaseHolds(rt, run[..|run| - 1]);
      TakeKeepsBase(rt, AfterRun(rt, run[..|run| - 1]), run[|run| - 1].step, run[|run| - 1].now);
    }
  }

  /** In every reachable state each row carries, column by column, the identity of the bytes it was
      staged with, and its object's key is that of their digest. */
  lemma {:induction false} EveryRowIsItsUpload(rt: Runtime, run: seq<Timed>, id: nat)
    requires Laws(rt) && id < |AfterRun(rt, run).uploads|
    ensures var h := AfterRun(rt, run);
      && |h.contents| == |h.uploads| && PrepareUpload(rt.env, h.contents[id]).Ok?
      && var u, p := h.uploads[id], PrepareUpload(rt.env, h.contents[id]).value;
        && u.ownableId == p.ownableId && u.subjectId == p.subjectId && u.packageCid == p.cid
        && u.uploadDigest == rt.env.sha256(h.contents[id]) && u.compressedBytes == |h.contents[id]|
        && u.expandedBytes == p.expandedBytes && u.eventChainDigest == rt.env.sha256(p.eventChainBuffer)
        && u.previousOwnerAddress == Lower(p.previousOwnerAddress)
        && u.privateObjectKey == "quarantine/uploads/" + u.uploadDigest + ".zip"
  {
    hide Laws, PrepareUpload, AfterRun;
    BaseHolds(rt, run);
    var h := AfterRun(rt, run);
    assert RowStands(rt, h.uploads[id], h.contents[id]);
    PreparedPartsFitTogether(rt.env, h.contents[id]);
  }
}
