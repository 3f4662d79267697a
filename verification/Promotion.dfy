/** The quarantine-to-publication protocol. Every upload request, promotion and cleanup is a task
    whose constructor is its program counter; one step runs one task up to its next statement on
    shared state. Any number of tasks interleave, and a crashed process is a task that never resumes. */
module Promotion {
  import opened Basics
  import opened Bundles
  import opened Storage
  import opened Uploads
  import opened Ownership
  import Indexing

  const STAGED_UPLOAD_INVALID := "STAGED_UPLOAD_INVALID"
  const STAGED_UPLOAD_IDENTITY_MISMATCH := "STAGED_UPLOAD_IDENTITY_MISMATCH"
  const PROMOTION_REPLAY_REJECTED := "PROMOTION_REPLAY_REJECTED"
  const MISSING_INDEXED_EVIDENCE := "MISSING_INDEXED_EVIDENCE"

  /** The indexed events a replay is judged against. */
  datatype Evidence = Evidence(anchors: Indexing.EventTable, publics: Indexing.EventTable)

  datatype ReplayState = ReplayState(
    verified: bool,
    /** Anchor key to the transaction that anchored it; empty when none was indexed. */
    anchors: map<string, string>,
    stale: bool,
    owner: string,
    ownerAccount: Option<string>,
    latestAppliedPublicEventId: Option<string>)

  /** The runtime is a parameter: replaying a chain with a package against evidence may fail. */
  datatype Runtime = Runtime(
    env: Environment,
    limits: Limits,
    replay: (string, Bytes, Bytes, Evidence) -> Option<ReplayState>)

  datatype Record = Record(
    packageCid: string,
    prevOwnerAddress: string,
    subjectId: string,
    uploadDigest: string,
    chainStorageKey: string,
    ownableId: string)

  datatype Publication = Publication(
    uploadId: nat,
    recordId: nat,
    prepared: Prepared,
    replay: ReplayState,
    evidence: Evidence)

  /** The local variables of a promotion whose replay has been judged. */
  datatype Judged = Judged(id: nat, upload: Upload, prepared: Prepared, replay: ReplayState, evidence: Evidence)

  datatype Task =
    // uploadOwnable and stage
    | Received(buffer: Bytes)
    | Checking(buffer: Bytes, prepared: Prepared)
    | Replaying(buffer: Bytes, prepared: Prepared)
    | Staging(buffer: Bytes, prepared: Prepared)
    | Storing(buffer: Bytes, prepared: Prepared)
    | Stored(buffer: Bytes, prepared: Prepared)
    | Undoing(digest: string)
    | Unmatched(digest: string)
    | Discarding(digest: string)
    // promoteQuarantinedUpload and publishPreparedUpload
    | Claimed(id: nat, upload: Upload)
    | Rebuilt(id: nat, upload: Upload, prepared: Prepared)
    | Deferring(judged: Judged)
    | Verified(judged: Judged)
    | ZipStored(judged: Judged)
    | ChainStored(judged: Judged)
    | Rejecting(id: nat, key: string, code: string)
    // cleanup and cleanupPrivateObject
    | Releasing(id: nat, key: string, afterPublication: bool)
    | Removing(id: nat, key: string)
    | Marking(id: nat, key: string)

  datatype Hub = Hub(
    uploads: Table,
    records: seq<Record>,
    owners: Owners,
    vault: Objects,
    archive: Objects,
    evidence: Evidence,
    tasks: map<nat, Task>,
    // history
    contents: seq<Bytes>,
    log: seq<Publication>)

  datatype Step =
    | Upload(task: nat, buffer: Bytes)
    | Claim(task: nat, id: nat, owner: string, leaseSeconds: int, single: bool)
    | Collect(task: nat, id: nat)
    | Sweep(chosen: set<nat>)
    | Index(evidence: Evidence)
    /** fails: the processing lease was refused or an exception was thrown; order: in which the
        concurrent asset writes of a package complete. */
    | Resume(task: nat, fails: bool, order: seq<string>)

  // ---------------------------------------------------------------- judging a replay

  predicate HasOnlyMissingAnchorEvidence(r: ReplayState) {
    !r.verified && r.anchors != map[] && forall k :: k in r.anchors ==> r.anchors[k] == ""
  }

  predicate PassesVerification(r: ReplayState) {
    r.verified && !r.stale
  }

  // ---------------------------------------------------------------- reads

  predicate HasPending(uploads: Table, digest: string) {
    exists i :: 0 <= i < |uploads| && Active(uploads[i]) && uploads[i].uploadDigest == digest
  }

  predicate HasPendingSubject(uploads: Table, subject: string) {
    exists i :: 0 <= i < |uploads| && Active(uploads[i]) && uploads[i].subjectId == Lower(subject)
  }

  predicate HasAvailable(records: seq<Record>, digest: string) {
    exists i :: 0 <= i < |records| && records[i].uploadDigest == digest
  }

  predicate IsReferenced(uploads: Table, key: string) {
    exists i :: 0 <= i < |uploads| && Active(uploads[i]) && uploads[i].privateObjectKey == key
  }

  /** The record of a subject; the unique index allows at most one. */
  function RecordOf(records: seq<Record>, subject: string): Option<nat> {
    if records == [] then None
    else if records[|records| - 1].subjectId == subject then Some(|records| - 1)
    else RecordOf(records[..|records| - 1], subject)
  }

  predicate StrictPrefix(a: seq<string>, b: seq<string>) {
    |a| < |b| && a == b[..|a|]
  }

  predicate IsStrictSuccessor(env: Environment, archive: Objects, record: Record, chain: Bytes) {
    var current := ReadEventChain(archive, "", record.packageCid, Some(record.chainStorageKey));
    && current.Some? && env.parseChain(current.value).Some? && env.parseChain(chain).Some?
    && StrictPrefix(env.parseChain(current.value).value.events, env.parseChain(chain).value.events)
  }

  // ---------------------------------------------------------------- one task, one statement

  function NewUploadOf(p: Prepared, buffer: Bytes): NewUpload {
    NewUpload(p.ownableId, p.subjectId, p.cid, p.uploadDigest, |buffer|, p.expandedBytes,
              UploadKey(p.uploadDigest), p.eventChainDigest, p.previousOwnerAddress)
  }

  predicate MatchesRow(p: Prepared, u: Upload) {
    p.ownableId == u.ownableId && p.uploadDigest == u.uploadDigest && p.cid == u.packageCid
      && p.subjectId == u.subjectId
  }

  function RecordFrom(p: Prepared): Record {
    Record(p.cid, Lower(p.previousOwnerAddress), Lower(p.subjectId), p.uploadDigest,
           ImmutableChainKey(p.ownableId, p.eventChainDigest), p.ownableId)
  }

  /** Each column of the record comes from its own part of the upload. */
  predicate RecordHolds(r: Record, p: Prepared) {
    && r.packageCid == p.cid && r.prevOwnerAddress == Lower(p.previousOwnerAddress)
    && r.subjectId == Lower(p.subjectId) && r.uploadDigest == p.uploadDigest && r.ownableId == p.ownableId
    && r.chainStorageKey == "archives/chains/" + p.ownableId + "/" + p.eventChainDigest + ".json"
  }

  /** Each column of the owner state comes from its own part of the replay. */
  predicate OwnerHolds(h: Holding, r: ReplayState) {
    && h.owner == Lower(r.owner) && h.account == r.ownerAccount
    && h.lastEventId == r.latestAppliedPublicEventId
  }

  function RecordIdFor(records: seq<Record>, p: Prepared): nat {
    var found := RecordOf(records, Lower(p.subjectId));
    if found.Some? then found.value else |records|
  }

  function UpsertRecord(records: seq<Record>, p: Prepared): seq<Record> {
    var found := RecordOf(records, Lower(p.subjectId));
    if found.Some? && found.value < |records| then records[found.value := RecordFrom(p)] else records + [RecordFrom(p)]
  }

  function AssignmentOf(recordId: nat, r: ReplayState): Assignment {
    Assignment(recordId, r.owner, r.ownerAccount, r.latestAppliedPublicEventId)
  }

  /** The publication transaction: row, record, owner state and log entry in one step. */
  function PublishTransaction(rt: Runtime, h: Hub, a: Judged, now: int): Hub {
    var recordId := RecordIdFor(h.records, a.prepared);
    h.(uploads := Execute(rt.limits, h.uploads, Publish(a.id), now),
       records := UpsertRecord(h.records, a.prepared),
       owners := Assign(h.owners, AssignmentOf(recordId, a.replay)),
       log := h.log + [Publication(a.id, recordId, a.prepared, a.replay, a.evidence)])
  }

  /** The shared state after a task's next statement, and where that task then stands. */
  datatype Move = Move(hub: Hub, next: Option<Task>)

  function Advance(rt: Runtime, h: Hub, task: Task, fails: bool, order: seq<string>, now: int): Move {
    match task
    case Received(buffer) =>
      var digest := rt.env.sha256(buffer);
      var prepared := PrepareUpload(rt.env, buffer);
      if |buffer| > MAX_UPLOAD_BYTES then Move(h, None)
      else if HasPending(h.uploads, digest) || HasAvailable(h.records, digest) || fails || prepared.Err?
        then Move(h, None)
      else Move(h, Some(Checking(buffer, prepared.value)))
    case Checking(buffer, p) =>
      var existing := RecordOf(h.records, p.subjectId);
      if fails || (existing.Some? && existing.value < |h.records| &&
                   !IsStrictSuccessor(rt.env, h.archive, h.records[existing.value], p.eventChainBuffer))
                     then Move(h, None)
      else Move(h, Some(Replaying(buffer, p)))
    case Replaying(buffer, p) =>
      var r := rt.replay(p.cid, p.eventChainBuffer, p.packageContent, h.evidence);
      if fails || r.None? || !(HasOnlyMissingAnchorEvidence(r.value) || PassesVerification(r.value)) then Move(h, None)
      else Move(h, Some(Staging(buffer, p)))
    case Staging(buffer, p) =>
      if fails || HasPending(h.uploads, p.uploadDigest) || HasPendingSubject(h.uploads, p.subjectId) then Move(h, None)
      else Move(h, Some(Storing(buffer, p)))
    case Storing(buffer, p) =>
      var key := UploadKey(p.uploadDigest);
      if fails then Move(h, None)
      else Move(h.(vault := if key in h.vault then h.vault else h.vault[key := buffer]), Some(Stored(buffer, p)))
    case Stored(buffer, p) =>
      if fails || Insert(rt.limits, h.uploads, NewUploadOf(p, buffer), now).Err?
        then Move(h, Some(Undoing(p.uploadDigest)))
      else Move(h.(uploads := Execute(rt.limits, h.uploads, Create(NewUploadOf(p, buffer)), now),
                   contents := h.contents + [buffer]), None)
    case Undoing(digest) =>
      Move(h, if HasPending(h.uploads, digest) then None else Some(Unmatched(digest)))
    case Unmatched(digest) =>
      Move(h, if IsReferenced(h.uploads, UploadKey(digest)) then None else Some(Discarding(digest)))
    case Discarding(digest) =>
      Move(h.(vault := h.vault - {UploadKey(digest)}), None)
    case Claimed(id, u) =>
      var key := u.privateObjectKey;
      if fails || key !in h.vault || PrepareUpload(rt.env, h.vault[key]).Err?
        then Move(h, Some(Rejecting(id, key, STAGED_UPLOAD_INVALID)))
      else
        var p := PrepareUpload(rt.env, h.vault[key]).value;
        Move(h, Some(if MatchesRow(p, u) then Rebuilt(id, u, p)
          else Rejecting(id, key, STAGED_UPLOAD_IDENTITY_MISMATCH)))
    case Rebuilt(id, u, p) =>
      var r := rt.replay(p.cid, p.eventChainBuffer, p.packageContent, h.evidence);
      if fails || r.None? then Move(h, Some(Rejecting(id, u.privateObjectKey, PROMOTION_REPLAY_REJECTED)))
      else
        var judged := Judged(id, u, p, r.value, h.evidence);
        Move(h, Some(
          if HasOnlyMissingAnchorEvidence(r.value) then Deferring(judged)
          else if PassesVerification(r.value) then Verified(judged)
          else Rejecting(id, u.privateObjectKey, PROMOTION_REPLAY_REJECTED)))
    case Deferring(a) =>
      if fails then Move(h, Some(Rejecting(a.id, a.upload.privateObjectKey, PROMOTION_REPLAY_REJECTED)))
      else Move(h.(uploads := Execute(rt.limits, h.uploads, Restore(a.id, Some(MISSING_INDEXED_EVIDENCE)), now)), None)
    case Verified(a) =>
      if fails then Move(h, Some(Rejecting(a.id, a.upload.privateObjectKey, PROMOTION_REPLAY_REJECTED)))
      else Move(h.(archive := PutPackage(h.archive, a.prepared.cid, a.prepared.packageContent, a.prepared.packageFiles,
        order)),
                Some(ZipStored(a)))
    case ZipStored(a) =>
      if fails then Move(h, Some(Rejecting(a.id, a.upload.privateObjectKey, PROMOTION_REPLAY_REJECTED)))
      else Move(h.(archive := PutChain(h.archive, a.prepared.ownableId, a.prepared.eventChainDigest,
        a.prepared.eventChainBuffer)),
                Some(ChainStored(a)))
    case ChainStored(a) =>
      if fails || !Publishable(h.uploads, a.id, now)
        then Move(h, Some(Rejecting(a.id, a.upload.privateObjectKey, PROMOTION_REPLAY_REJECTED)))
      else Move(PublishTransaction(rt, h, a, now), Some(Releasing(a.id, a.upload.privateObjectKey, true)))
    case Rejecting(id, key, code) =>
      if fails then Move(h, None)
      else Move(h.(uploads := Execute(rt.limits, h.uploads, Reject(id, code), now)), Some(Releasing(id, key, false)))
    case Releasing(id, key, afterPublication) =>
      if fails then Move(h, if afterPublication then Some(Rejecting(id, key, PROMOTION_REPLAY_REJECTED)) else None)
      else Move(h, if IsReferenced(h.uploads, key) then None else Some(Removing(id, key)))
    case Removing(id, key) =>
      if fails then Move(h, None) else Move(h.(vault := h.vault - {key}), Some(Marking(id, key)))
    case Marking(id, key) =>
      if fails then Move(h, None)
      else Move(h.(uploads := Execute(rt.limits, h.uploads, MarkDeleted(id), now)), None)
  }

  function ClaimStatement(s: Step): Statement
    requires s.Claim?
  {
    if s.single then ClaimOne(s.id, s.owner, s.leaseSeconds) else ClaimBatch(s.owner, s.leaseSeconds, {s.id})
  }

  function Take(rt: Runtime, h: Hub, s: Step, now: int): Hub {
    match s
    case Upload(t, buffer) =>
      if t in h.tasks then h else h.(tasks := h.tasks[t := Received(buffer)])
    case Claim(t, id, _, _, _) =>
      if t in h.tasks || !Claims(h.uploads, ClaimStatement(s), id, now) then h
      else
        var uploads := Execute(rt.limits, h.uploads, ClaimStatement(s), now);
        if id < |uploads| then h.(uploads := uploads, tasks := h.tasks[t := Claimed(id, uploads[id])]) else h
    case Collect(t, id) =>
      if t in h.tasks || id >= |h.uploads| || Active(h.uploads[id]) then h
      else h.(tasks := h.tasks[t := Releasing(id, h.uploads[id].privateObjectKey, false)])
    case Sweep(chosen) =>
      h.(uploads := Execute(rt.limits, h.uploads, ExpireBatch(chosen), now))
    case Index(evidence) =>
      h.(evidence := evidence)
    case Resume(t, fails, order) =>
      if t !in h.tasks then h
      else
        var m := Advance(rt, h, h.tasks[t], fails, order, now);
        m.hub.(tasks := if m.next.Some? then h.tasks[t := m.next.value] else h.tasks - {t})
  }

  datatype Timed = Timed(step: Step, now: int)

  const NOTHING := Hub([], [], map[], map[], map[], Evidence(map[], map[]), map[], [], [])

  function AfterRun(rt: Runtime, run: seq<Timed>): Hub {
    if run == [] then NOTHING
    else Take(rt, AfterRun(rt, run[..|run| - 1]), run[|run| - 1].step, run[|run| - 1].now)
  }
}
