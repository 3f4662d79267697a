/** The table quarantined_ownable_uploads and every SQL statement that changes it.

    A row is never deleted, so the table is a sequence in insertion order and a row's identifier is
    its index. Each statement is one total function of the table and of NOW(): whichever processes
    issue them, a run is a list of statements with times. No order is assumed on those times. */
module Uploads {
  import opened Basics

  datatype Status = Pending | Promoting | Available | Rejected | Expired

  /** promotion_lease_owner and promotion_lease_expires_at, always set and cleared together. */
  datatype Lease = Lease(owner: string, expiresAt: int)

  datatype Upload = Upload(
    ownableId: string,
    subjectId: string,
    packageCid: string,
    uploadDigest: string,
    compressedBytes: nat,
    expandedBytes: nat,
    privateObjectKey: string,
    privateObjectDeleted: bool,
    eventChainDigest: string,
    previousOwnerAddress: string,
    status: Status,
    expiresAt: int,
    lease: Option<Lease>,
    reasonCode: Option<string>)

  datatype NewUpload = NewUpload(
    ownableId: string,
    subjectId: string,
    packageCid: string,
    uploadDigest: string,
    compressedBytes: nat,
    expandedBytes: nat,
    privateObjectKey: string,
    eventChainDigest: string,
    previousOwnerAddress: string)

  /** The quarantine budgets, shared by every process. */
  datatype Limits = Limits(retentionSeconds: int, maxPendingObjects: nat, maxPendingBytes: nat)

  datatype Statement =
    | Create(input: NewUpload)
    | ClaimBatch(owner: string, leaseSeconds: int, chosen: set<nat>)
    | ClaimOne(id: nat, owner: string, leaseSeconds: int)
    | Restore(id: nat, reason: Option<string>)
    | Reject(id: nat, code: string)
    | ExpireBatch(chosen: set<nat>)
    | MarkDeleted(id: nat)
    | Publish(id: nat)

  type Table = seq<Upload>

  predicate Active(u: Upload) {
    u.status == Pending || u.status == Promoting
  }

  predicate Due(u: Upload, now: int) {
    Active(u) && u.expiresAt <= now
  }

  function ActiveCount(rows: Table): nat {
    if rows == [] then 0
    else ActiveCount(rows[..|rows| - 1]) + if Active(rows[|rows| - 1]) then 1 else 0
  }

  function ActiveBytes(rows: Table): nat {
    if rows == [] then 0
    else ActiveBytes(rows[..|rows| - 1]) + if Active(rows[|rows| - 1]) then rows[|rows| - 1].compressedBytes else 0
  }

  // ---------------------------------------------------------------- the statements

  function Renew(u: Upload, owner: string, until: int): Upload {
    u.(status := Promoting, lease := Some(Lease(owner, until)))
  }

  /** The WHERE clause of the batch claim: pending, or promoting under a lapsed lease, and not yet due. */
  predicate Claimable(u: Upload, now: int) {
    (u.status == Pending || (u.status == Promoting && u.lease.Some? && u.lease.value.expiresAt <= now))
      && u.expiresAt > now
  }

  predicate Publishable(rows: Table, id: nat, now: int) {
    id < |rows| && rows[id].status == Promoting && rows[id].expiresAt > now
  }

  /** Rows a cleanup sweep looks at: undeleted objects of rows that are due or already terminal. */
  predicate Sweepable(u: Upload, now: int) {
    !u.privateObjectDeleted && (Due(u, now) || !Active(u))
  }

  /** The expiry statement that opens every insertion; it leaves the lease columns alone. */
  function ExpireDue(rows: Table, now: int): (r: Table)
    ensures |r| == |rows|
    ensures forall i :: 0 <= i < |rows| ==>
      r[i] == if Due(rows[i], now) then Lapse(rows[i]) else rows[i]
  {
    seq(|rows|, i requires 0 <= i < |rows| => if Due(rows[i], now) then Lapse(rows[i]) else rows[i])
  }

  function Lapse(u: Upload): Upload {
    u.(status := Expired, reasonCode := if u.reasonCode == None then Some("EXPIRED") else u.reasonCode)
  }

  /** Would an insertion break one of the partial unique indexes on active rows? */
  predicate Conflicts(rows: Table, input: NewUpload) {
    exists i :: 0 <= i < |rows| && Active(rows[i]) &&
      (rows[i].uploadDigest == input.uploadDigest || rows[i].subjectId == Lower(input.subjectId))
  }

  predicate OverBudget(limits: Limits, rows: Table, input: NewUpload) {
    ActiveCount(rows) >= limits.maxPendingObjects || ActiveBytes(rows) + input.compressedBytes > limits.maxPendingBytes
  }

  function NewRow(limits: Limits, input: NewUpload, now: int): Upload {
    Upload(input.ownableId, Lower(input.subjectId), input.packageCid, input.uploadDigest,
           input.compressedBytes, input.expandedBytes, input.privateObjectKey, false,
           input.eventChainDigest, Lower(input.previousOwnerAddress), Pending,
           now + limits.retentionSeconds, None, None)
  }

  /** The insertion transaction; an error rolls back the expiry it began with. */
  function Insert(limits: Limits, rows: Table, input: NewUpload, now: int): Result<Table> {
    var swept := ExpireDue(rows, now);
    if OverBudget(limits, swept, input) then Err("QUARANTINE_CAPACITY_EXHAUSTED")
    else if Conflicts(swept, input) then Err("duplicate key value violates unique constraint")
    else Ok(swept + [NewRow(limits, input, now)])
  }

  function Sweep(u: Upload): Upload {
    if Active(u) then u.(status := Expired, reasonCode := Some("EXPIRED"), lease := None) else u
  }

  function Execute(limits: Limits, rows: Table, s: Statement, now: int): Table {
    match s
    case Create(input) =>
      var r := Insert(limits, rows, input, now);
      if r.Ok? then r.value else rows
    case ClaimBatch(owner, leaseSeconds, chosen) =>
      seq(|rows|, i requires 0 <= i < |rows| =>
        if i in chosen && Claimable(rows[i], now) then Renew(rows[i], owner, now + leaseSeconds) else rows[i])
    case ClaimOne(id, owner, leaseSeconds) =>
      if id < |rows| && rows[id].status == Pending && rows[id].expiresAt > now
      then rows[id := Renew(rows[id], owner, now + leaseSeconds)] else rows
    case Restore(id, reason) =>
      if id < |rows| && rows[id].status == Promoting
      then rows[id := rows[id].(status := Pending, lease := None, reasonCode := reason)] else rows
    case Reject(id, code) =>
      if id < |rows|
      then rows[id := rows[id].(status := Rejected, lease := None, reasonCode := Some(code))] else rows
    case ExpireBatch(chosen) =>
      seq(|rows|, i requires 0 <= i < |rows| =>
        if i in chosen && Sweepable(rows[i], now) then Sweep(rows[i]) else rows[i])
    case MarkDeleted(id) =>
      if id < |rows| then rows[id := rows[id].(privateObjectDeleted := true)] else rows
    case Publish(id) =>
      if Publishable(rows, id, now)
      then rows[id := rows[id].(status := Available, lease := None)] else rows
  }

  // ---------------------------------------------------------------- what one statement keeps

  /** The columns no statement ever rewrites. */
  predicate SameIdentity(u: Upload, v: Upload) {
    && u.ownableId == v.ownableId && u.subjectId == v.subjectId && u.packageCid == v.packageCid
    && u.uploadDigest == v.uploadDigest && u.compressedBytes == v.compressedBytes && u.expandedBytes == v.expandedBytes
    && u.privateObjectKey == v.privateObjectKey && u.eventChainDigest == v.eventChainDigest
    && u.previousOwnerAddress == v.previousOwnerAddress && u.expiresAt == v.expiresAt
  }

  /** A later table: old rows keep their identity, and a row that stopped being active stays so. */
  predicate Evolves(rows: Table, later: Table) {
    |rows| <= |later| && forall i :: 0 <= i < |rows| ==>
      && SameIdentity(rows[i], later[i])
      && (Active(later[i]) ==> Active(rows[i]))
      && (rows[i].privateObjectDeleted ==> later[i].privateObjectDeleted)
  }

  lemma {:induction false} ExecuteEvolves(limits: Limits, rows: Table, s: Statement, now: int)
    ensures Evolves(rows, Execute(limits, rows, s, now))
    ensures !s.Create? ==> |Execute(limits, rows, s, now)| == |rows|
  {
    hide OverBudget, Conflicts;
  }

  /** When no row becomes active, neither aggregate grows. */
  lemma {:induction false} ShrinkingKeepsTotals(rows: Table, later: Table)
    requires |rows| == |later| && Evolves(rows, later)
    ensures ActiveCount(later) <= ActiveCount(rows) && ActiveBytes(later) <= ActiveBytes(rows)
  {
    if rows != [] {
      var n := |rows| - 1;
      assert SameIdentity(rows[n], later[n]);
      ShrinkingKeepsTotals(rows[..n], later[..n]);
    }
  }

  predicate WithinBudget(limits: Limits, rows: Table) {
    ActiveCount(rows) <= limits.maxPendingObjects && ActiveBytes(rows) <= limits.maxPendingBytes
  }

  ghost predicate ActiveUnique(rows: Table) {
    forall i, j :: 0 <= i < j < |rows| && Active(rows[i]) && Active(rows[j]) ==>
      rows[i].uploadDigest != rows[j].uploadDigest && rows[i].subjectId != rows[j].subjectId
  }

  lemma {:induction false} ExecuteKeepsBudget(limits: Limits, rows: Table, s: Statement, now: int)
    requires WithinBudget(limits, rows)
    ensures WithinBudget(limits, Execute(limits, rows, s, now))
  {
    ExecuteEvolves(limits, rows, s, now);
    var later := Execute(limits, rows, s, now);
    if s.Create? {
      var swept := ExpireDue(rows, now);
      if Insert(limits, rows, s.input, now).Ok? {
        assert later[..|later| - 1] == swept;
      }
    } else {
      ShrinkingKeepsTotals(rows, later);
    }
  }

  lemma {:induction false} ExecuteKeepsUnique(limits: Limits, rows: Table, s: Statement, now: int)
    requires ActiveUnique(rows)
    ensures ActiveUnique(Execute(limits, rows, s, now))
  {
    ExecuteEvolves(limits, rows, s, now);
    var later := Execute(limits, rows, s, now);
    forall i, j | 0 <= i < j < |later| && Active(later[i]) && Active(later[j])
      ensures later[i].uploadDigest != later[j].uploadDigest && later[i].subjectId != later[j].subjectId
    {
      assert SameIdentity(rows[i], later[i]) && Active(rows[i]);
      if j < |rows| {
        assert SameIdentity(rows[j], later[j]) && Active(rows[j]);
      } else {
        assert later[i] == ExpireDue(rows, now)[i];
      }
    }
  }

  // ---------------------------------------------------------------- runs

  datatype Issued = Issued(statement: Statement, now: int)

  /** The table after a run of statements. */
  function After(limits: Limits, rows: Table, run: seq<Issued>): Table {
    if run == [] then rows
    else
      var last := run[|run| - 1];
      Execute(limits, After(limits, rows, run[..|run| - 1]), last.statement, last.now)
  }

  /** The rows whose publication transaction committed, in order. */
  function PublishedBy(limits: Limits, rows: Table, run: seq<Issued>): seq<nat> {
    if run == [] then []
    else
      var before := run[..|run| - 1];
      var last := run[|run| - 1];
      PublishedBy(limits, rows, before) +
      if last.statement.Publish? && Publishable(After(limits, rows, before), last.statement.id, last.now)
      then [last.statement.id] else []
  }

  predicate Distinct<T(==)>(s: seq<T>) {
    forall i, j :: 0 <= i < j < |s| ==> s[i] != s[j]
  }

  /** The rows that count against the budgets. */
  ghost function ActiveRows(rows: Table): set<nat> {
    set i: nat | i < |rows| && (rows[i].status == Pending || rows[i].status == Promoting)
  }

  ghost function BytesOf(rows: Table, ids: set<nat>): nat
    requires forall i :: i in ids ==> i < |rows|
  {
    if ids == {} then 0
    else
      var i :| i in ids;
      rows[i].compressedBytes + BytesOf(rows, ids - {i})
  }

  lemma {:induction false} BytesWithout(rows: Table, ids: set<nat>, i: nat)
    requires i in ids && forall j :: j in ids ==> j < |rows|
    ensures BytesOf(rows, ids) == rows[i].compressedBytes + BytesOf(rows, ids - {i})
  {
    var j :| j in ids && BytesOf(rows, ids) == rows[j].compressedBytes + BytesOf(rows, ids - {j});
    if j != i {
      BytesWithout(rows, ids - {j}, i);
      BytesWithout(rows, ids - {i}, j);
      assert ids - {i} - {j} == ids - {j} - {i};
    }
  }

  /** The bytes of a set of rows are those rows' alone. */
  lemma {:induction false} BytesDependOnRows(rows: Table, later: Table, ids: set<nat>)
    requires forall i :: i in ids ==> i < |rows| && i < |later| && rows[i].compressedBytes == later[i].compressedBytes
    ensures BytesOf(rows, ids) == BytesOf(later, ids)
  {
    if ids != {} {
      var i :| i in ids;
      BytesWithout(rows, ids, i);
      BytesWithout(later, ids, i);
      BytesDependOnRows(rows, later, ids - {i});
    }
  }

  /** The two aggregates of the insertion are the number and the bytes of the active rows. */
  lemma {:induction false} AggregatesAreOfActiveRows(rows: Table)
    ensures ActiveCount(rows) == |ActiveRows(rows)| && ActiveBytes(rows) == BytesOf(rows, ActiveRows(rows))
  {
    if rows != [] {
      var n := |rows| - 1;
      AggregatesAreOfActiveRows(rows[..n]);
      BytesDependOnRows(rows[..n], rows, ActiveRows(rows[..n]));
      if Active(rows[n]) {
        assert ActiveRows(rows) == ActiveRows(rows[..n]) + {n};
        BytesWithout(rows, ActiveRows(rows), n);
        assert ActiveRows(rows) - {n} == ActiveRows(rows[..n]);
      } else {
        assert ActiveRows(rows) == ActiveRows(rows[..n]);
      }
    }
  }

  /** In every reachable table the active rows respect both budgets, and no two share a digest or a subject. */
  lemma {:induction false} BudgetAndUniquenessAlwaysHold(limits: Limits, run: seq<Issued>)
    ensures WithinBudget(limits, After(limits, [], run))
    ensures ActiveUnique(After(limits, [], run))
    ensures var rows := After(limits, [], run);
      && |ActiveRows(rows)| <= limits.maxPendingObjects && BytesOf(rows, ActiveRows(rows)) <= limits.maxPendingBytes
      && forall i, j :: i in ActiveRows(rows) && j in ActiveRows(rows) && i != j ==>
           rows[i].uploadDigest != rows[j].uploadDigest && rows[i].subjectId != rows[j].subjectId
  {
    AggregatesAreOfActiveRows(After(limits, [], run));
    if run != [] {
      var before, last := run[..|run| - 1], run[|run| - 1];
      BudgetAndUniquenessAlwaysHold(limits, before);
      ExecuteKeepsBudget(limits, After(limits, [], before), last.statement, last.now);
      ExecuteKeepsUnique(limits, After(limits, [], before), last.statement, last.now);
    }
  }

  /** The active rows whose retention has not ended. */
  ghost function UndueRows(rows: Table, now: int): set<nat> {
    set i | i in ActiveRows(rows) && rows[i].expiresAt > now
  }

  /** Is there room for the upload among the rows that are active and not due? */
  ghost predicate HasRoom(limits: Limits, rows: Table, input: NewUpload, now: int) {
    && |UndueRows(rows, now)| < limits.maxPendingObjects
    && BytesOf(rows, UndueRows(rows, now)) + input.compressedBytes <= limits.maxPendingBytes
  }

  /** Does one of them hold the same bytes, or another upload of the same Ownable? */
  ghost predicate IsTaken(rows: Table, input: NewUpload, now: int) {
    exists i :: i in UndueRows(rows, now) && Clashes(rows[i], input)
  }

  predicate Clashes(u: Upload, input: NewUpload) {
    u.uploadDigest == input.uploadDigest || u.subjectId == Lower(input.subjectId)
  }

  lemma {:induction false} ExpiryLeavesTheUndue(rows: Table, now: int)
    ensures var swept := ExpireDue(rows, now);
      && ActiveCount(swept) == |UndueRows(rows, now)| && ActiveBytes(swept) == BytesOf(rows, UndueRows(rows, now))
  {
    var swept := ExpireDue(rows, now);
    AggregatesAreOfActiveRows(swept);
    assert ActiveRows(swept) == UndueRows(rows, now);
    BytesDependOnRows(swept, rows, UndueRows(rows, now));
  }

  lemma {:induction false} ConflictsAreClashes(rows: Table, input: NewUpload, now: int)
    ensures Conflicts(ExpireDue(rows, now), input) <==> IsTaken(rows, input, now)
  {
    var swept := ExpireDue(rows, now);
    if i :| i in UndueRows(rows, now) && Clashes(rows[i], input) {
      assert Active(swept[i]) && swept[i] == rows[i];
    }
    if Conflicts(swept, input) {
      var i :| 0 <= i < |swept| && Active(swept[i]) &&
        (swept[i].uploadDigest == input.uploadDigest || swept[i].subjectId == Lower(input.subjectId));
      assert i in UndueRows(rows, now) && Clashes(rows[i], input);
    }
  }

  lemma {:induction false} InsertingAddsItsRow(limits: Limits, rows: Table, input: NewUpload, now: int)
    ensures Inserted(limits, rows, input, now, ExpireDue(rows, now) + [NewRow(limits, input, now)])
  {
  }

  /** An insertion succeeds if and only if, among the rows that are active and not due, there is room
      for the upload and neither its bytes nor its subject are taken. It adds one pending row with the
      upload's columns, expires the rows that are due, and leaves all others alone. */
  lemma {:induction false} InsertionSucceedsExactlyWhen(limits: Limits, rows: Table, input: NewUpload, now: int)
    ensures var r := Insert(limits, rows, input, now);
      && (r.Ok? <==> HasRoom(limits, rows, input, now) && !IsTaken(rows, input, now))
      && (r == Err("QUARANTINE_CAPACITY_EXHAUSTED") <==> !HasRoom(limits, rows, input, now))
      && (r.Ok? ==> Inserted(limits, rows, input, now, r.value))
  {
    hide IsTaken, Inserted, UndueRows, Conflicts, ExpireDue, NewRow;
    ExpiryLeavesTheUndue(rows, now);
    ConflictsAreClashes(rows, input, now);
    InsertingAddsItsRow(limits, rows, input, now);
  }

  /** The table with the upload's row added and the due rows expired. */
  ghost predicate Inserted(limits: Limits, rows: Table, input: NewUpload, now: int, after: Table) {
    && |after| == |rows| + 1
    && (forall i :: 0 <= i < |rows| ==>
          var due := (rows[i].status == Pending || rows[i].status == Promoting) && rows[i].expiresAt <= now;
          var reason := if rows[i].reasonCode.None? then Some("EXPIRED") else rows[i].reasonCode;
          after[i] == if due then rows[i].(status := Expired, reasonCode := reason) else rows[i])
    && var u := after[|rows|];
      && u.ownableId == input.ownableId && u.subjectId == Lower(input.subjectId) && u.packageCid == input.packageCid
      && u.uploadDigest == input.uploadDigest && u.compressedBytes == input.compressedBytes
      && u.expandedBytes == input.expandedBytes && u.privateObjectKey == input.privateObjectKey
      && !u.privateObjectDeleted && u.eventChainDigest == input.eventChainDigest
      && u.previousOwnerAddress == Lower(input.previousOwnerAddress) && u.status == Pending
      && u.expiresAt == now + limits.retentionSeconds && u.lease.None? && u.reasonCode.None?
  }

  /** From any moment of a run to any later one, rows keep their identity and a row that left
      {pending, promoting} never re-enters it. */
  lemma {:induction false} LeavingActiveIsFinal(limits: Limits, rows: Table, run: seq<Issued>, k: nat)
    requires k <= |run|
    ensures Evolves(After(limits, rows, run[..k]), After(limits, rows, run))
  {
    if k == |run| {
      assert run[..k] == run;
    } else {
      var before, last := run[..|run| - 1], run[|run| - 1];
      LeavingActiveIsFinal(limits, rows, before, k);
      assert before[..k] == run[..k];
      ExecuteEvolves(limits, After(limits, rows, before), last.statement, last.now);
      EvolvesIsTransitive(After(limits, rows, run[..k]), After(limits, rows, before), After(limits, rows, run));
    }
  }

  lemma {:induction false} EvolvesIsTransitive(a: Table, b: Table, c: Table)
    requires Evolves(a, b) && Evolves(b, c)
    ensures Evolves(a, c)
  {
    forall i | 0 <= i < |a|
      ensures SameIdentity(a[i], c[i]) && (Active(c[i]) ==> Active(a[i]))
      ensures a[i].privateObjectDeleted ==> c[i].privateObjectDeleted
    {
      assert SameIdentity(a[i], b[i]) && SameIdentity(b[i], c[i]);
    }
  }

  lemma {:induction false} PublishedRowsAreDone(limits: Limits, rows: Table, run: seq<Issued>)
    ensures Distinct(PublishedBy(limits, rows, run))
    ensures forall k :: 0 <= k < |PublishedBy(limits, rows, run)| ==>
      var id := PublishedBy(limits, rows, run)[k];
      id < |After(limits, rows, run)| && !Active(After(limits, rows, run)[id])
  {
    if run != [] {
      var before, last := run[..|run| - 1], run[|run| - 1];
      PublishedRowsAreDone(limits, rows, before);
      ExecuteEvolves(limits, After(limits, rows, before), last.statement, last.now);
    }
  }

  /** Any number of promoters, with lapsed and stolen leases, publish each row at most once; and a
      row is published exactly when some statement moved it from promoting to available. */
  lemma {:induction false} EachRowIsPublishedAtMostOnce(limits: Limits, rows: Table, run: seq<Issued>, id: nat)
    ensures Distinct(PublishedBy(limits, rows, run))
    ensures id in PublishedBy(limits, rows, run) <==>
      exists k :: 0 <= k < |run| && BecomesAvailable(limits, rows, run, k, id)
  {
    PublishedRowsAreDone(limits, rows, run);
    PublishedMeansTransition(limits, rows, run, id);
  }

  ghost predicate BecomesAvailable(limits: Limits, rows: Table, run: seq<Issued>, k: nat, id: nat)
    requires k < |run|
  {
    var a, b := After(limits, rows, run[..k]), After(limits, rows, run[..k + 1]);
    id < |a| <= |b| && a[id].status == Promoting && b[id].status == Available
  }

  /** Only a committed publication moves a row from promoting to available. */
  lemma {:induction false} OnlyPublishMakesAvailable(limits: Limits, rows: Table, s: Statement, now: int, id: nat)
    ensures |rows| <= |Execute(limits, rows, s, now)|
    ensures (id < |rows| && rows[id].status == Promoting && Execute(limits, rows, s, now)[id].status == Available)
      <==> s == Publish(id) && id < |rows| && rows[id].status == Promoting && rows[id].expiresAt > now
  {
    ExecuteEvolves(limits, rows, s, now);
  }

  lemma {:induction false} PublishedMeansTransition(limits: Limits, rows: Table, run: seq<Issued>, id: nat)
    ensures id in PublishedBy(limits, rows, run) <==>
      exists k :: 0 <= k < |run| && BecomesAvailable(limits, rows, run, k, id)
  {
    hide Execute;
    if run != [] {
      var n := |run| - 1;
      var before, last := run[..n], run[n];
      PublishedMeansTransition(limits, rows, before, id);
      OnlyPublishMakesAvailable(limits, After(limits, rows, before), last.statement, last.now, id);
      assert run[..n + 1] == run;
      assert After(limits, rows, run) == Execute(limits, After(limits, rows, before), last.statement, last.now);
      assert BecomesAvailable(limits, rows, run, n, id) <==>
        last.statement.Publish? && last.statement.id == id && Publishable(After(limits, rows, before), id, last.now);
      forall k | 0 <= k < n
        ensures BecomesAvailable(limits, rows, run, k, id) <==> BecomesAvailable(limits, rows, before, k, id)
      {
        assert run[..k] == before[..k] && run[..k + 1] == before[..k + 1];
      }
    }
  }

  // ---------------------------------------------------------------- leases

  /** Does this statement hand row id to a promoter? */
  predicate Claims(rows: Table, s: Statement, id: nat, now: int) {
    id < |rows| &&
    match s
    case ClaimBatch(_, _, chosen) => id in chosen && Claimable(rows[id], now)
    case ClaimOne(claimed, _, _) => claimed == id && rows[id].status == Pending && rows[id].expiresAt > now
    case _ => false
  }

  predicate HeldUntil(rows: Table, id: nat, until: int) {
    id < |rows| && (Active(rows[id]) ==>
      rows[id].status == Promoting && rows[id].lease.Some? && rows[id].lease.value.expiresAt == until)
  }

  lemma {:induction false} HeldRowStaysHeld(limits: Limits, rows: Table, s: Statement, now: int, id: nat, until: int)
    requires HeldUntil(rows, id, until) && now < until
    requires !(s.Restore? && s.id == id)
    ensures !Claims(rows, s, id, now)
    ensures HeldUntil(Execute(limits, rows, s, now), id, until)
  {
    ExecuteEvolves(limits, rows, s, now);
  }

  lemma {:induction false} HeldThroughout(limits: Limits, held: Table, run: seq<Issued>, id: nat, until: int)
    requires HeldUntil(held, id, until)
    requires forall k :: 0 <= k < |run| ==>
      run[k].now < until && !(run[k].statement.Restore? && run[k].statement.id == id)
    ensures HeldUntil(After(limits, held, run), id, until)
    ensures forall k :: 0 <= k < |run| ==> !Claims(After(limits, held, run[..k]), run[k].statement, id, run[k].now)
  {
    hide Execute;
    if run != [] {
      var n := |run| - 1;
      var before, last := run[..n], run[n];
      HeldThroughout(limits, held, before, id, until);
      HeldRowStaysHeld(limits, After(limits, held, before), last.statement, last.now, id, until);
      forall k | 0 <= k < n ensures !Claims(After(limits, held, run[..k]), run[k].statement, id, run[k].now) {
        assert run[..k] == before[..k] && run[k] == before[k];
      }
    }
  }

  /** An inserted upload waits to be claimed: at every moment before its retention ends either kind of
      claim obtains it, and no sweep touches its object. */
  lemma {:induction false} FreshUploadCanBeClaimed(limits: Limits, rows: Table, input: NewUpload, now: int,
          owner: string, leaseSeconds: int, later: int)
    requires Insert(limits, rows, input, now).Ok? && later < now + limits.retentionSeconds
    ensures var after, id := Execute(limits, rows, Create(input), now), |rows|;
      && Claims(after, ClaimOne(id, owner, leaseSeconds), id, later)
      && Claims(after, ClaimBatch(owner, leaseSeconds, {id}), id, later)
      && !Sweepable(after[id], later) && Conflicts(after, input)
      && ActiveBytes(after) == ActiveBytes(ExpireDue(rows, now)) + input.compressedBytes
  {
    var after := Execute(limits, rows, Create(input), now);
    assert after[..|rows|] == ExpireDue(rows, now);
    assert Active(after[|rows|]);
  }

  /** A promoter's lease excludes every other promoter until it runs out, the row is deferred, or
      the row leaves quarantine: no statement of a later stretch that is neither a deferral of the
      row nor issued after the lease's end hands the row out again. */
  lemma {:induction false} LeaseExcludesOtherPromoters(limits: Limits, rows: Table, claim: Issued, run: seq<Issued>,
          id: nat)
    requires Claims(rows, claim.statement, id, claim.now)
    requires forall k :: 0 <= k < |run| ==>
      run[k].now < claim.now + claim.statement.leaseSeconds &&
      !(run[k].statement.Restore? && run[k].statement.id == id)
    ensures var held := Execute(limits, rows, claim.statement, claim.now);
      forall k :: 0 <= k < |run| ==> !Claims(After(limits, held, run[..k]), run[k].statement, id, run[k].now)
  {
    var held := Execute(limits, rows, claim.statement, claim.now);
    HeldThroughout(limits, held, run, id, claim.now + claim.statement.leaseSeconds);
  }

  // ---------------------------------------------------------------- crashed promoters

  /** A batch claim that names a row hands it out if and only if its retention has not ended and it is
      pending, or promoting under a lease that has; any other row stays as it is. */
  lemma {:induction false} BatchClaimsExactlyTheFree(limits: Limits, rows: Table, owner: string, leaseSeconds: int,
          chosen: set<nat>, now: int, id: nat)
    requires id < |rows|
    ensures var u, after := rows[id], Execute(limits, rows, ClaimBatch(owner, leaseSeconds, chosen), now);
      var lapsed := u.status == Promoting && u.lease.Some? && u.lease.value.expiresAt <= now;
      var free := u.expiresAt > now && (u.status == Pending || lapsed);
      && |after| == |rows|
      && after[id] ==
           if id in chosen && free then u.(status := Promoting, lease := Some(Lease(owner, now + leaseSeconds))) else u
  {
  }

  /** In every reachable table a row under promotion carries the lease it was claimed with. */
  ghost predicate PromotingRowsAreLeased(rows: Table) {
    forall i :: 0 <= i < |rows| && rows[i].status == Promoting ==> rows[i].lease.Some?
  }

  lemma {:induction false} LeasesAreNeverMissing(limits: Limits, run: seq<Issued>)
    ensures PromotingRowsAreLeased(After(limits, [], run))
  {
    if run != [] {
      var before, last := run[..|run| - 1], run[|run| - 1];
      LeasesAreNeverMissing(limits, before);
      StatementKeepsLeases(limits, After(limits, [], before), last.statement, last.now);
    }
  }

  lemma {:induction false} StatementKeepsLeases(limits: Limits, rows: Table, s: Statement, now: int)
    requires PromotingRowsAreLeased(rows)
    ensures PromotingRowsAreLeased(Execute(limits, rows, s, now))
  {
    hide OverBudget, Conflicts;
  }

  /** So no crash leaves a row behind: whatever happened before, a row of any reachable table that is
      active and not due is either pending, or under a lease from whose end on a batch claim hands it
      out again. */
  lemma {:induction false} NoActiveRowIsAbandoned(limits: Limits, run: seq<Issued>, id: nat, owner: string,
          leaseSeconds: int, now: int)
    requires var rows := After(limits, [], run);
      id < |rows| && (rows[id].status == Pending || rows[id].status == Promoting) && now < rows[id].expiresAt
    ensures var rows := After(limits, [], run);
      var after := Execute(limits, rows, ClaimBatch(owner, leaseSeconds, {id}), now);
      && (rows[id].status == Pending || rows[id].lease.Some?)
      && |after| == |rows|
      && (rows[id].status == Pending || rows[id].lease.value.expiresAt <= now ==>
            after[id].status == Promoting && after[id].lease == Some(Lease(owner, now + leaseSeconds)))
  {
    hide Execute, After;
    LeasesAreNeverMissing(limits, run);
    BatchClaimsExactlyTheFree(limits, After(limits, [], run), owner, leaseSeconds, {id}, now, id);
  }

  /** The row is still as its claim left it. */
  predicate AsClaimed(rows: Table, id: nat, lease: Lease, expiresAt: int) {
    id < |rows| && rows[id].status == Promoting && rows[id].lease == Some(lease) && rows[id].expiresAt == expiresAt
  }

  /** The statement neither ends the promotion of the row nor hands it to another promoter. */
  predicate LeavesClaim(s: Statement, now: int, id: nat, until: int, expiresAt: int) {
    && now < expiresAt
    && !(s.Restore? && s.id == id) && !(s.Publish? && s.id == id) && !(s.Reject? && s.id == id)
    && (s.ClaimBatch? && id in s.chosen ==> now < until)
  }

  lemma {:induction false} StatementLeavesClaim(limits: Limits, rows: Table, s: Statement, now: int, id: nat,
          lease: Lease, expiresAt: int)
    requires AsClaimed(rows, id, lease, expiresAt) && LeavesClaim(s, now, id, lease.expiresAt, expiresAt)
    ensures AsClaimed(Execute(limits, rows, s, now), id, lease, expiresAt)
  {
    hide OverBudget, Conflicts;
  }

  lemma {:induction false} ClaimIsLeft(limits: Limits, rows: Table, run: seq<Issued>, id: nat, lease: Lease,
          expiresAt: int)
    requires AsClaimed(rows, id, lease, expiresAt)
    requires forall k :: 0 <= k < |run| ==> LeavesClaim(run[k].statement, run[k].now, id, lease.expiresAt, expiresAt)
    ensures AsClaimed(After(limits, rows, run), id, lease, expiresAt)
  {
    hide Execute, AsClaimed, LeavesClaim;
    if run != [] {
      var before, last := run[..|run| - 1], run[|run| - 1];
      ClaimIsLeft(limits, rows, before, id, lease, expiresAt);
      StatementLeavesClaim(limits, After(limits, rows, before), last.statement, last.now, id, lease, expiresAt);
    }
  }

  /** A promoter that claims a row and is never heard of again: until its lease ends the row stays with
      it, through any statements on other rows, and at any time from the lease's end to the end of the
      row's retention a batch claim hands the row to another promoter. */
  lemma {:induction false} CrashedPromotersRowIsClaimedAgain(limits: Limits, rows: Table, claim: Issued,
          run: seq<Issued>, id: nat, other: string, leaseSeconds: int, now: int)
    requires Claims(rows, claim.statement, id, claim.now)
    requires forall k :: 0 <= k < |run| ==>
      LeavesClaim(run[k].statement, run[k].now, id, claim.now + claim.statement.leaseSeconds, rows[id].expiresAt)
    requires claim.now + claim.statement.leaseSeconds <= now < rows[id].expiresAt
    ensures var later := After(limits, Execute(limits, rows, claim.statement, claim.now), run);
      var again := Execute(limits, later, ClaimBatch(other, leaseSeconds, {id}), now);
      && id < |later| == |again|
      && later[id].lease == Some(Lease(claim.statement.owner, claim.now + claim.statement.leaseSeconds))
      && again[id].status == Promoting && again[id].lease == Some(Lease(other, now + leaseSeconds))
  {
    var held := Execute(limits, rows, claim.statement, claim.now);
    var lease := Lease(claim.statement.owner, claim.now + claim.statement.leaseSeconds);
    assert AsClaimed(held, id, lease, rows[id].expiresAt);
    ClaimIsLeft(limits, held, run, id, lease, rows[id].expiresAt);
    BatchClaimsExactlyTheFree(limits, After(limits, held, run), other, leaseSeconds, {id}, now, id);
  }

  // ---------------------------------------------------------------- what becomes of a published row

  /** Statement k of the run publishes row id. */
  ghost predicate PublishesAt(limits: Limits, rows: Table, run: seq<Issued>, k: nat, id: nat) {
    k < |run| && run[k].statement == Publish(id) && Publishable(After(limits, rows, run[..k]), id, run[k].now)
  }

  /** Some statement after the row's publication rejects it. */
  ghost predicate RejectedOncePublished(limits: Limits, rows: Table, run: seq<Issued>, id: nat) {
    exists k: nat, j :: k < j < |run| && PublishesAt(limits, rows, run, k, id) && run[j].statement.Reject?
      && run[j].statement.id == id
  }

  lemma {:induction false} PublishesAtPrefix(limits: Limits, rows: Table, run: seq<Issued>, n: nat, k: nat, id: nat)
    requires k < n <= |run|
    ensures PublishesAt(limits, rows, run, k, id) == PublishesAt(limits, rows, run[..n], k, id)
  {
    assert run[..n][..k] == run[..k];
  }

  lemma {:induction false} PublishedAtSomeStatement(limits: Limits, rows: Table, run: seq<Issued>, id: nat)
    requires id in PublishedBy(limits, rows, run)
    ensures exists k: nat :: PublishesAt(limits, rows, run, k, id)
  {
    hide Execute, Publishable;
    var n := |run| - 1;
    var before, last := run[..n], run[n];
    if id in PublishedBy(limits, rows, before) {
      PublishedAtSomeStatement(limits, rows, before, id);
      var k: nat :| PublishesAt(limits, rows, before, k, id);
      PublishesAtPrefix(limits, rows, run, n, k, id);
    } else {
      assert PublishesAt(limits, rows, run, n, id);
    }
  }

  /** How one statement moves a row that is available or rejected. */
  lemma {:induction false} DoneRowMoves(limits: Limits, rows: Table, s: Statement, now: int, id: nat)
    requires id < |rows| && (rows[id].status == Available || rows[id].status == Rejected)
    ensures var after := Execute(limits, rows, s, now);
      && id < |after| && !Publishable(rows, id, now)
      && after[id].status == if s.Reject? && s.id == id then Rejected else rows[id].status
  {
  }

  /** A published row stays available if and only if no statement after its publication rejects it;
      otherwise it ends rejected. */
  lemma {:induction false} PublishedRowStaysAvailableExactlyWhen(limits: Limits, rows: Table, run: seq<Issued>, id: nat)
    requires id in PublishedBy(limits, rows, run)
    ensures var after := After(limits, rows, run);
      id < |after| && after[id].status == if RejectedOncePublished(limits, rows, run, id) then Rejected else Available
  {
    hide Execute, Publishable;
    var n := |run| - 1;
    var before, last := run[..n], run[n];
    if id in PublishedBy(limits, rows, before) {
      PublishedRowStaysAvailableExactlyWhen(limits, rows, before, id);
      DoneRowMoves(limits, After(limits, rows, before), last.statement, last.now, id);
      PublishedAtSomeStatement(limits, rows, before, id);
      forall k: nat | k < n ensures PublishesAt(limits, rows, run, k, id) == PublishesAt(limits, rows, before, k, id) {
        PublishesAtPrefix(limits, rows, run, n, k, id);
      }
      assert forall j :: 0 <= j < n ==> run[j] == before[j];
      RejectionsExtend(limits, rows, run, id);
    } else {
      PublishingMakesAvailable(limits, After(limits, rows, before), id, last.now);
      NotPublishedBefore(limits, rows, run, id);
    }
  }

  lemma {:induction false} PublishingMakesAvailable(limits: Limits, rows: Table, id: nat, now: int)
    requires Publishable(rows, id, now)
    ensures var after := Execute(limits, rows, Publish(id), now); id < |after| && after[id].status == Available
  {
  }

  /** One more statement rejects a published row if it is its rejection, and otherwise nothing changes. */
  lemma {:induction false} RejectionsExtend(limits: Limits, rows: Table, run: seq<Issued>, id: nat)
    requires run != [] && exists k: nat :: k < |run| - 1 && PublishesAt(limits, rows, run, k, id)
    requires forall k: nat :: k < |run| - 1 ==>
      PublishesAt(limits, rows, run, k, id) == PublishesAt(limits, rows, run[..|run| - 1], k, id)
    ensures var last := run[|run| - 1].statement;
      RejectedOncePublished(limits, rows, run, id) <==>
        RejectedOncePublished(limits, rows, run[..|run| - 1], id) || (last.Reject? && last.id == id)
  {
    hide PublishesAt;
    var n := |run| - 1;
    var before := run[..n];
    assert forall j :: 0 <= j < n ==> run[j] == before[j];
    if RejectedOncePublished(limits, rows, run, id) {
      var k: nat, j :| k < j < |run| && PublishesAt(limits, rows, run, k, id) && run[j].statement.Reject?
        && run[j].statement.id == id;
      if j < n { assert PublishesAt(limits, rows, before, k, id) && before[j].statement.Reject?; }
    }
    if RejectedOncePublished(limits, rows, before, id) {
      var k: nat, j :| k < j < n && PublishesAt(limits, rows, before, k, id) && before[j].statement.Reject?
        && before[j].statement.id == id;
      assert PublishesAt(limits, rows, run, k, id) && run[j].statement.Reject?;
    }
  }

  lemma {:induction false} NotPublishedBefore(limits: Limits, rows: Table, run: seq<Issued>, id: nat)
    requires run != [] && id !in PublishedBy(limits, rows, run[..|run| - 1])
    ensures !RejectedOncePublished(limits, rows, run, id)
  {
    hide Execute, Publishable;
    if RejectedOncePublished(limits, rows, run, id) {
      var k: nat, j :| k < j < |run| && PublishesAt(limits, rows, run, k, id) && run[j].statement.Reject?
        && run[j].statement.id == id;
      PublishesAtPrefix(limits, rows, run, |run| - 1, k, id);
      PublicationIsListed(limits, rows, run[..|run| - 1], k, id);
    }
  }

  lemma {:induction false} PublicationIsListed(limits: Limits, rows: Table, run: seq<Issued>, k: nat, id: nat)
    requires PublishesAt(limits, rows, run, k, id)
    ensures id in PublishedBy(limits, rows, run)
  {
    hide Execute, Publishable;
    if k < |run| - 1 {
      PublishesAtPrefix(limits, rows, run, |run| - 1, k, id);
      PublicationIsListed(limits, rows, run[..|run| - 1], k, id);
    }
  }

  lemma {:induction false} OneMore(limits: Limits, rows: Table, run: seq<Issued>, i: Issued)
    ensures After(limits, rows, run + [i]) == Execute(limits, After(limits, rows, run), i.statement, i.now)
    ensures PublishedBy(limits, rows, run + [i]) == PublishedBy(limits, rows, run) +
      if i.statement.Publish? && Publishable(After(limits, rows, run), i.statement.id, i.now) then [i.statement.id]
        else []
  {
    assert (run + [i])[..|run|] == run;
  }

  /** It happens: a promoter that lost its row rejects it after another one published it. For every
      upload within the limits this run ends with a published row that is rejected. */
  lemma {:induction false} StaleRejectionOverwritesAvailable(limits: Limits, input: NewUpload, owner: string,
          code: string)
    requires limits.maxPendingObjects >= 1 && input.compressedBytes <= limits.maxPendingBytes
      && limits.retentionSeconds > 0
    ensures var run := [Issued(Create(input), 0)] + [Issued(ClaimOne(0, owner, 1), 0)] + [Issued(Publish(0), 0)] +
      [Issued(Reject(0, code), 0)];
      PublishedBy(limits, [], run) == [0] && After(limits, [], run)[..] != []
        && After(limits, [], run)[0].status == Rejected
  {
    var create, claim, publish := Issued(Create(input), 0), Issued(ClaimOne(0, owner, 1), 0), Issued(Publish(0), 0);
    var row := NewRow(limits, input, 0);
    assert ExpireDue([], 0) == [] && [] + [row] == [row];
    OneMore(limits, [], [], create);
    assert [] + [create] == [create] && After(limits, [], [create]) == [row] && PublishedBy(limits, [], [create]) == [];
    OneMore(limits, [], [create], claim);
    assert After(limits, [], [create] + [claim]) == [Renew(row, owner, 1)]
      && PublishedBy(limits, [], [create] + [claim]) == [];
    OneMore(limits, [], [create] + [claim], publish);
    OneMore(limits, [], [create] + [claim] + [publish], Issued(Reject(0, code), 0));
  }
}
