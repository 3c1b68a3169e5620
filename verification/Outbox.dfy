/** Outbox rows, their transitions and the guarded SQL writes (outbox/state_machine.py, outbox/repository.py). */
module Outbox {
  import opened Wrappers
  import Backoff

  datatype Status = PendingObject | Ready | Retry | Sent | Dead

  datatype Row = Row(
    caseId: string, status: Status, path: string, hash: string, createdAt: int, updatedAt: int,
    attempts: nat, nextAttemptAt: Option<int>, errorCode: Option<string>, errorMessage: Option<string>)
  {
    predicate SameIdentity(other: Row) {
      caseId == other.caseId && path == other.path && hash == other.hash && createdAt == other.createdAt
    }
  }

  /** OutboxReadyCasefileV1: metadata of a confirmed triage.json write. */
  datatype Confirmed = Confirmed(caseId: string, path: string, hash: string)

  /** Retry policy of the running environment (`None`: APP_ENV is not configured) and the delay before each retry. */
  datatype Policy = Policy(maxRetryAttempts: Option<int>, delay: (string, nat) -> int)

  /** The policy as shipped: default backoff, jittered by a digest of case id and attempt number. */
  function ShippedPolicy(maxRetryAttempts: Option<int>, digest: (string, nat) -> nat): Policy {
    Policy(maxRetryAttempts,
           (id: string, n: nat) => if n >= 1 then Backoff.Seconds(Backoff.DEFAULTS, n, digest(id, n)) else 1)
  }

  datatype Failure = Failure(code: Option<string>, message: string)

  // ---------------------------------------------------------------- record transitions

  /** Transition timestamps never move backward relative to the record. */
  function TransitionNow(r: Row, now: int): int {
    if now < r.updatedAt then r.updatedAt else now
  }

  function MarkReady(r: Row, now: int): Result<Row> {
    if r.status != PendingObject then Err("cannot mark record READY")
    else Ok(r.(status := Ready, updatedAt := TransitionNow(r, now), nextAttemptAt := None,
               errorCode := None, errorMessage := None))
  }

  function MarkSent(r: Row, now: int): Result<Row> {
    if r.status != Ready && r.status != Retry then Err("cannot mark record SENT")
    else Ok(r.(status := Sent, updatedAt := TransitionNow(r, now), attempts := r.attempts + 1,
               nextAttemptAt := None, errorCode := None, errorMessage := None))
  }

  function MarkPublishFailure(r: Row, policy: Policy, failure: Failure, now: int): Result<Row> {
    if r.status != Ready && r.status != Retry then Err("cannot mark publish failure")
    else
      var at, n := TransitionNow(r, now), r.attempts + 1;
      match policy.maxRetryAttempts
      case None => Err("unsupported app_env for outbox retry policy")
      case Some(limit) =>
        var failed := r.(updatedAt := at, attempts := n, errorCode := failure.code, errorMessage := Some(failure.message));
        if n > limit then Ok(failed.(status := Dead, nextAttemptAt := None))
        else Ok(failed.(status := Retry, nextAttemptAt := Some(at + policy.delay(r.caseId, n))))
  }

  /** A transition at `now` is stamped with `now`, or with the row's own timestamp when the clock is behind it. */
  predicate StampedAt(before: Row, after: Row, now: int) {
    && after.updatedAt >= now && after.updatedAt >= before.updatedAt
    && (after.updatedAt == now || after.updatedAt == before.updatedAt)
  }

  lemma TransitionsAreStamped(r: Row, policy: Policy, failure: Failure, now: int)
    ensures MarkReady(r, now).Ok? ==> StampedAt(r, MarkReady(r, now).value, now)
    ensures MarkSent(r, now).Ok? ==> StampedAt(r, MarkSent(r, now).value, now)
    ensures MarkPublishFailure(r, policy, failure, now).Ok? ==> StampedAt(r, MarkPublishFailure(r, policy, failure, now).value, now)
  {
  }

  /** What each transition does to a row, field by field: success clears the error and the schedule, a failure records
      its code and message, and each publish attempt counts once. */
  lemma TransitionsRecord(r: Row, policy: Policy, failure: Failure, now: int)
    ensures MarkReady(r, now).Ok? <==> r.status == PendingObject
    ensures MarkReady(r, now).Ok? ==> var n := MarkReady(r, now).value; n.status == Ready && n.attempts == r.attempts && Settles(n)
    ensures MarkSent(r, now).Ok? <==> r.status == Ready || r.status == Retry
    ensures MarkSent(r, now).Ok? ==> var n := MarkSent(r, now).value; n.status == Sent && n.attempts == r.attempts + 1 && Settles(n)
    ensures MarkPublishFailure(r, policy, failure, now).Ok? <==> (r.status == Ready || r.status == Retry) && policy.maxRetryAttempts.Some?
    ensures MarkPublishFailure(r, policy, failure, now).Ok? ==>
              var n := MarkPublishFailure(r, policy, failure, now).value;
              && n.attempts == r.attempts + 1 && n.errorCode == failure.code && n.errorMessage == Some(failure.message)
              && n.SameIdentity(r) && (n.status == Retry || n.status == Dead)
              && (n.status == Dead <==> r.attempts >= policy.maxRetryAttempts.value)
              && (n.nextAttemptAt.Some? <==> n.status == Retry)
  {
  }

  predicate Settles(r: Row) { r.nextAttemptAt.None? && r.errorCode.None? && r.errorMessage.None? }

  // ---------------------------------------------------------------- the table

  type Table = map<string, Row>

  predicate WellKeyed(t: Table) {
    forall id :: id in t ==> t[id].caseId == id
  }

  function PendingRow(c: Confirmed, now: int): Row {
    Row(c.caseId, PendingObject, c.path, c.hash, now, now, 0, None, None, None)
  }

  /** insert_pending_object; the unique case_id makes the losing side of an insert race read the winner's row. */
  function InsertPending(t: Table, c: Confirmed, now: int): (Table, Result<Row>) {
    if c.caseId in t then
      var existing := t[c.caseId];
      if existing.path != c.path then (t, Err("existing outbox case_id has different casefile_object_path"))
      else if existing.hash != c.hash then (t, Err("existing outbox case_id has different triage_hash"))
      else (t, Ok(existing))
    else (t[c.caseId := PendingRow(c, now)], Ok(PendingRow(c, now)))
  }

  /** An insert succeeds if and only if the case is new or its row names the same object and hash; a new row is
      PENDING_OBJECT with no attempts, and an existing one is returned as it is. */
  lemma InsertIff(t: Table, c: Confirmed, now: int)
    ensures var (after, r) := InsertPending(t, c, now);
            && (r.Ok? <==> c.caseId in t ==> t[c.caseId].path == c.path && t[c.caseId].hash == c.hash)
            && (c.caseId in t ==> after == t && (r.Ok? ==> r.value == t[c.caseId]))
            && (c.caseId !in t ==> && r.Ok? && after == t[c.caseId := r.value] && r.value.caseId == c.caseId && r.value.path == c.path
                                   && r.value.hash == c.hash && r.value.status == PendingObject && r.value.attempts == 0
                                   && r.value.createdAt == r.value.updatedAt == now && Settles(r.value))
  {
  }

  /** The columns an UPDATE sets; case_id, path, hash and created_at are not among them. */
  function UpdateColumns(current: Row, next: Row): Row {
    current.(status := next.status, updatedAt := next.updatedAt, attempts := next.attempts,
             nextAttemptAt := next.nextAttemptAt, errorCode := next.errorCode, errorMessage := next.errorMessage)
  }

  /** _write_transition: UPDATE ... WHERE case_id = id AND status IN expected. */
  function WriteTransition(t: Table, id: string, next: Row, expected: set<Status>): (Table, Result<Row>) {
    if id in t && t[id].status in expected then
      var row := UpdateColumns(t[id], next);
      (t[id := row], Ok(row))
    else if id !in t then (t, Err("outbox record not found"))
    else if t[id].status == next.status then (t, Ok(t[id]))
    else (t, Err("outbox transition source-state guard failed"))
  }

  datatype Intent = ToReady | ToSent | ToFailure(policy: Policy, failure: Failure)

  /** What a transaction has decided after reading the row and before writing it. */
  datatype Plan = Settled(row: Row) | Write(next: Row, expected: set<Status>) | Refuse(error: string)

  function MakePlan(current: Row, intent: Intent, now: int): Plan {
    match intent
    case ToReady =>
      if current.status == Ready then Settled(current)
      else (match MarkReady(current, now) case Ok(r) => Write(r, {PendingObject}) case Err(e) => Refuse(e))
    case ToSent =>
      if current.status == Sent then Settled(current)
      else (match MarkSent(current, now) case Ok(r) => Write(r, {current.status}) case Err(e) => Refuse(e))
    case ToFailure(policy, failure) =>
      if current.status == Dead then Settled(current)
      else (match MarkPublishFailure(current, policy, failure, now)
            case Ok(r) => Write(r, {current.status})
            case Err(e) => Refuse(e))
  }

  /** A whole transition run as one serial transaction: read, decide, guarded write. */
  function Transition(t: Table, id: string, intent: Intent, now: int): (Table, Result<Row>) {
    if id !in t then (t, Err("outbox record not found"))
    else match MakePlan(t[id], intent, now)
      case Settled(row) => (t, Ok(row))
      case Refuse(e) => (t, Err(e))
      case Write(next, expected) => WriteTransition(t, id, next, expected)
  }

  /** Asking again for a state the row has already reached changes nothing and succeeds. */
  lemma RepeatedTransitionsAreNoOps(t: Table, id: string, policy: Policy, failure: Failure, now: int)
    requires id in t
    ensures t[id].status == Ready ==> Transition(t, id, ToReady, now) == (t, Ok(t[id]))
    ensures t[id].status == Sent ==> Transition(t, id, ToSent, now) == (t, Ok(t[id]))
    ensures t[id].status == Dead ==> Transition(t, id, ToFailure(policy, failure), now) == (t, Ok(t[id]))
  {
  }

  // ---------------------------------------------------------------- allowed moves

  /** The edges of PENDING_OBJECT -> READY -> RETRY* -> SENT | DEAD. */
  predicate Edge(a: Status, b: Status) {
    || (a == PendingObject && b == Ready)
    || ((a == Ready || a == Retry) && (b == Retry || b == Sent || b == Dead))
  }

  /** Whatever a reader planned, the guard lets it through only along an edge and without touching identity. */
  lemma PlansFollowEdges(current: Row, intent: Intent, now: int)
    ensures var p := MakePlan(current, intent, now);
            p.Write? ==> (forall a :: a in p.expected ==> Edge(a, p.next.status)) && p.next.SameIdentity(current)
  {
  }

  /** A guarded write that loses changes nothing; one that wins moves the row along an edge and keeps its identity. */
  lemma GuardedWriteEffect(t: Table, id: string, next: Row, expected: set<Status>)
    requires forall a :: a in expected ==> Edge(a, next.status)
    ensures var (t', r) := WriteTransition(t, id, next, expected);
            if id in t && t[id].status in expected then
              && r.Ok? && t' == t[id := r.value] && r.value.SameIdentity(t[id])
              && Edge(t[id].status, r.value.status) && r.value.attempts == next.attempts
            else t' == t && (r.Ok? <==> id in t && t[id].status == next.status)
  {
  }

  /** A committed failure raises the stored attempt count by one exactly when its snapshot was still current. */
  lemma IncrementIffSnapshotCurrent(t: Table, id: string, snapshot: Row, policy: Policy, failure: Failure, now: int)
    requires id in t && snapshot.status == t[id].status
    requires MakePlan(snapshot, ToFailure(policy, failure), now).Write?
    ensures var p := MakePlan(snapshot, ToFailure(policy, failure), now);
            WriteTransition(t, id, p.next, p.expected).0[id].attempts == t[id].attempts + 1 <==>
            snapshot.attempts == t[id].attempts
  {
  }

  /** Two failures recorded between a stale read and its write: the stored count goes down. */
  lemma StaleReaderLosesIncrements(t: Table, id: string, limit: int, delay: (string, nat) -> int, f: Failure, now: int)
    requires id in t && t[id].status == Retry && t[id].attempts + 2 <= limit
    ensures var intent := ToFailure(Policy(Some(limit), delay), f);
            var stale := MakePlan(t[id], intent, now);
            var t2 := Transition(Transition(t, id, intent, now).0, id, intent, now).0;
            && t2[id].attempts == t[id].attempts + 2
            && stale.Write? && WriteTransition(t2, id, stale.next, stale.expected).0[id].attempts == t[id].attempts + 1
  {
  }

  // ---------------------------------------------------------------- selection

  predicate Publishable(r: Row, now: int) {
    || r.status == Ready
    || (r.status == Retry && (r.nextAttemptAt.None? || r.nextAttemptAt.value <= now))
  }

  /** SELECT ... WHERE publishable ORDER BY updated_at ASC LIMIT limit. */
  ghost predicate IsSelection(t: Table, now: int, limit: nat, sel: seq<Row>) {
    && |sel| <= limit
    && (forall i :: 0 <= i < |sel| ==> sel[i].caseId in t && t[sel[i].caseId] == sel[i] && Publishable(sel[i], now))
    && (forall i, j :: 0 <= i < j < |sel| ==> sel[i].caseId != sel[j].caseId && sel[i].updatedAt <= sel[j].updatedAt)
    && (forall id :: id in t && Publishable(t[id], now) && t[id] !in sel ==>
          |sel| == limit && forall i :: 0 <= i < |sel| ==> sel[i].updatedAt <= t[id].updatedAt)
  }

  lemma {:induction false} OldestExists(t: Table, ids: set<string>) returns (oldest: string)
    requires ids != {} && ids <= t.Keys
    ensures oldest in ids && forall id :: id in ids ==> t[oldest].updatedAt <= t[id].updatedAt
    decreases |ids|
  {
    oldest :| oldest in ids;
    var rest := ids - {oldest};
    if rest != {} {
      assert |rest| < |ids|;
      var other := OldestExists(t, rest);
      if t[other].updatedAt < t[oldest].updatedAt { oldest := other; }
    }
  }

  /** OutboxSqlRepository over its table; each public method is one transaction. */
  class OutboxSqlRepository {
    var rows: Table

    constructor ()
      ensures rows == map[]
    {
      rows := map[];
    }

    method InsertPendingObject(c: Confirmed, now: int) returns (r: Result<Row>)
      modifies this
      ensures (rows, r) == InsertPending(old(rows), c, now)
    {
      if c.caseId in rows {
        var existing := rows[c.caseId];
        if existing.path != c.path { return Err("existing outbox case_id has different casefile_object_path"); }
        if existing.hash != c.hash { return Err("existing outbox case_id has different triage_hash"); }
        return Ok(existing);
      }
      rows := rows[c.caseId := PendingRow(c, now)];
      return Ok(rows[c.caseId]);
    }

    method Update(id: string, next: Row, expected: set<Status>) returns (r: Result<Row>)
      modifies this
      ensures (rows, r) == WriteTransition(old(rows), id, next, expected)
    {
      if id in rows && rows[id].status in expected {
        rows := rows[id := UpdateColumns(rows[id], next)];
        return Ok(rows[id]);
      }
      if id !in rows { return Err("outbox record not found"); }
      if rows[id].status == next.status { return Ok(rows[id]); }
      return Err("outbox transition source-state guard failed");
    }

    method TransitionToReady(id: string, now: int) returns (r: Result<Row>)
      modifies this
      ensures (rows, r) == Transition(old(rows), id, ToReady, now)
    {
      if id !in rows { return Err("outbox record not found"); }
      var current := rows[id];
      if current.status == Ready { return Ok(current); }
      var next := MarkReady(current, now);
      if next.Err? { return next; }
      r := Update(id, next.value, {PendingObject});
    }

    method TransitionToSent(id: string, now: int) returns (r: Result<Row>)
      modifies this
      ensures (rows, r) == Transition(old(rows), id, ToSent, now)
    {
      if id !in rows { return Err("outbox record not found"); }
      var current := rows[id];
      if current.status == Sent { return Ok(current); }
      var next := MarkSent(current, now);
      if next.Err? { return next; }
      r := Update(id, next.value, {current.status});
    }

    method TransitionPublishFailure(id: string, policy: Policy, failure: Failure, now: int) returns (r: Result<Row>)
      modifies this
      ensures (rows, r) == Transition(old(rows), id, ToFailure(policy, failure), now)
    {
      if id !in rows { return Err("outbox record not found"); }
      var current := rows[id];
      if current.status == Dead { return Ok(current); }
      var next := MarkPublishFailure(current, policy, failure, now);
      if next.Err? { return next; }
      r := Update(id, next.value, {current.status});
    }

    method SelectPublishable(now: int, limit: nat) returns (sel: seq<Row>)
      requires WellKeyed(rows)
      ensures IsSelection(rows, now, limit, sel)
    {
      sel := [];
      var left := set id | id in rows && Publishable(rows[id], now);
      while left != {} && |sel| < limit
        invariant Taking(rows, now, limit, sel, left)
        decreases left
      {
        ghost var oldest := OldestExists(rows, left);
        var next :| next in left && forall id :: id in left ==> rows[next].updatedAt <= rows[id].updatedAt;
        TakeOne(rows, now, limit, sel, left, next);
        sel := sel + [rows[next]];
        left := left - {next};
      }
    }
  }

  /** The publishable rows are split into those taken, oldest first, and those left. */
  ghost predicate Taking(t: Table, now: int, limit: nat, sel: seq<Row>, left: set<string>) {
    && |sel| <= limit
    && (forall id :: id in left ==> id in t && Publishable(t[id], now))
    && (forall id :: id in t && Publishable(t[id], now) && id !in left ==> t[id] in sel)
    && (forall i :: 0 <= i < |sel| ==> sel[i].caseId in t && t[sel[i].caseId] == sel[i] && Publishable(sel[i], now) && sel[i].caseId !in left)
    && (forall i, j :: 0 <= i < j < |sel| ==> sel[i].caseId != sel[j].caseId && sel[i].updatedAt <= sel[j].updatedAt)
    && (forall i, id :: 0 <= i < |sel| && id in left ==> sel[i].updatedAt <= t[id].updatedAt)
  }

  lemma TakeOne(t: Table, now: int, limit: nat, sel: seq<Row>, left: set<string>, next: string)
    requires WellKeyed(t) && Taking(t, now, limit, sel, left) && |sel| < limit && next in left
    requires forall id :: id in left ==> t[next].updatedAt <= t[id].updatedAt
    ensures Taking(t, now, limit, sel + [t[next]], left - {next})
  {
    var more := sel + [t[next]];
    assert more[|sel|] == t[next] && forall i :: 0 <= i < |sel| ==> more[i] == sel[i];
    assert forall r :: r in more <==> r in sel || r == t[next];
  }
}
