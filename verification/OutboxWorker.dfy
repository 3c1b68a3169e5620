/** Serial runs of the repository and the polling worker (outbox/repository.py, outbox/worker.py). */
module OutboxWorker {
  import opened Wrappers
  import opened Outbox
  import opened Publisher
  import Backoff
  import CaseStore

  // ---------------------------------------------------------------- serial transactions

  datatype Op =
    | Insert(c: Confirmed, now: int)
    | MakeReady(id: string, now: int)
    | RecordSent(id: string, now: int)
    | RecordFailure(id: string, failure: Failure, now: int)

  function Apply(policy: Policy, t: Table, op: Op): Table {
    match op
    case Insert(c, now) => InsertPending(t, c, now).0
    case MakeReady(id, now) => Transition(t, id, ToReady, now).0
    case RecordSent(id, now) => Transition(t, id, ToSent, now).0
    case RecordFailure(id, failure, now) => Transition(t, id, ToFailure(policy, failure), now).0
  }

  function Run(policy: Policy, t: Table, ops: seq<Op>): Table
    decreases ops
  {
    if ops == [] then t else Run(policy, Apply(policy, t, ops[0]), ops[1..])
  }

  /** Attempts a row can record before it must be settled. */
  function Budget(limit: int): nat {
    Backoff.Max(limit, 0) + 1
  }

  /** Status, attempt count and schedule agree with the policy. */
  predicate Counted(policy: Policy, limit: int, r: Row) {
    && r.createdAt <= r.updatedAt
    && match r.status
       case PendingObject => r.attempts == 0 && r.nextAttemptAt == None
       case Ready => r.attempts == 0 && r.nextAttemptAt == None
       case Retry => 1 <= r.attempts <= limit
                     && r.nextAttemptAt == Some(r.updatedAt + policy.delay(r.caseId, r.attempts))
       case Sent => 1 <= r.attempts <= Budget(limit) && r.nextAttemptAt == None
       case Dead => r.attempts == Budget(limit) && r.nextAttemptAt == None
  }

  predicate AllCounted(policy: Policy, limit: int, t: Table) {
    WellKeyed(t) && forall id :: id in t ==> Counted(policy, limit, t[id])
  }

  function AttemptsOf(t: Table, id: string): nat {
    if id in t then t[id].attempts else 0
  }

  /** Attempts recorded for `id` during a run: operations that raised its count. */
  function Recorded(policy: Policy, t: Table, ops: seq<Op>, id: string): nat
    decreases ops
  {
    if ops == [] then 0
    else
      var t' := Apply(policy, t, ops[0]);
      (if AttemptsOf(t', id) > AttemptsOf(t, id) then 1 else 0) + Recorded(policy, t', ops[1..], id)
  }

  lemma PlanKeepsCounts(policy: Policy, limit: int, r: Row, intent: Intent, now: int)
    requires policy.maxRetryAttempts == Some(limit) && Counted(policy, limit, r)
    requires intent.ToFailure? ==> intent.policy == policy
    ensures var p := MakePlan(r, intent, now);
            p.Write? ==> && Counted(policy, limit, UpdateColumns(r, p.next)) && p.expected == {r.status}
                         && r.attempts <= p.next.attempts <= r.attempts + 1
  {
  }

  lemma TransitionKeepsCounts(policy: Policy, limit: int, t: Table, id: string, intent: Intent, now: int)
    requires policy.maxRetryAttempts == Some(limit) && AllCounted(policy, limit, t)
    requires intent.ToFailure? ==> intent.policy == policy
    ensures AllCounted(policy, limit, Transition(t, id, intent, now).0)
    ensures forall k :: AttemptsOf(t, k) <= AttemptsOf(Transition(t, id, intent, now).0, k) <= AttemptsOf(t, k) + 1
  {
    if id in t { PlanKeepsCounts(policy, limit, t[id], intent, now); }
  }

  lemma ApplyKeepsCounts(policy: Policy, limit: int, t: Table, op: Op)
    requires policy.maxRetryAttempts == Some(limit) && AllCounted(policy, limit, t)
    ensures AllCounted(policy, limit, Apply(policy, t, op))
    ensures forall id :: AttemptsOf(t, id) <= AttemptsOf(Apply(policy, t, op), id) <= AttemptsOf(t, id) + 1
  {
    match op
    case Insert(c, now) => 
    case MakeReady(id, now) => TransitionKeepsCounts(policy, limit, t, id, ToReady, now);
    case RecordSent(id, now) => TransitionKeepsCounts(policy, limit, t, id, ToSent, now);
    case RecordFailure(id, failure, now) => TransitionKeepsCounts(policy, limit, t, id, ToFailure(policy, failure), now);
  }

  /** With one policy and serial transactions, every run leaves RETRY rows with 1 <= attempts <= max, DEAD rows
      with exactly max(max,0)+1, counts every recorded attempt once, and so settles each row within the budget. */
  lemma {:induction false} SerialRunsCount(policy: Policy, limit: int, t: Table, ops: seq<Op>, id: string)
    requires policy.maxRetryAttempts == Some(limit) && AllCounted(policy, limit, t)
    ensures AllCounted(policy, limit, Run(policy, t, ops))
    ensures AttemptsOf(Run(policy, t, ops), id) == AttemptsOf(t, id) + Recorded(policy, t, ops, id)
    decreases ops
  {
    if ops != [] {
      ApplyKeepsCounts(policy, limit, t, ops[0]);
      SerialRunsCount(policy, limit, Apply(policy, t, ops[0]), ops[1..], id);
    }
  }

  lemma SettlesWithinBudget(policy: Policy, limit: int, ops: seq<Op>, id: string)
    requires policy.maxRetryAttempts == Some(limit)
    ensures var t := Run(policy, map[], ops);
            && Recorded(policy, map[], ops, id) <= Budget(limit)
            && (id in t && Recorded(policy, map[], ops, id) == Budget(limit) ==> t[id].status in {Sent, Dead})
  {
    SerialRunsCount(policy, limit, map[], ops, id);
  }

  /** No RETRY row is offered to a worker before its jittered backoff, at least one second, has elapsed. */
  lemma NoEarlyRetry(limit: int, digest: (string, nat) -> nat, ops: seq<Op>, id: string, now: int)
    requires var t := Run(ShippedPolicy(Some(limit), digest), map[], ops); id in t && Publishable(t[id], now)
    ensures var r := Run(ShippedPolicy(Some(limit), digest), map[], ops)[id];
            r.status == Retry ==>
              && r.attempts >= 1
              && r.updatedAt < r.updatedAt + Backoff.Seconds(Backoff.DEFAULTS, r.attempts, digest(id, r.attempts)) <= now
  {
    var policy := ShippedPolicy(Some(limit), digest);
    SerialRunsCount(policy, limit, map[], ops, id);
    var r := Run(policy, map[], ops)[id];
    if r.status == Retry { Backoff.DelayBounds(Backoff.DEFAULTS, r.attempts, digest(id, r.attempts)); }
  }

  /** A failure recorded at second `at` that leaves the row in RETRY keeps it from every worker until the jittered delay
      after `at` has passed, whatever happened before. */
  lemma FailureDelaysRetry(limit: int, digest: (string, nat) -> nat, ops: seq<Op>, id: string, failure: Failure, at: int, now: int)
    requires var t := Apply(ShippedPolicy(Some(limit), digest), Run(ShippedPolicy(Some(limit), digest), map[], ops), RecordFailure(id, failure, at));
             id in t && t[id].status == Retry && Publishable(t[id], now)
    ensures var r := Apply(ShippedPolicy(Some(limit), digest), Run(ShippedPolicy(Some(limit), digest), map[], ops), RecordFailure(id, failure, at))[id];
            r.attempts >= 1 && now >= at + Backoff.Seconds(Backoff.DEFAULTS, r.attempts, digest(id, r.attempts)) > at
  {
    var policy := ShippedPolicy(Some(limit), digest);
    var t := Run(policy, map[], ops);
    SerialRunsCount(policy, limit, map[], ops, id);
    ApplyKeepsCounts(policy, limit, t, RecordFailure(id, failure, at));
    FailureIsStamped(policy, limit, t, id, failure, at);
    var r := Apply(policy, t, RecordFailure(id, failure, at))[id];
    Backoff.DelayBounds(Backoff.DEFAULTS, r.attempts, digest(id, r.attempts));
  }

  /** A recorded failure is stamped no earlier than it happened. */
  lemma FailureIsStamped(policy: Policy, limit: int, t: Table, id: string, failure: Failure, at: int)
    requires policy.maxRetryAttempts == Some(limit) && AllCounted(policy, limit, t)
    requires var after := Apply(policy, t, RecordFailure(id, failure, at)); id in after && after[id].status == Retry
    ensures Apply(policy, t, RecordFailure(id, failure, at))[id].updatedAt >= at
  {
    if id in t { TransitionsAreStamped(t[id], policy, failure, at); }
  }

  // ---------------------------------------------------------------- the polling worker

  datatype Iteration = Iteration(scanned: nat, sent: nat, failed: nat)

  /** publish_case_events_after_invariant_a up to the broker call, for a given bucket. */
  type Prepare = Row -> Result<Publication>

  /** Reading the bucket as it is during the iteration; `readable` says for which cases the read goes through. */
  function PrepareFrom(b: Boundary, objects: CaseStore.Objects, readable: string -> bool): Prepare {
    (row: Row) => PrepareEvents(b, objects, row, readable(row.caseId))
  }

  /** The publish of one selected row succeeds. */
  predicate Succeeds(prepare: Prepare, row: Row, emit: Emit) {
    prepare(row).Ok? && emit == Delivered
  }

  /** The row a selected record ends as when nobody else touches the table. */
  function Outcome(prepare: Prepare, policy: Policy, row: Row, emit: Emit, now: int): Result<Row> {
    if Succeeds(prepare, row, emit) then MarkSent(row, now)
    else MarkPublishFailure(row, policy, FailureOf(prepare(row), emit), now)
  }

  /** The pair was prepared for one of the given rows. */
  predicate PreparedFor(prepare: Prepare, rows: seq<Row>, d: Delivery) {
    exists i :: 0 <= i < |rows| && prepare(rows[i]) == Ok(d.pub)
  }

  /** The outcome of each row of an iteration. */
  function OutcomeFor(prepare: Prepare, policy: Policy, emit: string -> Emit, now: int): Row -> Result<Row> {
    (row: Row) => Outcome(prepare, policy, row, emit(row.caseId), now)
  }

  /** The table after the first k selected rows got their outcome, one after the other. */
  function After(outcome: Row -> Result<Row>, t: Table, sel: seq<Row>, k: nat): Table
    requires k <= |sel|
  {
    if k == 0 then t
    else
      var before, o := After(outcome, t, sel, k - 1), outcome(sel[k - 1]);
      if o.Ok? then before[sel[k - 1].caseId := o.value] else before
  }

  /** Every selected row has its outcome and every other row is as before. */
  ghost predicate Accounted(outcome: Row -> Result<Row>, before: Table, after: Table, sel: seq<Row>) {
    && after.Keys == before.Keys
    && (forall i :: 0 <= i < |sel| ==> sel[i].caseId in after && Ok(after[sel[i].caseId]) == outcome(sel[i]))
    && (forall id :: id in before && (forall i :: 0 <= i < |sel| ==> sel[i].caseId != id) ==> after[id] == before[id])
  }

  /** Distinct rows of the table that are READY or RETRY. */
  ghost predicate Selected(t: Table, sel: seq<Row>) {
    && (forall i :: 0 <= i < |sel| ==> sel[i].caseId in t && t[sel[i].caseId] == sel[i] && (sel[i].status == Ready || sel[i].status == Retry))
    && (forall i, j :: 0 <= i < j < |sel| ==> sel[i].caseId != sel[j].caseId)
  }

  lemma SelectionIsSelected(t: Table, now: int, limit: nat, sel: seq<Row>)
    requires IsSelection(t, now, limit, sel)
    ensures Selected(t, sel)
  {
  }

  /** Rows outside the first k are untouched. */
  lemma {:induction false} AfterElsewhere(outcome: Row -> Result<Row>, t: Table, sel: seq<Row>, k: nat, id: string)
    requires k <= |sel| && id in t && forall i :: 0 <= i < k ==> sel[i].caseId != id
    ensures id in After(outcome, t, sel, k) && After(outcome, t, sel, k)[id] == t[id]
  {
    if k > 0 { AfterElsewhere(outcome, t, sel, k - 1, id); }
  }

  lemma {:induction false} AfterKeys(outcome: Row -> Result<Row>, t: Table, sel: seq<Row>, k: nat)
    requires k <= |sel| && Selected(t, sel)
    ensures After(outcome, t, sel, k).Keys == t.Keys
  {
    if k > 0 {
      AfterKeys(outcome, t, sel, k - 1);
      assert sel[k - 1].caseId in t;
    }
  }

  lemma {:induction false} AfterAt(outcome: Row -> Result<Row>, t: Table, sel: seq<Row>, k: nat, i: nat)
    requires i < k <= |sel| && Selected(t, sel) && outcome(sel[i]).Ok?
    ensures sel[i].caseId in After(outcome, t, sel, k) && Ok(After(outcome, t, sel, k)[sel[i].caseId]) == outcome(sel[i])
  {
    if i < k - 1 {
      AfterAt(outcome, t, sel, k - 1, i);
      assert sel[i].caseId != sel[k - 1].caseId;
    }
  }

  /** Taking the rows one after the other accounts for each of them. */
  lemma AfterAccounts(outcome: Row -> Result<Row>, t: Table, sel: seq<Row>)
    requires Selected(t, sel) && forall i :: 0 <= i < |sel| ==> outcome(sel[i]).Ok?
    ensures Accounted(outcome, t, After(outcome, t, sel, |sel|), sel)
  {
    AfterKeys(outcome, t, sel, |sel|);
    forall i | 0 <= i < |sel|
      ensures sel[i].caseId in After(outcome, t, sel, |sel|) && Ok(After(outcome, t, sel, |sel|)[sel[i].caseId]) == outcome(sel[i])
    {
      AfterAt(outcome, t, sel, |sel|, i);
    }
    forall id | id in t && (forall i :: 0 <= i < |sel| ==> sel[i].caseId != id)
      ensures After(outcome, t, sel, |sel|)[id] == t[id]
    {
      AfterElsewhere(outcome, t, sel, |sel|, id);
    }
  }

  lemma StillSelected(outcome: Row -> Result<Row>, t: Table, sel: seq<Row>, k: nat)
    requires k < |sel| && Selected(t, sel)
    ensures var rows := After(outcome, t, sel, k);
            sel[k].caseId in rows && rows[sel[k].caseId] == sel[k] && (sel[k].status == Ready || sel[k].status == Retry)
  {
    AfterElsewhere(outcome, t, sel, k, sel[k].caseId);
  }

  function SucceedsFor(prepare: Prepare, emit: string -> Emit): Row -> bool { (row: Row) => Succeeds(prepare, row, emit(row.caseId)) }

  predicate AllSucceed(good: Row -> bool, sel: seq<Row>, k: nat)
    requires k <= |sel|
  {
    k == 0 || (AllSucceed(good, sel, k - 1) && good(sel[k - 1]))
  }

  lemma {:induction false} AllSucceedAt(good: Row -> bool, sel: seq<Row>, k: nat)
    requires k <= |sel|
    ensures AllSucceed(good, sel, k) <==> forall i :: 0 <= i < k ==> good(sel[i])
  {
    if k > 0 { AllSucceedAt(good, sel, k - 1); }
  }

  /** How many of the first k rows are published successfully. */
  function Successes(good: Row -> bool, sel: seq<Row>, k: nat): nat
    requires k <= |sel|
  {
    if k == 0 then 0 else Successes(good, sel, k - 1) + if good(sel[k - 1]) then 1 else 0
  }

  /** What the broker got for the first k rows, in order. */
  function Deliveries(prepare: Prepare, emit: string -> Emit, sel: seq<Row>, k: nat): seq<Delivery>
    requires k <= |sel|
  {
    if k == 0 then []
    else
      var row := sel[k - 1];
      Deliveries(prepare, emit, sel, k - 1) + if prepare(row).Ok? then Deliver(prepare(row).value, emit(row.caseId)) else []
  }

  lemma {:induction false} DeliveriesPrepared(prepare: Prepare, emit: string -> Emit, sel: seq<Row>, k: nat, d: Delivery)
    requires k <= |sel| && d in Deliveries(prepare, emit, sel, k)
    ensures PreparedFor(prepare, sel, d)
  {
    if d in Deliveries(prepare, emit, sel, k - 1) {
      DeliveriesPrepared(prepare, emit, sel, k - 1, d);
    } else {
      assert prepare(sel[k - 1]) == Ok(d.pub);
    }
  }

  /** What an iteration has done after k rows. */
  ghost predicate Progress(prepare: Prepare, policy: Policy, emit: string -> Emit, now: int, before: Table, rows: Table, sel: seq<Row>,
                           k: nat, sent: nat, log: seq<Delivery>, delivered: seq<Delivery>)
    requires k <= |sel|
  {
    && rows == After(OutcomeFor(prepare, policy, emit, now), before, sel, k)
    && sent == Successes(SucceedsFor(prepare, emit), sel, k)
    && (policy.maxRetryAttempts.Some? || AllSucceed(SucceedsFor(prepare, emit), sel, k))
    && delivered == log + Deliveries(prepare, emit, sel, k)
  }

  class OutboxPublisherWorker {
    const repository: OutboxSqlRepository
    const policy: Policy
    const batchSize: nat
    var delivered: seq<Delivery>

    constructor (repository: OutboxSqlRepository, policy: Policy, batchSize: nat)
      ensures this.repository == repository && this.policy == policy
      ensures this.batchSize == batchSize && delivered == []
    {
      this.repository := repository;
      this.policy := policy;
      this.batchSize := batchSize;
      delivered := [];
    }

    /** One pass of the loop body for a row nobody else touches: publish, then record the outcome. */
    method PublishOne(record: Row, prepare: Prepare, emit: Emit, now: int) returns (r: Result<bool>)
      requires record.caseId in repository.rows && repository.rows[record.caseId] == record
      requires record.status == Ready || record.status == Retry
      modifies repository, this
      ensures var o := Outcome(prepare, policy, record, emit, now);
              if o.Ok? then r == Ok(Succeeds(prepare, record, emit))
                            && repository.rows == old(repository.rows)[record.caseId := o.value]
              else r.Err? && repository.rows == old(repository.rows) && policy.maxRetryAttempts.None?
      ensures delivered == old(delivered) + (if prepare(record).Ok? then Deliver(prepare(record).value, emit) else [])
    {
      var prepared := prepare(record);
      if prepared.Ok? {
        delivered := delivered + Deliver(prepared.value, emit);
      }
      if prepared.Ok? && emit == Delivered {
        var done := repository.TransitionToSent(record.caseId, now);
        return Ok(true);
      }
      var done := repository.TransitionPublishFailure(record.caseId, policy, FailureOf(prepared, emit), now);
      if done.Err? { return Err(done.error); }
      return Ok(false);
    }

    /** The k-th selected row, with what the iteration has done so far. */
    method PublishNext(publishable: seq<Row>, k: nat, prepare: Prepare, emit: string -> Emit, now: int,
                       ghost before: Table, ghost log: seq<Delivery>, ghost sent: nat) returns (r: Result<bool>)
      requires k < |publishable| && Selected(before, publishable)
      requires Progress(prepare, policy, emit, now, before, repository.rows, publishable, k, sent, log, delivered)
      modifies repository, this
      ensures r.Ok? && r.value ==> Progress(prepare, policy, emit, now, before, repository.rows, publishable, k + 1, sent + 1, log, delivered)
      ensures r.Ok? && !r.value ==> Progress(prepare, policy, emit, now, before, repository.rows, publishable, k + 1, sent, log, delivered)
      ensures r.Err? ==> policy.maxRetryAttempts.None? && !SucceedsFor(prepare, emit)(publishable[k])
      ensures r.Err? ==> delivered == log + Deliveries(prepare, emit, publishable, k + 1)
    {
      var record := publishable[k];
      StillSelected(OutcomeFor(prepare, policy, emit, now), before, publishable, k);
      r := PublishOne(record, prepare, emit(record.caseId), now);
      assert OutcomeFor(prepare, policy, emit, now)(record) == Outcome(prepare, policy, record, emit(record.caseId), now);
      assert SucceedsFor(prepare, emit)(record) == Succeeds(prepare, record, emit(record.caseId));
    }

    /** The loop over the selected rows, for a given way of preparing events; `n` rows are reached. */
    method PublishAll(publishable: seq<Row>, prepare: Prepare, emit: string -> Emit, now: int) returns (r: Result<Iteration>, ghost n: nat)
      requires Selected(repository.rows, publishable)
      modifies repository, this
      ensures r.Ok? ==> n == |publishable| == r.value.scanned == r.value.sent + r.value.failed
      ensures r.Ok? ==> Progress(prepare, policy, emit, now, old(repository.rows), repository.rows, publishable, n, r.value.sent, old(delivered), delivered)
      ensures r.Err? ==> 1 <= n <= |publishable| && policy.maxRetryAttempts.None? && !SucceedsFor(prepare, emit)(publishable[n - 1])
      ensures r.Err? ==> delivered == old(delivered) + Deliveries(prepare, emit, publishable, n)
    {
      ghost var before, log := repository.rows, delivered;
      var sent: nat, failed: nat := 0, 0;
      var k := 0;
      while k < |publishable|
        invariant 0 <= k <= |publishable| && k == sent + failed
        invariant Progress(prepare, policy, emit, now, before, repository.rows, publishable, k, sent, log, delivered)
      {
        var done := PublishNext(publishable, k, prepare, emit, now, before, log, sent);
        if done.Err? { return Err(done.error), k + 1; }
        if done.value { sent := sent + 1; } else { failed := failed + 1; }
        k := k + 1;
      }
      return Ok(Iteration(|publishable|, sent, failed)), k;
    }

    /** One polling iteration with nobody else on the table, over the bucket as it stands. A normal return accounts
        for every scanned row exactly once, leaves each in its outcome and every other row untouched, and counts the
        successes; what the broker got is exactly what the reached rows read back from the bucket, in order. The
        iteration raises exactly when a failed publish meets an unconfigured environment. */
    method RunOnce(b: Boundary, store: CaseStore.ObjectStoreClient, readable: string -> bool, emit: string -> Emit, now: int)
      returns (r: Result<Iteration>, ghost sel: seq<Row>, ghost n: nat)
      requires WellKeyed(repository.rows)
      modifies repository, this
      ensures IsSelection(old(repository.rows), now, batchSize, sel) && n <= |sel| && (r.Ok? ==> n == |sel|)
      ensures var prepare := PrepareFrom(b, store.objects, readable);
              && (r.Ok? <==> policy.maxRetryAttempts.Some? || AllSucceed(SucceedsFor(prepare, emit), sel, |sel|))
              && (r.Ok? ==> Accounted(OutcomeFor(prepare, policy, emit, now), old(repository.rows), repository.rows, sel))
              && delivered == old(delivered) + Deliveries(prepare, emit, sel, n)
              && (r.Ok? ==> r.value.sent == Successes(SucceedsFor(prepare, emit), sel, |sel|))
      ensures r.Ok? ==> r.value.scanned == |sel| == r.value.sent + r.value.failed
    {
      sel, n := [], 0;
      var publishable := repository.SelectPublishable(now, batchSize);
      sel := publishable;
      var prepare := PrepareFrom(b, store.objects, readable);
      ghost var before := repository.rows;
      SelectionIsSelected(before, now, batchSize, publishable);
      r, n := PublishAll(publishable, prepare, emit, now);
      AllSucceedAt(SucceedsFor(prepare, emit), publishable, |publishable|);
      if r.Ok? {
        OutcomesOk(prepare, policy, emit, now, before, publishable);
        AfterAccounts(OutcomeFor(prepare, policy, emit, now), before, publishable);
      }
    }
  }

  lemma OutcomesOk(prepare: Prepare, policy: Policy, emit: string -> Emit, now: int, t: Table, sel: seq<Row>)
    requires Selected(t, sel) && (policy.maxRetryAttempts.Some? || AllSucceed(SucceedsFor(prepare, emit), sel, |sel|))
    ensures forall i :: 0 <= i < |sel| ==> OutcomeFor(prepare, policy, emit, now)(sel[i]).Ok?
  {
    AllSucceedAt(SucceedsFor(prepare, emit), sel, |sel|);
    forall i | 0 <= i < |sel| ensures OutcomeFor(prepare, policy, emit, now)(sel[i]).Ok? {
      assert policy.maxRetryAttempts.Some? || SucceedsFor(prepare, emit)(sel[i]);
    }
  }

  /** A delivered pair of an iteration is genuine and its source is in the bucket under the row's path. */
  lemma DeliveredFromBucket(b: Boundary, objects: CaseStore.Objects, readable: string -> bool, rows: seq<Row>, d: Delivery)
    requires b.codec.Lawful() && PreparedFor(PrepareFrom(b, objects, readable), rows, d)
    ensures Genuine(b, d.pub)
    ensures exists i :: 0 <= i < |rows| && rows[i].caseId == d.pub.source.caseId && rows[i].hash == d.pub.source.triageHash
                        && rows[i].path in objects && b.codec.Validate(CaseStore.Triage, objects[rows[i].path]) == Some(d.pub.source)
  {
    var i :| 0 <= i < |rows| && PrepareFrom(b, objects, readable)(rows[i]) == Ok(d.pub);
    assert PrepareEvents(b, objects, rows[i], readable(rows[i].caseId)) == Ok(d.pub);
  }
}
