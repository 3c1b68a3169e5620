/** ServiceNow linkage retry records and their guarded table (linkage/state_machine.py, linkage/repository.py). */
module Linkage {
  import opened Wrappers
  import opened Text
  import Backoff

  datatype RetryState = Pending | Searching | FailedTemp | Linked | FailedFinal

  /** Values of the JSON column last_reason_metadata. */
  datatype Json = JText(text: string) | JList(items: seq<string>) | JNumber(n: int)

  /** Keys of the metadata the code itself writes or reads; any other key is `KOther`. */
  datatype Key =
    | KLinkageStatus | KLinkageReason | KProblemSysId | KProblemExternalId | KTaskSysIds | KTaskExternalIds
    | KSourceErrorCode | KSourceRetryDelay | KOther(name: string)
  type Metadata = map<Key, Json>

  datatype Record = Record(
    caseId: string, pdIncidentId: string, incidentSysId: Option<string>, state: RetryState,
    attempts: nat, windowMinutes: nat, firstAttemptAt: int, updatedAt: int, deadlineAt: int,
    nextAttemptAt: Option<int>, requestId: Option<string>, errorCode: Option<string>, errorMessage: Option<string>,
    retryAfter: Option<int>, metadata: Metadata)
  {
    predicate Terminal() { state == Linked || state == FailedFinal }

    /** What no transition may change. */
    predicate SameIdentity(o: Record) {
      && caseId == o.caseId && pdIncidentId == o.pdIncidentId && windowMinutes == o.windowMinutes
      && firstAttemptAt == o.firstAttemptAt && deadlineAt == o.deadlineAt
    }
  }

  /** Delay before each retry and the bound on a server-supplied Retry-After. */
  datatype Rules = Rules(delay: (string, nat) -> int, maxSeconds: int)
  {
    ghost predicate Positive() {
      maxSeconds >= 1 && forall id: string, n: nat :: delay(id, n) >= 1
    }
  }

  /** The delays of the linkage contract: capped exponential with digest jitter. */
  function ContractRules(p: Backoff.Params, digest: (string, nat) -> nat): Rules {
    Rules((id: string, n: nat) => if n >= 1 then Backoff.Seconds(p, n, digest(id, n)) else 1, p.maxSeconds)
  }

  lemma ContractRulesPositive(p: Backoff.Params, digest: (string, nat) -> nat)
    requires p.Valid()
    ensures ContractRules(p, digest).Positive()
  {
    var rules := ContractRules(p, digest);
    forall id: string, n: nat ensures rules.delay(id, n) >= 1 {
      if n >= 1 { Backoff.DelayBounds(p, n, digest(id, n)); }
    }
  }

  // ---------------------------------------------------------------- record transitions

  function CreatePending(caseId: string, pd: string, incident: Option<string>, window: nat, now: int): Record {
    Record(caseId, pd, incident, Pending, 0, window, now, now, now + 60 * window, None, None, None, None, None, map[])
  }

  function TransitionNow(r: Record, now: int): int {
    if now < r.updatedAt then r.updatedAt else now
  }

  predicate IsRetryDue(r: Record, now: int) {
    if r.state == FailedTemp then r.nextAttemptAt.None? || r.nextAttemptAt.value <= now
    else r.state == Pending || r.state == Searching
  }

  function MarkSearching(r: Record, now: int): Result<Record> {
    if r.Terminal() then Err("cannot enter SEARCHING")
    else Ok(r.(state := Searching, updatedAt := TransitionNow(r, now), nextAttemptAt := None))
  }

  /** Python's `a or b` on optional strings. */
  function OrElse(a: Option<string>, b: Option<string>): Option<string> {
    if a.Some? && a.value != "" then a else b
  }

  function MarkSuccess(r: Record, requestId: Option<string>, incident: Option<string>, metadata: Metadata, now: int): Result<Record> {
    if r.state != Searching then Err("cannot mark linkage success")
    else Ok(r.(state := Linked, attempts := r.attempts + 1, updatedAt := TransitionNow(r, now),
               incidentSysId := OrElse(incident, r.incidentSysId), requestId := requestId, nextAttemptAt := None,
               errorCode := None, errorMessage := None, retryAfter := None, metadata := metadata))
  }

  /** How a failed attempt was classified. */
  datatype Failure = Failure(transient: bool, code: string, message: string, requestId: Option<string>,
                             retryAfter: Option<int>, metadata: Metadata)

  function Exhausted(r: Record, at: int, f: Failure, retryAfter: Option<int>, metadata: Metadata): Record {
    r.(state := FailedFinal, attempts := r.attempts + 1, updatedAt := at, requestId := f.requestId, nextAttemptAt := None,
       errorCode := Some("retry_window_exhausted"),
       errorMessage := Some("retry window exhausted before scheduling next attempt"),
       retryAfter := retryAfter, metadata := metadata)
  }

  function Rejected(r: Record, at: int, f: Failure): Record {
    r.(state := FailedFinal, attempts := r.attempts + 1, updatedAt := at, requestId := f.requestId, nextAttemptAt := None,
       errorCode := Some(f.code), errorMessage := Some(f.message), retryAfter := f.retryAfter, metadata := f.metadata)
  }

  function Rescheduled(r: Record, at: int, f: Failure, next: int, bounded: Option<int>): Record {
    r.(state := FailedTemp, attempts := r.attempts + 1, updatedAt := at, requestId := f.requestId,
       nextAttemptAt := Some(next), errorCode := Some(f.code), errorMessage := Some(f.message),
       retryAfter := bounded, metadata := f.metadata)
  }

  /** A Retry-After counts only when positive, and at most the contract's maximum. */
  function BoundedRetryAfter(rules: Rules, retryAfter: Option<int>): Option<int> {
    if retryAfter.Some? && retryAfter.value > 0 then Some(Backoff.Min(retryAfter.value, rules.maxSeconds)) else None
  }

  function Wait(delay: int, bounded: Option<int>): int {
    if bounded.Some? then Backoff.Max(delay, bounded.value) else delay
  }

  function MarkFailure(rules: Rules, r: Record, f: Failure, now: int): Result<Record> {
    if r.state != Searching then Err("cannot mark linkage failure")
    else
      var at, n := TransitionNow(r, now), r.attempts + 1;
      if !f.transient then
        Ok(Rejected(r, at, f))
      else if at >= r.deadlineAt then
        Ok(Exhausted(r, at, f, f.retryAfter, f.metadata[KSourceErrorCode := JText(f.code)]))
      else
        var bounded := BoundedRetryAfter(rules, f.retryAfter);
        var delay := Wait(rules.delay(r.caseId, n), bounded);
        if at + delay > r.deadlineAt then
          Ok(Exhausted(r, at, f, bounded, f.metadata[KSourceErrorCode := JText(f.code)][KSourceRetryDelay := JNumber(delay)]))
        else
          Ok(Rescheduled(r, at, f, at + delay, bounded))
  }

  // ---------------------------------------------------------------- what every record satisfies

  /** The schedule agrees with the state and never points past the deadline. */
  predicate Scheduled(r: Record) {
    && r.deadlineAt == r.firstAttemptAt + 60 * r.windowMinutes && r.firstAttemptAt <= r.updatedAt
    && (r.nextAttemptAt.Some? <==> r.state == FailedTemp)
    && (r.state == Pending ==> r.attempts == 0) && (r.state != Pending && r.state != Searching ==> r.attempts >= 1)
    && (r.nextAttemptAt.Some? ==> r.updatedAt < r.nextAttemptAt.value <= r.deadlineAt)
  }

  /** One second of the window is spent per recorded attempt. */
  predicate Paced(r: Record) {
    match r.state
    case Pending => r.attempts == 0
    case Searching => r.attempts <= r.updatedAt - r.firstAttemptAt && r.attempts <= 60 * r.windowMinutes
    case FailedTemp => r.nextAttemptAt.Some? && r.attempts <= r.nextAttemptAt.value - r.firstAttemptAt
    case Linked => r.attempts <= 60 * r.windowMinutes + 1
    case FailedFinal => r.attempts <= 60 * r.windowMinutes + 1
  }

  lemma SearchingScheduled(r: Record, now: int)
    requires Scheduled(r) && !r.Terminal()
    ensures var s := MarkSearching(r, now).value; Scheduled(s) && s.SameIdentity(r) && s.attempts == r.attempts
  {
  }

  /** Pacing survives entering SEARCHING when the clock has not stepped back since the row was found due. */
  lemma SearchingPaced(r: Record, due: int, now: int)
    requires Scheduled(r) && Paced(r) && !r.Terminal() && IsRetryDue(r, due) && due <= now
    ensures Paced(MarkSearching(r, now).value)
  {
  }

  lemma SuccessScheduled(r: Record, requestId: Option<string>, incident: Option<string>, m: Metadata, now: int)
    requires Scheduled(r) && r.state == Searching
    ensures var s := MarkSuccess(r, requestId, incident, m, now).value;
            Scheduled(s) && s.SameIdentity(r) && s.attempts == r.attempts + 1 && s.state == Linked && (Paced(r) ==> Paced(s))
  {
  }

  /** A failure is final or schedules strictly inside the window; each temporary failure moves updated_at of the
      next attempt at least one second closer to the deadline. */
  lemma FailureScheduled(rules: Rules, r: Record, f: Failure, now: int)
    requires rules.Positive() && Scheduled(r) && r.state == Searching
    ensures var s := MarkFailure(rules, r, f, now).value;
            && Scheduled(s) && s.SameIdentity(r) && s.attempts == r.attempts + 1 && (Paced(r) ==> Paced(s))
            && (s.state == FailedFinal || (s.state == FailedTemp && f.transient))
  {
    var s := MarkFailure(rules, r, f, now).value;
    assert rules.delay(r.caseId, r.attempts + 1) >= 1;
    if s.state == FailedTemp {
      RescheduledFields(rules, r, f, now);
    } else {
      FinalFields(rules, r, f, now);
    }
  }

  lemma RescheduledFields(rules: Rules, r: Record, f: Failure, now: int)
    requires rules.maxSeconds >= 1 && rules.delay(r.caseId, r.attempts + 1) >= 1 && r.state == Searching
    requires MarkFailure(rules, r, f, now).value.state == FailedTemp
    ensures var s := MarkFailure(rules, r, f, now).value;
            && s.SameIdentity(r) && s.attempts == r.attempts + 1 && f.transient && r.updatedAt <= s.updatedAt
            && s.nextAttemptAt.Some? && s.updatedAt < s.nextAttemptAt.value <= r.deadlineAt
  {
  }

  lemma FinalFields(rules: Rules, r: Record, f: Failure, now: int)
    requires r.state == Searching && MarkFailure(rules, r, f, now).value.state != FailedTemp
    ensures FinalFrom(r, MarkFailure(rules, r, f, now).value)
  {
    var at, failed := TransitionNow(r, now), MarkFailure(rules, r, f, now).value;
    if failed == Rejected(r, at, f) {
      assert FinalFrom(r, Rejected(r, at, f));
    } else {
      assert failed == Exhausted(r, at, f, failed.retryAfter, failed.metadata);
      assert FinalFrom(r, Exhausted(r, at, f, failed.retryAfter, failed.metadata));
    }
  }

  predicate FinalFrom(r: Record, s: Record) {
    && s.SameIdentity(r) && s.attempts == r.attempts + 1 && s.state == FailedFinal && s.nextAttemptAt.None?
    && r.updatedAt <= s.updatedAt
  }

  // ---------------------------------------------------------------- what a transition records

  /** A transition at `now` is stamped with `now`, or with the row's own timestamp when the clock is behind it. */
  predicate StampedAt(before: Record, after: Record, now: int) {
    && after.updatedAt >= now && after.updatedAt >= before.updatedAt
    && (after.updatedAt == now || after.updatedAt == before.updatedAt)
  }

  /** Success keeps the request id and metadata of the answer, the answer's incident or else the row's, and no error. */
  lemma SuccessRecords(r: Record, requestId: Option<string>, incident: Option<string>, m: Metadata, now: int)
    ensures MarkSuccess(r, requestId, incident, m, now).Ok? <==> r.state == Searching
    ensures MarkSuccess(r, requestId, incident, m, now).Ok? ==>
              var s := MarkSuccess(r, requestId, incident, m, now).value;
              && StampedAt(r, s, now) && s.requestId == requestId && s.metadata == m
              && s.errorCode.None? && s.errorMessage.None? && s.retryAfter.None?
              && s.incidentSysId == (if incident.Some? && incident.value != "" then incident else r.incidentSysId)
  {
  }

  /** The seconds a transient failure asks to wait: the row's own backoff, and a positive Retry-After up to the maximum. */
  predicate Honours(rules: Rules, r: Record, f: Failure, wait: int) {
    var backoff := rules.delay(r.caseId, r.attempts + 1);
    if f.retryAfter.Some? && f.retryAfter.value > 0 then
      var asked := if f.retryAfter.value <= rules.maxSeconds then f.retryAfter.value else rules.maxSeconds;
      wait >= backoff && wait >= asked && (wait == backoff || wait == asked)
    else wait == backoff
  }

  /** A transient failure is rescheduled exactly when its wait ends by the deadline, and then for exactly that second. */
  lemma RescheduledExactlyWithinDeadline(rules: Rules, r: Record, f: Failure, now: int)
    requires r.state == Searching && f.transient
    ensures var s, at := MarkFailure(rules, r, f, now).value, if now < r.updatedAt then r.updatedAt else now;
            exists wait: int :: Honours(rules, r, f, wait)
              && (s.state == FailedTemp <==> at < r.deadlineAt && at + wait <= r.deadlineAt)
              && (s.state == FailedTemp ==> s.nextAttemptAt == Some(at + wait))
  {
    var wait := Wait(rules.delay(r.caseId, r.attempts + 1), BoundedRetryAfter(rules, f.retryAfter));
    assert Honours(rules, r, f, wait);
  }

  /** What the row says about a failure: the request, and the failure's own code unless the window ran out. */
  lemma FailureRecords(rules: Rules, r: Record, f: Failure, now: int)
    ensures MarkFailure(rules, r, f, now).Ok? <==> r.state == Searching
    ensures MarkFailure(rules, r, f, now).Ok? ==>
              var s := MarkFailure(rules, r, f, now).value;
              && StampedAt(r, s, now) && s.requestId == f.requestId && s.incidentSysId == r.incidentSysId
              && (!f.transient ==> s.state == FailedFinal)
              && (if s.state == FailedFinal && f.transient
                  then s.errorCode == Some("retry_window_exhausted") && KSourceErrorCode in s.metadata && s.metadata[KSourceErrorCode] == JText(f.code)
                  else s.errorCode == Some(f.code) && s.errorMessage == Some(f.message) && s.metadata == f.metadata)
  {
  }

  /** A row is due in PENDING and SEARCHING at any time, in FAILED_TEMP from its next attempt on, and never once final. */
  lemma DueIff(r: Record, now: int)
    ensures IsRetryDue(r, now) <==>
            || r.state == Pending || r.state == Searching
            || (r.state == FailedTemp && (r.nextAttemptAt.Some? ==> now >= r.nextAttemptAt.value))
  {
  }

  // ---------------------------------------------------------------- the table

  type Table = map<string, Record>

  predicate WellKeyed(t: Table) {
    forall id :: id in t ==> t[id].caseId == id
  }

  /** Reading a row re-validates optional identifiers: stripped, and never blank. */
  predicate ReadableText(o: Option<string>) { o.None? || Strip(o.value) != "" }

  function NormalizeText(o: Option<string>): Option<string> {
    match o case None => None case Some(s) => Some(Strip(s))
  }

  /** A written record as it is read back inside the same transaction; a blank identifier rolls the write back. */
  function Revalidated(r: Record): Result<Record> {
    if ReadableText(r.incidentSysId) && ReadableText(r.requestId) && ReadableText(r.errorCode) && ReadableText(r.errorMessage)
    then Ok(r.(incidentSysId := NormalizeText(r.incidentSysId), requestId := NormalizeText(r.requestId),
               errorCode := NormalizeText(r.errorCode), errorMessage := NormalizeText(r.errorMessage)))
    else Err("optional linkage fields must be non-empty when provided")
  }

  /** Re-validation touches only the optional texts. */
  lemma RevalidatedKeeps(r: Record)
    ensures Revalidated(r).Ok? ==>
              var v := Revalidated(r).value;
              v.SameIdentity(r) && v.state == r.state && v.attempts == r.attempts
              && (Scheduled(r) ==> Scheduled(v)) && (Paced(r) ==> Paced(v))
  {
  }

  /** get_or_create_pending */
  function GetOrCreate(t: Table, caseId: string, pd: string, incident: Option<string>, window: nat, now: int): (Table, Result<Record>) {
    if Strip(caseId) == "" || Strip(pd) == "" || window < 1 then (t, Err("invalid linkage retry record"))
    else match Revalidated(CreatePending(caseId, pd, incident, window, now))
      case Err(e) => (t, Err(e))
      case Ok(pending) =>
        if caseId in t then
          if t[caseId].pdIncidentId != pd then (t, Err("existing sn linkage retry case_id has different pd_incident_id"))
          else (t, Ok(t[caseId]))
        else (t[caseId := pending], Ok(pending))
  }

  lemma GetOrCreateEffect(t: Table, caseId: string, pd: string, incident: Option<string>, window: nat, now: int)
    ensures var (t', r) := GetOrCreate(t, caseId, pd, incident, window, now);
            && (r.Ok? ==> caseId in t' && r.value == t'[caseId])
            && (t' == t || (caseId !in t && r.Ok? && t' == t[caseId := r.value]
                            && Strip(caseId) != "" && r.value.caseId == caseId && r.value.attempts == 0
                            && Scheduled(r.value) && Paced(r.value)))
  {
    PendingIsSound(caseId, pd, incident, window, now);
  }

  lemma PendingIsSound(caseId: string, pd: string, incident: Option<string>, window: nat, now: int)
    ensures var r := Revalidated(CreatePending(caseId, pd, incident, window, now));
            r.Ok? ==> r.value.caseId == caseId && r.value.attempts == 0 && Scheduled(r.value) && Paced(r.value)
  {
    RevalidatedKeeps(CreatePending(caseId, pd, incident, window, now));
  }

  /** persist_transition: UPDATE every column WHERE case_id = id AND state IN expected. */
  function PersistTransition(t: Table, id: string, next: Record, expected: set<RetryState>): (Table, Result<Record>) {
    if id in t && t[id].state in expected then
      match Revalidated(next)
      case Err(e) => (t, Err(e))
      case Ok(row) => (t[id := row], Ok(row))
    else if id !in t then (t, Err("sn linkage retry record not found"))
    else if t[id].state == next.state then (t, Ok(t[id]))
    else (t, Err("sn linkage retry transition source-state guard failed"))
  }

  /** A guarded write goes through exactly when the row is in an expected state and the record re-validates, and it is
      accepted without writing when the row is already where the record wants it. */
  lemma PersistIff(t: Table, id: string, next: Record, expected: set<RetryState>)
    ensures var (after, r) := PersistTransition(t, id, next, expected);
            && (id !in t ==> after == t && r.Err?)
            && (id in t && t[id].state in expected ==> r == Revalidated(next) && after == if r.Ok? then t[id := r.value] else t)
            && (id in t && t[id].state !in expected ==> after == t && (r.Ok? <==> t[id].state == next.state) && (r.Ok? ==> r.value == t[id]))
  {
  }

  class LinkageRetrySqlRepository {
    var rows: Table

    constructor ()
      ensures rows == map[]
    {
      rows := map[];
    }

    method GetOrCreatePending(caseId: string, pd: string, incident: Option<string>, window: nat, now: int) returns (r: Result<Record>)
      modifies this
      ensures (rows, r) == GetOrCreate(old(rows), caseId, pd, incident, window, now)
    {
      if Strip(caseId) == "" || Strip(pd) == "" || window < 1 { return Err("invalid linkage retry record"); }
      var pending := Revalidated(CreatePending(caseId, pd, incident, window, now));
      if pending.Err? { return pending; }
      if caseId in rows {
        if rows[caseId].pdIncidentId != pd { return Err("existing sn linkage retry case_id has different pd_incident_id"); }
        return Ok(rows[caseId]);
      }
      rows := rows[caseId := pending.value];
      return pending;
    }

    method Persist(id: string, next: Record, expected: set<RetryState>) returns (r: Result<Record>)
      modifies this
      ensures (rows, r) == PersistTransition(old(rows), id, next, expected)
    {
      if id in rows && rows[id].state in expected {
        var row := Revalidated(next);
        if row.Ok? { rows := rows[id := row.value]; }
        return row;
      }
      if id !in rows { return Err("sn linkage retry record not found"); }
      if rows[id].state == next.state { return Ok(rows[id]); }
      return Err("sn linkage retry transition source-state guard failed");
    }
  }
}
