/** Counting linkage attempts over whole runs (linkage/state_machine.py, linkage/repository.py). */
module LinkageCounting {
  import opened Wrappers
  import opened Text
  import opened Linkage
  import opened LinkageProtocol
  import C = CaseStore

  // ---------------------------------------------------------------- one worker per case

  /** Each case is only ever worked on by its owner. */
  predicate Owned(owner: string -> nat, run: seq<Action>) {
    forall i :: 0 <= i < |run| && run[i].Fetch? ==> run[i].p == owner(run[i].args.caseId)
  }

  /** The record a call carries is the row as it is now. */
  predicate Current(owner: string -> nat, rows: Table, p: nat, l: Local) {
    (l.Fetched? || l.Attempting? || l.Answered?) ==>
      l.rec.caseId in rows && rows[l.rec.caseId] == l.rec && owner(l.rec.caseId) == p
  }

  predicate AllCurrent(owner: string -> nat, s: State) {
    forall p :: p in s.locals ==> Current(owner, s.rows, p, s.locals[p])
  }

  function AttemptsOf(rows: Table, id: string): nat {
    if id in rows then rows[id].attempts else 0
  }

  /** Steps of a run that changed the stored attempt count of `id`. */
  function Recorded(cfg: Config, s: State, run: seq<Action>, id: string): nat
    decreases run
  {
    if run == [] then 0
    else
      var s' := Next(cfg, s, run[0]);
      (if AttemptsOf(s'.rows, id) != AttemptsOf(s.rows, id) then 1 else 0) + Recorded(cfg, s', run[1..], id)
  }

  /** What a step of `p` did, seen from the attempt counts and the snapshots. */
  ghost predicate CountingStep(owner: string -> nat, s: State, s': State) {
    && AllCurrent(owner, s')
    && forall id :: AttemptsOf(s.rows, id) <= AttemptsOf(s'.rows, id) <= AttemptsOf(s.rows, id) + 1
  }

  lemma KeepOthers(owner: string -> nat, s: State, s': State, p: nat, id: string)
    requires AllCurrent(owner, s) && (id in s.rows && owner(id) != p ==> id in s'.rows && s'.rows[id] == s.rows[id])
    requires forall q :: q in s'.locals && q != p ==> q in s.locals && s'.locals[q] == s.locals[q]
    requires forall k :: k in s.rows && k != id ==> k in s'.rows && s'.rows[k] == s.rows[k]
    requires p in s'.locals ==> Current(owner, s'.rows, p, s'.locals[p])
    ensures AllCurrent(owner, s')
  {
    forall q | q in s'.locals ensures Current(owner, s'.rows, q, s'.locals[q]) {
      if q != p { assert Current(owner, s.rows, q, s.locals[q]); }
    }
  }

  /** A guarded write by the owner of a record with a count one higher at most. */
  lemma WroteCounts(owner: string -> nat, s: State, p: nat, id: string, next: Record, expected: set<RetryState>, l: Local)
    requires Inv(s) && AllCurrent(owner, s) && owner(id) == p && id in s.rows && Linked !in expected && FailedFinal !in expected
    requires Scheduled(next) && next.SameIdentity(s.rows[id]) && s.rows[id].attempts <= next.attempts <= s.rows[id].attempts + 1
    requires var (rows, r) := PersistTransition(s.rows, id, next, expected);
             l.Idle? || l.Finishing? || (r.Ok? && l == Attempting(r.value))
    ensures var rows := PersistTransition(s.rows, id, next, expected).0;
            CountingStep(owner, s, s.(rows := rows).Move(p, l))
  {
    var (rows, r) := PersistTransition(s.rows, id, next, expected);
    PersistEffect(s.rows, id, next, expected);
    PersistOutcome(s.rows, id, next, expected);
    RevalidatedKeeps(next);
    KeepOthers(owner, s, s.(rows := rows).Move(p, l), p, id);
  }

  lemma SearchCounts(owner: string -> nat, s: State, p: nat, now: int, acked: bool)
    requires Inv(s) && AllCurrent(owner, s) && s.At(p).Fetched?
    ensures CountingStep(owner, s, SearchStep(s, p, s.At(p).rec, now, acked))
  {
    var rec := s.At(p).rec;
    assert LocalOk(s.rows, s.At(p)) && Current(owner, s.rows, p, s.At(p));
    SearchingScheduled(rec, now);
    var next := MarkSearching(rec, now).value;
    var r := PersistTransition(s.rows, rec.caseId, next, {rec.state}).1;
    WroteCounts(owner, s, p, rec.caseId, next, {rec.state}, if acked && r.Ok? then Attempting(r.value) else Idle);
  }

  lemma RecordCounts(rules: Rules, owner: string -> nat, s: State, p: nat, now: int, acked: bool)
    requires rules.Positive() && Inv(s) && AllCurrent(owner, s) && s.At(p).Answered?
    ensures CountingStep(owner, s, RecordStep(rules, s, p, s.At(p).rec, s.At(p).answer, now, acked))
  {
    var rec, answer := s.At(p).rec, s.At(p).answer;
    assert LocalOk(s.rows, s.At(p)) && Current(owner, s.rows, p, s.At(p));
    DecideScheduled(rules, rec, answer, now);
    var next := Decide(rules, rec, answer, now).value;
    var r := PersistTransition(s.rows, rec.caseId, next, {Searching}).1;
    WroteCounts(owner, s, p, rec.caseId, next, {Searching}, if acked && r.Ok? && r.value.state != FailedTemp then Finishing(rec.caseId) else Idle);
  }

  lemma FetchedCounts(owner: string -> nat, s: State, p: nat, id: string, rows: Table, r: Result<Record>, l: Local, now: int)
    requires Inv(s) && AllCurrent(owner, s) && p == owner(id) && (r.Ok? ==> id in rows && r.value == rows[id] && r.value.caseId == id)
    requires l.Idle? || (r.Ok? && l == AfterFetch(r.value, now))
    requires rows == s.rows || (id !in s.rows && r.Ok? && rows == s.rows[id := r.value] && r.value.attempts == 0)
    ensures CountingStep(owner, s, s.(rows := rows).Move(p, l))
  {
    KeepOthers(owner, s, s.(rows := rows).Move(p, l), p, id);
  }

  lemma FetchCounts(owner: string -> nat, s: State, p: nat, args: Args, now: int, acked: bool)
    requires Inv(s) && AllCurrent(owner, s) && p == owner(args.caseId)
    ensures CountingStep(owner, s, FetchStep(s, p, args, now, acked))
  {
    GetOrCreateEffect(s.rows, args.caseId, args.pd, args.incident, args.window, now);
    var (rows, r) := GetOrCreate(s.rows, args.caseId, args.pd, args.incident, args.window, now);
    FetchedCounts(owner, s, p, args.caseId, rows, r, if acked && r.Ok? then AfterFetch(r.value, now) else Idle, now);
  }

  lemma StepCounts(cfg: Config, owner: string -> nat, s: State, a: Action)
    requires cfg.rules.Positive() && Inv(s) && AllCurrent(owner, s) && Owned(owner, [a])
    ensures CountingStep(owner, s, Next(cfg, s, a))
  {
    match a
    case Fetch(p, args, now, acked) =>
      assert [a][0].Fetch?;
      if s.At(p) == Idle { FetchCounts(owner, s, p, args, now, acked); }
    case StartSearch(p, now, acked) => if s.At(p).Fetched? { SearchCounts(owner, s, p, now, acked); }
    case RecordAnswer(p, now, acked) => if s.At(p).Answered? { RecordCounts(cfg.rules, owner, s, p, now, acked); }
    case _ =>
  }

  /** With one worker per case the stored count is the number of recorded attempts, whatever crashes and lost replies. */
  lemma {:induction false} OwnedRunsCount(cfg: Config, owner: string -> nat, s: State, run: seq<Action>, id: string)
    requires cfg.rules.Positive() && Inv(s) && AllCurrent(owner, s) && Owned(owner, run)
    ensures AttemptsOf(Exec(cfg, s, run).rows, id) == AttemptsOf(s.rows, id) + Recorded(cfg, s, run, id)
    decreases run
  {
    if run != [] {
      assert Owned(owner, [run[0]]) && Owned(owner, run[1..]);
      StepKeeps(cfg, s, run[0]);
      StepCounts(cfg, owner, s, run[0]);
      OwnedRunsCount(cfg, owner, Next(cfg, s, run[0]), run[1..], id);
    }
  }

  // ---------------------------------------------------------------- a clock that does not step back

  /** The clock read when a call enters SEARCHING is not behind the one that found the row due. */
  predicate Steady(cfg: Config, s: State, run: seq<Action>)
    decreases run
  {
    run == [] || ((run[0].StartSearch? && s.At(run[0].p).Fetched? ==> s.At(run[0].p).due <= run[0].now)
                  && Steady(cfg, Next(cfg, s, run[0]), run[1..]))
  }

  predicate Carries(l: Local) { l.Fetched? || l.Attempting? || l.Answered? }

  predicate AllPaced(s: State) {
    && (forall id :: id in s.rows ==> Paced(s.rows[id]))
    && (forall p :: p in s.locals && Carries(s.locals[p]) ==> Paced(s.locals[p].rec))
  }

  lemma WrotePaced(s: State, p: nat, id: string, next: Record, expected: set<RetryState>, l: Local)
    requires AllPaced(s) && id in s.rows && Paced(next)
    requires var r := PersistTransition(s.rows, id, next, expected).1; Carries(l) ==> r.Ok? && l == Attempting(r.value)
    ensures AllPaced(s.(rows := PersistTransition(s.rows, id, next, expected).0).Move(p, l))
  {
    PersistOutcome(s.rows, id, next, expected);
    RevalidatedKeeps(next);
  }

  lemma SearchPaced(s: State, p: nat, now: int, acked: bool)
    requires Inv(s) && AllPaced(s) && s.At(p).Fetched? && s.At(p).due <= now
    ensures AllPaced(SearchStep(s, p, s.At(p).rec, now, acked))
  {
    var rec := s.At(p).rec;
    assert LocalOk(s.rows, s.At(p));
    SearchingPaced(rec, s.At(p).due, now);
    var next := MarkSearching(rec, now).value;
    var r := PersistTransition(s.rows, rec.caseId, next, {rec.state}).1;
    WrotePaced(s, p, rec.caseId, next, {rec.state}, if acked && r.Ok? then Attempting(r.value) else Idle);
  }

  lemma RecordPaced(rules: Rules, s: State, p: nat, now: int, acked: bool)
    requires rules.Positive() && Inv(s) && AllPaced(s) && s.At(p).Answered?
    ensures AllPaced(RecordStep(rules, s, p, s.At(p).rec, s.At(p).answer, now, acked))
  {
    var rec, answer := s.At(p).rec, s.At(p).answer;
    assert LocalOk(s.rows, s.At(p));
    DecideScheduled(rules, rec, answer, now);
    var next := Decide(rules, rec, answer, now).value;
    var r := PersistTransition(s.rows, rec.caseId, next, {Searching}).1;
    WrotePaced(s, p, rec.caseId, next, {Searching}, if acked && r.Ok? && r.value.state != FailedTemp then Finishing(rec.caseId) else Idle);
  }

  lemma FetchPaced(s: State, p: nat, args: Args, now: int, acked: bool)
    requires Inv(s) && AllPaced(s)
    ensures AllPaced(FetchStep(s, p, args, now, acked))
  {
    GetOrCreateEffect(s.rows, args.caseId, args.pd, args.incident, args.window, now);
    var (rows, r) := GetOrCreate(s.rows, args.caseId, args.pd, args.incident, args.window, now);
    FetchedPaced(s, p, args.caseId, rows, r, if acked && r.Ok? then AfterFetch(r.value, now) else Idle, now);
  }

  lemma FetchedPaced(s: State, p: nat, id: string, rows: Table, r: Result<Record>, l: Local, now: int)
    requires AllPaced(s) && (r.Ok? ==> id in rows && r.value == rows[id]) && (l.Idle? || (r.Ok? && l == AfterFetch(r.value, now)))
    requires rows == s.rows || (r.Ok? && rows == s.rows[id := r.value] && Paced(r.value))
    ensures AllPaced(s.(rows := rows).Move(p, l))
  {
  }

  lemma StepPaced(cfg: Config, s: State, a: Action)
    requires cfg.rules.Positive() && Inv(s) && AllPaced(s)
    requires a.StartSearch? && s.At(a.p).Fetched? ==> s.At(a.p).due <= a.now
    ensures AllPaced(Next(cfg, s, a))
  {
    match a
    case Fetch(p, args, now, acked) => if s.At(p) == Idle { FetchPaced(s, p, args, now, acked); }
    case StartSearch(p, now, acked) => if s.At(p).Fetched? { SearchPaced(s, p, now, acked); }
    case RecordAnswer(p, now, acked) => if s.At(p).Answered? { RecordPaced(cfg.rules, s, p, now, acked); }
    case _ =>
  }

  /** Under full interleaving, while the clock does not step back, every stored count is within 60 * window + 1. */
  lemma {:induction false} StoredCountBounded(cfg: Config, s: State, run: seq<Action>)
    requires cfg.rules.Positive() && Inv(s) && AllPaced(s) && Steady(cfg, s, run)
    ensures AllPaced(Exec(cfg, s, run))
    ensures var rows := Exec(cfg, s, run).rows; forall id :: id in rows ==> rows[id].attempts <= 60 * rows[id].windowMinutes + 1
    decreases run
  {
    RunKeeps(cfg, s, run);
    if run != [] {
      StepKeeps(cfg, s, run[0]);
      StepPaced(cfg, s, run[0]);
      StoredCountBounded(cfg, Next(cfg, s, run[0]), run[1..]);
    } else {
      forall id | id in s.rows ensures s.rows[id].attempts <= 60 * s.rows[id].windowMinutes + 1 {
        assert Scheduled(s.rows[id]) && Paced(s.rows[id]);
      }
    }
  }

  /** With one worker per case and a clock that does not step back, whatever the crashes and lost replies, a case
      records at most 60 * window + 1 attempts. */
  lemma AttemptsBoundedByWindow(cfg: Config, owner: string -> nat, run: seq<Action>, id: string)
    requires cfg.rules.Positive() && Owned(owner, run) && Steady(cfg, INITIAL, run) && id in Exec(cfg, INITIAL, run).rows
    ensures Recorded(cfg, INITIAL, run, id) <= 60 * Exec(cfg, INITIAL, run).rows[id].windowMinutes + 1
  {
    StoredCountBounded(cfg, INITIAL, run);
    OwnedRunsCount(cfg, owner, INITIAL, run, id);
  }

  // ---------------------------------------------------------------- the clock hypothesis is needed

  const EVERY_SECOND := Rules((id: string, n: nat) => 1, 1)
  const TIMEOUT := Failure(true, "timeout", "timeout", None, None, map[])

  /** A row in FAILED_TEMP after n attempts that all happened in the first second of a one-minute window. */
  function Stuck(id: string, n: nat): Record {
    Record(id, "p", None, FailedTemp, n, 1, 0, 0, 60, Some(1), None, Some("timeout"), Some("timeout"), None, map[])
  }

  /** Found due at second `due`; then the clock reads 0. */
  function Tried(id: string, due: int): seq<Action> {
    [Fetch(0, Args(id, "p", None, 1), due, true), StartSearch(0, 0, true), Attempt(0, Refused(TIMEOUT)), RecordAnswer(0, 0, true)]
  }

  lemma ExecFour(cfg: Config, s: State, a: Action, b: Action, c: Action, d: Action)
    ensures Exec(cfg, s, [a, b, c, d]) == Next(cfg, Next(cfg, Next(cfg, Next(cfg, s, a), b), c), d)
  {
    var s1 := Next(cfg, s, a);
    var s2 := Next(cfg, s1, b);
    var s3 := Next(cfg, s2, c);
    var s4 := Next(cfg, s3, d);
    assert Exec(cfg, s4, []) == s4;
    assert Exec(cfg, s3, [d]) == s4;
    assert Exec(cfg, s2, [c, d]) == s4;
    assert Exec(cfg, s1, [b, c, d]) == s4;
  }

  lemma TextsStand()
    ensures Strip("p") == "p" && Strip("timeout") == "timeout"
  {
    StripFixpoint("p");
    StripFixpoint("timeout");
  }

  /** A state with one row and one process. */
  function Alone(row: Record, l: Local): State { State(map[row.caseId := row], map[], map[0 := l]) }

  lemma FetchAlone(cfg: Config, row: Record, now: int)
    requires Strip(row.caseId) != "" && row.pdIncidentId == "p" && !row.Terminal() && IsRetryDue(row, now)
    ensures Next(cfg, Alone(row, Idle), Fetch(0, Args(row.caseId, "p", None, 1), now, true)) == Alone(row, Fetched(row, now))
  {
    TextsStand();
    assert Alone(row, Idle).At(0) == Idle;
    assert Revalidated(CreatePending(row.caseId, "p", None, 1, now)).Ok?;
    assert GetOrCreate(map[row.caseId := row], row.caseId, "p", None, 1, now) == (map[row.caseId := row], Ok(row));
  }

  lemma SearchAlone(cfg: Config, row: Record, due: int, next: Record)
    requires !row.Terminal() && MarkSearching(row, 0) == Ok(next) && Revalidated(next) == Ok(next)
    ensures Next(cfg, Alone(row, Fetched(row, due)), StartSearch(0, 0, true)) == Alone(next, Attempting(next))
  {
    assert map[row.caseId := row][row.caseId := next] == map[next.caseId := next];
  }

  lemma RecordAlone(codec: C.Codec, row: Record, next: Record)
    requires row.state == Searching && MarkFailure(EVERY_SECOND, row, TIMEOUT, 0) == Ok(next)
    requires Revalidated(next) == Ok(next) && next.state == FailedTemp && next.caseId == row.caseId
    ensures Next(Config(EVERY_SECOND, codec), Alone(row, Answered(row, Refused(TIMEOUT))), RecordAnswer(0, 0, true)) == Alone(next, Idle)
  {
    assert map[row.caseId := row][row.caseId := next] == map[next.caseId := next];
  }

  /** From a due row, one failed attempt at second 0. */
  lemma AttemptAlone(codec: C.Codec, row: Record, due: int, searching: Record, next: Record)
    requires Strip(row.caseId) != "" && row.pdIncidentId == "p" && !row.Terminal() && IsRetryDue(row, due)
    requires MarkSearching(row, 0) == Ok(searching) && Revalidated(searching) == Ok(searching)
    requires MarkFailure(EVERY_SECOND, searching, TIMEOUT, 0) == Ok(next) && Revalidated(next) == Ok(next)
    requires next.state == FailedTemp && next.caseId == row.caseId
    ensures Exec(Config(EVERY_SECOND, codec), Alone(row, Idle), Tried(row.caseId, due)) == Alone(next, Idle)
  {
    var cfg := Config(EVERY_SECOND, codec);
    var fetch := Fetch(0, Args(row.caseId, "p", None, 1), due, true);
    FetchAlone(cfg, row, due);
    SearchAlone(cfg, row, due, searching);
    assert Next(cfg, Alone(searching, Attempting(searching)), Attempt(0, Refused(TIMEOUT))) == Alone(searching, Answered(searching, Refused(TIMEOUT)));
    RecordAlone(codec, searching, next);
    ExecFour(cfg, Alone(row, Idle), fetch, StartSearch(0, 0, true), Attempt(0, Refused(TIMEOUT)), RecordAnswer(0, 0, true));
  }

  lemma StuckSteps(id: string, n: nat)
    ensures var searching := Stuck(id, n).(state := Searching, nextAttemptAt := None);
            && MarkSearching(Stuck(id, n), 0) == Ok(searching) && Revalidated(searching) == Ok(searching)
            && MarkFailure(EVERY_SECOND, searching, TIMEOUT, 0) == Ok(Stuck(id, n + 1)) && Revalidated(Stuck(id, n + 1)) == Ok(Stuck(id, n + 1))
  {
    TextsStand();
  }

  lemma FirstSteps(id: string)
    ensures var pending := CreatePending(id, "p", None, 1, 0);
            var searching := pending.(state := Searching);
            && Revalidated(pending) == Ok(pending) && MarkSearching(pending, 0) == Ok(searching) && Revalidated(searching) == Ok(searching)
            && MarkFailure(EVERY_SECOND, searching, TIMEOUT, 0) == Ok(Stuck(id, 1)) && Revalidated(Stuck(id, 1)) == Ok(Stuck(id, 1))
  {
    TextsStand();
  }

  lemma {:induction false} ExecConcat(cfg: Config, s: State, a: seq<Action>, b: seq<Action>)
    ensures Exec(cfg, s, a + b) == Exec(cfg, Exec(cfg, s, a), b)
    decreases a
  {
    if a == [] {
      assert a + b == b;
    } else {
      assert (a + b)[1..] == a[1..] + b;
      ExecConcat(cfg, Next(cfg, s, a[0]), a[1..], b);
    }
  }

  /** One worker, process 0, can bring the system from the start into this state. */
  ghost predicate Reaches(cfg: Config, s: State) {
    exists run :: Exec(cfg, INITIAL, run) == s && Owned((_: string) => 0, run)
  }

  lemma ReachesNext(cfg: Config, s: State, more: seq<Action>, after: State)
    requires Reaches(cfg, s) && Exec(cfg, s, more) == after && Owned((_: string) => 0, more)
    ensures Reaches(cfg, after)
  {
    var run :| Exec(cfg, INITIAL, run) == s && Owned((_: string) => 0, run);
    ExecConcat(cfg, INITIAL, run, more);
    assert Owned((_: string) => 0, run + more);
  }

  /** The row after n failed attempts; at first it is only created, and the creating call dies. */
  function RowAfter(id: string, n: nat): Record { if n == 0 then CreatePending(id, "p", None, 1, 0) else Stuck(id, n) }

  lemma Created(codec: C.Codec, id: string)
    requires Strip(id) != ""
    ensures Reaches(Config(EVERY_SECOND, codec), Alone(RowAfter(id, 0), Idle))
  {
    var cfg, a := Config(EVERY_SECOND, codec), Fetch(0, Args(id, "p", None, 1), 0, false);
    FirstSteps(id);
    TextsStand();
    var s := Next(cfg, INITIAL, a);
    assert s == Alone(RowAfter(id, 0), Idle);
    assert Exec(cfg, s, []) == s;
    assert [a][1..] == [];
    assert Exec(cfg, INITIAL, [a]) == s && Owned((_: string) => 0, [a]);
  }

  lemma OneMore(codec: C.Codec, id: string, n: nat)
    requires Strip(id) != "" && Reaches(Config(EVERY_SECOND, codec), Alone(RowAfter(id, n), Idle))
    ensures Reaches(Config(EVERY_SECOND, codec), Alone(RowAfter(id, n + 1), Idle))
  {
    var due := if n == 0 then 0 else 1;
    if n == 0 {
      FirstSteps(id);
      AttemptAlone(codec, RowAfter(id, 0), due, RowAfter(id, 0).(state := Searching), Stuck(id, 1));
    } else {
      StuckSteps(id, n);
      AttemptAlone(codec, Stuck(id, n), due, Stuck(id, n).(state := Searching, nextAttemptAt := None), Stuck(id, n + 1));
    }
    ReachesNext(Config(EVERY_SECOND, codec), Alone(RowAfter(id, n), Idle), Tried(id, due), Alone(RowAfter(id, n + 1), Idle));
  }

  lemma {:induction false} AnyNumberOfAttempts(codec: C.Codec, id: string, n: nat)
    requires Strip(id) != ""
    ensures Reaches(Config(EVERY_SECOND, codec), Alone(RowAfter(id, n), Idle))
  {
    if n == 0 {
      Created(codec, id);
    } else {
      AnyNumberOfAttempts(codec, id, n - 1);
      OneMore(codec, id, n - 1);
    }
  }

  /** The clock hypothesis is needed: if the clock may step back between the due check and entering SEARCHING, one
      worker can record any number of attempts inside a one-minute window, for every case id. */
  lemma WindowBoundNeedsSteadyClock(codec: C.Codec, id: string, n: nat)
    requires Strip(id) != "" && n > 61
    ensures EVERY_SECOND.Positive()
    ensures exists run :: Owned((_: string) => 0, run) && id in Exec(Config(EVERY_SECOND, codec), INITIAL, run).rows
                          && Exec(Config(EVERY_SECOND, codec), INITIAL, run).rows[id].windowMinutes == 1
                          && Exec(Config(EVERY_SECOND, codec), INITIAL, run).rows[id].attempts == n
  {
    AnyNumberOfAttempts(codec, id, n);
    var run :| Exec(Config(EVERY_SECOND, codec), INITIAL, run) == Alone(RowAfter(id, n), Idle) && Owned((_: string) => 0, run);
  }
}
