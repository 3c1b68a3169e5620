/** The linkage retry protocol as a transition system: any number of workers, each read and each guarded write a
    separate step, lost replies and crashes anywhere (pipeline/stages/linkage.py on the repository-backed path). */
module LinkageProtocol {
  import opened Wrappers
  import opened Text
  import opened Linkage
  import C = CaseStore

  datatype Args = Args(caseId: string, pd: string, incident: Option<string>, window: nat)

  /** The classified answer of the remote upsert. */
  datatype Answer =
    | Succeeded(requestId: Option<string>, incident: Option<string>, metadata: Metadata)
    | Refused(failure: Failure)

  /** Where a call stands; `due` is the time at which its row was found ready for an attempt. */
  datatype Local =
    | Idle
    | Fetched(rec: Record, due: int)
    | Attempting(rec: Record)
    | Answered(rec: Record, answer: Answer)
    | Finishing(id: string)

  datatype State = State(rows: Table, objects: C.Objects, locals: map<nat, Local>)
  {
    function At(p: nat): Local { if p in locals then locals[p] else Idle }
    function Move(p: nat, l: Local): State { this.(locals := locals[p := l]) }
  }

  const INITIAL := State(map[], map[], map[])

  /** `acked` is false when the database applied the statement and its reply was lost. `StoreStage` is any other
      writer of the bucket; only linkage calls write linkage.json. */
  datatype Action =
    | Fetch(p: nat, args: Args, now: int, acked: bool)
    | StartSearch(p: nat, now: int, acked: bool)
    | Attempt(p: nat, answer: Answer)
    | RecordAnswer(p: nat, now: int, acked: bool)
    | WriteArtifact(p: nat, file: C.CaseFile, faults: C.Faults)
    | StoreStage(file: C.CaseFile, faults: C.Faults)
    | Crash(p: nat)

  datatype Config = Config(rules: Rules, codec: C.Codec)

  function AfterFetch(row: Record, now: int): Local {
    if row.Terminal() then Finishing(row.caseId)
    else if row.state == FailedTemp && !IsRetryDue(row, now) then Idle
    else Fetched(row, now)
  }

  function Decide(rules: Rules, rec: Record, answer: Answer, now: int): Result<Record> {
    match answer
    case Succeeded(requestId, incident, metadata) => MarkSuccess(rec, requestId, incident, metadata, now)
    case Refused(failure) => MarkFailure(rules, rec, failure, now)
  }

  function FetchStep(s: State, p: nat, args: Args, now: int, acked: bool): State {
    var (rows, r) := GetOrCreate(s.rows, args.caseId, args.pd, args.incident, args.window, now);
    s.(rows := rows).Move(p, if acked && r.Ok? then AfterFetch(r.value, now) else Idle)
  }

  function SearchStep(s: State, p: nat, rec: Record, now: int, acked: bool): State {
    match MarkSearching(rec, now)
    case Err(_) => s.Move(p, Idle)
    case Ok(next) =>
      var (rows, r) := PersistTransition(s.rows, rec.caseId, next, {rec.state});
      s.(rows := rows).Move(p, if acked && r.Ok? then Attempting(r.value) else Idle)
  }

  function RecordStep(rules: Rules, s: State, p: nat, rec: Record, answer: Answer, now: int, acked: bool): State {
    match Decide(rules, rec, answer, now)
    case Err(_) => s.Move(p, Idle)
    case Ok(next) =>
      var (rows, r) := PersistTransition(s.rows, rec.caseId, next, {Searching});
      s.(rows := rows).Move(p, if acked && r.Ok? && r.value.state != FailedTemp then Finishing(rec.caseId) else Idle)
  }

  function StoreStep(c: C.Codec, s: State, f: C.CaseFile, faults: C.Faults): State {
    s.(objects := C.PersistStage(c, s.objects, f, faults).0)
  }

  /** One step; an action whose process is not in the right place does nothing. */
  function Next(cfg: Config, s: State, a: Action): State {
    match a
    case Fetch(p, args, now, acked) => if s.At(p) == Idle then FetchStep(s, p, args, now, acked) else s
    case StartSearch(p, now, acked) => if s.At(p).Fetched? then SearchStep(s, p, s.At(p).rec, now, acked) else s
    case Attempt(p, answer) => if s.At(p).Attempting? then s.Move(p, Answered(s.At(p).rec, answer)) else s
    case RecordAnswer(p, now, acked) =>
      if s.At(p).Answered? then RecordStep(cfg.rules, s, p, s.At(p).rec, s.At(p).answer, now, acked) else s
    case WriteArtifact(p, f, faults) =>
      if s.At(p) == Finishing(f.caseId) && f.LinkageFile? then StoreStep(cfg.codec, s, f, faults).Move(p, Idle) else s
    case StoreStage(f, faults) => if f.LinkageFile? then s else StoreStep(cfg.codec, s, f, faults)
    case Crash(p) => s.Move(p, Idle)
  }

  function Exec(cfg: Config, s: State, run: seq<Action>): State
    decreases run
  {
    if run == [] then s else Exec(cfg, Next(cfg, s, run[0]), run[1..])
  }

  // ---------------------------------------------------------------- what every step keeps

  predicate Held(rows: Table, rec: Record) {
    Scheduled(rec) && rec.caseId in rows && rows[rec.caseId].SameIdentity(rec)
  }

  predicate LocalOk(rows: Table, l: Local) {
    match l
    case Idle => true
    case Fetched(rec, due) => Held(rows, rec) && !rec.Terminal() && IsRetryDue(rec, due)
    case Attempting(rec) => Held(rows, rec) && rec.state == Searching
    case Answered(rec, _) => Held(rows, rec) && rec.state == Searching
    case Finishing(id) => id in rows && rows[id].Terminal()
  }

  /** Some row whose case id trims to `dir` is terminal. */
  predicate Finished(rows: Table, dir: string) {
    exists id :: id in rows && Strip(id) == dir && rows[id].Terminal()
  }

  /** linkage.json exists only in directories with a finished row. */
  ghost predicate ArtifactsBacked(rows: Table, objects: C.Objects) {
    forall dir: string :: C.KeyOf(dir, C.Linkage) in objects ==> Finished(rows, dir)
  }

  ghost predicate Inv(s: State) {
    && WellKeyed(s.rows)
    && (forall id :: id in s.rows ==> Scheduled(s.rows[id]) && Strip(id) != "")
    && (forall p :: p in s.locals ==> LocalOk(s.rows, s.locals[p]))
    && ArtifactsBacked(s.rows, s.objects)
  }

  /** Identity is fixed and a terminal row is frozen. */
  predicate RowsStep(before: Table, after: Table) {
    forall id :: id in before ==>
      && id in after && after[id].SameIdentity(before[id])
      && (before[id].Terminal() ==> after[id] == before[id])
  }

  lemma FinishedStays(before: Table, after: Table, objects: C.Objects)
    requires RowsStep(before, after) && ArtifactsBacked(before, objects)
    ensures ArtifactsBacked(after, objects)
  {
    forall dir: string | C.KeyOf(dir, C.Linkage) in objects ensures Finished(after, dir) {
      assert Finished(before, dir);
      var id :| id in before && Strip(id) == dir && before[id].Terminal();
      assert id in after && after[id].Terminal();
    }
  }

  /** A step of process p on rows and locals. */
  lemma Reassemble(s: State, s': State, p: nat)
    requires Inv(s) && WellKeyed(s'.rows) && RowsStep(s.rows, s'.rows) && s'.objects == s.objects
    requires forall id :: id in s'.rows ==> Scheduled(s'.rows[id]) && Strip(id) != ""
    requires forall q :: q in s'.locals && q != p ==> q in s.locals && s'.locals[q] == s.locals[q]
    requires p in s'.locals ==> LocalOk(s'.rows, s'.locals[p])
    ensures Inv(s')
  {
    forall q | q in s'.locals && q != p ensures LocalOk(s'.rows, s'.locals[q]) {
      assert LocalOk(s.rows, s.locals[q]);
    }
    FinishedStays(s.rows, s'.rows, s.objects);
  }

  /** A guarded write either leaves the table alone or puts the re-validated record in place of a row it expected. */
  lemma PersistOutcome(rows: Table, id: string, next: Record, expected: set<RetryState>)
    requires id in rows
    ensures var (after, r) := PersistTransition(rows, id, next, expected);
            || (after == rows && (r.Ok? ==> r.value == rows[id] && rows[id].state == next.state))
            || (rows[id].state in expected && r == Revalidated(next) && r.Ok? && after == rows[id := r.value])
  {
  }

  lemma ReplacedRow(rows: Table, id: string, row: Record, after: Table)
    requires WellKeyed(rows) && id in rows && Scheduled(row) && row.SameIdentity(rows[id]) && after == rows[id := row]
    requires forall k :: k in rows ==> Scheduled(rows[k])
    ensures WellKeyed(after) && (forall k :: k in after ==> Scheduled(after[k]))
    ensures !rows[id].Terminal() ==> RowsStep(rows, after)
  {
  }

  /** A guarded write of a scheduled record with the row's identity, from a non-terminal source state. */
  lemma PersistEffect(rows: Table, id: string, next: Record, expected: set<RetryState>)
    requires WellKeyed(rows) && id in rows && Linked !in expected && FailedFinal !in expected
    requires Scheduled(next) && next.SameIdentity(rows[id])
    requires forall k :: k in rows ==> Scheduled(rows[k])
    ensures var (rows', r) := PersistTransition(rows, id, next, expected);
            && RowsStep(rows, rows') && WellKeyed(rows') && (forall k :: k in rows' ==> Scheduled(rows'[k]))
            && (r.Ok? ==> r.value == rows'[id] && r.value.state == next.state)
            && rows'.Keys == rows.Keys && (forall k :: k in rows && k != id ==> rows'[k] == rows[k])
  {
    PersistOutcome(rows, id, next, expected);
    if Revalidated(next).Ok? {
      RevalidatedKeeps(next);
      ReplacedRow(rows, id, Revalidated(next).value, rows[id := Revalidated(next).value]);
    }
  }

  /** The fetch step with its database answer spelled out. */
  lemma FetchedKeeps(s: State, p: nat, id: string, rows: Table, r: Result<Record>, l: Local, now: int)
    requires Inv(s) && (r.Ok? ==> id in rows && r.value == rows[id]) && (l.Idle? || (r.Ok? && l == AfterFetch(r.value, now)))
    requires rows == s.rows || (id !in s.rows && r.Ok? && rows == s.rows[id := r.value] && r.value.caseId == id && Strip(id) != "" && Scheduled(r.value))
    ensures Inv(s.(rows := rows).Move(p, l)) && RowsStep(s.rows, rows)
  {
    Reassemble(s, s.(rows := rows).Move(p, l), p);
  }

  lemma FetchKeeps(s: State, p: nat, args: Args, now: int, acked: bool)
    requires Inv(s)
    ensures Inv(FetchStep(s, p, args, now, acked)) && RowsStep(s.rows, FetchStep(s, p, args, now, acked).rows)
  {
    GetOrCreateEffect(s.rows, args.caseId, args.pd, args.incident, args.window, now);
    var (rows, r) := GetOrCreate(s.rows, args.caseId, args.pd, args.incident, args.window, now);
    FetchedKeeps(s, p, args.caseId, rows, r, if acked && r.Ok? then AfterFetch(r.value, now) else Idle, now);
  }

  lemma SearchKeeps(s: State, p: nat, now: int, acked: bool)
    requires Inv(s) && s.At(p).Fetched?
    ensures var s' := SearchStep(s, p, s.At(p).rec, now, acked); Inv(s') && RowsStep(s.rows, s'.rows)
  {
    var rec := s.At(p).rec;
    assert LocalOk(s.rows, s.At(p));
    SearchingScheduled(rec, now);
    PersistEffect(s.rows, rec.caseId, MarkSearching(rec, now).value, {rec.state});
    Reassemble(s, SearchStep(s, p, rec, now, acked), p);
  }

  lemma DecideScheduled(rules: Rules, rec: Record, answer: Answer, now: int)
    requires rules.Positive() && Scheduled(rec) && rec.state == Searching
    ensures Decide(rules, rec, answer, now).Ok?
    ensures var n := Decide(rules, rec, answer, now).value;
            && Scheduled(n) && n.SameIdentity(rec) && n.attempts == rec.attempts + 1 && (n.Terminal() || n.state == FailedTemp)
            && (Paced(rec) ==> Paced(n))
  {
    match answer
    case Succeeded(requestId, incident, metadata) => SuccessScheduled(rec, requestId, incident, metadata, now);
    case Refused(failure) => FailureScheduled(rules, rec, failure, now);
  }

  lemma RecordKeeps(rules: Rules, s: State, p: nat, now: int, acked: bool)
    requires rules.Positive() && Inv(s) && s.At(p).Answered?
    ensures var s' := RecordStep(rules, s, p, s.At(p).rec, s.At(p).answer, now, acked); Inv(s') && RowsStep(s.rows, s'.rows)
  {
    var rec, answer := s.At(p).rec, s.At(p).answer;
    assert LocalOk(s.rows, s.At(p));
    DecideScheduled(rules, rec, answer, now);
    PersistEffect(s.rows, rec.caseId, Decide(rules, rec, answer, now).value, {Searching});
    Reassemble(s, RecordStep(rules, s, p, rec, answer, now, acked), p);
  }

  lemma MoveKeeps(s: State, p: nat, l: Local)
    requires Inv(s) && LocalOk(s.rows, l)
    ensures Inv(s.Move(p, l))
  {
    Reassemble(s, s.Move(p, l), p);
  }

  /** A stage persist adds at most its own object; linkage.json only where a row is finished. */
  lemma StoreKeeps(c: C.Codec, s: State, f: C.CaseFile, faults: C.Faults)
    requires Inv(s) && (f.LinkageFile? ==> f.caseId in s.rows && s.rows[f.caseId].Terminal())
    ensures Inv(StoreStep(c, s, f, faults))
  {
    C.PersistIsPersisted(c, s.objects, f, faults);
    StoredKeeps(c, s.rows, s.objects, C.PersistStage(c, s.objects, f, faults).0, f);
  }

  lemma StoredKeeps(c: C.Codec, rows: Table, objects: C.Objects, after: C.Objects, f: C.CaseFile)
    requires ArtifactsBacked(rows, objects) && C.Persisted(c, objects, after, f)
    requires f.LinkageFile? ==> f.caseId in rows && rows[f.caseId].Terminal()
    ensures ArtifactsBacked(rows, after)
  {
    forall dir: string | C.KeyOf(dir, C.Linkage) in after ensures Finished(rows, dir) {
      if C.KeyOf(dir, C.Linkage) !in objects {
        C.KeyInjective(dir, C.Linkage, Strip(f.caseId), f.GetStage());
      }
    }
  }

  lemma StepKeeps(cfg: Config, s: State, a: Action)
    requires cfg.rules.Positive() && Inv(s)
    ensures Inv(Next(cfg, s, a)) && RowsStep(s.rows, Next(cfg, s, a).rows)
  {
    match a
    case Fetch(p, args, now, acked) => if s.At(p) == Idle { FetchKeeps(s, p, args, now, acked); }
    case StartSearch(p, now, acked) => if s.At(p).Fetched? { SearchKeeps(s, p, now, acked); }
    case Attempt(p, answer) =>
      if s.At(p).Attempting? {
        assert LocalOk(s.rows, s.At(p));
        MoveKeeps(s, p, Answered(s.At(p).rec, answer));
      }
    case RecordAnswer(p, now, acked) => if s.At(p).Answered? { RecordKeeps(cfg.rules, s, p, now, acked); }
    case WriteArtifact(p, f, faults) =>
      if s.At(p) == Finishing(f.caseId) && f.LinkageFile? {
        assert LocalOk(s.rows, s.At(p));
        StoreKeeps(cfg.codec, s, f, faults);
        MoveKeeps(StoreStep(cfg.codec, s, f, faults), p, Idle);
      }
    case StoreStage(f, faults) => if !f.LinkageFile? { StoreKeeps(cfg.codec, s, f, faults); }
    case Crash(p) => MoveKeeps(s, p, Idle);
  }

  /** Over every interleaving of reads, guarded writes, lost replies and crashes: LINKED and FAILED_FINAL rows are never
      left or rewritten, and identity, first_attempt_at and deadline_at never change. */
  lemma {:induction false} RunKeeps(cfg: Config, s: State, run: seq<Action>)
    requires cfg.rules.Positive() && Inv(s)
    ensures Inv(Exec(cfg, s, run)) && RowsStep(s.rows, Exec(cfg, s, run).rows)
    decreases run
  {
    if run != [] {
      StepKeeps(cfg, s, run[0]);
      RunKeeps(cfg, Next(cfg, s, run[0]), run[1..]);
    }
  }

  /** Every reachable row has a next attempt exactly in FAILED_TEMP and never past its deadline; and where linkage.json
      exists, some row whose case id trims to the directory name is terminal. */
  lemma LinkageSafety(cfg: Config, run: seq<Action>)
    requires cfg.rules.Positive()
    ensures var s := Exec(cfg, INITIAL, run);
            && (forall dir: string :: C.KeyOf(dir, C.Linkage) in s.objects ==> Finished(s.rows, dir))
            && (forall id :: id in s.rows ==>
                  var r := s.rows[id];
                  && (r.nextAttemptAt.Some? <==> r.state == FailedTemp)
                  && (r.nextAttemptAt.Some? ==> r.nextAttemptAt.value <= r.deadlineAt)
                  && r.deadlineAt == r.firstAttemptAt + 60 * r.windowMinutes)
  {
    RunKeeps(cfg, INITIAL, run);
  }

  /** A crash forgets where the process stood and nothing else. */
  lemma CrashForgets(cfg: Config, s: State, p: nat)
    ensures var s' := Next(cfg, s, Crash(p));
            s'.At(p) == Idle && s'.rows == s.rows && s'.objects == s.objects && forall q: nat :: q != p ==> s'.At(q) == s.At(q)
  {
  }
}
