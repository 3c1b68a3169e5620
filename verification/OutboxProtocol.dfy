/** The durable outbox as a transition system: any number of writers and workers, every read and every guarded
    write a separate step, crashes, lost broker acknowledgements and an object store that others may alter. */
module OutboxProtocol {
  import opened Wrappers
  import opened Outbox
  import opened Publisher
  import opened CaseStore

  /** Where a process stands between two of its steps; `fallback` is where a failed write sends it. */
  datatype Local =
    | Idle
    | Holding(c: Confirmed)
    | Inserted(id: string)
    | Polled(row: Row)
    | Emitted(row: Row)
    | Failed(row: Row, failure: Failure)
    | Writing(id: string, next: Row, expected: set<Status>, fallback: Local)

  datatype State = State(objects: Objects, rows: Table, locals: map<nat, Local>, log: seq<Delivery>)
  {
    function At(p: nat): Local { if p in locals then locals[p] else Idle }
    function Move(p: nat, l: Local): State { this.(locals := locals[p := l]) }
  }

  const INITIAL := State(map[], map[], map[], [])

  datatype Action =
    | StoreCase(p: nat, file: CaseFile, faults: Faults)
    | InsertRow(p: nat, now: int, acked: bool)
    | BeginTransition(p: nat, now: int)
    | CommitTransition(p: nat, acked: bool)
    | Poll(p: nat, id: string, now: int)
    | Publish(p: nat, readable: bool, emit: Emit)
    | Crash(p: nat)
    | Tamper(key: string, body: Option<Bytes>)

  datatype Config = Config(boundary: Boundary, policy: Policy)

  /** The case, intent and error continuation of the transition a process is about to run. */
  function IntentOf(cfg: Config, l: Local): Option<(string, Intent, Local)> {
    match l
    case Inserted(id) => Some((id, ToReady, Idle))
    case Emitted(row) => Some((row.caseId, ToSent, Failed(row, Failure(Some("InvariantViolation"), "transition_to_sent failed"))))
    case Failed(row, failure) => Some((row.caseId, ToFailure(cfg.policy, failure), Idle))
    case _ => None
  }

  function Begin(rows: Table, id: string, intent: Intent, fallback: Local, now: int): Local {
    if id !in rows then fallback
    else match MakePlan(rows[id], intent, now)
      case Settled(_) => Idle
      case Refuse(_) => fallback
      case Write(next, expected) => Writing(id, next, expected, fallback)
  }

  function StoreStep(cfg: Config, s: State, p: nat, f: CaseFile, faults: Faults): State {
    var (objects, r) := PersistStage(cfg.boundary.codec, s.objects, f, faults);
    var key := ObjectKey(f.caseId, Triage);
    s.(objects := objects).Move(p, if f.TriageFile? && r.Ok? && key.Ok? then Holding(Confirmed(f.caseId, key.value, f.triageHash)) else Idle)
  }

  function PublishStep(cfg: Config, s: State, p: nat, row: Row, readable: bool, emit: Emit): State {
    match PrepareEvents(cfg.boundary, s.objects, row, readable)
    case Err(e) => s.Move(p, Failed(row, FailureOf(Err(e), emit)))
    case Ok(pub) =>
      s.(log := s.log + Deliver(pub, emit)).Move(p, if emit == Delivered then Emitted(row) else Failed(row, FailureOf(Ok(pub), emit)))
  }

  /** A commit whose reply is lost raises a dependency error, which the worker treats as a failed publish. */
  function LostReply(fallback: Local): Local {
    if fallback.Failed? then Failed(fallback.row, Failure(Some("CriticalDependencyError"), "outbox repository unavailable")) else fallback
  }

  /** One step of the system; an action whose process is not in the right place does nothing. */
  function Next(cfg: Config, s: State, a: Action): State {
    match a
    case StoreCase(p, f, faults) =>
      if s.At(p) == Idle && f.TriageFile? then StoreStep(cfg, s, p, f, faults) else s
    case InsertRow(p, now, acked) =>
      if s.At(p).Holding? then
        var (rows, r) := InsertPending(s.rows, s.At(p).c, now);
        s.(rows := rows).Move(p, if acked && r.Ok? then Inserted(s.At(p).c.caseId) else Idle)
      else s
    case BeginTransition(p, now) =>
      (match IntentOf(cfg, s.At(p))
       case None => s
       case Some((id, intent, fallback)) => s.Move(p, Begin(s.rows, id, intent, fallback, now)))
    case CommitTransition(p, acked) =>
      if s.At(p).Writing? then
        var w := s.At(p);
        var (rows, r) := WriteTransition(s.rows, w.id, w.next, w.expected);
        s.(rows := rows).Move(p, if !acked then LostReply(w.fallback) else if r.Ok? then Idle else w.fallback)
      else s
    case Poll(p, id, now) =>
      if s.At(p) == Idle && id in s.rows && Publishable(s.rows[id], now) then s.Move(p, Polled(s.rows[id])) else s
    case Publish(p, readable, emit) =>
      if s.At(p).Polled? then PublishStep(cfg, s, p, s.At(p).row, readable, emit) else s
    case Crash(p) => s.Move(p, Idle)
    case Tamper(key, body) => s.(objects := if body.Some? then s.objects[key := body.value] else s.objects - {key})
  }

  function Exec(cfg: Config, s: State, run: seq<Action>): State
    decreases run
  {
    if run == [] then s else Exec(cfg, Next(cfg, s, run[0]), run[1..])
  }

  // ---------------------------------------------------------------- what every step keeps

  /** Both messages of a pair for this case reached the broker. */
  predicate HasPublication(log: seq<Delivery>, id: string) {
    exists i :: 0 <= i < |log| && log[i].Whole() && log[i].pub.source.caseId == id
  }

  /** The publication was rendered from a hash-valid case file carrying the row's case_id and hash. */
  predicate Backed(cfg: Config, rows: Table, p: Publication) {
    && Genuine(cfg.boundary, p) && p.header.caseId == p.source.caseId
    && p.source.caseId in rows && rows[p.source.caseId].hash == p.source.triageHash
  }

  /** A row snapshot taken from the table earlier. */
  predicate Snapshot(rows: Table, r: Row) {
    r.caseId in rows && rows[r.caseId].SameIdentity(r)
  }

  predicate LocalOk(rows: Table, log: seq<Delivery>, l: Local) {
    match l
    case Idle => true
    case Holding(_) => true
    case Inserted(id) => id in rows
    case Polled(r) => Snapshot(rows, r)
    case Emitted(r) => Snapshot(rows, r) && HasPublication(log, r.caseId)
    case Failed(r, _) => Snapshot(rows, r)
    case Writing(id, next, expected, fallback) =>
      && id in rows && (forall a :: a in expected ==> Edge(a, next.status))
      && (next.status == Sent ==> HasPublication(log, id))
      && (fallback.Idle? || (fallback.Failed? && Snapshot(rows, fallback.row)))
  }

  predicate Inv(cfg: Config, s: State) {
    && WellKeyed(s.rows)
    && (forall p :: p in s.locals ==> LocalOk(s.rows, s.log, s.locals[p]))
    && (forall i :: 0 <= i < |s.log| ==> Backed(cfg, s.rows, s.log[i].pub))
    && (forall id :: id in s.rows && s.rows[id].status == Sent ==> HasPublication(s.log, id))
  }

  /** Rows are never removed, keep their identity, and either stay as they are or move along an edge. */
  predicate RowsStep(before: Table, after: Table) {
    forall id :: id in before ==>
      && id in after && after[id].SameIdentity(before[id])
      && (after[id] == before[id] || Edge(before[id].status, after[id].status))
  }

  lemma LocalOkMonotone(rows: Table, log: seq<Delivery>, rows': Table, log': seq<Delivery>, l: Local)
    requires LocalOk(rows, log, l) && RowsStep(rows, rows') && log <= log'
    ensures LocalOk(rows', log', l)
  {
    PublicationsStay(log, log');
  }

  lemma PublicationsStay(log: seq<Delivery>, log': seq<Delivery>)
    requires log <= log'
    ensures forall id :: HasPublication(log, id) ==> HasPublication(log', id)
  {
    forall id | HasPublication(log, id) ensures HasPublication(log', id) {
      var i :| 0 <= i < |log| && log[i].Whole() && log[i].pub.source.caseId == id;
      assert log'[i].Whole() && log'[i].pub.source.caseId == id;
    }
  }

  /** Assemble the invariant after a step of process p from what the step did. */
  lemma Reassemble(cfg: Config, s: State, s': State, p: nat)
    requires Inv(cfg, s) && WellKeyed(s'.rows) && RowsStep(s.rows, s'.rows) && s.log <= s'.log
    requires forall q :: q in s'.locals && q != p ==> q in s.locals && s'.locals[q] == s.locals[q]
    requires p in s'.locals ==> LocalOk(s'.rows, s'.log, s'.locals[p])
    requires forall i :: |s.log| <= i < |s'.log| ==> Backed(cfg, s'.rows, s'.log[i].pub)
    requires forall id :: id in s'.rows && s'.rows[id].status == Sent ==>
               (id in s.rows && s.rows[id].status == Sent) || HasPublication(s'.log, id)
    ensures Inv(cfg, s')
  {
    forall q | q in s'.locals && q != p ensures LocalOk(s'.rows, s'.log, s'.locals[q]) {
      LocalOkMonotone(s.rows, s.log, s'.rows, s'.log, s.locals[q]);
    }
    PublicationsStay(s.log, s'.log);
    forall i | 0 <= i < |s.log| ensures Backed(cfg, s'.rows, s'.log[i].pub) {
      assert s'.log[i] == s.log[i] && Backed(cfg, s.rows, s.log[i].pub);
    }
  }

  lemma InsertKeeps(cfg: Config, s: State, p: nat, now: int, acked: bool)
    requires Inv(cfg, s) && s.At(p).Holding?
    ensures var s' := Next(cfg, s, InsertRow(p, now, acked)); Inv(cfg, s') && RowsStep(s.rows, s'.rows)
  {
    var c := s.At(p).c;
    InsertEffect(s.rows, c, now);
    var (rows, r) := InsertPending(s.rows, c, now);
    InsertedKeeps(cfg, s, p, c, rows, if acked && r.Ok? then Inserted(c.caseId) else Idle);
  }

  lemma InsertEffect(rows: Table, c: Confirmed, now: int)
    ensures var (after, r) := InsertPending(rows, c, now);
            (r.Ok? ==> c.caseId in after) && (after == rows || (c.caseId !in rows && after == rows[c.caseId := PendingRow(c, now)]))
  {
  }

  lemma InsertedKeeps(cfg: Config, s: State, p: nat, c: Confirmed, rows: Table, l: Local)
    requires Inv(cfg, s) && (l.Idle? || (l == Inserted(c.caseId) && c.caseId in rows))
    requires rows == s.rows || (c.caseId !in s.rows && rows.Keys == s.rows.Keys + {c.caseId} && rows[c.caseId].caseId == c.caseId
                                && rows[c.caseId].status == PendingObject && forall id :: id in s.rows ==> rows[id] == s.rows[id])
    ensures Inv(cfg, s.(rows := rows).Move(p, l)) && RowsStep(s.rows, rows)
  {
    Reassemble(cfg, s, s.(rows := rows).Move(p, l), p);
  }

  lemma BeginKeeps(cfg: Config, s: State, p: nat, now: int)
    requires Inv(cfg, s)
    ensures var s' := Next(cfg, s, BeginTransition(p, now)); Inv(cfg, s') && s'.rows == s.rows
  {
    match IntentOf(cfg, s.At(p))
    case None =>
    case Some((id, intent, fallback)) =>
      var l := Begin(s.rows, id, intent, fallback, now);
      if id in s.rows { PlansFollowEdges(s.rows[id], intent, now); }
      assert LocalOk(s.rows, s.log, s.At(p));
      assert LocalOk(s.rows, s.log, fallback);
      assert LocalOk(s.rows, s.log, l);
      Reassemble(cfg, s, s.Move(p, l), p);
  }

  lemma CommitKeeps(cfg: Config, s: State, p: nat, acked: bool)
    requires Inv(cfg, s) && s.At(p).Writing?
    ensures var s' := Next(cfg, s, CommitTransition(p, acked)); Inv(cfg, s') && RowsStep(s.rows, s'.rows)
  {
    var w := s.At(p);
    assert LocalOk(s.rows, s.log, w);
    GuardedWriteEffect(s.rows, w.id, w.next, w.expected);
    var (rows, r) := WriteTransition(s.rows, w.id, w.next, w.expected);
    CommittedKeeps(cfg, s, p, rows, w.id, if !acked then LostReply(w.fallback) else if r.Ok? then Idle else w.fallback);
  }

  /** A row moved along an edge, to SENT only when it was published, and the process went idle or to its fallback. */
  lemma CommittedKeeps(cfg: Config, s: State, p: nat, rows: Table, id: string, l: Local)
    requires Inv(cfg, s) && LocalOk(s.rows, s.log, l) && id in s.rows
    requires rows == s.rows || (id in rows && rows == s.rows[id := rows[id]] && rows[id].SameIdentity(s.rows[id])
                                && Edge(s.rows[id].status, rows[id].status) && (rows[id].status == Sent ==> HasPublication(s.log, id)))
    ensures Inv(cfg, s.(rows := rows).Move(p, l)) && RowsStep(s.rows, rows)
  {
    var s' := s.(rows := rows).Move(p, l);
    assert RowsStep(s.rows, rows);
    LocalOkMonotone(s.rows, s.log, rows, s.log, l);
    Reassemble(cfg, s, s', p);
  }

  lemma PreparedIsBacked(cfg: Config, s: State, row: Row, readable: bool)
    requires cfg.boundary.codec.Lawful() && Snapshot(s.rows, row) && PrepareEvents(cfg.boundary, s.objects, row, readable).Ok?
    ensures var pub := PrepareEvents(cfg.boundary, s.objects, row, readable).value;
            Backed(cfg, s.rows, pub) && pub.source.caseId == row.caseId
  {
  }

  /** Appending a delivery of a backed publication and moving to a place that it justifies. */
  lemma LoggedKeeps(cfg: Config, s: State, p: nat, d: Delivery, l: Local)
    requires Inv(cfg, s) && Backed(cfg, s.rows, d.pub) && ((l.Emitted? && d.Whole()) || l.Failed?)
    requires Snapshot(s.rows, l.row) && l.row.caseId == d.pub.source.caseId
    ensures Inv(cfg, s.(log := s.log + [d]).Move(p, l))
  {
    var s' := s.(log := s.log + [d]).Move(p, l);
    assert s'.log[|s.log|] == d;
    Reassemble(cfg, s, s', p);
  }

  lemma MoveKeeps(cfg: Config, s: State, p: nat, l: Local)
    requires Inv(cfg, s) && LocalOk(s.rows, s.log, l)
    ensures Inv(cfg, s.Move(p, l))
  {
    Reassemble(cfg, s, s.Move(p, l), p);
  }

  lemma ObjectsKeep(cfg: Config, s: State, objects: Objects)
    requires Inv(cfg, s)
    ensures Inv(cfg, s.(objects := objects))
  {
  }

  lemma PublishKeeps(cfg: Config, s: State, p: nat, readable: bool, emit: Emit)
    requires cfg.boundary.codec.Lawful() && Inv(cfg, s) && s.At(p).Polled?
    ensures var s' := PublishStep(cfg, s, p, s.At(p).row, readable, emit); Inv(cfg, s') && s'.rows == s.rows && s.log <= s'.log
  {
    var row := s.At(p).row;
    assert LocalOk(s.rows, s.log, s.At(p));
    var prepared := PrepareEvents(cfg.boundary, s.objects, row, readable);
    if prepared.Ok? {
      PreparedIsBacked(cfg, s, row, readable);
      var l := if emit == Delivered then Emitted(row) else Failed(row, FailureOf(prepared, emit));
      var sent := Deliver(prepared.value, emit);
      if sent == [] {
        assert s.log + sent == s.log;
        MoveKeeps(cfg, s, p, l);
      } else {
        assert sent == [sent[0]];
        LoggedKeeps(cfg, s, p, sent[0], l);
      }
    } else {
      MoveKeeps(cfg, s, p, Failed(row, FailureOf(prepared, emit)));
    }
  }

  lemma StoreKeeps(cfg: Config, s: State, p: nat, f: CaseFile, faults: Faults)
    requires Inv(cfg, s)
    ensures var s' := StoreStep(cfg, s, p, f, faults); Inv(cfg, s') && s'.rows == s.rows && s'.log == s.log
  {
    var (objects, r) := PersistStage(cfg.boundary.codec, s.objects, f, faults);
    var key := ObjectKey(f.caseId, Triage);
    ObjectsKeep(cfg, s, objects);
    MoveKeeps(cfg, s.(objects := objects), p,
              if f.TriageFile? && r.Ok? && key.Ok? then Holding(Confirmed(f.caseId, key.value, f.triageHash)) else Idle);
  }

  lemma StepKeeps(cfg: Config, s: State, a: Action)
    requires cfg.boundary.codec.Lawful() && Inv(cfg, s)
    ensures Inv(cfg, Next(cfg, s, a)) && RowsStep(s.rows, Next(cfg, s, a).rows) && s.log <= Next(cfg, s, a).log
  {
    match a
    case StoreCase(p, f, faults) => if s.At(p) == Idle && f.TriageFile? { StoreKeeps(cfg, s, p, f, faults); }
    case InsertRow(p, now, acked) => if s.At(p).Holding? { InsertKeeps(cfg, s, p, now, acked); }
    case BeginTransition(p, now) => BeginKeeps(cfg, s, p, now);
    case CommitTransition(p, acked) => if s.At(p).Writing? { CommitKeeps(cfg, s, p, acked); }
    case Poll(p, id, now) => if id in s.rows { MoveKeeps(cfg, s, p, Polled(s.rows[id])); }
    case Publish(p, readable, emit) => if s.At(p).Polled? { PublishKeeps(cfg, s, p, readable, emit); }
    case Crash(p) => MoveKeeps(cfg, s, p, Idle);
    case Tamper(key, body) => ObjectsKeep(cfg, s, Next(cfg, s, a).objects);
  }

  lemma {:induction false} RunKeeps(cfg: Config, s: State, run: seq<Action>)
    requires cfg.boundary.codec.Lawful() && Inv(cfg, s)
    ensures Inv(cfg, Exec(cfg, s, run)) && s.log <= Exec(cfg, s, run).log
    decreases run
  {
    if run != [] {
      StepKeeps(cfg, s, run[0]);
      RunKeeps(cfg, Next(cfg, s, run[0]), run[1..]);
    }
  }

  // ---------------------------------------------------------------- Invariant A

  lemma {:induction false} ExecAppend(cfg: Config, s: State, run: seq<Action>, a: Action)
    ensures Exec(cfg, s, run + [a]) == Next(cfg, Exec(cfg, s, run), a)
    decreases run
  {
    if run == [] {
      assert (run + [a])[1..] == [];
    } else {
      assert (run + [a])[1..] == run[1..] + [a];
      ExecAppend(cfg, Next(cfg, s, run[0]), run[1..], a);
    }
  }

  /** The pair is what the publisher makes of the bytes stored, at that moment, under the path of the case's row. */
  predicate RenderedFrom(cfg: Config, objects: Objects, row: Row, pub: Publication) {
    && PrepareEvents(cfg.boundary, objects, row, true) == Ok(pub) && pub.source.caseId == row.caseId
    && row.path in objects && cfg.boundary.codec.Validate(Triage, objects[row.path]) == Some(pub.source)
  }

  /** At some moment of the run the bucket held the case file of the pair under the path of the row as it is now. */
  ghost predicate WasStored(cfg: Config, run: seq<Action>, rows: Table, pub: Publication) {
    exists n: nat, row: Row :: n < |run| && Snapshot(rows, row) && RenderedFrom(cfg, Exec(cfg, INITIAL, run[..n]).objects, row, pub)
  }

  /** What one step adds to the log was rendered from the bucket as the step found it, for a row of the table. */
  lemma StepRenders(cfg: Config, s: State, a: Action, i: nat)
    requires cfg.boundary.codec.Lawful() && Inv(cfg, s) && |s.log| <= i < |Next(cfg, s, a).log|
    ensures exists row: Row :: Snapshot(Next(cfg, s, a).rows, row) && RenderedFrom(cfg, s.objects, row, Next(cfg, s, a).log[i].pub)
  {
    var row := s.At(a.p).row;
    assert LocalOk(s.rows, s.log, s.At(a.p));
    assert RenderedFrom(cfg, s.objects, row, Next(cfg, s, a).log[i].pub);
  }

  lemma SnapshotStays(before: Table, after: Table, row: Row)
    requires RowsStep(before, after) && Snapshot(before, row)
    ensures Snapshot(after, row)
  {
  }

  lemma {:induction false} AllWereStored(cfg: Config, run: seq<Action>, i: nat)
    requires cfg.boundary.codec.Lawful() && i < |Exec(cfg, INITIAL, run).log|
    ensures WasStored(cfg, run, Exec(cfg, INITIAL, run).rows, Exec(cfg, INITIAL, run).log[i].pub)
    decreases |run|
  {
    if run == [] { return; }
    var init, a := run[..|run| - 1], run[|run| - 1];
    assert run == init + [a];
    ExecAppend(cfg, INITIAL, init, a);
    RunKeeps(cfg, INITIAL, init);
    var s := Exec(cfg, INITIAL, init);
    var s' := Next(cfg, s, a);
    StepKeeps(cfg, s, a);
    if i < |s.log| {
      AllWereStored(cfg, init, i);
      StoredBefore(cfg, init, a, s.rows, s'.rows, s.log[i].pub);
    } else {
      StepRenders(cfg, s, a, i);
      StoredNow(cfg, init, a, s'.rows, s'.log[i].pub);
    }
  }

  lemma StoredBefore(cfg: Config, init: seq<Action>, a: Action, rows: Table, after: Table, pub: Publication)
    requires WasStored(cfg, init, rows, pub) && RowsStep(rows, after)
    ensures WasStored(cfg, init + [a], after, pub)
  {
    var n: nat, row: Row :| n < |init| && Snapshot(rows, row) && RenderedFrom(cfg, Exec(cfg, INITIAL, init[..n]).objects, row, pub);
    assert init[..n] == (init + [a])[..n];
    SnapshotStays(rows, after, row);
  }

  lemma StoredNow(cfg: Config, init: seq<Action>, a: Action, rows: Table, pub: Publication)
    requires exists row: Row :: Snapshot(rows, row) && RenderedFrom(cfg, Exec(cfg, INITIAL, init).objects, row, pub)
    ensures WasStored(cfg, init + [a], rows, pub)
  {
    assert (init + [a])[..|init|] == init;
  }

  /** Over every interleaving, with crashes, lost replies, half-delivered pairs and a tampered bucket: each published
      message was rendered from bytes that were stored, when it was published, under the path of the case's row and
      that validated as a case file with the row's case_id and hash; its fields are the file's fields of the same name;
      and a SENT row had both messages delivered. */
  lemma InvariantA(cfg: Config, run: seq<Action>)
    requires cfg.boundary.codec.Lawful()
    ensures var s := Exec(cfg, INITIAL, run);
            && (forall i :: 0 <= i < |s.log| ==>
                  Backed(cfg, s.rows, s.log[i].pub) && WasStored(cfg, run, s.rows, s.log[i].pub) && Says(cfg.boundary, s.log[i].pub))
            && (forall id :: id in s.rows && s.rows[id].status == Sent ==> HasPublication(s.log, id))
  {
    RunKeeps(cfg, INITIAL, run);
    var s := Exec(cfg, INITIAL, run);
    forall i | 0 <= i < |s.log| ensures WasStored(cfg, run, s.rows, s.log[i].pub) && Says(cfg.boundary, s.log[i].pub) {
      AllWereStored(cfg, run, i);
      assert Backed(cfg, s.rows, s.log[i].pub);
      GenuineSays(cfg.boundary, s.log[i].pub);
    }
  }

  /** At-least-once duplicates are harmless: two publications of one case are the same message, or the run has
      produced a SHA-256 collision between two different case files. */
  lemma DuplicatesAreIdentical(cfg: Config, run: seq<Action>, i: nat, j: nat)
    requires cfg.boundary.codec.Lawful()
    requires var log := Exec(cfg, INITIAL, run).log;
             i < |log| && j < |log| && log[i].pub.source.caseId == log[j].pub.source.caseId
    ensures var log, c := Exec(cfg, INITIAL, run).log, cfg.boundary.codec;
            || log[i].pub == log[j].pub
            || (c.CanonicalBytes(log[i].pub.source) != c.CanonicalBytes(log[j].pub.source)
                && c.sha256(c.CanonicalBytes(log[i].pub.source)) == c.sha256(c.CanonicalBytes(log[j].pub.source)))
  {
    RunKeeps(cfg, INITIAL, run);
    var s := Exec(cfg, INITIAL, run);
    assert Backed(cfg, s.rows, s.log[i].pub) && Backed(cfg, s.rows, s.log[j].pub);
    SameHashSameMessage(cfg.boundary, s.log[i].pub, s.log[j].pub);
  }

  lemma {:induction false} CollisionFreeDuplicates(cfg: Config, run: seq<Action>, i: nat, j: nat)
    requires cfg.boundary.codec.Lawful()
    requires forall a: Bytes, b: Bytes :: cfg.boundary.codec.sha256(a) == cfg.boundary.codec.sha256(b) ==> a == b
    requires var log := Exec(cfg, INITIAL, run).log;
             i < |log| && j < |log| && log[i].pub.source.caseId == log[j].pub.source.caseId
    ensures var log := Exec(cfg, INITIAL, run).log; log[i].pub == log[j].pub
  {
    DuplicatesAreIdentical(cfg, run, i, j);
  }

  // ---------------------------------------------------------------- row identity and status history

  /** From any reachable state on, a row keeps its case_id, path, hash and creation time; SENT and DEAD rows are frozen. */
  lemma {:induction false} RowsPersist(cfg: Config, s: State, run: seq<Action>, id: string)
    requires cfg.boundary.codec.Lawful() && Inv(cfg, s) && id in s.rows
    ensures var s' := Exec(cfg, s, run);
            && id in s'.rows && s'.rows[id].SameIdentity(s.rows[id])
            && (s.rows[id].status in {Sent, Dead} ==> s'.rows[id] == s.rows[id])
    decreases run
  {
    if run != [] {
      StepKeeps(cfg, s, run[0]);
      RowStays(s.rows, Next(cfg, s, run[0]).rows, id);
      RowsPersist(cfg, Next(cfg, s, run[0]), run[1..], id);
    }
  }

  lemma RowStays(before: Table, after: Table, id: string)
    requires RowsStep(before, after) && id in before
    ensures id in after && after[id].SameIdentity(before[id]) && (before[id].status in {Sent, Dead} ==> after[id] == before[id])
  {
  }

  /** Statuses a case's row takes during a run, one entry per write that created or changed it. */
  function History(cfg: Config, s: State, run: seq<Action>, id: string): seq<Status>
    decreases run
  {
    if run == [] then []
    else
      var s' := Next(cfg, s, run[0]);
      var written := id in s'.rows && (id !in s.rows || s'.rows[id] != s.rows[id]);
      (if written then [s'.rows[id].status] else []) + History(cfg, s', run[1..], id)
  }

  predicate IsPath(h: seq<Status>) {
    forall i :: 0 <= i < |h| - 1 ==> Edge(h[i], h[i + 1])
  }

  lemma CreationIsPending(cfg: Config, s: State, a: Action, id: string)
    requires Inv(cfg, s) && id !in s.rows && id in Next(cfg, s, a).rows
    ensures Next(cfg, s, a).rows[id].status == PendingObject
  {
    match a
    case InsertRow(p, now, acked) => if s.At(p).Holding? { InsertEffect(s.rows, s.At(p).c, now); }
    case BeginTransition(p, now) => BeginKeeps(cfg, s, p, now);
    case _ =>
  }

  lemma PathCons(first: Status, tail: seq<Status>)
    requires IsPath(tail) && (tail != [] ==> Edge(first, tail[0]))
    ensures IsPath([first] + tail)
  {
    var h := [first] + tail;
    forall i | 0 <= i < |h| - 1 ensures Edge(h[i], h[i + 1]) {
      if i > 0 { assert Edge(tail[i - 1], tail[i - 1 + 1]); }
    }
  }

  function StatusOf(rows: Table, id: string): seq<Status> {
    if id in rows then [rows[id].status] else []
  }

  lemma HistoryStep(before: Table, after: Table, id: string, rest: seq<Status>)
    requires RowsStep(before, after) && IsPath(StatusOf(after, id) + rest)
    requires id !in before && id in after ==> after[id].status == PendingObject
    requires id !in after && rest != [] ==> rest[0] == PendingObject
    ensures var written := id in after && (id !in before || after[id] != before[id]);
            var h := (if written then [after[id].status] else []) + rest;
            IsPath(StatusOf(before, id) + h) && (id !in before && h != [] ==> h[0] == PendingObject)
  {
    assert [] + rest == rest;
    if id in before && after[id] != before[id] {
      PathCons(before[id].status, [after[id].status] + rest);
    } else if id !in before && id in after {
      assert [] + ([after[id].status] + rest) == [after[id].status] + rest;
    }
  }

  lemma {:induction false} HistoryIsPath(cfg: Config, s: State, run: seq<Action>, id: string)
    requires cfg.boundary.codec.Lawful() && Inv(cfg, s)
    ensures IsPath(StatusOf(s.rows, id) + History(cfg, s, run, id))
    ensures var h := History(cfg, s, run, id); id !in s.rows && h != [] ==> h[0] == PendingObject
    decreases run
  {
    if run != [] {
      var s' := Next(cfg, s, run[0]);
      StepKeeps(cfg, s, run[0]);
      HistoryIsPath(cfg, s', run[1..], id);
      if id !in s.rows && id in s'.rows { CreationIsPending(cfg, s, run[0], id); }
      HistoryStep(s.rows, s'.rows, id, History(cfg, s', run[1..], id));
    }
  }

  function Repeat(n: nat): seq<Status> { seq(n, _ => Retry) }

  /** A prefix of PENDING_OBJECT, READY, RETRY*, then SENT or DEAD. */
  ghost predicate Lifecycle(h: seq<Status>) {
    exists n: nat, last: Status :: last in {Sent, Dead} && h <= [PendingObject, Ready] + Repeat(n) + [last]
  }

  lemma PathShape(h: seq<Status>)
    requires IsPath(h) && (h != [] ==> h[0] == PendingObject)
    ensures Lifecycle(h)
  {
    var n: nat := if |h| <= 2 then 0 else |h| - 2;
    assert |h| >= 2 ==> Edge(h[0], h[0 + 1]);
    RetriesUntilLast(h, if |h| >= 1 then |h| - 1 else 0);
    if |h| > 2 && h[|h| - 1] in {Sent, Dead} {
      assert h == [PendingObject, Ready] + Repeat(|h| - 3) + [h[|h| - 1]];
    } else {
      assert |h| > 2 ==> Edge(h[|h| - 2], h[|h| - 2 + 1]);
      assert h <= [PendingObject, Ready] + Repeat(n) + [Sent];
    }
  }

  lemma {:induction false} RetriesUntilLast(h: seq<Status>, k: nat)
    requires IsPath(h) && (h != [] ==> h[0] == PendingObject) && k <= |h|
    ensures forall i :: 2 <= i < k && i < |h| - 1 ==> h[i] == Retry
  {
    if k > 0 {
      RetriesUntilLast(h, k - 1);
      if 2 < k < |h| {
        assert Edge(h[k - 2], h[k - 2 + 1]) && Edge(h[k - 1], h[k - 1 + 1]) && Edge(h[0], h[0 + 1]);
      }
    }
  }

  /** Under full interleaving every row's status history is a path of PENDING_OBJECT, READY, RETRY*, SENT or DEAD. */
  lemma StatusHistory(cfg: Config, run: seq<Action>, id: string)
    requires cfg.boundary.codec.Lawful()
    ensures Lifecycle(History(cfg, INITIAL, run, id))
  {
    HistoryIsPath(cfg, INITIAL, run, id);
    assert [] + History(cfg, INITIAL, run, id) == History(cfg, INITIAL, run, id);
    PathShape(History(cfg, INITIAL, run, id));
  }

  // ---------------------------------------------------------------- durability without tampering

  /** The object a row or a confirmed write points at is stored and reads back as the case file it names. */
  predicate Durable(cfg: Config, objects: Objects, id: string, path: string, hash: string) {
    && path in objects
    && var v := cfg.boundary.codec.Validate(Triage, objects[path]);
       v.Some? && v.value.TriageFile? && v.value.caseId == id && v.value.triageHash == hash
  }

  predicate AllDurable(cfg: Config, s: State) {
    && (forall id :: id in s.rows ==> Durable(cfg, s.objects, id, s.rows[id].path, s.rows[id].hash))
    && (forall p :: p in s.locals && s.locals[p].Holding? ==>
          Durable(cfg, s.objects, s.locals[p].c.caseId, s.locals[p].c.path, s.locals[p].c.hash))
  }

  predicate Grows(a: Objects, b: Objects) {
    forall k :: k in a ==> k in b && b[k] == a[k]
  }

  lemma StoreDurable(cfg: Config, s: State, p: nat, f: CaseFile, faults: Faults)
    requires cfg.boundary.codec.Lawful() && f.TriageFile? && AllDurable(cfg, s)
    ensures AllDurable(cfg, StoreStep(cfg, s, p, f, faults))
  {
    var c := cfg.boundary.codec;
    var (objects, r) := PersistStage(c, s.objects, f, faults);
    PersistCreatesConfirmsOrFails(c, s.objects, f, faults);
    var key := ObjectKey(f.caseId, Triage);
    var l := if f.TriageFile? && r.Ok? && key.Ok? then Holding(Confirmed(f.caseId, key.value, f.triageHash)) else Idle;
    if l.Holding? {
      assert objects[key.value] == c.serialize(f);
      StoredIsDurable(cfg, objects, f, key.value);
    }
    Persists(cfg, s, s.(objects := objects).Move(p, l), p);
  }

  /** A file whose persist was acknowledged reads back as itself. */
  lemma StoredIsDurable(cfg: Config, objects: Objects, f: CaseFile, key: string)
    requires cfg.boundary.codec.Lawful() && f.TriageFile? && key in objects && objects[key] == cfg.boundary.codec.serialize(f)
    requires cfg.boundary.codec.HasValidHash(f)
    ensures Durable(cfg, objects, f.caseId, key, f.triageHash)
  {
    var c := cfg.boundary.codec;
    assert c.parse(f.GetStage(), c.serialize(f)) == Some(f);
  }

  /** Durability carries over to a store that only grew, for rows and locals that were there before. */
  lemma Persists(cfg: Config, s: State, s': State, p: nat)
    requires AllDurable(cfg, s) && Grows(s.objects, s'.objects)
    requires forall id :: id in s'.rows ==> id in s.rows && s'.rows[id].path == s.rows[id].path && s'.rows[id].hash == s.rows[id].hash
    requires forall q :: q in s'.locals && q != p ==> q in s.locals && s'.locals[q] == s.locals[q]
    requires p in s'.locals && s'.locals[p].Holding? ==>
               Durable(cfg, s'.objects, s'.locals[p].c.caseId, s'.locals[p].c.path, s'.locals[p].c.hash)
    ensures AllDurable(cfg, s')
  {
    forall id | id in s'.rows ensures Durable(cfg, s'.objects, id, s'.rows[id].path, s'.rows[id].hash) {
      assert Durable(cfg, s.objects, id, s.rows[id].path, s.rows[id].hash);
    }
    forall q | q in s'.locals && q != p && s'.locals[q].Holding?
      ensures Durable(cfg, s'.objects, s'.locals[q].c.caseId, s'.locals[q].c.path, s'.locals[q].c.hash)
    {
      assert Durable(cfg, s.objects, s.locals[q].c.caseId, s.locals[q].c.path, s.locals[q].c.hash);
    }
  }

  /** While only the writers touch the bucket, every row points at a stored, hash-valid triage file for its case,
      so a publish can fail only on a read fault, a denylist that breaks the excerpt, or the broker. */
  lemma {:induction false} RowsAreDurable(cfg: Config, s: State, run: seq<Action>)
    requires cfg.boundary.codec.Lawful() && Inv(cfg, s) && AllDurable(cfg, s)
    requires forall i :: 0 <= i < |run| ==> !run[i].Tamper?
    ensures AllDurable(cfg, Exec(cfg, s, run))
    decreases run
  {
    if run != [] {
      var s' := Next(cfg, s, run[0]);
      StepKeeps(cfg, s, run[0]);
      StepDurable(cfg, s, run[0]);
      RowsAreDurable(cfg, s', run[1..]);
    }
  }

  lemma InsertDurable(cfg: Config, s: State, p: nat, now: int, acked: bool)
    requires AllDurable(cfg, s) && s.At(p).Holding?
    ensures AllDurable(cfg, Next(cfg, s, InsertRow(p, now, acked)))
  {
    var c := s.At(p).c;
    InsertEffect(s.rows, c, now);
    assert Durable(cfg, s.objects, c.caseId, c.path, c.hash);
    var (rows, r) := InsertPending(s.rows, c, now);
    RowsDurable(cfg, s, rows);
    MoveDurable(cfg, s.(rows := rows), p, if acked && r.Ok? then Inserted(c.caseId) else Idle);
  }

  lemma RowsDurable(cfg: Config, s: State, rows: Table)
    requires AllDurable(cfg, s) && forall id :: id in rows ==> Durable(cfg, s.objects, id, rows[id].path, rows[id].hash)
    ensures AllDurable(cfg, s.(rows := rows))
  {
  }

  lemma SameObjectDurable(cfg: Config, s: State, rows: Table, id: string)
    requires AllDurable(cfg, s) && id in s.rows
    requires rows == s.rows || (id in rows && rows == s.rows[id := rows[id]] && rows[id].SameIdentity(s.rows[id]))
    ensures AllDurable(cfg, s.(rows := rows))
  {
    assert Durable(cfg, s.objects, id, s.rows[id].path, s.rows[id].hash);
    RowsDurable(cfg, s, rows);
  }

  lemma CommitDurable(cfg: Config, s: State, p: nat, acked: bool)
    requires Inv(cfg, s) && AllDurable(cfg, s) && s.At(p).Writing?
    ensures AllDurable(cfg, Next(cfg, s, CommitTransition(p, acked)))
  {
    var w := s.At(p);
    assert LocalOk(s.rows, s.log, w);
    GuardedWriteEffect(s.rows, w.id, w.next, w.expected);
    var (rows, r) := WriteTransition(s.rows, w.id, w.next, w.expected);
    SameObjectDurable(cfg, s, rows, w.id);
    MoveDurable(cfg, s.(rows := rows), p, if !acked then LostReply(w.fallback) else if r.Ok? then Idle else w.fallback);
  }

  lemma BeginDurable(cfg: Config, s: State, p: nat, now: int)
    requires AllDurable(cfg, s)
    ensures AllDurable(cfg, Next(cfg, s, BeginTransition(p, now)))
  {
    match IntentOf(cfg, s.At(p))
    case None =>
    case Some((id, intent, fallback)) => Persists(cfg, s, s.Move(p, Begin(s.rows, id, intent, fallback, now)), p);
  }

  lemma MoveDurable(cfg: Config, s: State, p: nat, l: Local)
    requires AllDurable(cfg, s) && !l.Holding?
    ensures AllDurable(cfg, s.Move(p, l))
  {
    Persists(cfg, s, s.Move(p, l), p);
  }

  lemma PublishDurable(cfg: Config, s: State, p: nat, row: Row, readable: bool, emit: Emit)
    requires AllDurable(cfg, s)
    ensures AllDurable(cfg, PublishStep(cfg, s, p, row, readable, emit))
  {
    match PrepareEvents(cfg.boundary, s.objects, row, readable)
    case Err(e) => MoveDurable(cfg, s, p, Failed(row, FailureOf(Err(e), emit)));
    case Ok(pub) =>
      MoveDurable(cfg, s.(log := s.log + Deliver(pub, emit)), p, if emit == Delivered then Emitted(row) else Failed(row, FailureOf(Ok(pub), emit)));
  }

  lemma StepDurable(cfg: Config, s: State, a: Action)
    requires cfg.boundary.codec.Lawful() && Inv(cfg, s) && AllDurable(cfg, s) && !a.Tamper?
    ensures AllDurable(cfg, Next(cfg, s, a))
  {
    match a
    case StoreCase(p, f, faults) => if s.At(p) == Idle && f.TriageFile? { StoreDurable(cfg, s, p, f, faults); }
    case InsertRow(p, now, acked) => if s.At(p).Holding? { InsertDurable(cfg, s, p, now, acked); }
    case CommitTransition(p, acked) => if s.At(p).Writing? { CommitDurable(cfg, s, p, acked); }
    case BeginTransition(p, now) => BeginDurable(cfg, s, p, now);
    case Publish(p, readable, emit) => if s.At(p).Polled? { PublishDurable(cfg, s, p, s.At(p).row, readable, emit); }
    case Poll(p, id, now) => if id in s.rows { MoveDurable(cfg, s, p, Polled(s.rows[id])); }
    case Crash(p) => MoveDurable(cfg, s, p, Idle);
    case Tamper(_, _) =>
  }

  lemma DurableFromStart(cfg: Config, run: seq<Action>, id: string)
    requires cfg.boundary.codec.Lawful() && forall i :: 0 <= i < |run| ==> !run[i].Tamper?
    requires id in Exec(cfg, INITIAL, run).rows
    ensures var s := Exec(cfg, INITIAL, run); Readback(cfg.boundary, s.objects, s.rows[id], true).Ok?
  {
    RowsAreDurable(cfg, INITIAL, run);
    RunKeeps(cfg, INITIAL, run);
  }

  // ---------------------------------------------------------------- what the protocol is for

  /** A crash forgets where the process stood and nothing else. */
  lemma CrashForgets(cfg: Config, s: State, p: nat)
    ensures var s' := Next(cfg, s, Crash(p));
            s'.At(p) == Idle && s'.rows == s.rows && s'.objects == s.objects && s'.log == s.log && forall q: nat :: q != p ==> s'.At(q) == s.At(q)
  {
  }

  /** A process that begins and commits with nobody in between runs the repository's transaction. */
  lemma UninterruptedTransition(cfg: Config, s: State, p: nat, now: int)
    requires IntentOf(cfg, s.At(p)).Some?
    ensures var (id, intent, fallback) := IntentOf(cfg, s.At(p)).value;
            Next(cfg, Next(cfg, s, BeginTransition(p, now)), CommitTransition(p, true)).rows == Transition(s.rows, id, intent, now).0
  {
  }

  /** What each process is about to ask for: a new row to be READY, a delivered one SENT, a failed one RETRY or DEAD. */
  lemma IntentsMatchPlaces(cfg: Config, id: string, row: Row, failure: Failure)
    ensures IntentOf(cfg, Inserted(id)).Some? && IntentOf(cfg, Inserted(id)).value.0 == id && IntentOf(cfg, Inserted(id)).value.1 == ToReady
    ensures IntentOf(cfg, Emitted(row)).Some? && IntentOf(cfg, Emitted(row)).value.0 == row.caseId && IntentOf(cfg, Emitted(row)).value.1 == ToSent
    ensures IntentOf(cfg, Failed(row, failure)).Some? && IntentOf(cfg, Failed(row, failure)).value.0 == row.caseId
            && IntentOf(cfg, Failed(row, failure)).value.1 == ToFailure(cfg.policy, failure)
  {
  }

  /** A writer alone brings a confirmed case to READY, where every worker may take it at once. */
  lemma ConfirmedBecomesReady(cfg: Config, s: State, p: nat, now: int)
    requires s.At(p).Holding? && s.At(p).c.caseId !in s.rows
    ensures var c := s.At(p).c;
            var s' := Next(cfg, Next(cfg, Next(cfg, s, InsertRow(p, now, true)), BeginTransition(p, now)), CommitTransition(p, true));
            && c.caseId in s'.rows && s'.rows[c.caseId].status == Ready && s'.rows[c.caseId].path == c.path && s'.rows[c.caseId].hash == c.hash
            && Publishable(s'.rows[c.caseId], now)
  {
    var c := s.At(p).c;
    InsertIff(s.rows, c, now);
    var s1 := Next(cfg, s, InsertRow(p, now, true));
    assert s1.At(p) == Inserted(c.caseId);
    UninterruptedTransition(cfg, s1, p, now);
    TransitionsRecord(s1.rows[c.caseId], cfg.policy, Failure(None, ""), now);
  }

  /** A worker alone that takes a publishable row whose file it can read and whose broker call returns delivers the pair and
      leaves the row SENT. */
  lemma PublishableBecomesSent(cfg: Config, s: State, p: nat, id: string, now: int)
    requires WellKeyed(s.rows) && s.At(p) == Idle && id in s.rows && Publishable(s.rows[id], now)
    requires PrepareEvents(cfg.boundary, s.objects, s.rows[id], true).Ok?
    ensures var s2 := Next(cfg, Next(cfg, s, Poll(p, id, now)), Publish(p, true, Delivered));
            var s' := Next(cfg, Next(cfg, s2, BeginTransition(p, now)), CommitTransition(p, true));
            && id in s'.rows && s'.rows[id].status == Sent && s'.rows[id].attempts == s.rows[id].attempts + 1
            && s'.log == s.log + [Delivery(PrepareEvents(cfg.boundary, s.objects, s.rows[id], true).value, true, true)]
  {
    var row, pub := s.rows[id], PrepareEvents(cfg.boundary, s.objects, s.rows[id], true).value;
    TakenAndDelivered(cfg, s, p, id, now);
    var s2 := s.(log := s.log + [Delivery(pub, true, true)]).Move(p, Emitted(row));
    SentAfterDelivery(cfg, s2, p, now);
  }

  lemma TakenAndDelivered(cfg: Config, s: State, p: nat, id: string, now: int)
    requires s.At(p) == Idle && id in s.rows && Publishable(s.rows[id], now) && PrepareEvents(cfg.boundary, s.objects, s.rows[id], true).Ok?
    ensures Next(cfg, Next(cfg, s, Poll(p, id, now)), Publish(p, true, Delivered)) ==
            s.(log := s.log + [Delivery(PrepareEvents(cfg.boundary, s.objects, s.rows[id], true).value, true, true)]).Move(p, Emitted(s.rows[id]))
  {
    var row := s.rows[id];
    var s1 := Next(cfg, s, Poll(p, id, now));
    assert s1 == s.Move(p, Polled(row)) && s1.At(p) == Polled(row);
    assert Next(cfg, s1, Publish(p, true, Delivered)) == PublishStep(cfg, s1, p, row, true, Delivered);
    assert s1.locals[p := Emitted(row)] == s.locals[p := Emitted(row)];
  }

  lemma SentAfterDelivery(cfg: Config, s: State, p: nat, now: int)
    requires s.At(p).Emitted? && s.At(p).row.caseId in s.rows && s.rows[s.At(p).row.caseId] == s.At(p).row
    requires s.At(p).row.status == Ready || s.At(p).row.status == Retry
    ensures var row := s.At(p).row;
            var s' := Next(cfg, Next(cfg, s, BeginTransition(p, now)), CommitTransition(p, true));
            row.caseId in s'.rows && s'.rows[row.caseId].status == Sent && s'.rows[row.caseId].attempts == row.attempts + 1 && s'.log == s.log
  {
    UninterruptedTransition(cfg, s, p, now);
    TransitionsRecord(s.At(p).row, cfg.policy, Failure(None, ""), now);
  }

  /** After a delivered pair the process is done exactly when the row is SENT and it knows: a row that cannot become SENT, and
      a commit whose reply is lost, send it to record a failure instead. */
  lemma SentOrRecordedAsFailure(cfg: Config, s: State, p: nat, now: int, acked: bool)
    requires s.At(p).Emitted? && s.At(p).row.caseId in s.rows
    ensures var row := s.At(p).row;
            var s1 := Next(cfg, s, BeginTransition(p, now));
            var s2 := Next(cfg, s1, CommitTransition(p, acked));
            var status := s.rows[row.caseId].status;
            && (status == Sent ==> s2.At(p) == Idle && s2.rows == s.rows)
            && (status == PendingObject || status == Dead ==> s2.At(p).Failed? && s2.At(p).row == row && s2.rows == s.rows)
            && (status == Ready || status == Retry ==>
                  && s2.rows[row.caseId].status == Sent
                  && (if acked then s2.At(p) == Idle
                      else s2.At(p).Failed? && s2.At(p).row == row && s2.At(p).failure.code == Some("CriticalDependencyError")))
  {
    var row := s.At(p).row;
    TransitionsRecord(s.rows[row.caseId], cfg.policy, Failure(None, ""), now);
  }
}
