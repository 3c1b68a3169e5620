/** When linkage.json tells the state of one retry row: rows are keyed by the raw case id, objects by the trimmed one
    (linkage/repository.py, storage/casefile_io.py). */
module LinkageArtifacts {
  import opened Wrappers
  import opened Text
  import opened Linkage
  import opened LinkageProtocol
  import C = CaseStore

  /** The run names only these case ids. */
  predicate UsesOnly(run: seq<Action>, ids: set<string>) {
    forall i :: 0 <= i < |run| && run[i].Fetch? ==> run[i].args.caseId in ids
  }

  /** Row by row: where its linkage.json exists, the row itself is terminal. */
  predicate PerRow(s: State) {
    forall id :: id in s.rows && C.KeyOf(Strip(id), C.Linkage) in s.objects ==> s.rows[id].Terminal()
  }

  /** No two of the ids trim to the same non-empty text. */
  predicate Distinguishable(ids: set<string>) {
    forall a, b :: a in ids && b in ids && Strip(a) == Strip(b) && Strip(a) != "" ==> a == b
  }

  lemma StepKeys(cfg: Config, s: State, a: Action)
    requires cfg.rules.Positive() && Inv(s)
    ensures forall id :: id in Next(cfg, s, a).rows ==> id in s.rows || (a.Fetch? && id == a.args.caseId)
  {
    match a
    case Fetch(p, args, now, acked) => GetOrCreateEffect(s.rows, args.caseId, args.pd, args.incident, args.window, now);
    case StartSearch(p, now, acked) =>
      if s.At(p).Fetched? {
        assert LocalOk(s.rows, s.At(p));
        SearchingScheduled(s.At(p).rec, now);
        PersistEffect(s.rows, s.At(p).rec.caseId, MarkSearching(s.At(p).rec, now).value, {s.At(p).rec.state});
      }
    case RecordAnswer(p, now, acked) =>
      if s.At(p).Answered? {
        assert LocalOk(s.rows, s.At(p));
        DecideScheduled(cfg.rules, s.At(p).rec, s.At(p).answer, now);
        PersistEffect(s.rows, s.At(p).rec.caseId, Decide(cfg.rules, s.At(p).rec, s.At(p).answer, now).value, {Searching});
      }
    case _ =>
  }

  lemma {:induction false} RowsFromRun(cfg: Config, s: State, run: seq<Action>, ids: set<string>)
    requires cfg.rules.Positive() && Inv(s) && UsesOnly(run, ids) && s.rows.Keys <= ids
    ensures Exec(cfg, s, run).rows.Keys <= ids
    decreases run
  {
    if run != [] {
      StepKeeps(cfg, s, run[0]);
      StepKeys(cfg, s, run[0]);
      assert UsesOnly(run[1..], ids);
      RowsFromRun(cfg, Next(cfg, s, run[0]), run[1..], ids);
    }
  }

  lemma DistinguishableIsEnough(cfg: Config, run: seq<Action>, ids: set<string>)
    requires cfg.rules.Positive() && UsesOnly(run, ids) && Distinguishable(ids)
    ensures PerRow(Exec(cfg, INITIAL, run))
  {
    RunKeeps(cfg, INITIAL, run);
    RowsFromRun(cfg, INITIAL, run, ids);
    var s := Exec(cfg, INITIAL, run);
    forall id | id in s.rows && C.KeyOf(Strip(id), C.Linkage) in s.objects ensures s.rows[id].Terminal() {
      assert Finished(s.rows, Strip(id));
      var other :| other in s.rows && Strip(other) == Strip(id) && s.rows[other].Terminal();
      assert other == id;
    }
  }

  // ---------------------------------------------------------------- two rows, one object

  const CONTENT := C.TriageContent("", "", "", "", "", "", "", "", "", false, None, map[], [], 0, "")

  /** A hash-valid triage file of the case. */
  function Triage(c: C.Codec, id: string): C.CaseFile {
    C.TriageFile(id, CONTENT, c.ComputeHash(C.TriageFile(id, CONTENT, C.HASH_PLACEHOLDER)))
  }

  function LinkagePlaceholder(c: C.Codec, id: string): C.CaseFile {
    C.LinkageFile(id, "linked", "linked", None, None, None, [], [], c.ComputeHash(Triage(c, id)), None, C.HASH_PLACEHOLDER)
  }

  /** A hash-valid linkage file that names it. */
  function LinkageOf(c: C.Codec, id: string): C.CaseFile {
    LinkagePlaceholder(c, id).WithOwnHash(c.ComputeHash(LinkagePlaceholder(c, id)))
  }

  lemma FilesValid(c: C.Codec, id: string)
    ensures c.HasValidHash(Triage(c, id)) && c.HasValidHash(LinkageOf(c, id))
  {
    assert Triage(c, id).WithOwnHash(C.HASH_PLACEHOLDER) == C.TriageFile(id, CONTENT, C.HASH_PLACEHOLDER);
    assert LinkageOf(c, id).WithOwnHash(C.HASH_PLACEHOLDER) == LinkagePlaceholder(c, id);
  }

  function TriageStored(c: C.Codec, id: string): C.Objects { map[C.KeyOf(Strip(id), C.Triage) := c.serialize(Triage(c, id))] }

  lemma StoreTriage(c: C.Codec, id: string)
    requires Strip(id) != ""
    ensures C.PersistStage(c, map[], Triage(c, id), C.NO_FAULTS).0 == TriageStored(c, id)
  {
    FilesValid(c, id);
  }

  lemma StoreLinkage(c: C.Codec, id: string)
    requires c.Lawful() && Strip(id) != ""
    ensures C.KeyOf(Strip(id), C.Linkage) in C.PersistStage(c, TriageStored(c, id), LinkageOf(c, id), C.NO_FAULTS).0
  {
    FilesValid(c, id);
    var t, f, s := Triage(c, id), LinkageOf(c, id), TriageStored(c, id);
    assert c.parse(t.GetStage(), c.serialize(t)) == Some(t);
    assert C.ReadStage(c, s, id, C.Triage, true) == Ok(Some(t));
    assert C.CheckDependencies(c, s, f, true).Ok?;
    if C.KeyOf(Strip(id), C.Linkage) == C.KeyOf(Strip(id), C.Triage) { C.KeyInjective(Strip(id), C.Linkage, Strip(id), C.Triage); }
    assert C.PersistStage(c, s, f, C.NO_FAULTS) == C.PersistWriteOnce(c, s, f, C.NO_FAULTS);
  }

  const DONE := Succeeded(None, None, map[])

  function Row(id: string, state: RetryState, attempts: nat): Record {
    Record(id, "p", None, state, attempts, 1, 0, 0, 60, None, None, None, None, None, map[])
  }

  lemma RowSteps(id: string)
    requires Strip(id) != ""
    ensures Strip("p") != "" && CreatePending(id, "p", None, 1, 0) == Row(id, Pending, 0)
    ensures MarkSearching(Row(id, Pending, 0), 0) == Ok(Row(id, Searching, 0))
    ensures MarkSuccess(Row(id, Searching, 0), None, None, map[], 0) == Ok(Row(id, Linked, 1))
    ensures forall st, n :: Revalidated(Row(id, st, n)) == Ok(Row(id, st, n))
  {
    StripFixpoint("p");
  }

  lemma Linking(cfg: Config, a: string, objects: C.Objects)
    requires Strip(a) != ""
    ensures var s := Next(cfg, State(map[], objects, map[]), Fetch(0, Args(a, "p", None, 1), 0, true));
            s == State(map[a := Row(a, Pending, 0)], objects, map[0 := Fetched(Row(a, Pending, 0), 0)])
    ensures Next(cfg, State(map[a := Row(a, Pending, 0)], objects, map[0 := Fetched(Row(a, Pending, 0), 0)]), StartSearch(0, 0, true))
         == State(map[a := Row(a, Searching, 0)], objects, map[0 := Attempting(Row(a, Searching, 0))])
    ensures Next(cfg, State(map[a := Row(a, Searching, 0)], objects, map[0 := Attempting(Row(a, Searching, 0))]), Attempt(0, DONE))
         == State(map[a := Row(a, Searching, 0)], objects, map[0 := Answered(Row(a, Searching, 0), DONE)])
    ensures Next(cfg, State(map[a := Row(a, Searching, 0)], objects, map[0 := Answered(Row(a, Searching, 0), DONE)]), RecordAnswer(0, 0, true))
         == State(map[a := Row(a, Linked, 1)], objects, map[0 := Finishing(a)])
  {
    RowSteps(a);
  }

  lemma SecondRow(cfg: Config, a: string, b: string, objects: C.Objects)
    requires Strip(b) != "" && a != b
    ensures Next(cfg, State(map[a := Row(a, Linked, 1)], objects, map[0 := Idle]), Fetch(1, Args(b, "p", None, 1), 0, true)).rows
         == map[a := Row(a, Linked, 1), b := Row(b, Pending, 0)]
    ensures Next(cfg, State(map[a := Row(a, Linked, 1)], objects, map[0 := Idle]), Fetch(1, Args(b, "p", None, 1), 0, true)).objects == objects
  {
    RowSteps(b);
  }

  function TwoRowRun(c: C.Codec, a: string, b: string): seq<Action> {
    [ StoreStage(Triage(c, a), C.NO_FAULTS), Fetch(0, Args(a, "p", None, 1), 0, true), StartSearch(0, 0, true), Attempt(0, DONE),
      RecordAnswer(0, 0, true), WriteArtifact(0, LinkageOf(c, a), C.NO_FAULTS), Fetch(1, Args(b, "p", None, 1), 0, true) ]
  }

  lemma ExecCons(cfg: Config, s: State, a: Action, rest: seq<Action>)
    ensures Exec(cfg, s, [a] + rest) == Exec(cfg, Next(cfg, s, a), rest)
  {
    assert ([a] + rest)[1..] == rest;
  }

  lemma ExecSeven(cfg: Config, s: State, run: seq<Action>)
    requires |run| == 7
    ensures Exec(cfg, s, run) == Next(cfg, Next(cfg, Next(cfg, Next(cfg, Next(cfg, Next(cfg, Next(cfg, s, run[0]), run[1]), run[2]), run[3]), run[4]), run[5]), run[6])
  {
    ExecAt(cfg, s, run, 0);
    var s1 := Next(cfg, s, run[0]);
    ExecAt(cfg, s1, run, 1);
    var s2 := Next(cfg, s1, run[1]);
    ExecAt(cfg, s2, run, 2);
    var s3 := Next(cfg, s2, run[2]);
    ExecAt(cfg, s3, run, 3);
    var s4 := Next(cfg, s3, run[3]);
    ExecAt(cfg, s4, run, 4);
    var s5 := Next(cfg, s4, run[4]);
    ExecAt(cfg, s5, run, 5);
    var s6 := Next(cfg, s5, run[5]);
    ExecAt(cfg, s6, run, 6);
    assert run[7..] == [] && run[0..] == run;
  }

  lemma ExecAt(cfg: Config, s: State, run: seq<Action>, k: nat)
    requires k < |run|
    ensures Exec(cfg, s, run[k..]) == Exec(cfg, Next(cfg, s, run[k]), run[k + 1..])
  {
    assert run[k..] == [run[k]] + run[k + 1..];
    ExecCons(cfg, s, run[k], run[k + 1..]);
  }

  /** The state after the first case was linked and before its artifact is written. */
  function LinkedState(c: C.Codec, a: string): State {
    State(map[a := Row(a, Linked, 1)], TriageStored(c, a), map[0 := Finishing(a)])
  }

  lemma FirstFive(cfg: Config, a: string, b: string)
    requires Strip(a) != ""
    ensures var run := TwoRowRun(cfg.codec, a, b);
            Next(cfg, Next(cfg, Next(cfg, Next(cfg, Next(cfg, INITIAL, run[0]), run[1]), run[2]), run[3]), run[4]) == LinkedState(cfg.codec, a)
  {
    StoreTriage(cfg.codec, a);
    assert Next(cfg, INITIAL, StoreStage(Triage(cfg.codec, a), C.NO_FAULTS)) == State(map[], TriageStored(cfg.codec, a), map[]);
    Linking(cfg, a, TriageStored(cfg.codec, a));
  }

  /** A row that has not been tried although linkage.json exists in its directory. */
  predicate Shadowed(s: State, b: string) {
    b in s.rows && s.rows[b].state == Pending && C.KeyOf(Strip(b), C.Linkage) in s.objects
  }

  lemma ArtifactWritten(cfg: Config, a: string)
    requires cfg.codec.Lawful() && Strip(a) != ""
    ensures var s := Next(cfg, LinkedState(cfg.codec, a), WriteArtifact(0, LinkageOf(cfg.codec, a), C.NO_FAULTS));
            s.rows == map[a := Row(a, Linked, 1)] && s.locals == map[0 := Idle] && C.KeyOf(Strip(a), C.Linkage) in s.objects
  {
    StoreLinkage(cfg.codec, a);
    assert LinkageOf(cfg.codec, a).caseId == a && LinkedState(cfg.codec, a).At(0) == Finishing(a);
  }

  lemma SecondFetched(cfg: Config, s: State, a: string, b: string)
    requires s.rows == map[a := Row(a, Linked, 1)] && s.locals == map[0 := Idle] && C.KeyOf(Strip(b), C.Linkage) in s.objects
    requires Strip(b) != "" && a != b
    ensures Shadowed(Next(cfg, s, Fetch(1, Args(b, "p", None, 1), 0, true)), b)
  {
    SecondRow(cfg, a, b, s.objects);
    assert s == State(map[a := Row(a, Linked, 1)], s.objects, map[0 := Idle]);
  }

  lemma LastTwo(cfg: Config, a: string, b: string)
    requires cfg.codec.Lawful() && a != b && Strip(a) == Strip(b) != ""
    ensures var run := TwoRowRun(cfg.codec, a, b); Shadowed(Next(cfg, Next(cfg, LinkedState(cfg.codec, a), run[5]), run[6]), b)
  {
    ArtifactWritten(cfg, a);
    SecondFetched(cfg, Next(cfg, LinkedState(cfg.codec, a), WriteArtifact(0, LinkageOf(cfg.codec, a), C.NO_FAULTS)), a, b);
  }

  lemma ShadowedBreaks(s: State, b: string)
    requires Shadowed(s, b)
    ensures !PerRow(s)
  {
  }

  /** Two ids that trim to one text share a linkage.json: the first finishes, the second has not been tried. */
  lemma TwoRowsShareOneObject(cfg: Config, a: string, b: string)
    requires cfg.codec.Lawful() && a != b && Strip(a) == Strip(b) != ""
    ensures Shadowed(Exec(cfg, INITIAL, TwoRowRun(cfg.codec, a, b)), b)
  {
    FirstFive(cfg, a, b);
    LastTwo(cfg, a, b);
    var run := TwoRowRun(cfg.codec, a, b);
    Composed(cfg, run, LinkedState(cfg.codec, a), Next(cfg, Next(cfg, LinkedState(cfg.codec, a), run[5]), run[6]));
  }

  lemma Composed(cfg: Config, run: seq<Action>, middle: State, last: State)
    requires |run| == 7 && Next(cfg, Next(cfg, Next(cfg, Next(cfg, Next(cfg, INITIAL, run[0]), run[1]), run[2]), run[3]), run[4]) == middle
    requires Next(cfg, Next(cfg, middle, run[5]), run[6]) == last
    ensures Exec(cfg, INITIAL, run) == last
  {
    ExecSeven(cfg, INITIAL, run);
  }

  lemma TwoRowRunUses(c: C.Codec, a: string, b: string, ids: set<string>)
    requires a in ids && b in ids
    ensures UsesOnly(TwoRowRun(c, a, b), ids)
  {
  }

  /** Row by row the claim holds over every run on these ids if and only if no two of them trim to the same text. */
  lemma PerRowIff(cfg: Config, ids: set<string>)
    requires cfg.rules.Positive() && cfg.codec.Lawful()
    ensures (forall run :: UsesOnly(run, ids) ==> PerRow(Exec(cfg, INITIAL, run))) <==> Distinguishable(ids)
  {
    if Distinguishable(ids) {
      forall run | UsesOnly(run, ids) ensures PerRow(Exec(cfg, INITIAL, run)) { DistinguishableIsEnough(cfg, run, ids); }
    } else {
      var a, b :| a in ids && b in ids && Strip(a) == Strip(b) && Strip(a) != "" && a != b;
      TwoRowsShareOneObject(cfg, a, b);
      ShadowedBreaks(Exec(cfg, INITIAL, TwoRowRun(cfg.codec, a, b)), b);
      TwoRowRunUses(cfg.codec, a, b, ids);
    }
  }

  /** The smallest such pair: a case id and the same id with a trailing blank. */
  lemma TrailingBlankCollides()
    ensures Strip("a") == "a" && Strip("a ") == "a" && !Distinguishable({"a", "a "})
  {
    StripFixpoint("a");
    assert IsSpace(' ') && "a "[..1] == "a";
    assert TrimLeft("a ") == "a " && TrimRight("a ") == TrimRight("a") == "a";
    assert "a" != "a ";
  }
}
