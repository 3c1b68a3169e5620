/** Runs of gate evaluations against one dedupe store, and their audit replay (pipeline/stages/gating.py,
    cache/dedupe.py, audit/replay.py). */
module StormControl {
  import opened Wrappers
  import opened Gating
  import opened GateLaws
  import opened DedupeStore
  import opened GateEngine

  datatype Evaluation = Evaluation(inp: Input, clock: Clock)

  /** The store before the i-th evaluation of a single-threaded run. */
  function KeysBefore(rb: Rulebook, ttl: Action -> nat, keys: Keys, run: seq<Evaluation>, i: nat): Keys
    requires i <= |run|
  {
    if i == 0 then keys
    else EvaluateLive(rb, ttl, KeysBefore(rb, ttl, keys, run, i - 1), run[i - 1].inp, run[i - 1].clock).0
  }

  function Verdict(rb: Rulebook, ttl: Action -> nat, keys: Keys, run: seq<Evaluation>, i: nat): Result<Decision>
    requires i < |run|
  {
    EvaluateLive(rb, ttl, KeysBefore(rb, ttl, keys, run, i), run[i].inp, run[i].clock).1
  }

  /** One thread: each evaluation asks before it tells, and starts after the previous one ended. */
  predicate SingleThreaded(run: seq<Evaluation>) {
    && (forall i :: 0 <= i < |run| ==> run[i].clock.getAt <= run[i].clock.setAt)
    && (forall i, j :: 0 <= i < j < |run| ==> run[i].clock.setAt <= run[j].clock.getAt)
  }

  /** The decision got past AG5 above both of its caps. */
  predicate Unsuppressed(rb: Rulebook, d: Result<Decision>)
    requires rb.Ordered()
  {
    && d.Ok?
    && !d.value.finalAction.AtMost(OutcomeCap(rb.gates[5], Duplicate))
    && !d.value.finalAction.AtMost(OutcomeCap(rb.gates[5], StoreError))
  }

  /** What AG5 learned in a live evaluation. */
  function LiveOutcome(rb: Rulebook, ttl: Action -> nat, keys: Keys, inp: Input, c: Clock): StoreOutcome
    requires rb.Ordered()
  {
    match Fold(rb, inp, NoStore, 5)
    case Err(_) => NoStore
    case Ok(s) => if s.action == Observe then NoStore else Consult(ttl, keys, inp.fingerprint, s.action, c).1
  }

  /** A live decision is the fold under the outcome its own store conversation had. */
  lemma LiveIsEvaluate(rb: Rulebook, ttl: Action -> nat, keys: Keys, inp: Input, c: Clock)
    requires rb.Ordered()
    ensures EvaluateLive(rb, ttl, keys, inp, c).1 == Evaluate(rb, inp, LiveOutcome(rb, ttl, keys, inp, c))
  {
    var (after, _) := EvaluateLive(rb, ttl, keys, inp, c);
    ConsultedDecides(rb, ttl, keys, inp, c, after, LiveOutcome(rb, ttl, keys, inp, c));
  }

  /** A decision above both caps can only have come from a fresh claim, and is the action that entered AG5. */
  lemma UnsuppressedOutcome(rb: Rulebook, inp: Input, outcome: StoreOutcome)
    requires rb.Ordered() && Unsuppressed(rb, Evaluate(rb, inp, outcome))
    ensures outcome == Fresh && Fold(rb, inp, NoStore, 5).Ok?
    ensures Evaluate(rb, inp, outcome).value.finalAction == Fold(rb, inp, NoStore, 5).value.action != Observe
  {
    NeverExceedsCaps(rb, inp, outcome);
    OkPrefix(rb, inp, outcome, 5, 6);
    BeforeAg5(rb, inp, outcome, 5);
    FinalAtAg5(rb, inp, outcome, Fold(rb, inp, outcome, 5).value);
  }

  /** An unsuppressed decision made a fresh claim for its own final action. */
  lemma UnsuppressedIsFresh(rb: Rulebook, ttl: Action -> nat, keys: Keys, e: Evaluation)
    requires rb.Ordered() && Unsuppressed(rb, EvaluateLive(rb, ttl, keys, e.inp, e.clock).1)
    ensures var (after, d) := EvaluateLive(rb, ttl, keys, e.inp, e.clock);
            && !Active(keys, e.inp.fingerprint, e.clock.getAt) && e.clock.reachable && e.clock.fault == SetApplied
            && after == Remembered(keys, e.inp.fingerprint, ttl(d.value.finalAction), e.clock.setAt, SetApplied)
  {
    LiveIsEvaluate(rb, ttl, keys, e.inp, e.clock);
    UnsuppressedOutcome(rb, e.inp, LiveOutcome(rb, ttl, keys, e.inp, e.clock));
  }

  lemma FinalAtAg5(rb: Rulebook, inp: Input, outcome: StoreOutcome, s: State)
    requires rb.Ordered() && Fold(rb, inp, outcome, 5) == Ok(s) && Fold(rb, inp, outcome, 6).Ok?
    ensures Fold(rb, inp, outcome, 6).value.action == Reduce(s.action, OutcomeCap(rb.gates[5], outcome))
  {
    assert rb.gates[5].id == AG5;
    Ag5IsCap(rb.gates[5], outcome, s);
  }

  /** A window never ends earlier than it already promised. */
  lemma EvaluationExtends(rb: Rulebook, ttl: Action -> nat, keys: Keys, e: Evaluation, fp: string, until: int)
    requires e.clock.getAt <= e.clock.setAt && fp in keys && until <= keys[fp]
    ensures var after := EvaluateLive(rb, ttl, keys, e.inp, e.clock).0; fp in after && until <= after[fp]
  {
  }

  lemma {:induction false} WindowHolds(rb: Rulebook, ttl: Action -> nat, keys: Keys, run: seq<Evaluation>, i: nat, j: nat, fp: string, until: int)
    requires i <= j <= |run| && SingleThreaded(run)
    requires fp in KeysBefore(rb, ttl, keys, run, i) && until <= KeysBefore(rb, ttl, keys, run, i)[fp]
    ensures fp in KeysBefore(rb, ttl, keys, run, j) && until <= KeysBefore(rb, ttl, keys, run, j)[fp]
    decreases j
  {
    if i < j {
      WindowHolds(rb, ttl, keys, run, i, j - 1, fp, until);
      EvaluationExtends(rb, ttl, KeysBefore(rb, ttl, keys, run, j - 1), run[j - 1], fp, until);
    }
  }

  /** Storm control over every single-threaded run, with any pattern of store errors and lost replies: two decisions
      on one fingerprint that both end above AG5's duplicate and store-error caps are at least the first one's TTL
      apart. */
  lemma StormControlled(rb: Rulebook, ttl: Action -> nat, keys: Keys, run: seq<Evaluation>, i: nat, j: nat)
    requires rb.Ordered() && SingleThreaded(run) && i < j < |run|
    requires run[i].inp.fingerprint == run[j].inp.fingerprint
    requires Unsuppressed(rb, Verdict(rb, ttl, keys, run, i)) && Unsuppressed(rb, Verdict(rb, ttl, keys, run, j))
    ensures run[j].clock.getAt >= run[i].clock.setAt + ttl(Verdict(rb, ttl, keys, run, i).value.finalAction)
  {
    var until := run[i].clock.setAt + ttl(Verdict(rb, ttl, keys, run, i).value.finalAction);
    ClaimOpensWindow(rb, ttl, keys, run, i);
    WindowHolds(rb, ttl, keys, run, i + 1, j, run[i].inp.fingerprint, until);
    UnsuppressedIsFresh(rb, ttl, KeysBefore(rb, ttl, keys, run, j), run[j]);
  }

  /** With the default TTLs two decisions on one fingerprint that pass AG5 are at least two hours apart after a page, four
      after a ticket and one after a notification. */
  lemma DefaultWindows(rb: Rulebook, keys: Keys, run: seq<Evaluation>, i: nat, j: nat)
    requires rb.Ordered() && SingleThreaded(run) && i < j < |run| && run[i].inp.fingerprint == run[j].inp.fingerprint
    requires Unsuppressed(rb, Verdict(rb, Ttl(None), keys, run, i)) && Unsuppressed(rb, Verdict(rb, Ttl(None), keys, run, j))
    ensures var first := Verdict(rb, Ttl(None), keys, run, i).value.finalAction;
            run[j].clock.getAt >= run[i].clock.setAt + match first case Page => 7200 case Ticket => 14400 case Notify => 3600 case Observe => 0
  {
    StormControlled(rb, Ttl(None), keys, run, i, j);
  }

  /** After an unsuppressed decision the fingerprint is taken until the decision's TTL has passed. */
  lemma ClaimOpensWindow(rb: Rulebook, ttl: Action -> nat, keys: Keys, run: seq<Evaluation>, i: nat)
    requires rb.Ordered() && SingleThreaded(run) && i < |run| && Unsuppressed(rb, Verdict(rb, ttl, keys, run, i))
    ensures var fp, after := run[i].inp.fingerprint, KeysBefore(rb, ttl, keys, run, i + 1);
            fp in after && run[i].clock.setAt + ttl(Verdict(rb, ttl, keys, run, i).value.finalAction) <= after[fp]
  {
    var before := KeysBefore(rb, ttl, keys, run, i);
    UnsuppressedIsFresh(rb, ttl, before, run[i]);
    assert KeysBefore(rb, ttl, keys, run, i + 1) == EvaluateLive(rb, ttl, before, run[i].inp, run[i].clock).0;
    assert !Active(before, run[i].inp.fingerprint, run[i].clock.setAt);
  }

  // ---------------------------------------------------------------- audit replay

  /** reproduce_gate_decision: the stamped version must match, then the gates run without a store. */
  function Reproduce(rb: Rulebook, stampedVersion: string, inp: Input): Result<Decision> {
    if rb.version != stampedVersion then Err("rulebook version mismatch") else Evaluate(rb, inp, NoStore)
  }

  /** Nothing is replayed under a rulebook of another version. */
  lemma ReplayNeedsTheVersion(rb: Rulebook, stampedVersion: string, inp: Input)
    ensures Reproduce(rb, stampedVersion, inp).Ok? ==> rb.version == stampedVersion
    ensures rb.version == stampedVersion ==> Reproduce(rb, stampedVersion, inp) == Evaluate(rb, inp, NoStore)
  {
  }

  /** A replay under the stamped version equals the live decision in every field when the action entering AG5 is
      OBSERVE or the store failed, and also when a fresh claim met a rulebook without a store-error effect. */
  lemma ReplayEquals(rb: Rulebook, inp: Input, outcome: StoreOutcome)
    requires rb.Ordered() && Fold(rb, inp, NoStore, 5).Ok?
    requires || Fold(rb, inp, NoStore, 5).value.action == Observe || outcome == NoStore || outcome == StoreError
             || (outcome == Fresh && rb.gates[5].effect.onStoreError.None?)
             || (outcome == Duplicate && !UsableDuplicateEffect(rb.gates[5]))
    ensures Reproduce(rb, rb.version, inp) == Evaluate(rb, inp, outcome)
  {
    BeforeAg5(rb, inp, outcome, 5);
    assert rb.gates[5].id == AG5 && rb.gates[6].id == AG6;
    assert Fold(rb, inp, outcome, 6) == Fold(rb, inp, NoStore, 6) by {
      var s := Fold(rb, inp, NoStore, 5).value;
      assert StepAg5(rb.gates[5], outcome, s) == StepAg5(rb.gates[5], NoStore, s);
    }
    if Fold(rb, inp, outcome, 6).Ok? { StoreIrrelevant(rb, inp, outcome, rb.gates[6], Fold(rb, inp, outcome, 6).value); }
  }

  /** For every live outcome, replaying and then applying the outcome's cap gives the live action reduced by the
      store-error cap; after a fresh claim the replay is the live action reduced by that cap. */
  lemma ReplayRelates(rb: Rulebook, inp: Input, outcome: StoreOutcome)
    requires rb.Ordered() && Evaluate(rb, inp, outcome).Ok? && Reproduce(rb, rb.version, inp).Ok?
    ensures var live, replayed := Evaluate(rb, inp, outcome).value, Reproduce(rb, rb.version, inp).value;
            && Reduce(replayed.finalAction, OutcomeCap(rb.gates[5], outcome)) == Reduce(live.finalAction, OutcomeCap(rb.gates[5], NoStore))
            && (outcome == Fresh ==> replayed.finalAction == Reduce(live.finalAction, EffectCap(rb.gates[5].effect.onStoreError)))
            && replayed.envCapApplied == live.envCapApplied && replayed.fingerprint == live.fingerprint
  {
    BeforeAg5(rb, inp, outcome, 5);
    BeforeAg5(rb, inp, outcome, 1);
    NeverExceedsCaps(rb, inp, outcome);
    NeverExceedsCaps(rb, inp, NoStore);
    EnvCapAppliedIff(rb, inp, outcome);
    EnvCapAppliedIff(rb, inp, NoStore);
    OkPrefix(rb, inp, NoStore, 5, 6);
    var s := Fold(rb, inp, NoStore, 5).value;
    FinalAtAg5(rb, inp, outcome, s);
    FinalAtAg5(rb, inp, NoStore, s);
    ReduceTwice(s.action, OutcomeCap(rb.gates[5], NoStore), OutcomeCap(rb.gates[5], outcome));
  }

  lemma ReduceTwice(a: Action, x: Action, y: Action)
    ensures Reduce(Reduce(a, x), y) == Reduce(Reduce(a, y), x)
  {
  }
}
