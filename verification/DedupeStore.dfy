/** The AG5 dedupe store: fingerprints with a per-action time to live (cache/dedupe.py). Seconds are integers. */
module DedupeStore {
  import opened Wrappers
  import opened Gating

  /** Live keys and the second at which each expires. */
  type Keys = map<string, int>

  /** Per-action TTLs of the policy, in seconds. */
  datatype TtlConfig = TtlConfig(pageSeconds: nat, ticketSeconds: nat, notifySeconds: nat)

  /** _ttl_for_action: the policy's TTLs, or the defaults when no policy is configured. */
  function TtlFor(config: Option<TtlConfig>, a: Action): nat {
    var c := if config.Some? then config.value else TtlConfig(7200, 14400, 3600);
    match a case Page => c.pageSeconds case Ticket => c.ticketSeconds case Notify => c.notifySeconds case Observe => c.notifySeconds
  }

  /** The defaults are 120, 240 and 60 minutes; a policy sets each one; OBSERVE would get the NOTIFY window. */
  lemma TtlValues(config: Option<TtlConfig>)
    ensures config.None? ==> TtlFor(config, Page) == 120 * 60 && TtlFor(config, Ticket) == 240 * 60 && TtlFor(config, Notify) == 60 * 60
    ensures config.Some? ==> TtlFor(config, Page) == config.value.pageSeconds && TtlFor(config, Ticket) == config.value.ticketSeconds
                             && TtlFor(config, Notify) == config.value.notifySeconds
    ensures TtlFor(config, Observe) == TtlFor(config, Notify)
  {
  }

  function Ttl(config: Option<TtlConfig>): Action -> nat { (a: Action) => TtlFor(config, a) }

  predicate Active(keys: Keys, fp: string, now: int) { fp in keys && now < keys[fp] }

  /** SET key 1 NX EX ttl */
  function SetNx(keys: Keys, fp: string, ttl: nat, now: int): Keys {
    if Active(keys, fp, now) then keys else keys[fp := now + ttl]
  }

  /** A SET is applied, refused before any effect, or applied with its reply lost. */
  datatype SetFault = SetApplied | SetRefused | SetAckLost

  function Remembered(keys: Keys, fp: string, ttl: nat, now: int, fault: SetFault): Keys {
    if fault == SetRefused then keys else SetNx(keys, fp, ttl, now)
  }

  class RedisActionDedupeStore {
    const ttl: Action -> nat
    var keys: Keys
    var isHealthy: bool
    var lastError: Option<string>

    constructor (config: Option<TtlConfig>)
      ensures ttl == Ttl(config) && keys == map[] && isHealthy && lastError == None
    {
      this.ttl := Ttl(config);
      keys, isHealthy, lastError := map[], true, None;
    }

    /** Healthy exactly when the last operation succeeded. */
    predicate HealthTracks(ok: bool)
      reads this
    {
      isHealthy == ok && (lastError.None? <==> ok)
    }

    method IsDuplicate(fp: string, now: int, reachable: bool) returns (r: Result<bool>)
      modifies this`isHealthy, this`lastError
      ensures r.Ok? <==> reachable
      ensures r.Ok? ==> r.value == Active(keys, fp, now)
      ensures HealthTracks(r.Ok?)
    {
      if !reachable {
        isHealthy, lastError := false, Some("redis unavailable");
        return Err("redis unavailable");
      }
      isHealthy, lastError := true, None;
      return Ok(fp in keys && now < keys[fp]);
    }

    /** The key is claimed at most once per window; the reply tells whether this call claimed it. */
    method Remember(fp: string, action: Action, now: int, fault: SetFault) returns (r: Result<bool>)
      modifies this
      ensures keys == Remembered(old(keys), fp, ttl(action), now, fault)
      ensures r.Ok? <==> fault == SetApplied
      ensures r.Ok? ==> r.value == !Active(old(keys), fp, now)
      ensures HealthTracks(r.Ok?)
    {
      var added := false;
      if fault != SetRefused && !(fp in keys && now < keys[fp]) {
        keys := keys[fp := now + ttl(action)];
        added := true;
      }
      if fault != SetApplied {
        isHealthy, lastError := false, Some("redis unavailable");
        return Err("redis unavailable");
      }
      isHealthy, lastError := true, None;
      return Ok(added);
    }
  }
}

/** evaluate_rulebook_gates as the hot path runs it, with the store consulted at AG5. */
module GateEngine {
  import opened Wrappers
  import opened Gating
  import opened DedupeStore

  /** When the store is asked and told within one evaluation, and what fails. */
  datatype Clock = Clock(getAt: int, setAt: int, reachable: bool, fault: SetFault)

  /** AG5's conversation with the store; the result of `remember` is ignored. */
  function Consult(ttl: Action -> nat, keys: Keys, fp: string, a: Action, c: Clock): (Keys, StoreOutcome) {
    if !c.reachable then (keys, StoreError)
    else if Active(keys, fp, c.getAt) then (keys, Duplicate)
    else (Remembered(keys, fp, ttl(a), c.setAt, c.fault), if c.fault == SetApplied then Fresh else StoreError)
  }

  /** One evaluation against a live store. */
  function EvaluateLive(rb: Rulebook, ttl: Action -> nat, keys: Keys, inp: Input, c: Clock): (Keys, Result<Decision>) {
    if !rb.Ordered() then (keys, Err("rulebook gate order"))
    else match Fold(rb, inp, NoStore, 5)
      case Err(e) => (keys, Err(e))
      case Ok(s) =>
        if s.action == Observe then (keys, Evaluate(rb, inp, NoStore))
        else
          var (after, outcome) := Consult(ttl, keys, inp.fingerprint, s.action, c);
          (after, Evaluate(rb, inp, outcome))
  }

  /** Nothing before AG5 depends on the store. */
  lemma {:induction false} BeforeAg5(rb: Rulebook, inp: Input, outcome: StoreOutcome, k: nat)
    requires rb.Ordered() && k <= 5
    ensures Fold(rb, inp, outcome, k) == Fold(rb, inp, NoStore, k)
  {
    if k > 0 {
      BeforeAg5(rb, inp, outcome, k - 1);
      assert rb.gates[k - 1].id == ORDER[k - 1] != AG5;
    }
  }

  class EvaluationState {
    var currentAction: Action
    var inputValid: bool
    var envCapApplied: bool
    var gateReasonCodes: seq<string>
    var postmortemRequired: bool
    var postmortemMode: Option<string>
    var postmortemReasonCodes: seq<string>

    constructor (a: Action)
      ensures Value() == State(a, true, false, [], false, None, [])
    {
      currentAction, inputValid, envCapApplied, gateReasonCodes := a, true, false, [];
      postmortemRequired, postmortemMode, postmortemReasonCodes := false, None, [];
    }

    function Value(): State
      reads this
    {
      State(currentAction, inputValid, envCapApplied, gateReasonCodes, postmortemRequired, postmortemMode, postmortemReasonCodes)
    }

    /** The specified new state, or the specified exception with the state as it was. */
    predicate Became(before: State, next: Result<State>, r: Result<bool>)
      reads this
    {
      match next
      case Ok(s) => r.Ok? && Value() == s
      case Err(e) => r == Err(e) && Value() == before
    }

    method ApplyGateEffect(effect: Option<Effect>, allowActionChange: bool, markEnvCapApplied: bool) returns (r: Result<bool>)
      modifies this
      ensures Became(old(Value()), Apply(old(Value()), effect, allowActionChange, markEnvCapApplied), r)
    {
      if effect.None? { return Ok(true); }
      var e := effect.value;
      if allowActionChange && e.cap != NoCap {
        if e.cap == BadCap { return Err("invalid action value"); }
        var reduced := Reduce(currentAction, e.cap.action);
        if reduced != currentAction && markEnvCapApplied { envCapApplied := true; }
        currentAction := reduced;
      }
      gateReasonCodes := gateReasonCodes + e.codes;
      match e.force {
        case KeepMode =>
        case ClearMode => postmortemMode := None;
        case SetMode(m) => postmortemMode := Some(m);
      }
      if e.setRequired.Some? {
        postmortemRequired := e.setRequired.value;
        if !postmortemRequired { postmortemReasonCodes := []; }
      }
      postmortemReasonCodes := postmortemReasonCodes + e.postmortemCodes;
      return Ok(true);
    }

    method EvaluateAg1(rb: Rulebook, inp: Input, g: GateSpec) returns (r: Result<bool>)
      modifies this
      ensures match StepAg1(rb, inp, g, old(Value())) case Ok(s) => r.Ok? && Value() == s case Err(e) => r == Err(e)
    {
      var envCap := EnvCap(rb, inp.env);
      if envCap.Err? { return Err(envCap.error); }
      var byEnv := Reduce(currentAction, envCap.value);
      var capped := byEnv;
      if inp.env == Prod {
        if inp.tier !in rb.tierCaps { return Err("missing policy mapping for caps.max_action_by_tier_in_prod"); }
        capped := Reduce(capped, rb.tierCaps[inp.tier]);
      }
      var envReduced := byEnv != currentAction;
      if capped != currentAction {
        currentAction := capped;
        if envReduced { envCapApplied := true; }
        r := ApplyGateEffect(g.effect.onCapApplied, true, envReduced);
      } else {
        r := Ok(true);
      }
    }
  }

  method UniqueInOrder(values: seq<string>) returns (unique: seq<string>)
    ensures unique == Unique(values)
  {
    unique := [];
    var seen: set<string> := {};
    for i := 0 to |values|
      invariant unique == Unique(values[..i])
      invariant forall x :: x in seen <==> x in values[..i]
    {
      assert values[..i + 1][..i] == values[..i] && values[..i + 1] == values[..i] + [values[i]];
      if values[i] !in seen {
        seen := seen + {values[i]};
        unique := unique + [values[i]];
      }
    }
    assert values[..|values|] == values;
  }

  predicate Covered(inp: Input, f: Finding) {
    forall j :: 0 <= j < |f.evidenceRequired| ==> EvidenceOk(inp, f, f.evidenceRequired[j])
  }

  method Ag2HasInsufficientEvidence(inp: Input) returns (insufficient: bool)
    ensures insufficient == InsufficientEvidence(inp)
  {
    var primary := exists i :: 0 <= i < |inp.findings| && inp.findings[i].isAnomalous && inp.findings[i].isPrimary;
    assert primary == HasPrimary(inp);
    for i := 0 to |inp.findings|
      invariant forall p :: 0 <= p < i && Relevant(inp, inp.findings[p]) ==> Covered(inp, inp.findings[p])
    {
      var f := inp.findings[i];
      if f.isAnomalous && (f.isPrimary || !primary) {
        for j := 0 to |f.evidenceRequired|
          invariant forall q :: 0 <= q < j ==> EvidenceOk(inp, f, f.evidenceRequired[q])
        {
          if !EvidenceOk(inp, f, f.evidenceRequired[j]) { return true; }
        }
      }
    }
    return false;
  }

  method Ag4FailureReasonCodes(checks: seq<Check>, inp: Input) returns (r: Result<seq<string>>)
    ensures r == Ag4Codes(checks, inp)
  {
    var codes: seq<string> := [];
    var foundConfidence, foundSustained := false, false;
    for i := 0 to |checks|
      invariant FailedChecks(checks[..i], inp) == Ok(codes)
      invariant foundConfidence <==> exists p :: 0 <= p < i && checks[p].MinConfidence?
      invariant foundSustained <==> exists p :: 0 <= p < i && checks[p].SustainedEquals?
    {
      assert checks[..i + 1][..i] == checks[..i] && codes + [] == codes;
      match checks[i] {
        case MinConfidence(min, code) =>
          foundConfidence := true;
          if min.None? {
            FirstErrorStays(checks, inp, i + 1);
            return Err("AG4 diagnosis_confidence threshold is not numeric");
          }
          if inp.confidence < min.value { codes := codes + [code]; }
        case SustainedEquals(value, code) =>
          foundSustained := true;
          if value.None? {
            FirstErrorStays(checks, inp, i + 1);
            return Err("AG4 sustained check must define a boolean value");
          }
          if inp.sustained != value.value { codes := codes + [code]; }
        case OtherCheck =>
      }
    }
    assert checks[..|checks|] == checks;
    if !foundConfidence || !foundSustained { return Err("AG4 is missing a check"); }
    var unique := UniqueInOrder(codes);
    return Ok(unique);
  }

  lemma {:induction false} FirstErrorStays(checks: seq<Check>, inp: Input, i: nat)
    requires i <= |checks| && FailedChecks(checks[..i], inp).Err?
    ensures FailedChecks(checks, inp) == FailedChecks(checks[..i], inp)
    decreases |checks|
  {
    if i < |checks| {
      assert checks[..|checks| - 1][..i] == checks[..i];
      FirstErrorStays(checks[..|checks| - 1], inp, i);
    } else {
      assert checks[..i] == checks;
    }
  }

  /** AG0 to AG4 and AG6: the gates that do not talk to the store. */
  method RunStaticGate(rb: Rulebook, inp: Input, g: GateSpec, state: EvaluationState) returns (r: Result<bool>)
    requires g.id != AG5
    modifies state
    ensures match Step(rb, inp, NoStore, g, old(state.Value())) case Ok(s) => r.Ok? && state.Value() == s case Err(e) => r == Err(e)
  {
    r := Ok(true);
    match g.id {
      case AG0 =>
        if !Ag0Valid(inp) {
          state.inputValid := false;
          r := state.ApplyGateEffect(g.effect.onFail, true, false);
        }
      case AG1 => r := state.EvaluateAg1(rb, inp, g);
      case AG2 =>
        var insufficient := Ag2HasInsufficientEvidence(inp);
        if insufficient { r := state.ApplyGateEffect(g.effect.onFail, true, false); }
      case AG3 =>
        if inp.topicRole in rb.pagingDenied && state.currentAction == Page {
          r := state.ApplyGateEffect(g.effect.onFail, true, false);
        }
      case AG4 =>
        if !state.currentAction.AtMost(Notify) {
          var codes := Ag4FailureReasonCodes(g.checks, inp);
          if codes.Err? { return Err(codes.error); }
          if codes.value != [] {
            r := state.ApplyGateEffect(g.effect.onFail, true, false);
            if r.Ok? { state.gateReasonCodes := state.gateReasonCodes + codes.value; }
          }
        }
      case AG5 =>
      case AG6 =>
        if state.inputValid && inp.env == Prod && inp.tier == Tier0 {
          if inp.peak == Some(true) && inp.sustained {
            r := state.ApplyGateEffect(g.effect.onPass, false, false);
          } else {
            r := state.ApplyGateEffect(g.effect.onFail, false, false);
          }
        }
    }
  }

  /** AG5 against the store, or without one. */
  method RunAg5(inp: Input, g: GateSpec, state: EvaluationState, store: RedisActionDedupeStore?, c: Clock)
    returns (r: Result<bool>, ghost outcome: StoreOutcome)
    modifies state, store
    ensures match StepAg5(g, outcome, old(state.Value())) case Ok(s) => r.Ok? && state.Value() == s case Err(e) => r == Err(e)
    ensures store == null ==> outcome == NoStore
    ensures store != null && old(state.currentAction) == Observe ==> store.keys == old(store.keys) && outcome == NoStore
    ensures store != null && old(state.currentAction) != Observe ==>
              (store.keys, outcome) == Consult(store.ttl, old(store.keys), inp.fingerprint, old(state.currentAction), c)
  {
    outcome := NoStore;
    if state.currentAction == Observe { return Ok(true), outcome; }
    if store == null {
      r := state.ApplyGateEffect(g.effect.onStoreError, true, false);
      return;
    }
    var failed := false;
    var duplicate := store.IsDuplicate(inp.fingerprint, c.getAt, c.reachable);
    if duplicate.Err? {
      failed, outcome := true, StoreError;
    } else if duplicate.value {
      outcome := Duplicate;
      r := state.ApplyGateEffect(g.effect.onDuplicate, true, false);
      failed := r.Err?;
    } else {
      var remembered := store.Remember(inp.fingerprint, state.currentAction, c.setAt, c.fault);
      failed := remembered.Err?;
      outcome := if failed then StoreError else Fresh;
      r := Ok(true);
    }
    if failed { r := state.ApplyGateEffect(g.effect.onStoreError, true, false); }
  }

  /** What the evaluation did to the store and learned from it. */
  predicate Consulted(rb: Rulebook, ttl: Action -> nat, keys: Keys, inp: Input, c: Clock, after: Keys, outcome: StoreOutcome)
    requires rb.Ordered()
  {
    match Fold(rb, inp, NoStore, 5)
    case Err(_) => after == keys
    case Ok(s) =>
      if s.action == Observe then after == keys && outcome == NoStore
      else (after, outcome) == Consult(ttl, keys, inp.fingerprint, s.action, c)
  }

  lemma ConsultedDecides(rb: Rulebook, ttl: Action -> nat, keys: Keys, inp: Input, c: Clock, after: Keys, outcome: StoreOutcome)
    requires rb.Ordered() && Consulted(rb, ttl, keys, inp, c, after, outcome)
    ensures EvaluateLive(rb, ttl, keys, inp, c) == (after, Evaluate(rb, inp, outcome))
  {
    BeforeAg5(rb, inp, outcome, 5);
    if Fold(rb, inp, NoStore, 5).Err? { ErrorStays(rb, inp, outcome, 5, 7); }
  }

  /** The loop over the seven gates. */
  method RunGates(rb: Rulebook, inp: Input, store: RedisActionDedupeStore?, c: Clock, state: EvaluationState)
    returns (r: Result<bool>, ghost outcome: StoreOutcome)
    requires rb.Ordered() && state.Value() == Start(inp)
    modifies state, store
    ensures match Fold(rb, inp, outcome, 7) case Ok(s) => r.Ok? && state.Value() == s case Err(e) => r == Err(e)
    ensures store == null ==> outcome == NoStore
    ensures store != null ==> Consulted(rb, store.ttl, old(store.keys), inp, c, store.keys, outcome)
  {
    outcome := NoStore;
    for i := 0 to 7
      invariant i <= 5 || store == null ==> outcome == NoStore
      invariant store != null && i <= 5 ==> store.keys == old(store.keys)
      invariant Fold(rb, inp, outcome, i) == Ok(state.Value())
      invariant store != null && i >= 6 ==> Consulted(rb, store.ttl, old(store.keys), inp, c, store.keys, outcome)
    {
      var g := rb.gates[i];
      assert g.id == ORDER[i];
      if g.id == AG5 {
        r, outcome := RunAg5(inp, g, state, store, c);
        BeforeAg5(rb, inp, outcome, 5);
      } else {
        ghost var before := state.Value();
        r := RunStaticGate(rb, inp, g, state);
        StoreIrrelevant(rb, inp, outcome, g, before);
      }
      if r.Err? {
        ErrorStays(rb, inp, outcome, i + 1, 7);
        if i < 5 { ErrorStays(rb, inp, outcome, i + 1, 5); }
        return;
      }
    }
    r := Ok(true);
  }

  method EvaluateRulebookGates(rb: Rulebook, inp: Input, store: RedisActionDedupeStore?, c: Clock) returns (r: Result<Decision>)
    modifies store
    ensures store == null ==> r == Evaluate(rb, inp, NoStore)
    ensures store != null ==> (store.keys, r) == EvaluateLive(rb, store.ttl, old(store.keys), inp, c)
  {
    if !rb.Ordered() { return Err("rulebook gate order"); }
    var state := new EvaluationState(inp.proposed);
    ghost var outcome: StoreOutcome;
    var ran: Result<bool>;
    ran, outcome := RunGates(rb, inp, store, c, state);
    if store != null { ConsultedDecides(rb, store.ttl, old(store.keys), inp, c, store.keys, outcome); }
    if ran.Err? { return Err(ran.error); }
    var codes := UniqueInOrder(state.gateReasonCodes);
    var postmortemCodes := UniqueInOrder(state.postmortemReasonCodes);
    if state.postmortemRequired && state.postmortemMode.None? { state.postmortemMode := Some("SOFT"); }
    if !state.postmortemRequired { state.postmortemMode, postmortemCodes := None, []; }
    return Ok(Decision(state.currentAction, state.envCapApplied, codes, inp.fingerprint, state.postmortemRequired,
                       state.postmortemMode, postmortemCodes));
  }

  lemma StoreIrrelevant(rb: Rulebook, inp: Input, outcome: StoreOutcome, g: GateSpec, s: State)
    requires g.id != AG5
    ensures Step(rb, inp, outcome, g, s) == Step(rb, inp, NoStore, g, s)
  {
  }

  lemma {:induction false} ErrorStays(rb: Rulebook, inp: Input, outcome: StoreOutcome, j: nat, k: nat)
    requires j <= k <= |rb.gates| && Fold(rb, inp, outcome, j).Err?
    ensures Fold(rb, inp, outcome, k) == Fold(rb, inp, outcome, j)
    decreases k
  {
    if j < k { ErrorStays(rb, inp, outcome, j, k - 1); }
  }
}
