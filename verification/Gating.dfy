/** The rulebook gate engine AG0-AG6 (pipeline/stages/gating.py, contracts/rulebook.py). */
module Gating {
  import opened Wrappers
  import opened Text

  datatype Action = Observe | Notify | Ticket | Page
  {
    function Priority(): nat {
      match this case Observe => 0 case Notify => 1 case Ticket => 2 case Page => 3
    }
    predicate AtMost(other: Action) { Priority() <= other.Priority() }
  }

  /** _reduce_action: the lower of the two. */
  function Reduce(current: Action, cap: Action): Action {
    if current.AtMost(cap) then current else cap
  }

  datatype Env = Local | Harness | Dev | Uat | Prod
  datatype EnvKey = EnvName(env: Env) | StageName
  datatype Tier = Tier0 | Tier1 | Tier2 | UnknownTier
  datatype EvidenceStatus = Present | Unknown | Absent | Stale

  // ---------------------------------------------------------------- rulebook

  /** cap_action_to: missing or empty, a known action, or a text that is no action. */
  datatype Cap = NoCap | CapTo(action: Action) | BadCap
  /** force_postmortem_mode after strip and upper-casing. */
  datatype ForceMode = KeepMode | ClearMode | SetMode(mode: string)
  datatype Effect = Effect(cap: Cap, codes: seq<string>, force: ForceMode, setRequired: Option<bool>, postmortemCodes: seq<string>)
  datatype Effects = Effects(onFail: Option<Effect>, onCapApplied: Option<Effect>, onDuplicate: Option<Effect>,
                             onStoreError: Option<Effect>, onPass: Option<Effect>)

  /** AG4 checks; `None` where the configured threshold or value has the wrong type. */
  datatype Check =
    | MinConfidence(min: Option<real>, codeOnFail: string)
    | SustainedEquals(value: Option<bool>, codeOnFail: string)
    | OtherCheck

  datatype GateId = AG0 | AG1 | AG2 | AG3 | AG4 | AG5 | AG6
  datatype GateSpec = GateSpec(id: GateId, effect: Effects, checks: seq<Check>)
  const ORDER: seq<GateId> := [AG0, AG1, AG2, AG3, AG4, AG5, AG6]

  datatype Rulebook = Rulebook(version: string, envCaps: map<EnvKey, Action>, tierCaps: map<Tier, Action>,
                               pagingDenied: set<string>, gates: seq<GateSpec>)
  {
    /** The validators of RulebookCaps; the order check is the engine's. */
    predicate WellFormed() {
      && EnvName(Local) in envCaps && EnvName(Dev) in envCaps && EnvName(Prod) in envCaps
      && (EnvName(Uat) in envCaps || StageName in envCaps)
      && Tier0 in tierCaps && Tier1 in tierCaps && Tier2 in tierCaps && UnknownTier in tierCaps
    }

    predicate Ordered() {
      |gates| == 7 && forall i :: 0 <= i < 7 ==> gates[i].id == ORDER[i]
    }
  }

  datatype Finding = Finding(isAnomalous: bool, isPrimary: bool, evidenceRequired: seq<string>,
                             allowed: map<string, set<EvidenceStatus>>)
  datatype Input = Input(env: Env, topicRole: string, tier: Tier, proposed: Action, confidence: real, sustained: bool,
                         peak: Option<bool>, findings: seq<Finding>, evidence: map<string, EvidenceStatus>, fingerprint: string)

  // ---------------------------------------------------------------- evaluation state

  datatype State = State(action: Action, inputValid: bool, envCapApplied: bool, codes: seq<string>,
                         required: bool, mode: Option<string>, postmortemCodes: seq<string>)
  datatype Decision = Decision(finalAction: Action, envCapApplied: bool, codes: seq<string>, fingerprint: string,
                               required: bool, mode: Option<string>, postmortemCodes: seq<string>)

  function Postmortem(s: State, e: Effect): State {
    s.(codes := s.codes + e.codes,
       mode := match e.force case KeepMode => s.mode case ClearMode => None case SetMode(m) => Some(m),
       required := if e.setRequired.Some? then e.setRequired.value else s.required,
       postmortemCodes := (if e.setRequired == Some(false) then [] else s.postmortemCodes) + e.postmortemCodes)
  }

  /** _apply_gate_effect; an unknown cap action raises before anything is changed. */
  function Apply(s: State, effect: Option<Effect>, allowAction: bool, markEnvCap: bool): Result<State> {
    if effect.None? then Ok(s)
    else if !allowAction || effect.value.cap == NoCap then Ok(Postmortem(s, effect.value))
    else if effect.value.cap == BadCap then Err("invalid action value")
    else
      var reduced := Reduce(s.action, effect.value.cap.action);
      Ok(Postmortem(s.(action := reduced, envCapApplied := s.envCapApplied || (reduced != s.action && markEnvCap)), effect.value))
  }

  // ---------------------------------------------------------------- gate conditions

  predicate Ag0Valid(inp: Input) { Strip(inp.fingerprint) != "" && inp.findings != [] }

  /** caps.max_action_by_env, with `uat` falling back to `stage`. */
  function EnvCap(rb: Rulebook, env: Env): Result<Action> {
    if EnvName(env) in rb.envCaps then Ok(rb.envCaps[EnvName(env)])
    else if env == Uat && StageName in rb.envCaps then Ok(rb.envCaps[StageName])
    else Err("missing policy mapping for caps.max_action_by_env")
  }

  function TierCap(rb: Rulebook, inp: Input): Result<Action> {
    if inp.env != Prod then Ok(Page)
    else if inp.tier in rb.tierCaps then Ok(rb.tierCaps[inp.tier])
    else Err("missing policy mapping for caps.max_action_by_tier_in_prod")
  }

  predicate EvidenceOk(inp: Input, f: Finding, key: string) {
    var status := if key in inp.evidence then inp.evidence[key] else Unknown;
    status == Present || (key in f.allowed && status in f.allowed[key])
  }

  predicate HasPrimary(inp: Input) {
    exists i :: 0 <= i < |inp.findings| && inp.findings[i].isAnomalous && inp.findings[i].isPrimary
  }

  /** The anomalous findings that count: the primary ones if there are any. */
  predicate Relevant(inp: Input, f: Finding) {
    f.isAnomalous && (f.isPrimary || !HasPrimary(inp))
  }

  /** Some relevant finding requires evidence that is neither present nor excused. */
  predicate InsufficientEvidence(inp: Input) {
    exists i, j :: 0 <= i < |inp.findings| && Relevant(inp, inp.findings[i])
                   && 0 <= j < |inp.findings[i].evidenceRequired|
                   && !EvidenceOk(inp, inp.findings[i], inp.findings[i].evidenceRequired[j])
  }

  /** Values in order of first appearance. */
  function Unique(values: seq<string>): (u: seq<string>)
    ensures forall x :: x in u <==> x in values
    ensures forall i, j :: 0 <= i < j < |u| ==> u[i] != u[j]
  {
    if values == [] then [] else
      var rest, x := values[..|values| - 1], values[|values| - 1];
      assert values == rest + [x];
      if x in rest then Unique(rest) else Unique(rest) + [x]
  }

  /** The reason codes of the checks that fail, or the error of the first malformed one. */
  function FailedChecks(checks: seq<Check>, inp: Input): Result<seq<string>> {
    if checks == [] then Ok([])
    else match FailedChecks(checks[..|checks| - 1], inp)
      case Err(e) => Err(e)
      case Ok(codes) =>
        match checks[|checks| - 1]
        case MinConfidence(None, _) => Err("AG4 diagnosis_confidence threshold is not numeric")
        case MinConfidence(Some(m), code) => Ok(codes + if inp.confidence < m then [code] else [])
        case SustainedEquals(None, _) => Err("AG4 sustained check must define a boolean value")
        case SustainedEquals(Some(v), code) => Ok(codes + if inp.sustained != v then [code] else [])
        case OtherCheck => Ok(codes)
  }

  predicate HasBothChecks(checks: seq<Check>) {
    && (exists i :: 0 <= i < |checks| && checks[i].MinConfidence?)
    && (exists i :: 0 <= i < |checks| && checks[i].SustainedEquals?)
  }

  /** _ag4_failure_reason_codes */
  function Ag4Codes(checks: seq<Check>, inp: Input): Result<seq<string>> {
    match FailedChecks(checks, inp)
    case Err(e) => Err(e)
    case Ok(codes) => if HasBothChecks(checks) then Ok(Unique(codes)) else Err("AG4 is missing a check")
  }

  // ---------------------------------------------------------------- the fold over the gates

  /** What AG5 learns from the dedupe store. */
  datatype StoreOutcome = NoStore | StoreError | Duplicate | Fresh

  /** _evaluate_ag1 */
  function StepAg1(rb: Rulebook, inp: Input, g: GateSpec, s: State): Result<State> {
    match EnvCap(rb, inp.env)
    case Err(e) => Err(e)
    case Ok(envCap) =>
      match TierCap(rb, inp)
      case Err(e) => Err(e)
      case Ok(tierCap) =>
        var byEnv := Reduce(s.action, envCap);
        var capped := Reduce(byEnv, tierCap);
        if capped == s.action then Ok(s)
        else Apply(s.(action := capped, envCapApplied := s.envCapApplied || byEnv != s.action), g.effect.onCapApplied, true, byEnv != s.action)
  }

  function StepAg4(inp: Input, g: GateSpec, s: State): Result<State> {
    if s.action.AtMost(Notify) then Ok(s)
    else match Ag4Codes(g.checks, inp)
      case Err(e) => Err(e)
      case Ok(codes) =>
        if codes == [] then Ok(s)
        else match Apply(s, g.effect.onFail, true, false)
          case Err(e) => Err(e)
          case Ok(s') => Ok(s'.(codes := s'.codes + codes))
  }

  /** A duplicate whose configured cap is no action raises inside the store guard, and is treated as a store error. */
  function StepAg5(g: GateSpec, outcome: StoreOutcome, s: State): Result<State> {
    if s.action == Observe then Ok(s)
    else match outcome
      case Fresh => Ok(s)
      case Duplicate =>
        if Apply(s, g.effect.onDuplicate, true, false).Ok? then Apply(s, g.effect.onDuplicate, true, false)
        else Apply(s, g.effect.onStoreError, true, false)
      case NoStore => Apply(s, g.effect.onStoreError, true, false)
      case StoreError => Apply(s, g.effect.onStoreError, true, false)
  }

  function StepAg6(inp: Input, g: GateSpec, s: State): Result<State> {
    if s.inputValid && inp.env == Prod && inp.tier == Tier0 then
      Apply(s, if inp.peak == Some(true) && inp.sustained then g.effect.onPass else g.effect.onFail, false, false)
    else Ok(s)
  }

  function Step(rb: Rulebook, inp: Input, outcome: StoreOutcome, g: GateSpec, s: State): Result<State> {
    match g.id
    case AG0 => if Ag0Valid(inp) then Ok(s) else Apply(s.(inputValid := false), g.effect.onFail, true, false)
    case AG1 => StepAg1(rb, inp, g, s)
    case AG2 => if InsufficientEvidence(inp) then Apply(s, g.effect.onFail, true, false) else Ok(s)
    case AG3 => if inp.topicRole in rb.pagingDenied && s.action == Page then Apply(s, g.effect.onFail, true, false) else Ok(s)
    case AG4 => StepAg4(inp, g, s)
    case AG5 => StepAg5(g, outcome, s)
    case AG6 => StepAg6(inp, g, s)
  }

  function Start(inp: Input): State { State(inp.proposed, true, false, [], false, None, []) }

  /** The state after the first k gates. */
  function Fold(rb: Rulebook, inp: Input, outcome: StoreOutcome, k: nat): Result<State>
    requires k <= |rb.gates|
  {
    if k == 0 then Ok(Start(inp))
    else match Fold(rb, inp, outcome, k - 1)
      case Err(e) => Err(e)
      case Ok(s) => Step(rb, inp, outcome, rb.gates[k - 1], s)
  }

  function Conclude(inp: Input, s: State): Decision {
    Decision(s.action, s.envCapApplied, Unique(s.codes), inp.fingerprint, s.required,
             if !s.required then None else if s.mode.None? then Some("SOFT") else s.mode,
             if s.required then Unique(s.postmortemCodes) else [])
  }

  /** evaluate_rulebook_gates with the dedupe store's answer given. */
  function Evaluate(rb: Rulebook, inp: Input, outcome: StoreOutcome): Result<Decision> {
    if !rb.Ordered() then Err("rulebook gate order")
    else match Fold(rb, inp, outcome, 7)
      case Err(e) => Err(e)
      case Ok(s) => Ok(Conclude(inp, s))
  }
}
