/** What the gate fold computes: caps, bounds, monotonicity (pipeline/stages/gating.py). */
module GateLaws {
  import opened Wrappers
  import opened Gating

  // ---------------------------------------------------------------- each gate is a cap

  function EffectCap(e: Option<Effect>): Action {
    if e.Some? && e.value.cap.CapTo? then e.value.cap.action else Page
  }

  /** The environment and tier caps together. */
  function PolicyCap(rb: Rulebook, inp: Input): Action {
    Reduce(if EnvCap(rb, inp.env).Ok? then EnvCap(rb, inp.env).value else Page,
           if TierCap(rb, inp).Ok? then TierCap(rb, inp).value else Page)
  }

  predicate Ag4Fails(inp: Input, g: GateSpec) {
    Ag4Codes(g.checks, inp).Ok? && Ag4Codes(g.checks, inp).value != []
  }

  predicate UsableDuplicateEffect(g: GateSpec) {
    g.effect.onDuplicate.None? || g.effect.onDuplicate.value.cap != BadCap
  }

  function OutcomeCap(g: GateSpec, outcome: StoreOutcome): Action {
    if outcome == Fresh then Page
    else if outcome == Duplicate && UsableDuplicateEffect(g) then EffectCap(g.effect.onDuplicate)
    else EffectCap(g.effect.onStoreError)
  }

  /** The cap a gate sets regardless of the current action; PAGE when it sets none. */
  function StaticCap(rb: Rulebook, inp: Input, outcome: StoreOutcome, g: GateSpec): Action {
    match g.id
    case AG0 => if Ag0Valid(inp) then Page else EffectCap(g.effect.onFail)
    case AG1 => PolicyCap(rb, inp)
    case AG2 => if InsufficientEvidence(inp) then EffectCap(g.effect.onFail) else Page
    case AG3 => if inp.topicRole in rb.pagingDenied then EffectCap(g.effect.onFail) else Page
    case AG4 => if Ag4Fails(inp, g) then EffectCap(g.effect.onFail) else Page
    case AG5 => OutcomeCap(g, outcome)
    case AG6 => Page
  }

  /** The cap that applies when the action entering the gate is `a`: AG1 caps further once it has capped, AG3 looks
      only at PAGE and AG4 only at TICKET and above. */
  function CapAt(id: GateId, own: Action, onCapApplied: Action, a: Action): Action {
    match id
    case AG1 => if a.AtMost(own) then Page else Reduce(own, onCapApplied)
    case AG3 => if a == Page then own else Page
    case AG4 => if Ticket.AtMost(a) then own else Page
    case _ => own
  }

  function GateCap(rb: Rulebook, inp: Input, outcome: StoreOutcome, g: GateSpec, a: Action): Action {
    CapAt(g.id, StaticCap(rb, inp, outcome, g), EffectCap(g.effect.onCapApplied), a)
  }

  lemma ApplyCaps(s: State, e: Option<Effect>, allow: bool, mark: bool)
    requires Apply(s, e, allow, mark).Ok?
    ensures var s' := Apply(s, e, allow, mark).value;
            && s'.action == (if allow then Reduce(s.action, EffectCap(e)) else s.action)
            && s'.envCapApplied == (s.envCapApplied || (mark && s'.action != s.action))
  {
  }

  lemma Ag1IsCap(rb: Rulebook, inp: Input, g: GateSpec, s: State)
    requires StepAg1(rb, inp, g, s).Ok?
    ensures var s' := StepAg1(rb, inp, g, s).value;
            && EnvCap(rb, inp.env).Ok? && TierCap(rb, inp).Ok?
            && s'.action == Reduce(s.action, if s.action.AtMost(PolicyCap(rb, inp)) then Page
                                             else Reduce(PolicyCap(rb, inp), EffectCap(g.effect.onCapApplied)))
            && s'.envCapApplied == (s.envCapApplied || !s.action.AtMost(EnvCap(rb, inp.env).value))
  {
    var byEnv := Reduce(s.action, EnvCap(rb, inp.env).value);
    var capped := Reduce(byEnv, TierCap(rb, inp).value);
    if capped != s.action {
      ApplyCaps(s.(action := capped, envCapApplied := s.envCapApplied || byEnv != s.action), g.effect.onCapApplied, true, byEnv != s.action);
    }
  }

  lemma Ag4IsCap(inp: Input, g: GateSpec, s: State)
    requires StepAg4(inp, g, s).Ok?
    ensures var s' := StepAg4(inp, g, s).value;
            && s'.action == (if Ticket.AtMost(s.action) && Ag4Fails(inp, g) then Reduce(s.action, EffectCap(g.effect.onFail)) else s.action)
            && s'.envCapApplied == s.envCapApplied
  {
    if Ticket.AtMost(s.action) && Ag4Fails(inp, g) { ApplyCaps(s, g.effect.onFail, true, false); }
  }

  lemma Ag5IsCap(g: GateSpec, outcome: StoreOutcome, s: State)
    requires StepAg5(g, outcome, s).Ok?
    ensures var s' := StepAg5(g, outcome, s).value;
            s'.action == Reduce(s.action, OutcomeCap(g, outcome)) && s'.envCapApplied == s.envCapApplied
  {
    if s.action != Observe && outcome != Fresh {
      if outcome == Duplicate && UsableDuplicateEffect(g) {
        ApplyCaps(s, g.effect.onDuplicate, true, false);
      } else {
        ApplyCaps(s, g.effect.onStoreError, true, false);
      }
    }
  }

  /** Every gate acts on the action as a cap, and only AG1 touches env_cap_applied. */
  lemma StepIsCap(rb: Rulebook, inp: Input, outcome: StoreOutcome, g: GateSpec, s: State)
    requires Step(rb, inp, outcome, g, s).Ok?
    ensures Step(rb, inp, outcome, g, s).value.action == Reduce(s.action, GateCap(rb, inp, outcome, g, s.action))
    ensures g.id != AG1 ==> Step(rb, inp, outcome, g, s).value.envCapApplied == s.envCapApplied
  {
    match g.id
    case AG0 => if !Ag0Valid(inp) { ApplyCaps(s.(inputValid := false), g.effect.onFail, true, false); }
    case AG1 => Ag1IsCap(rb, inp, g, s);
    case AG2 => if InsufficientEvidence(inp) { ApplyCaps(s, g.effect.onFail, true, false); }
    case AG3 => if inp.topicRole in rb.pagingDenied && s.action == Page { ApplyCaps(s, g.effect.onFail, true, false); }
    case AG4 => Ag4IsCap(inp, g, s);
    case AG5 => Ag5IsCap(g, outcome, s);
    case AG6 =>
      if s.inputValid && inp.env == Prod && inp.tier == Tier0 {
        ApplyCaps(s, if inp.peak == Some(true) && inp.sustained then g.effect.onPass else g.effect.onFail, false, false);
      }
  }

  // ---------------------------------------------------------------- the engine as a fold of caps

  /** The action after the first k gates, from the caps alone. */
  function Capped(rb: Rulebook, inp: Input, outcome: StoreOutcome, k: nat): Action
    requires k <= |rb.gates|
  {
    if k == 0 then inp.proposed
    else
      var a := Capped(rb, inp, outcome, k - 1);
      Reduce(a, GateCap(rb, inp, outcome, rb.gates[k - 1], a))
  }

  lemma {:induction false} FoldIsCapped(rb: Rulebook, inp: Input, outcome: StoreOutcome, k: nat)
    requires k <= |rb.gates| && Fold(rb, inp, outcome, k).Ok?
    ensures Fold(rb, inp, outcome, k).value.action == Capped(rb, inp, outcome, k)
  {
    if k > 0 {
      FoldIsCapped(rb, inp, outcome, k - 1);
      StepIsCap(rb, inp, outcome, rb.gates[k - 1], Fold(rb, inp, outcome, k - 1).value);
    }
  }

  lemma {:induction false} CapsOnlyLower(rb: Rulebook, inp: Input, outcome: StoreOutcome, j: nat, k: nat)
    requires j <= k <= |rb.gates|
    ensures Capped(rb, inp, outcome, k).AtMost(Capped(rb, inp, outcome, j))
    decreases k
  {
    if j < k { CapsOnlyLower(rb, inp, outcome, j, k - 1); }
  }

  lemma {:induction false} OkPrefix(rb: Rulebook, inp: Input, outcome: StoreOutcome, j: nat, k: nat)
    requires j <= k <= |rb.gates| && Fold(rb, inp, outcome, k).Ok?
    ensures Fold(rb, inp, outcome, j).Ok?
    decreases k
  {
    if j < k { OkPrefix(rb, inp, outcome, j, k - 1); }
  }

  /** For every rulebook and input, the final action never exceeds the proposed action, the environment cap or, in
      prod, the tier cap, and AG6 does not change it. */
  lemma NeverExceedsCaps(rb: Rulebook, inp: Input, outcome: StoreOutcome)
    requires Evaluate(rb, inp, outcome).Ok?
    ensures var d := Evaluate(rb, inp, outcome).value;
            && d.finalAction.AtMost(inp.proposed)
            && EnvCap(rb, inp.env).Ok? && d.finalAction.AtMost(EnvCap(rb, inp.env).value)
            && (inp.env == Prod ==> inp.tier in rb.tierCaps && d.finalAction.AtMost(rb.tierCaps[inp.tier]))
            && Fold(rb, inp, outcome, 6).Ok? && d.finalAction == Fold(rb, inp, outcome, 6).value.action
  {
    FoldIsCapped(rb, inp, outcome, 7);
    CapsOnlyLower(rb, inp, outcome, 0, 7);
    CapsOnlyLower(rb, inp, outcome, 2, 7);
    WithinPolicyAfterAg1(rb, inp, outcome);
    Ag6KeepsAction(rb, inp, outcome);
  }

  lemma WithinPolicyAfterAg1(rb: Rulebook, inp: Input, outcome: StoreOutcome)
    requires rb.Ordered() && Fold(rb, inp, outcome, 7).Ok?
    ensures EnvCap(rb, inp.env).Ok? && TierCap(rb, inp).Ok? && Capped(rb, inp, outcome, 2).AtMost(PolicyCap(rb, inp))
  {
    assert rb.gates[1].id == AG1;
    OkPrefix(rb, inp, outcome, 2, 7);
    FoldIsCapped(rb, inp, outcome, 2);
    Ag1IsCap(rb, inp, rb.gates[1], Fold(rb, inp, outcome, 1).value);
  }

  lemma Ag6KeepsAction(rb: Rulebook, inp: Input, outcome: StoreOutcome)
    requires rb.Ordered() && Fold(rb, inp, outcome, 7).Ok?
    ensures Fold(rb, inp, outcome, 6).Ok? && Fold(rb, inp, outcome, 7).value.action == Fold(rb, inp, outcome, 6).value.action
  {
    assert rb.gates[6].id == AG6;
    StepIsCap(rb, inp, outcome, rb.gates[6], Fold(rb, inp, outcome, 6).value);
  }

  /** env_cap_applied exactly when the action entering AG1 exceeds the environment cap. */
  lemma EnvCapAppliedIff(rb: Rulebook, inp: Input, outcome: StoreOutcome)
    requires Evaluate(rb, inp, outcome).Ok?
    ensures Evaluate(rb, inp, outcome).value.envCapApplied <==>
            Fold(rb, inp, outcome, 1).Ok? && EnvCap(rb, inp.env).Ok?
            && !Fold(rb, inp, outcome, 1).value.action.AtMost(EnvCap(rb, inp.env).value)
  {
    assert forall i :: 0 <= i < 7 && i != 1 ==> rb.gates[i].id != AG1;
    OkPrefix(rb, inp, outcome, 1, 7);
    OkPrefix(rb, inp, outcome, 2, 7);
    EnvFlagFixed(rb, inp, outcome, 1);
    EnvFlagFixed(rb, inp, outcome, 7);
    assert rb.gates[1].id == AG1;
    Ag1IsCap(rb, inp, rb.gates[1], Fold(rb, inp, outcome, 1).value);
  }

  lemma {:induction false} EnvFlagFixed(rb: Rulebook, inp: Input, outcome: StoreOutcome, k: nat)
    requires rb.Ordered() && 1 <= k <= 7 && Fold(rb, inp, outcome, k).Ok?
    ensures k == 1 ==> !Fold(rb, inp, outcome, 1).value.envCapApplied
    ensures k >= 2 ==> Fold(rb, inp, outcome, 2).Ok? && Fold(rb, inp, outcome, k).value.envCapApplied == Fold(rb, inp, outcome, 2).value.envCapApplied
  {
    if k == 1 {
      assert rb.gates[0].id == AG0;
      StepIsCap(rb, inp, outcome, rb.gates[0], Start(inp));
    } else if k > 2 {
      EnvFlagFixed(rb, inp, outcome, k - 1);
      assert rb.gates[k - 1].id == ORDER[k - 1] != AG1;
      StepIsCap(rb, inp, outcome, rb.gates[k - 1], Fold(rb, inp, outcome, k - 1).value);
    }
  }

  /** A well-formed rulebook has a cap for every environment but possibly `harness`, and for every prod tier. */
  lemma WellFormedCaps(rb: Rulebook, inp: Input)
    requires rb.WellFormed()
    ensures EnvCap(rb, inp.env).Ok? <==> inp.env != Harness || EnvName(Harness) in rb.envCaps
    ensures TierCap(rb, inp).Ok?
  {
    if inp.env == Prod { assert inp.tier == Tier0 || inp.tier == Tier1 || inp.tier == Tier2 || inp.tier == UnknownTier; }
  }

  // ---------------------------------------------------------------- when the order of gates does not matter

  /** AG1's cap is not undercut by its own effect, AG3 caps to TICKET or above, AG4 to NOTIFY or above. */
  predicate TameAt(id: GateId, own: Action, onCapApplied: Action) {
    match id
    case AG1 => own == Page || own.AtMost(onCapApplied)
    case AG3 => Ticket.AtMost(own)
    case AG4 => Notify.AtMost(own)
    case _ => true
  }

  predicate Tame(rb: Rulebook, inp: Input, outcome: StoreOutcome, g: GateSpec) {
    TameAt(g.id, StaticCap(rb, inp, outcome, g), EffectCap(g.effect.onCapApplied))
  }

  function Pass(id: GateId, own: Action, onCapApplied: Action, a: Action): Action {
    Reduce(a, CapAt(id, own, onCapApplied, a))
  }

  /** A gate preserves the order of actions exactly when it is tame, and exactly then it is a plain minimum. */
  lemma TameIffMonotone(id: GateId, own: Action, k: Action)
    ensures TameAt(id, own, k) <==> forall a: Action, b: Action :: a.AtMost(b) ==> Pass(id, own, k, a).AtMost(Pass(id, own, k, b))
    ensures TameAt(id, own, k) <==> forall a: Action :: Pass(id, own, k, a) == Reduce(a, own)
  {
    if TameAt(id, own, k) {
      forall a: Action ensures Pass(id, own, k, a) == Reduce(a, own) { TamePasses(id, own, k, a); }
      forall a: Action, b: Action | a.AtMost(b) ensures Pass(id, own, k, a).AtMost(Pass(id, own, k, b)) { ReduceMonotone(a, b, own); }
    } else {
      var low := match id case AG1 => own case AG3 => Ticket case _ => Notify;
      var high := match id case AG1 => Page case AG3 => Page case _ => Ticket;
      assert low.AtMost(high) && !Pass(id, own, k, low).AtMost(Pass(id, own, k, high));
      assert Pass(id, own, k, high) != Reduce(high, own) || Pass(id, own, k, low) != Reduce(low, own);
    }
  }

  lemma TamePasses(id: GateId, own: Action, k: Action, a: Action)
    requires TameAt(id, own, k)
    ensures Pass(id, own, k, a) == Reduce(a, own)
  {
  }

  predicate AllTame(rb: Rulebook, inp: Input, outcome: StoreOutcome) {
    forall i :: 0 <= i < |rb.gates| ==> Tame(rb, inp, outcome, rb.gates[i])
  }

  /** Below the proposed action and below every gate's cap. */
  predicate Allowed(rb: Rulebook, inp: Input, outcome: StoreOutcome, k: nat, a: Action)
    requires k <= |rb.gates|
  {
    a.AtMost(inp.proposed) && forall i :: 0 <= i < k ==> a.AtMost(StaticCap(rb, inp, outcome, rb.gates[i]))
  }

  lemma TameStep(rb: Rulebook, inp: Input, outcome: StoreOutcome, k: nat)
    requires 0 < k <= |rb.gates| && AllTame(rb, inp, outcome)
    ensures Capped(rb, inp, outcome, k) == Reduce(Capped(rb, inp, outcome, k - 1), StaticCap(rb, inp, outcome, rb.gates[k - 1]))
  {
    var g, before := rb.gates[k - 1], Capped(rb, inp, outcome, k - 1);
    assert Tame(rb, inp, outcome, g);
    TameIffMonotone(g.id, StaticCap(rb, inp, outcome, g), EffectCap(g.effect.onCapApplied));
    assert Pass(g.id, StaticCap(rb, inp, outcome, g), EffectCap(g.effect.onCapApplied), before) == Reduce(before, StaticCap(rb, inp, outcome, g));
  }

  lemma {:induction false} CappedIsGreatest(rb: Rulebook, inp: Input, outcome: StoreOutcome, k: nat, a: Action)
    requires k <= |rb.gates| && AllTame(rb, inp, outcome)
    ensures a.AtMost(Capped(rb, inp, outcome, k)) <==> Allowed(rb, inp, outcome, k, a)
  {
    if k > 0 {
      CappedIsGreatest(rb, inp, outcome, k - 1, a);
      TameStep(rb, inp, outcome, k);
      var own := StaticCap(rb, inp, outcome, rb.gates[k - 1]);
      AllowedStep(rb, inp, outcome, k, a, own);
      LowerOfTwo(Capped(rb, inp, outcome, k - 1), own, a);
    }
  }

  lemma LowerOfTwo(x: Action, y: Action, a: Action)
    ensures a.AtMost(Reduce(x, y)) <==> a.AtMost(x) && a.AtMost(y)
  {
  }

  lemma AllowedStep(rb: Rulebook, inp: Input, outcome: StoreOutcome, k: nat, a: Action, own: Action)
    requires 0 < k <= |rb.gates| && own == StaticCap(rb, inp, outcome, rb.gates[k - 1])
    ensures Allowed(rb, inp, outcome, k, a) <==> Allowed(rb, inp, outcome, k - 1, a) && a.AtMost(own)
  {
  }

  /** With tame gates the final action is the greatest action allowed by the proposal and by all seven caps, in any
      order. */
  lemma FinalIsGreatestAllowed(rb: Rulebook, inp: Input, outcome: StoreOutcome)
    requires Evaluate(rb, inp, outcome).Ok? && AllTame(rb, inp, outcome)
    ensures var d := Evaluate(rb, inp, outcome).value.finalAction;
            Allowed(rb, inp, outcome, 7, d) && forall a: Action :: Allowed(rb, inp, outcome, 7, a) ==> a.AtMost(d)
  {
    FoldIsCapped(rb, inp, outcome, 7);
    forall a: Action ensures a.AtMost(Capped(rb, inp, outcome, 7)) <==> Allowed(rb, inp, outcome, 7, a) {
      CappedIsGreatest(rb, inp, outcome, 7, a);
    }
  }

  /** With tame gates a higher proposal never ends lower. */
  lemma MonotoneInProposal(rb: Rulebook, inp: Input, outcome: StoreOutcome, higher: Action)
    requires AllTame(rb, inp, outcome) && inp.proposed.AtMost(higher)
    requires Evaluate(rb, inp, outcome).Ok? && Evaluate(rb, inp.(proposed := higher), outcome).Ok?
    ensures Evaluate(rb, inp, outcome).value.finalAction.AtMost(Evaluate(rb, inp.(proposed := higher), outcome).value.finalAction)
  {
    var inp' := inp.(proposed := higher);
    forall i | 0 <= i < |rb.gates|
      ensures StaticCap(rb, inp', outcome, rb.gates[i]) == StaticCap(rb, inp, outcome, rb.gates[i])
      ensures Tame(rb, inp', outcome, rb.gates[i])
    {
      SameConditions(rb, inp, outcome, rb.gates[i], higher);
      assert Tame(rb, inp, outcome, rb.gates[i]);
    }
    FinalIsGreatestAllowed(rb, inp, outcome);
    FinalIsGreatestAllowed(rb, inp', outcome);
  }

  lemma {:induction false} SameChecks(checks: seq<Check>, inp: Input, higher: Action)
    ensures FailedChecks(checks, inp.(proposed := higher)) == FailedChecks(checks, inp)
  {
    if checks != [] { SameChecks(checks[..|checks| - 1], inp, higher); }
  }

  lemma SameEvidence(inp: Input, higher: Action)
    ensures InsufficientEvidence(inp.(proposed := higher)) == InsufficientEvidence(inp)
  {
    var inp' := inp.(proposed := higher);
    assert HasPrimary(inp') == HasPrimary(inp);
    assert forall f :: Relevant(inp', f) == Relevant(inp, f);
    assert forall f, key :: EvidenceOk(inp', f, key) == EvidenceOk(inp, f, key);
  }

  lemma SameConditions(rb: Rulebook, inp: Input, outcome: StoreOutcome, g: GateSpec, higher: Action)
    ensures StaticCap(rb, inp.(proposed := higher), outcome, g) == StaticCap(rb, inp, outcome, g)
  {
    var inp' := inp.(proposed := higher);
    match g.id
    case AG0 => assert Ag0Valid(inp') == Ag0Valid(inp);
    case AG1 => assert PolicyCap(rb, inp') == PolicyCap(rb, inp);
    case AG2 => SameEvidence(inp, higher);
    case AG4 => SameChecks(g.checks, inp, higher);
    case _ =>
  }

  // ---------------------------------------------------------------- when an evaluation succeeds

  predicate Sound(e: Option<Effect>) { e.Some? ==> e.value.cap != BadCap }

  /** Every effect names a known action. */
  predicate SoundEffects(e: Effects) {
    Sound(e.onFail) && Sound(e.onCapApplied) && Sound(e.onDuplicate) && Sound(e.onStoreError)
  }

  lemma {:induction false} FoldSucceeds(rb: Rulebook, inp: Input, outcome: StoreOutcome, k: nat)
    requires rb.Ordered() && k <= 7 && EnvCap(rb, inp.env).Ok? && TierCap(rb, inp).Ok? && Ag4Codes(rb.gates[4].checks, inp).Ok?
    requires forall i :: 0 <= i < 7 ==> SoundEffects(rb.gates[i].effect)
    ensures Fold(rb, inp, outcome, k).Ok?
  {
    if k > 0 {
      FoldSucceeds(rb, inp, outcome, k - 1);
      StepSucceeds(rb, inp, outcome, rb.gates[k - 1], Fold(rb, inp, outcome, k - 1).value);
    }
  }

  lemma StepSucceeds(rb: Rulebook, inp: Input, outcome: StoreOutcome, g: GateSpec, s: State)
    requires EnvCap(rb, inp.env).Ok? && TierCap(rb, inp).Ok? && (g.id == AG4 ==> Ag4Codes(g.checks, inp).Ok?)
    requires SoundEffects(g.effect)
    ensures Step(rb, inp, outcome, g, s).Ok?
  {
  }

  /** A well-formed rulebook whose effects name known actions and whose AG4 checks are usable never raises, except in
      `harness` when that environment has no cap. */
  lemma EvaluateSucceeds(rb: Rulebook, inp: Input, outcome: StoreOutcome)
    requires rb.WellFormed() && rb.Ordered() && (inp.env == Harness ==> EnvName(Harness) in rb.envCaps)
    requires Ag4Codes(rb.gates[4].checks, inp).Ok? && forall i :: 0 <= i < 7 ==> SoundEffects(rb.gates[i].effect)
    ensures Evaluate(rb, inp, outcome).Ok?
  {
    WellFormedCaps(rb, inp);
    FoldSucceeds(rb, inp, outcome, 7);
  }

  // ---------------------------------------------------------------- the shipped rulebook

  const NO_EFFECTS := Effects(None, None, None, None, None)
  function CapEffect(cap: Cap, codes: seq<string>): Option<Effect> { Some(Effect(cap, codes, KeepMode, None, [])) }

  /** config/policies/rulebook-v1.yaml */
  function Shipped(): Rulebook {
    Rulebook("1",
             map[EnvName(Local) := Observe, EnvName(Harness) := Observe, EnvName(Dev) := Notify, EnvName(Uat) := Ticket, EnvName(Prod) := Page],
             map[Tier0 := Page, Tier1 := Ticket, Tier2 := Notify, UnknownTier := Notify],
             {"SOURCE_TOPIC"},
             [ GateSpec(AG0, NO_EFFECTS.(onFail := Some(Effect(CapTo(Observe), ["AG0_INVALID_INPUT"], ClearMode, None, []))), []),
               GateSpec(AG1, NO_EFFECTS.(onCapApplied := CapEffect(NoCap, ["AG1_ENV_OR_TIER_CAP"])), []),
               GateSpec(AG2, NO_EFFECTS.(onFail := CapEffect(CapTo(Notify), ["AG2_INSUFFICIENT_EVIDENCE"])), []),
               GateSpec(AG3, NO_EFFECTS.(onFail := CapEffect(CapTo(Ticket), ["AG3_PAGING_DENIED_SOURCE_TOPIC"])), []),
               GateSpec(AG4, NO_EFFECTS.(onFail := CapEffect(CapTo(Observe), [])), SHIPPED_CHECKS),
               GateSpec(AG5, NO_EFFECTS.(onDuplicate := CapEffect(CapTo(Observe), ["AG5_DUPLICATE_SUPPRESSED"]),
                                         onStoreError := CapEffect(CapTo(Notify), ["AG5_DEDUPE_STORE_ERROR"])), []),
               GateSpec(AG6, NO_EFFECTS.(onPass := Some(Effect(NoCap, [], KeepMode, Some(true), ["PM_PEAK_SUSTAINED"])),
                                         onFail := Some(Effect(NoCap, [], KeepMode, Some(false), []))), []) ])
  }

  const SHIPPED_CHECKS := [MinConfidence(Some(0.6), "LOW_CONFIDENCE"), SustainedEquals(Some(true), "NOT_SUSTAINED")]

  /** The codes of the two shipped checks. */
  lemma ShippedFailedChecks(inp: Input)
    ensures FailedChecks(SHIPPED_CHECKS, inp) ==
            Ok((if inp.confidence < 0.6 then ["LOW_CONFIDENCE"] else []) + (if !inp.sustained then ["NOT_SUSTAINED"] else []))
    ensures HasBothChecks(SHIPPED_CHECKS)
  {
    var cs := SHIPPED_CHECKS;
    assert cs[0].MinConfidence? && cs[1].SustainedEquals?;
    assert cs[..1] == [cs[0]] && [cs[0]][..0] == [];
    assert FailedChecks([], inp) == Ok([]);
    var low: seq<string> := if inp.confidence < 0.6 then ["LOW_CONFIDENCE"] else [];
    assert [] + low == low;
    assert FailedChecks([cs[0]], inp) == Ok(low);
  }

  lemma UniqueEmptyIff(codes: seq<string>)
    ensures Unique(codes) == [] <==> codes == []
  {
    assert codes != [] ==> codes[0] in Unique(codes);
  }

  /** With the shipped AG4 checks a failure is exactly low confidence or a streak that is not sustained. */
  lemma ShippedAg4FailsIff(inp: Input)
    ensures Ag4Fails(inp, Shipped().gates[4]) <==> inp.confidence < 0.6 || !inp.sustained
    ensures Ag4Codes(Shipped().gates[4].checks, inp).Ok?
  {
    ShippedFailedChecks(inp);
    UniqueEmptyIff(FailedChecks(SHIPPED_CHECKS, inp).value);
  }

  lemma ShippedShape()
    ensures Shipped().Ordered() && Shipped().WellFormed()
  {
  }

  lemma ShippedSound()
    ensures forall i :: 0 <= i < |Shipped().gates| ==> SoundEffects(Shipped().gates[i].effect)
  {
  }

  lemma TameByParts(rb: Rulebook, inp: Input, outcome: StoreOutcome)
    requires rb.Ordered() && Tame(rb, inp, outcome, rb.gates[1]) && Tame(rb, inp, outcome, rb.gates[3])
    ensures AllTame(rb, inp, outcome) <==> Tame(rb, inp, outcome, rb.gates[4])
  {
    forall i | 0 <= i < 7 && i != 1 && i != 3 && i != 4 ensures Tame(rb, inp, outcome, rb.gates[i]) {
      assert rb.gates[i].id == ORDER[i];
      OthersAreTame(rb, inp, outcome, rb.gates[i]);
    }
  }

  lemma OthersAreTame(rb: Rulebook, inp: Input, outcome: StoreOutcome, g: GateSpec)
    requires g.id != AG1 && g.id != AG3 && g.id != AG4
    ensures Tame(rb, inp, outcome, g)
  {
  }

  /** The shipped rulebook is tame for exactly the inputs that pass AG4; it is monotone for more (see
      ShippedMonotoneIff). */
  lemma ShippedTameIff(inp: Input, outcome: StoreOutcome)
    ensures AllTame(Shipped(), inp, outcome) <==> inp.confidence >= 0.6 && inp.sustained
  {
    ShippedAg4FailsIff(inp);
    ShippedCaps();
    ShippedLikeTameIff(Shipped(), inp, outcome);
  }

  lemma ShippedLikeTameIff(rb: Rulebook, inp: Input, outcome: StoreOutcome)
    requires ShippedLike(rb)
    ensures AllTame(rb, inp, outcome) <==> !Ag4Fails(inp, rb.gates[4])
  {
    assert rb.gates[1].id == AG1 && rb.gates[3].id == AG3 && rb.gates[4].id == AG4;
    assert Tame(rb, inp, outcome, rb.gates[1]) && Tame(rb, inp, outcome, rb.gates[3]);
    TameByParts(rb, inp, outcome);
  }

  /** The caps of the shipped rulebook, without its texts. */
  predicate ShippedLike(rb: Rulebook) {
    && rb.Ordered()
    && EffectCap(rb.gates[0].effect.onFail) == Observe && EffectCap(rb.gates[1].effect.onCapApplied) == Page
    && EffectCap(rb.gates[2].effect.onFail) == Notify && EffectCap(rb.gates[3].effect.onFail) == Ticket
    && EffectCap(rb.gates[4].effect.onFail) == Observe && UsableDuplicateEffect(rb.gates[5])
    && EffectCap(rb.gates[5].effect.onDuplicate) == Observe && EffectCap(rb.gates[5].effect.onStoreError) == Notify
  }

  lemma ShippedCaps()
    ensures ShippedLike(Shipped()) && Shipped().gates[4].checks == SHIPPED_CHECKS
  {
    ShippedShape();
  }

  // ---------------------------------------------------------------- exactly when the shipped rulebook is monotone

  /** The caps of AG0, AG1 and AG2 together. */
  function Limit(rb: Rulebook, inp: Input): Action {
    Reduce(Reduce(if Ag0Valid(inp) then Page else Observe, PolicyCap(rb, inp)), if InsufficientEvidence(inp) then Notify else Page)
  }

  function ShippedOutcomeCap(outcome: StoreOutcome): Action {
    match outcome case Fresh => Page case Duplicate => Observe case NoStore => Notify case StoreError => Notify
  }

  /** AG4 as the shipped rulebook has it: TICKET and PAGE fall to OBSERVE. */
  function Drop(fails: bool, a: Action): Action { if fails && Ticket.AtMost(a) then Observe else a }

  function Deny(denied: bool, a: Action): Action { if denied then Reduce(a, Ticket) else a }

  /** What the shipped rulebook does to an action, in one line. */
  function ClosedForm(limit: Action, denied: bool, fails: bool, cap: Action, a: Action): Action {
    Reduce(Drop(fails, Deny(denied, Reduce(a, limit))), cap)
  }

  /** One tame gate with a known cap. */
  lemma TameGateAt(rb: Rulebook, inp: Input, outcome: StoreOutcome, k: nat, own: Action)
    requires k < |rb.gates| && own == StaticCap(rb, inp, outcome, rb.gates[k])
    requires TameAt(rb.gates[k].id, own, EffectCap(rb.gates[k].effect.onCapApplied))
    ensures Capped(rb, inp, outcome, k + 1) == Reduce(Capped(rb, inp, outcome, k), own)
  {
    var g, before := rb.gates[k], Capped(rb, inp, outcome, k);
    TameIffMonotone(g.id, own, EffectCap(g.effect.onCapApplied));
    assert Pass(g.id, own, EffectCap(g.effect.onCapApplied), before) == Reduce(before, own);
  }

  lemma FirstGates(rb: Rulebook, inp: Input, outcome: StoreOutcome)
    requires ShippedLike(rb)
    ensures Capped(rb, inp, outcome, 3) == Reduce(inp.proposed, Limit(rb, inp))
  {
    assert rb.gates[0].id == AG0 && rb.gates[1].id == AG1 && rb.gates[2].id == AG2;
    var zeroth, second := if Ag0Valid(inp) then Page else Observe, if InsufficientEvidence(inp) then Notify else Page;
    TameGateAt(rb, inp, outcome, 0, zeroth);
    TameGateAt(rb, inp, outcome, 1, PolicyCap(rb, inp));
    TameGateAt(rb, inp, outcome, 2, second);
    assert Capped(rb, inp, outcome, 0) == inp.proposed;
    ReduceAssociates(inp.proposed, zeroth, PolicyCap(rb, inp));
    ReduceAssociates(inp.proposed, Reduce(zeroth, PolicyCap(rb, inp)), second);
  }

  lemma ReduceAssociates(a: Action, x: Action, y: Action)
    ensures Reduce(Reduce(a, x), y) == Reduce(a, Reduce(x, y))
  {
  }

  lemma Ag3At(rb: Rulebook, inp: Input, outcome: StoreOutcome)
    requires |rb.gates| == 7 && rb.gates[3].id == AG3 && EffectCap(rb.gates[3].effect.onFail) == Ticket
    ensures Capped(rb, inp, outcome, 4) == Deny(inp.topicRole in rb.pagingDenied, Capped(rb, inp, outcome, 3))
  {
    TameGateAt(rb, inp, outcome, 3, if inp.topicRole in rb.pagingDenied then Ticket else Page);
  }

  lemma Ag4At(rb: Rulebook, inp: Input, outcome: StoreOutcome)
    requires |rb.gates| == 7 && rb.gates[4].id == AG4 && EffectCap(rb.gates[4].effect.onFail) == Observe
    ensures Capped(rb, inp, outcome, 5) == Drop(Ag4Fails(inp, rb.gates[4]), Capped(rb, inp, outcome, 4))
  {
    var before := Capped(rb, inp, outcome, 4);
    assert Capped(rb, inp, outcome, 5) == Reduce(before, GateCap(rb, inp, outcome, rb.gates[4], before));
  }

  lemma LastGates(rb: Rulebook, inp: Input, outcome: StoreOutcome)
    requires ShippedLike(rb)
    ensures Capped(rb, inp, outcome, 7) == Reduce(Capped(rb, inp, outcome, 5), ShippedOutcomeCap(outcome))
  {
    assert rb.gates[5].id == AG5 && rb.gates[6].id == AG6;
    TameGateAt(rb, inp, outcome, 5, ShippedOutcomeCap(outcome));
    TameGateAt(rb, inp, outcome, 6, Page);
  }

  /** Every evaluation under the shipped rulebook succeeds, with the closed form as its action. */
  lemma ShippedClosedForm(inp: Input, outcome: StoreOutcome)
    ensures Evaluate(Shipped(), inp, outcome).Ok?
    ensures Evaluate(Shipped(), inp, outcome).value.finalAction ==
            ClosedForm(Limit(Shipped(), inp), inp.topicRole in Shipped().pagingDenied, inp.confidence < 0.6 || !inp.sustained,
                       ShippedOutcomeCap(outcome), inp.proposed)
  {
    ShippedShape();
    ShippedCaps();
    ShippedAg4FailsIff(inp);
    ShippedSound();
    assert EnvName(Harness) in Shipped().envCaps;
    EvaluateSucceeds(Shipped(), inp, outcome);
    FoldIsCapped(Shipped(), inp, outcome, 7);
    FirstGates(Shipped(), inp, outcome);
    Ag3At(Shipped(), inp, outcome);
    Ag4At(Shipped(), inp, outcome);
    LastGates(Shipped(), inp, outcome);
  }

  ghost predicate ClosedFormMonotone(limit: Action, denied: bool, fails: bool, cap: Action) {
    forall a: Action, b: Action :: a.AtMost(b) ==> ClosedForm(limit, denied, fails, cap, a).AtMost(ClosedForm(limit, denied, fails, cap, b))
  }

  /** The closed form drops from NOTIFY to OBSERVE exactly when AG4 fails, TICKET gets that far and NOTIFY would pass. */
  lemma ClosedFormMonotoneIff(limit: Action, denied: bool, fails: bool, cap: Action)
    ensures ClosedFormMonotone(limit, denied, fails, cap) <==> !(fails && Ticket.AtMost(limit) && cap != Observe)
  {
    if fails && Ticket.AtMost(limit) && cap != Observe {
      assert Notify.AtMost(Ticket) && ClosedForm(limit, denied, fails, cap, Ticket) == Observe && ClosedForm(limit, denied, fails, cap, Notify) == Notify;
    } else if !fails {
      forall a: Action, b: Action | a.AtMost(b)
        ensures ClosedForm(limit, denied, fails, cap, a).AtMost(ClosedForm(limit, denied, fails, cap, b))
      {
        ReduceMonotone(a, b, limit);
        ReduceMonotone(Reduce(a, limit), Reduce(b, limit), Ticket);
        ReduceMonotone(Deny(denied, Reduce(a, limit)), Deny(denied, Reduce(b, limit)), cap);
      }
    } else if !Ticket.AtMost(limit) {
      forall a: Action, b: Action | a.AtMost(b)
        ensures ClosedForm(limit, denied, fails, cap, a).AtMost(ClosedForm(limit, denied, fails, cap, b))
      {
        ReduceMonotone(a, b, limit);
        ReduceMonotone(Reduce(a, limit), Reduce(b, limit), cap);
      }
    }
  }

  lemma ReduceMonotone(a: Action, b: Action, cap: Action)
    requires a.AtMost(b)
    ensures Reduce(a, cap).AtMost(Reduce(b, cap))
  {
  }

  function FinalFor(inp: Input, outcome: StoreOutcome, a: Action): Action {
    var d := Evaluate(Shipped(), inp.(proposed := a), outcome);
    if d.Ok? then d.value.finalAction else Observe
  }

  ghost predicate ShippedMonotone(inp: Input, outcome: StoreOutcome) {
    forall a: Action, b: Action :: a.AtMost(b) ==> FinalFor(inp, outcome, a).AtMost(FinalFor(inp, outcome, b))
  }

  /** For every input and store outcome, the shipped rulebook is monotone in the proposal unless the input fails AG4,
      passes AG0 and AG2, may reach TICKET under the environment and tier caps, and is not a duplicate; it never raises. */
  lemma ShippedMonotoneIff(inp: Input, outcome: StoreOutcome)
    ensures forall a: Action :: Evaluate(Shipped(), inp.(proposed := a), outcome).Ok?
    ensures ShippedMonotone(inp, outcome) <==>
            !(&& (inp.confidence < 0.6 || !inp.sustained) && Ag0Valid(inp) && !InsufficientEvidence(inp)
              && Ticket.AtMost(PolicyCap(Shipped(), inp)) && outcome != Duplicate)
  {
    var fails, denied, cap := inp.confidence < 0.6 || !inp.sustained, inp.topicRole in Shipped().pagingDenied, ShippedOutcomeCap(outcome);
    var limit := Limit(Shipped(), inp);
    forall a: Action
      ensures Evaluate(Shipped(), inp.(proposed := a), outcome).Ok?
      ensures FinalFor(inp, outcome, a) == ClosedForm(limit, denied, fails, cap, a)
    {
      FinalIsClosedForm(inp, outcome, a);
    }
    ClosedFormMonotoneIff(limit, denied, fails, cap);
    LimitAllowsTicketIff(inp);
  }

  /** Throughout the failing family, proposing NOTIFY ends NOTIFY and proposing more ends OBSERVE. */
  lemma ShippedNotMonotone(inp: Input, outcome: StoreOutcome, higher: Action)
    requires (inp.confidence < 0.6 || !inp.sustained) && Ag0Valid(inp) && !InsufficientEvidence(inp)
    requires Ticket.AtMost(PolicyCap(Shipped(), inp)) && outcome != Duplicate && Ticket.AtMost(higher)
    ensures FinalFor(inp, outcome, Notify) == Notify && FinalFor(inp, outcome, higher) == Observe
  {
    FinalIsClosedForm(inp, outcome, Notify);
    FinalIsClosedForm(inp, outcome, higher);
    LimitAllowsTicketIff(inp);
  }

  lemma FinalIsClosedForm(inp: Input, outcome: StoreOutcome, a: Action)
    ensures FinalFor(inp, outcome, a) ==
            ClosedForm(Limit(Shipped(), inp), inp.topicRole in Shipped().pagingDenied, inp.confidence < 0.6 || !inp.sustained, ShippedOutcomeCap(outcome), a)
    ensures Evaluate(Shipped(), inp.(proposed := a), outcome).Ok?
  {
    ShippedClosedForm(inp.(proposed := a), outcome);
    SameLimit(inp, a);
  }

  lemma SameLimit(inp: Input, a: Action)
    ensures Limit(Shipped(), inp.(proposed := a)) == Limit(Shipped(), inp)
  {
    SameEvidence(inp, a);
    assert PolicyCap(Shipped(), inp.(proposed := a)) == PolicyCap(Shipped(), inp);
    assert Ag0Valid(inp.(proposed := a)) == Ag0Valid(inp);
  }

  lemma LimitAllowsTicketIff(inp: Input)
    ensures Ticket.AtMost(Limit(Shipped(), inp)) <==> Ag0Valid(inp) && !InsufficientEvidence(inp) && Ticket.AtMost(PolicyCap(Shipped(), inp))
  {
    LowerOfTwo(if Ag0Valid(inp) then Page else Observe, PolicyCap(Shipped(), inp), Ticket);
  }

  // ---------------------------------------------------------------- evidence

  /** The evidence key is PRESENT in the map. */
  predicate IsPresent(inp: Input, key: string) { key in inp.evidence && inp.evidence[key] == Present }

  /** The finding tolerates the key's status, which is UNKNOWN when the key is missing. */
  predicate Tolerates(f: Finding, inp: Input, key: string) {
    key in f.allowed && if key in inp.evidence then inp.evidence[key] in f.allowed[key] else Unknown in f.allowed[key]
  }

  /** The finding counts for AG2: it is anomalous, and primary unless no anomalous finding is. */
  predicate Counts(inp: Input, f: Finding) {
    f.isAnomalous && (f.isPrimary || forall i :: 0 <= i < |inp.findings| && inp.findings[i].isAnomalous ==> !inp.findings[i].isPrimary)
  }

  /** Evidence is insufficient if and only if some counting finding requires a key that is missing or not PRESENT and
      whose status the finding does not tolerate. */
  lemma InsufficientIff(inp: Input)
    ensures InsufficientEvidence(inp) <==>
            exists i, j :: 0 <= i < |inp.findings| && Counts(inp, inp.findings[i])
                           && 0 <= j < |inp.findings[i].evidenceRequired|
                           && !IsPresent(inp, inp.findings[i].evidenceRequired[j])
                           && !Tolerates(inp.findings[i], inp, inp.findings[i].evidenceRequired[j])
  {
    forall i | 0 <= i < |inp.findings| ensures Relevant(inp, inp.findings[i]) <==> Counts(inp, inp.findings[i]) {
      RelevantIff(inp, inp.findings[i]);
    }
    forall i, j | 0 <= i < |inp.findings| && 0 <= j < |inp.findings[i].evidenceRequired|
      ensures var f := inp.findings[i]; var key := f.evidenceRequired[j];
              EvidenceOk(inp, f, key) <==> IsPresent(inp, key) || Tolerates(f, inp, key)
    {
    }
  }

  lemma RelevantIff(inp: Input, f: Finding)
    ensures Relevant(inp, f) <==> Counts(inp, f)
  {
  }

  /** Missing evidence is never taken for present: under the shipped rulebook an input with a counting finding that
      requires a missing key and does not tolerate UNKNOWN for it ends at NOTIFY or below. */
  lemma MissingEvidenceNeverEscalates(inp: Input, outcome: StoreOutcome, i: nat, j: nat)
    requires i < |inp.findings| && Counts(inp, inp.findings[i]) && j < |inp.findings[i].evidenceRequired|
    requires var f := inp.findings[i]; var key := f.evidenceRequired[j];
             key !in inp.evidence && (key in f.allowed ==> Unknown !in f.allowed[key])
    ensures Evaluate(Shipped(), inp, outcome).Ok? && Evaluate(Shipped(), inp, outcome).value.finalAction.AtMost(Notify)
  {
    InsufficientIff(inp);
    ShippedClosedForm(inp, outcome);
    LimitBelowNotify(inp);
  }

  lemma LimitBelowNotify(inp: Input)
    requires InsufficientEvidence(inp)
    ensures Limit(Shipped(), inp).AtMost(Notify)
  {
  }

  /** What the shipped rulebook does about evidence at every status: PRESENT everywhere is always enough. */
  lemma PresentIsEnough(inp: Input)
    requires forall i, j :: 0 <= i < |inp.findings| && 0 <= j < |inp.findings[i].evidenceRequired| ==> IsPresent(inp, inp.findings[i].evidenceRequired[j])
    ensures !InsufficientEvidence(inp)
  {
    InsufficientIff(inp);
  }

  // ---------------------------------------------------------------- postmortems

  /** For every rulebook: a postmortem that is not required has no mode and no codes, and a required one has a mode. */
  lemma PostmortemNormalised(rb: Rulebook, inp: Input, outcome: StoreOutcome)
    requires Evaluate(rb, inp, outcome).Ok?
    ensures var d := Evaluate(rb, inp, outcome).value;
            && (!d.required ==> d.mode.None? && d.postmortemCodes == [])
            && (d.required ==> d.mode.Some?)
  {
  }

  /** No effect that AG0 to AG5 can apply decides about postmortems. */
  predicate LeavesRequired(e: Option<Effect>) { e.Some? ==> e.value.setRequired.None? }

  predicate OnlyAg6Decides(rb: Rulebook)
    requires rb.Ordered()
  {
    forall i :: 0 <= i < 6 ==> Undecided(rb.gates[i])
  }

  lemma ApplyLeavesRequired(s: State, e: Option<Effect>, allow: bool, mark: bool)
    requires Apply(s, e, allow, mark).Ok? && LeavesRequired(e)
    ensures Apply(s, e, allow, mark).value.required == s.required && Apply(s, e, allow, mark).value.inputValid == s.inputValid
  {
  }

  /** The flags AG6 looks at, after the first k gates. */
  lemma {:induction false} FlagsBeforeAg6(rb: Rulebook, inp: Input, outcome: StoreOutcome, k: nat)
    requires rb.Ordered() && OnlyAg6Decides(rb) && k <= 6 && Fold(rb, inp, outcome, k).Ok?
    ensures var s := Fold(rb, inp, outcome, k).value; !s.required && (k >= 1 ==> s.inputValid == Ag0Valid(inp))
  {
    if k > 0 {
      FlagsBeforeAg6(rb, inp, outcome, k - 1);
      assert rb.gates[k - 1].id == ORDER[k - 1] != AG6;
      StepFlags(rb, inp, outcome, rb.gates[k - 1], Fold(rb, inp, outcome, k - 1).value);
    }
  }

  /** The effects a gate may apply leave the postmortem decision alone. */
  predicate Undecided(g: GateSpec) {
    LeavesRequired(g.effect.onFail) && LeavesRequired(g.effect.onCapApplied) && LeavesRequired(g.effect.onDuplicate) && LeavesRequired(g.effect.onStoreError)
  }

  lemma StepFlags(rb: Rulebook, inp: Input, outcome: StoreOutcome, g: GateSpec, s: State)
    requires g.id != AG6 && Step(rb, inp, outcome, g, s).Ok? && Undecided(g)
    ensures var s' := Step(rb, inp, outcome, g, s).value;
            s'.required == s.required && s'.inputValid == (if g.id == AG0 && !Ag0Valid(inp) then false else s.inputValid)
  {
    match g.id
    case AG0 => if !Ag0Valid(inp) { ApplyLeavesRequired(s.(inputValid := false), g.effect.onFail, true, false); }
    case AG1 => Ag1Flags(rb, inp, g, s);
    case AG4 => if !s.action.AtMost(Notify) && Ag4Fails(inp, g) { ApplyLeavesRequired(s, g.effect.onFail, true, false); }
    case AG5 => Ag5Flags(g, outcome, s);
    case _ => if Apply(s, g.effect.onFail, true, false).Ok? { ApplyLeavesRequired(s, g.effect.onFail, true, false); }
  }

  lemma Ag1Flags(rb: Rulebook, inp: Input, g: GateSpec, s: State)
    requires StepAg1(rb, inp, g, s).Ok? && LeavesRequired(g.effect.onCapApplied)
    ensures StepAg1(rb, inp, g, s).value.required == s.required && StepAg1(rb, inp, g, s).value.inputValid == s.inputValid
  {
  }

  lemma Ag5Flags(g: GateSpec, outcome: StoreOutcome, s: State)
    requires StepAg5(g, outcome, s).Ok? && LeavesRequired(g.effect.onDuplicate) && LeavesRequired(g.effect.onStoreError)
    ensures StepAg5(g, outcome, s).value.required == s.required && StepAg5(g, outcome, s).value.inputValid == s.inputValid
  {
  }

  /** A rulebook whose AG6 alone decides requires a postmortem exactly for valid, sustained prod tier-0 inputs in a
      peak window. */
  lemma PostmortemIff(rb: Rulebook, inp: Input, outcome: StoreOutcome)
    requires Evaluate(rb, inp, outcome).Ok? && OnlyAg6Decides(rb)
    requires rb.gates[6].effect.onPass.Some? && rb.gates[6].effect.onPass.value.setRequired == Some(true)
    requires rb.gates[6].effect.onFail.Some? && rb.gates[6].effect.onFail.value.setRequired == Some(false)
    ensures Evaluate(rb, inp, outcome).value.required <==>
            Ag0Valid(inp) && inp.env == Prod && inp.tier == Tier0 && inp.peak == Some(true) && inp.sustained
  {
    OkPrefix(rb, inp, outcome, 6, 7);
    FlagsBeforeAg6(rb, inp, outcome, 6);
    assert rb.gates[6].id == AG6;
  }

  /** The shipped rulebook is one of those. */
  lemma ShippedPostmortemIff(inp: Input, outcome: StoreOutcome)
    ensures Evaluate(Shipped(), inp, outcome).Ok?
    ensures Evaluate(Shipped(), inp, outcome).value.required <==>
            Ag0Valid(inp) && inp.env == Prod && inp.tier == Tier0 && inp.peak == Some(true) && inp.sustained
  {
    ShippedClosedForm(inp, outcome);
    ShippedDecides();
    PostmortemIff(Shipped(), inp, outcome);
  }

  lemma ShippedUndecided()
    ensures forall i :: 0 <= i < 6 ==> Undecided(Shipped().gates[i])
  {
    var gates := Shipped().gates;
    assert Undecided(gates[0]) && Undecided(gates[1]) && Undecided(gates[2]);
    assert Undecided(gates[3]) && Undecided(gates[4]) && Undecided(gates[5]);
  }

  lemma ShippedDecides()
    ensures Shipped().Ordered() && OnlyAg6Decides(Shipped())
    ensures var e := Shipped().gates[6].effect;
            e.onPass.Some? && e.onPass.value.setRequired == Some(true) && e.onFail.Some? && e.onFail.value.setRequired == Some(false)
  {
    ShippedShape();
    ShippedUndecided();
  }
}
