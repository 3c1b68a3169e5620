/** What a gate decision says besides its action: reason codes and postmortem fields (pipeline/stages/gating.py). */
module GateReasons {
  import opened Wrappers
  import opened Text
  import opened Lists
  import opened Gating
  import opened GateLaws

  // ---------------------------------------------------------------- one effect

  /** What applying an effect records: its codes after those already there; the mode cleared, set or kept; the
      requirement it decides, if any; and its postmortem codes, after dropping the earlier ones when it decides against. */
  lemma EffectRecords(s: State, e: Effect, allow: bool, mark: bool)
    requires Apply(s, Some(e), allow, mark).Ok?
    ensures var s' := Apply(s, Some(e), allow, mark).value;
            && s'.codes == s.codes + e.codes && s'.inputValid == s.inputValid
            && (e.force.KeepMode? ==> s'.mode == s.mode) && (e.force.ClearMode? ==> s'.mode.None?)
            && (e.force.SetMode? ==> s'.mode == Some(e.force.mode))
            && (e.setRequired.None? ==> s'.required == s.required) && (e.setRequired.Some? ==> s'.required == e.setRequired.value)
            && (e.setRequired == Some(false) ==> s'.postmortemCodes == e.postmortemCodes)
            && (e.setRequired != Some(false) ==> s'.postmortemCodes == s.postmortemCodes + e.postmortemCodes)
  {
  }

  // ---------------------------------------------------------------- reason codes

  function CodesOf(e: Option<Effect>): seq<string> { if e.Some? then e.value.codes else [] }

  /** The codes a gate contributes when the action entering it is `a`. */
  function GateCodes(rb: Rulebook, inp: Input, outcome: StoreOutcome, g: GateSpec, a: Action): seq<string> {
    match g.id
    case AG0 => if Strip(inp.fingerprint) == "" || inp.findings == [] then CodesOf(g.effect.onFail) else []
    case AG1 => if a.AtMost(PolicyCap(rb, inp)) then [] else CodesOf(g.effect.onCapApplied)
    case AG2 => if InsufficientEvidence(inp) then CodesOf(g.effect.onFail) else []
    case AG3 => if inp.topicRole in rb.pagingDenied && a == Page then CodesOf(g.effect.onFail) else []
    case AG4 => if Ticket.AtMost(a) && Ag4Fails(inp, g) then CodesOf(g.effect.onFail) + Ag4Codes(g.checks, inp).value else []
    case AG5 =>
      if a == Observe || outcome == Fresh then []
      else if outcome == Duplicate && UsableDuplicateEffect(g) then CodesOf(g.effect.onDuplicate)
      else CodesOf(g.effect.onStoreError)
    case AG6 =>
      if Strip(inp.fingerprint) != "" && inp.findings != [] && inp.env == Prod && inp.tier == Tier0
      then CodesOf(if inp.peak == Some(true) && inp.sustained then g.effect.onPass else g.effect.onFail)
      else []
  }

  lemma ApplyCodes(s: State, e: Option<Effect>, allow: bool, mark: bool)
    requires Apply(s, e, allow, mark).Ok?
    ensures Apply(s, e, allow, mark).value.codes == s.codes + CodesOf(e) && Apply(s, e, allow, mark).value.inputValid == s.inputValid
  {
    if e.Some? { EffectRecords(s, e.value, allow, mark); } else { assert s.codes + [] == s.codes; }
  }

  lemma Ag1Codes(rb: Rulebook, inp: Input, g: GateSpec, s: State)
    requires StepAg1(rb, inp, g, s).Ok?
    ensures var s' := StepAg1(rb, inp, g, s).value;
            s'.codes == s.codes + (if s.action.AtMost(PolicyCap(rb, inp)) then [] else CodesOf(g.effect.onCapApplied)) && s'.inputValid == s.inputValid
  {
    var byEnv := Reduce(s.action, EnvCap(rb, inp.env).value);
    var capped := Reduce(byEnv, TierCap(rb, inp).value);
    if capped != s.action {
      ApplyCodes(s.(action := capped, envCapApplied := s.envCapApplied || byEnv != s.action), g.effect.onCapApplied, true, byEnv != s.action);
    } else {
      assert s.codes + [] == s.codes;
    }
  }

  lemma Ag4StepCodes(inp: Input, g: GateSpec, s: State)
    requires StepAg4(inp, g, s).Ok?
    ensures var s' := StepAg4(inp, g, s).value;
            && s'.codes == s.codes + (if Ticket.AtMost(s.action) && Ag4Fails(inp, g) then CodesOf(g.effect.onFail) + Ag4Codes(g.checks, inp).value else [])
            && s'.inputValid == s.inputValid
  {
    if Ticket.AtMost(s.action) && Ag4Fails(inp, g) { ApplyCodes(s, g.effect.onFail, true, false); } else { assert s.codes + [] == s.codes; }
  }

  lemma Ag5Codes(g: GateSpec, outcome: StoreOutcome, s: State)
    requires StepAg5(g, outcome, s).Ok?
    ensures var s' := StepAg5(g, outcome, s).value;
            && s'.codes == s.codes + (if s.action == Observe || outcome == Fresh then []
                                      else if outcome == Duplicate && UsableDuplicateEffect(g) then CodesOf(g.effect.onDuplicate)
                                      else CodesOf(g.effect.onStoreError))
            && s'.inputValid == s.inputValid
  {
    if s.action == Observe || outcome == Fresh {
      assert s.codes + [] == s.codes;
    } else if outcome == Duplicate && UsableDuplicateEffect(g) {
      ApplyCodes(s, g.effect.onDuplicate, true, false);
    } else {
      ApplyCodes(s, g.effect.onStoreError, true, false);
    }
  }

  /** Before AG0 the input counts as valid; from AG1 on the flag says whether it is. */
  predicate FlagAt(inp: Input, id: GateId, valid: bool) {
    if id == AG0 then valid else valid == (Strip(inp.fingerprint) != "" && inp.findings != [])
  }

  lemma StepContributes(rb: Rulebook, inp: Input, outcome: StoreOutcome, g: GateSpec, s: State)
    requires Step(rb, inp, outcome, g, s).Ok? && FlagAt(inp, g.id, s.inputValid)
    ensures var s' := Step(rb, inp, outcome, g, s).value;
            && s'.codes == s.codes + GateCodes(rb, inp, outcome, g, s.action)
            && s'.inputValid == (Strip(inp.fingerprint) != "" && inp.findings != [])
  {
    assert s.codes + [] == s.codes;
    match g.id
    case AG0 => if !Ag0Valid(inp) { ApplyCodes(s.(inputValid := false), g.effect.onFail, true, false); }
    case AG1 => Ag1Codes(rb, inp, g, s);
    case AG2 => if InsufficientEvidence(inp) { ApplyCodes(s, g.effect.onFail, true, false); }
    case AG3 => if inp.topicRole in rb.pagingDenied && s.action == Page { ApplyCodes(s, g.effect.onFail, true, false); }
    case AG4 => Ag4StepCodes(inp, g, s);
    case AG5 => Ag5Codes(g, outcome, s);
    case AG6 =>
      if s.inputValid && inp.env == Prod && inp.tier == Tier0 {
        ApplyCodes(s, if inp.peak == Some(true) && inp.sustained then g.effect.onPass else g.effect.onFail, false, false);
      }
  }

  /** The codes of the first k gates, gate after gate. */
  function Contributed(rb: Rulebook, inp: Input, outcome: StoreOutcome, k: nat): seq<string>
    requires k <= |rb.gates|
  {
    if k == 0 then []
    else Contributed(rb, inp, outcome, k - 1) + GateCodes(rb, inp, outcome, rb.gates[k - 1], Capped(rb, inp, outcome, k - 1))
  }

  lemma {:induction false} FoldContributes(rb: Rulebook, inp: Input, outcome: StoreOutcome, k: nat)
    requires rb.Ordered() && k <= 7 && Fold(rb, inp, outcome, k).Ok?
    ensures var s := Fold(rb, inp, outcome, k).value;
            s.codes == Contributed(rb, inp, outcome, k) && (if k == 0 then s.inputValid else s.inputValid == (Strip(inp.fingerprint) != "" && inp.findings != []))
  {
    if k > 0 {
      FoldContributes(rb, inp, outcome, k - 1);
      FoldIsCapped(rb, inp, outcome, k - 1);
      assert rb.gates[k - 1].id == ORDER[k - 1];
      StepContributes(rb, inp, outcome, rb.gates[k - 1], Fold(rb, inp, outcome, k - 1).value);
    }
  }

  /** The decision's reason codes are those of the gates that acted, each code once, in the order in which the gates first
      gave them. */
  lemma CodesAreContributed(rb: Rulebook, inp: Input, outcome: StoreOutcome)
    requires Evaluate(rb, inp, outcome).Ok?
    ensures var codes, given := Evaluate(rb, inp, outcome).value.codes, Contributed(rb, inp, outcome, 7);
            && (forall c :: c in codes <==> c in given) && InOrderOf(codes, given)
            && Evaluate(rb, inp, outcome).value.fingerprint == inp.fingerprint
  {
    FoldContributes(rb, inp, outcome, 7);
    UniqueKeepsOrder(Contributed(rb, inp, outcome, 7));
  }

  lemma {:induction false} UniqueKeepsOrder(values: seq<string>)
    ensures InOrderOf(Unique(values), values)
  {
    if values != [] {
      var rest, x := values[..|values| - 1], values[|values| - 1];
      assert values == rest + [x];
      UniqueKeepsOrder(rest);
      InOrderGrows(Unique(rest), rest, x);
    }
  }

  // ---------------------------------------------------------------- the shipped rulebook

  /** Under the shipped rulebook an input without a fingerprint or without findings ends OBSERVE, says so, and asks for no
      postmortem. */
  lemma InvalidInputIsObserved(inp: Input, outcome: StoreOutcome)
    requires Strip(inp.fingerprint) == "" || inp.findings == []
    ensures var d := Evaluate(Shipped(), inp, outcome);
            d.Ok? && d.value.finalAction == Observe && "AG0_INVALID_INPUT" in d.value.codes && !d.value.required
  {
    ShippedClosedForm(inp, outcome);
    ShippedPostmortemIff(inp, outcome);
    assert Limit(Shipped(), inp) == Observe;
    CodesAreContributed(Shipped(), inp, outcome);
    ContributesFirst(inp, outcome);
    ContributedGrows(Shipped(), inp, outcome, 1, 7, "AG0_INVALID_INPUT");
  }

  lemma ContributesFirst(inp: Input, outcome: StoreOutcome)
    requires Strip(inp.fingerprint) == "" || inp.findings == []
    ensures "AG0_INVALID_INPUT" in Contributed(Shipped(), inp, outcome, 1)
  {
    var g := Shipped().gates[0];
    assert GateCodes(Shipped(), inp, outcome, g, inp.proposed) == ["AG0_INVALID_INPUT"];
    assert Contributed(Shipped(), inp, outcome, 0) == [] && Capped(Shipped(), inp, outcome, 0) == inp.proposed;
  }

  lemma StillIn(s: seq<string>, t: seq<string>, x: string)
    requires x in s
    ensures x in s + t
  {
  }

  lemma {:induction false} ContributedGrows(rb: Rulebook, inp: Input, outcome: StoreOutcome, j: nat, k: nat, c: string)
    requires j <= k <= |rb.gates| && c in Contributed(rb, inp, outcome, j)
    ensures c in Contributed(rb, inp, outcome, k)
    decreases k
  {
    if j < k {
      ContributedGrows(rb, inp, outcome, j, k - 1, c);
      var before, more := Contributed(rb, inp, outcome, k - 1), GateCodes(rb, inp, outcome, rb.gates[k - 1], Capped(rb, inp, outcome, k - 1));
      StillIn(before, more, c);
    }
  }

  /** AG0 to AG5 of this rulebook neither force a mode nor give postmortem codes, except that AG0 may clear the mode. */
  predicate Quiet(e: Option<Effect>) { e.Some? ==> !e.value.force.SetMode? && e.value.postmortemCodes == [] }

  predicate QuietGate(g: GateSpec) {
    Quiet(g.effect.onFail) && Quiet(g.effect.onCapApplied) && Quiet(g.effect.onDuplicate) && Quiet(g.effect.onStoreError)
  }

  lemma ApplyQuiet(s: State, e: Option<Effect>, allow: bool, mark: bool)
    requires Apply(s, e, allow, mark).Ok? && Quiet(e) && s.mode.None? && s.postmortemCodes == []
    ensures Apply(s, e, allow, mark).value.mode.None? && Apply(s, e, allow, mark).value.postmortemCodes == []
  {
  }

  lemma StepQuiet(rb: Rulebook, inp: Input, outcome: StoreOutcome, g: GateSpec, s: State)
    requires g.id != AG6 && Step(rb, inp, outcome, g, s).Ok? && QuietGate(g) && s.mode.None? && s.postmortemCodes == []
    ensures Step(rb, inp, outcome, g, s).value.mode.None? && Step(rb, inp, outcome, g, s).value.postmortemCodes == []
  {
    match g.id
    case AG0 => if !Ag0Valid(inp) { ApplyQuiet(s.(inputValid := false), g.effect.onFail, true, false); }
    case AG1 => Ag1Quiet(rb, inp, g, s);
    case AG4 => if Ticket.AtMost(s.action) && Ag4Fails(inp, g) { ApplyQuiet(s, g.effect.onFail, true, false); }
    case AG5 => Ag5Quiet(g, outcome, s);
    case _ => if Apply(s, g.effect.onFail, true, false).Ok? { ApplyQuiet(s, g.effect.onFail, true, false); }
  }

  lemma Ag1Quiet(rb: Rulebook, inp: Input, g: GateSpec, s: State)
    requires StepAg1(rb, inp, g, s).Ok? && Quiet(g.effect.onCapApplied) && s.mode.None? && s.postmortemCodes == []
    ensures StepAg1(rb, inp, g, s).value.mode.None? && StepAg1(rb, inp, g, s).value.postmortemCodes == []
  {
  }

  lemma Ag5Quiet(g: GateSpec, outcome: StoreOutcome, s: State)
    requires StepAg5(g, outcome, s).Ok? && Quiet(g.effect.onDuplicate) && Quiet(g.effect.onStoreError) && s.mode.None? && s.postmortemCodes == []
    ensures StepAg5(g, outcome, s).value.mode.None? && StepAg5(g, outcome, s).value.postmortemCodes == []
  {
  }

  lemma {:induction false} FoldQuiet(rb: Rulebook, inp: Input, outcome: StoreOutcome, k: nat)
    requires rb.Ordered() && k <= 6 && Fold(rb, inp, outcome, k).Ok? && forall i :: 0 <= i < 6 ==> QuietGate(rb.gates[i])
    ensures Fold(rb, inp, outcome, k).value.mode.None? && Fold(rb, inp, outcome, k).value.postmortemCodes == []
  {
    if k > 0 {
      FoldQuiet(rb, inp, outcome, k - 1);
      assert rb.gates[k - 1].id == ORDER[k - 1] != AG6;
      StepQuiet(rb, inp, outcome, rb.gates[k - 1], Fold(rb, inp, outcome, k - 1).value);
    }
  }

  /** A required postmortem of a rulebook whose earlier gates are quiet has the mode that AG6 forces, SOFT when it forces
      none, and exactly AG6's codes. */
  lemma RequiredPostmortem(rb: Rulebook, inp: Input, outcome: StoreOutcome)
    requires Evaluate(rb, inp, outcome).Ok? && Evaluate(rb, inp, outcome).value.required && OnlyAg6Decides(rb)
    requires forall i :: 0 <= i < 6 ==> QuietGate(rb.gates[i])
    requires rb.gates[6].effect.onPass.Some? && rb.gates[6].effect.onPass.value.setRequired == Some(true)
    requires rb.gates[6].effect.onFail.Some? && rb.gates[6].effect.onFail.value.setRequired == Some(false)
    ensures var d, e := Evaluate(rb, inp, outcome).value, rb.gates[6].effect.onPass.value;
            && d.mode == Some(if e.force.SetMode? then e.force.mode else "SOFT")
            && (forall c :: c in d.postmortemCodes <==> c in e.postmortemCodes) && InOrderOf(d.postmortemCodes, e.postmortemCodes)
  {
    PostmortemIff(rb, inp, outcome);
    OkPrefix(rb, inp, outcome, 6, 7);
    FlagsBeforeAg6(rb, inp, outcome, 6);
    FoldQuiet(rb, inp, outcome, 6);
    assert rb.gates[6].id == AG6;
    var s, e := Fold(rb, inp, outcome, 6).value, rb.gates[6].effect.onPass.value;
    EffectRecords(s, e, false, false);
    assert [] + e.postmortemCodes == e.postmortemCodes;
    UniqueKeepsOrder(e.postmortemCodes);
  }

  /** Under the shipped rulebook a required postmortem is SOFT, for the one reason PM_PEAK_SUSTAINED. */
  lemma ShippedPostmortem(inp: Input, outcome: StoreOutcome)
    requires Evaluate(Shipped(), inp, outcome).Ok? && Evaluate(Shipped(), inp, outcome).value.required
    ensures Evaluate(Shipped(), inp, outcome).value.mode == Some("SOFT")
    ensures forall c :: c in Evaluate(Shipped(), inp, outcome).value.postmortemCodes <==> c == "PM_PEAK_SUSTAINED"
  {
    ShippedDecides();
    ShippedQuiet();
    RequiredPostmortem(Shipped(), inp, outcome);
    assert Shipped().gates[6].effect.onPass.value.postmortemCodes == ["PM_PEAK_SUSTAINED"];
  }

  lemma ShippedQuiet()
    ensures forall i :: 0 <= i < 6 ==> QuietGate(Shipped().gates[i])
  {
    var gates := Shipped().gates;
    assert QuietGate(gates[0]) && QuietGate(gates[1]) && QuietGate(gates[2]);
    assert QuietGate(gates[3]) && QuietGate(gates[4]) && QuietGate(gates[5]);
  }

  /** Under the shipped rulebook every action above OBSERVE that the store calls a duplicate is suppressed to OBSERVE and
      says so. */
  lemma DuplicateIsSuppressed(inp: Input)
    requires Capped(Shipped(), inp, Duplicate, 5) != Observe
    ensures var d := Evaluate(Shipped(), inp, Duplicate);
            d.Ok? && d.value.finalAction == Observe && "AG5_DUPLICATE_SUPPRESSED" in d.value.codes
  {
    ShippedClosedForm(inp, Duplicate);
    CodesAreContributed(Shipped(), inp, Duplicate);
    var g := Shipped().gates[5];
    assert g.id == AG5 && UsableDuplicateEffect(g) && CodesOf(g.effect.onDuplicate) == ["AG5_DUPLICATE_SUPPRESSED"];
    assert "AG5_DUPLICATE_SUPPRESSED" in GateCodes(Shipped(), inp, Duplicate, g, Capped(Shipped(), inp, Duplicate, 5));
    assert "AG5_DUPLICATE_SUPPRESSED" in Contributed(Shipped(), inp, Duplicate, 6);
    ContributedGrows(Shipped(), inp, Duplicate, 6, 7, "AG5_DUPLICATE_SUPPRESSED");
  }
}
