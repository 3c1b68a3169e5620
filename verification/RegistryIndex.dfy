/** Building the topic index, what it contains, and the v0 compatibility views (registry/loader.py). */
module RegistryIndex {
  import opened Wrappers
  import opened Text
  import opened Registry

  /** The topology half of a loaded registry. */
  datatype Topology = Topology(streams: seq<Stream>, byId: map<string, Stream>, index: Index)

  // ---------------------------------------------------------------- the loops

  method AddTopicsLoop(rules: Rules, have: Topics, more: Topics) returns (r: Option<Topics>)
    ensures r == if Disjoint(more, have) && RolesOk(rules, more) then Some(have + more) else None
  {
    var topics := have;
    var rest := more.Keys;
    while rest != {}
      invariant rest <= more.Keys
      invariant topics == have + (map t | t in more && t !in rest :: more[t])
      invariant forall t :: t in more && t !in rest ==> t !in have && (rules.failOnUnknownRole ==> more[t].role in KNOWN_ROLES)
      decreases rest
    {
      var t :| t in rest;
      if t in topics { return None; }
      topics := topics[t := more[t]];
      if rules.failOnUnknownRole && more[t].role !in KNOWN_ROLES { return None; }
      rest := rest - {t};
    }
    assert topics == have + more;
    return Some(topics);
  }

  method AddInstancesLoop(rules: Rules, idx: Index, insts: seq<Instance>) returns (r: Option<Index>)
    ensures r == AddInstances(rules, idx, insts)
  {
    var done := idx;
    var seen: set<Scope> := {};
    for i := 0 to |insts|
      invariant AddInstances(rules, idx, insts[..i]) == Some(done)
      invariant forall scope :: scope in seen <==> HasScope(insts[..i], scope)
    {
      var inst := insts[i];
      var scope := inst.GetScope();
      assert insts[..i + 1][..i] == insts[..i] && insts[..i + 1] == insts[..i] + [inst];
      if scope in seen { InstancesFail(rules, idx, insts, i + 1); return None; }
      seen := seen + {scope};
      ScopeGrows(insts[..i], inst);
      var topics := AddTopicsLoop(rules, TopicsAt(done, scope), inst.topics);
      if topics.None? { InstancesFail(rules, idx, insts, i + 1); return None; }
      done := done[scope := topics.value];
    }
    assert insts[..|insts|] == insts;
    return Some(done);
  }

  lemma ScopeGrows(insts: seq<Instance>, inst: Instance)
    ensures forall scope :: HasScope(insts + [inst], scope) <==> HasScope(insts, scope) || scope == inst.GetScope()
  {
    forall scope ensures HasScope(insts + [inst], scope) <==> HasScope(insts, scope) || scope == inst.GetScope() {
      if HasScope(insts, scope) {
        var i :| 0 <= i < |insts| && insts[i].GetScope() == scope;
        assert (insts + [inst])[i].GetScope() == scope;
      }
      assert (insts + [inst])[|insts|] == inst;
    }
  }

  lemma {:induction false} InstancesFail(rules: Rules, idx: Index, insts: seq<Instance>, i: nat)
    requires i <= |insts| && AddInstances(rules, idx, insts[..i]).None?
    ensures AddInstances(rules, idx, insts).None?
    decreases |insts|
  {
    if i < |insts| {
      assert insts[..|insts| - 1][..i] == insts[..i];
      InstancesFail(rules, idx, insts[..|insts| - 1], i);
    } else {
      assert insts[..i] == insts;
    }
  }

  lemma {:induction false} StreamsFail(rules: Rules, streams: seq<Stream>, i: nat)
    requires i <= |streams| && AddStreams(rules, streams[..i]).None?
    ensures AddStreams(rules, streams).None?
    decreases |streams|
  {
    if i < |streams| {
      assert streams[..|streams| - 1][..i] == streams[..i];
      StreamsFail(rules, streams[..|streams| - 1], i);
    } else {
      assert streams[..i] == streams;
    }
  }

  /** The indexing half of _canonicalize_registry. */
  method BuildIndexes(rules: Rules, streams: seq<Stream>) returns (r: Option<(map<string, Stream>, Index)>)
    ensures r.Some? <==> AddStreams(rules, streams).Some?
    ensures r.Some? ==> r.value == (ById(streams), AddStreams(rules, streams).value)
  {
    var byId: map<string, Stream> := map[];
    var idx: Index := map[];
    for i := 0 to |streams|
      invariant AddStreams(rules, streams[..i]) == Some(idx) && byId == ById(streams[..i])
      invariant forall id :: id in byId <==> HasStream(streams[..i], id)
    {
      var s := streams[i];
      assert streams[..i + 1][..i] == streams[..i] && streams[..i + 1] == streams[..i] + [s];
      if s.id in byId { StreamsFail(rules, streams, i + 1); return None; }
      byId := byId[s.id := s];
      KnownGrows(streams[..i], s);
      var next := AddInstancesLoop(rules, idx, s.instances);
      if next.None? { StreamsFail(rules, streams, i + 1); return None; }
      idx := next.value;
    }
    assert streams[..|streams|] == streams;
    return Some((byId, idx));
  }

  // ---------------------------------------------------------------- what the index contains

  predicate At(idx: Index, scope: Scope, t: string, e: Topic) { scope in idx && t in idx[scope] && idx[scope][t] == e }

  predicate Holds(inst: Instance, scope: Scope, t: string, e: Topic) {
    inst.GetScope() == scope && t in inst.topics && inst.topics[t] == e
  }

  predicate PlacedIn(insts: seq<Instance>, scope: Scope, t: string, e: Topic) {
    exists j :: 0 <= j < |insts| && Holds(insts[j], scope, t, e)
  }

  /** Some instance of some stream in this scope declares the topic with this entry. */
  predicate Placed(streams: seq<Stream>, scope: Scope, t: string, e: Topic) {
    exists i :: 0 <= i < |streams| && PlacedIn(streams[i].instances, scope, t, e)
  }

  predicate AnyScope(streams: seq<Stream>, scope: Scope) {
    exists i :: 0 <= i < |streams| && HasScope(streams[i].instances, scope)
  }

  lemma PlacedInStep(init: seq<Instance>, inst: Instance, scope: Scope, t: string, e: Topic)
    ensures PlacedIn(init + [inst], scope, t, e) <==> PlacedIn(init, scope, t, e) || Holds(inst, scope, t, e)
  {
    if PlacedIn(init, scope, t, e) {
      var j :| 0 <= j < |init| && Holds(init[j], scope, t, e);
      assert Holds((init + [inst])[j], scope, t, e);
    }
    assert (init + [inst])[|init|] == inst;
  }

  lemma PlacedStep(init: seq<Stream>, s: Stream, scope: Scope, t: string, e: Topic)
    ensures Placed(init + [s], scope, t, e) <==> Placed(init, scope, t, e) || PlacedIn(s.instances, scope, t, e)
    ensures AnyScope(init + [s], scope) <==> AnyScope(init, scope) || HasScope(s.instances, scope)
  {
    if Placed(init, scope, t, e) {
      var j :| 0 <= j < |init| && PlacedIn(init[j].instances, scope, t, e);
      assert PlacedIn((init + [s])[j].instances, scope, t, e);
    }
    if AnyScope(init, scope) {
      var j :| 0 <= j < |init| && HasScope(init[j].instances, scope);
      assert HasScope((init + [s])[j].instances, scope);
    }
    assert (init + [s])[|init|] == s;
  }

  lemma AddInstanceAt(idx: Index, inst: Instance, scope: Scope, t: string, e: Topic)
    requires Disjoint(inst.topics, TopicsAt(idx, inst.GetScope()))
    ensures At(AddInstance(idx, inst), scope, t, e) <==> At(idx, scope, t, e) || Holds(inst, scope, t, e)
  {
  }

  lemma {:induction false} AddInstancesAt(rules: Rules, idx: Index, insts: seq<Instance>, scope: Scope, t: string, e: Topic)
    requires AddInstances(rules, idx, insts).Some?
    ensures var after := AddInstances(rules, idx, insts).value;
            && (At(after, scope, t, e) <==> At(idx, scope, t, e) || PlacedIn(insts, scope, t, e))
            && (scope in after <==> scope in idx || HasScope(insts, scope))
  {
    if insts != [] {
      var init, inst := insts[..|insts| - 1], insts[|insts| - 1];
      assert insts == init + [inst];
      AddInstancesAt(rules, idx, init, scope, t, e);
      AddInstanceAt(AddInstances(rules, idx, init).value, inst, scope, t, e);
      PlacedInStep(init, inst, scope, t, e);
      ScopeGrows(init, inst);
    }
  }

  /** The index of a registry that loads holds exactly the declared topics, each under its scope with its one entry. */
  lemma {:induction false} IndexIsExact(rules: Rules, streams: seq<Stream>, scope: Scope, t: string, e: Topic)
    requires AddStreams(rules, streams).Some?
    ensures var idx := AddStreams(rules, streams).value;
            && (At(idx, scope, t, e) <==> Placed(streams, scope, t, e))
            && (scope in idx <==> AnyScope(streams, scope))
  {
    if streams != [] {
      var init, s := streams[..|streams| - 1], streams[|streams| - 1];
      assert streams == init + [s];
      IndexIsExact(rules, init, scope, t, e);
      AddInstancesAt(rules, AddStreams(rules, init).value, s.instances, scope, t, e);
      PlacedStep(init, s, scope, t, e);
    }
  }

  /** streams_by_id finds every stream under its own id, and ids are unique. */
  lemma {:induction false} ByIdExact(rules: Rules, streams: seq<Stream>)
    requires AddStreams(rules, streams).Some?
    ensures forall i :: 0 <= i < |streams| ==> streams[i].id in ById(streams) && ById(streams)[streams[i].id] == streams[i]
    ensures forall i, j :: 0 <= i < j < |streams| ==> streams[i].id != streams[j].id
    ensures forall id :: id in ById(streams) ==> HasStream(streams, id)
  {
    if streams != [] {
      var init, s := streams[..|streams| - 1], streams[|streams| - 1];
      ByIdExact(rules, init);
      assert streams == init + [s];
      KnownGrows(init, s);
      forall i | 0 <= i < |init| ensures init[i].id != s.id { assert HasStream(init, init[i].id); }
    }
  }

  // ---------------------------------------------------------------- exactly which registries load

  /** No instance of the list clashes with the index, repeats a scope, or has an unknown role. */
  predicate InstancesFit(rules: Rules, idx: Index, insts: seq<Instance>) {
    && (forall i, j :: 0 <= i < j < |insts| ==> insts[i].GetScope() != insts[j].GetScope())
    && (forall i :: 0 <= i < |insts| ==> Disjoint(insts[i].topics, TopicsAt(idx, insts[i].GetScope())) && RolesOk(rules, insts[i].topics))
  }

  lemma {:induction false} InstancesLoadIff(rules: Rules, idx: Index, insts: seq<Instance>)
    ensures AddInstances(rules, idx, insts).Some? <==> InstancesFit(rules, idx, insts)
    ensures AddInstances(rules, idx, insts).Some? ==>
              forall scope :: !HasScope(insts, scope) ==> TopicsAt(AddInstances(rules, idx, insts).value, scope) == TopicsAt(idx, scope)
  {
    if insts != [] {
      var init, inst := insts[..|insts| - 1], insts[|insts| - 1];
      assert insts == init + [inst];
      InstancesLoadIff(rules, idx, init);
      ScopeGrows(init, inst);
      FitStep(rules, idx, init, inst);
    }
  }

  lemma FitStep(rules: Rules, idx: Index, init: seq<Instance>, inst: Instance)
    ensures InstancesFit(rules, idx, init + [inst]) <==>
            && InstancesFit(rules, idx, init) && !HasScope(init, inst.GetScope())
            && Disjoint(inst.topics, TopicsAt(idx, inst.GetScope())) && RolesOk(rules, inst.topics)
  {
    var all := init + [inst];
    assert all[|init|] == inst && forall i :: 0 <= i < |init| ==> all[i] == init[i];
    if InstancesFit(rules, idx, all) {
      assert forall i, j :: 0 <= i < j < |init| ==> all[i].GetScope() != all[j].GetScope();
      assert forall i :: 0 <= i < |init| ==> all[i].GetScope() != all[|init|].GetScope();
      forall i | 0 <= i < |init| ensures Disjoint(init[i].topics, TopicsAt(idx, init[i].GetScope())) && RolesOk(rules, init[i].topics) {
        assert all[i] == init[i];
      }
    }
  }

  /** No earlier stream declares one of the instance's topics in the instance's scope. */
  ghost predicate Apart(init: seq<Stream>, inst: Instance) {
    forall t, e :: t in inst.topics ==> !Placed(init, inst.GetScope(), t, e)
  }

  lemma ApartIff(rules: Rules, init: seq<Stream>, inst: Instance)
    requires AddStreams(rules, init).Some?
    ensures Apart(init, inst) <==> Disjoint(inst.topics, TopicsAt(AddStreams(rules, init).value, inst.GetScope()))
  {
    var scope, idx := inst.GetScope(), AddStreams(rules, init).value;
    forall t, e ensures At(idx, scope, t, e) <==> Placed(init, scope, t, e) { IndexIsExact(rules, init, scope, t, e); }
    if Apart(init, inst) {
      forall t | t in inst.topics ensures t !in TopicsAt(idx, scope) {
        if t in TopicsAt(idx, scope) {
          assert At(idx, scope, t, TopicsAt(idx, scope)[t]);
        }
      }
    }
  }

  /** What a stream must satisfy to follow the ones before it. */
  ghost predicate Follows(rules: Rules, init: seq<Stream>, s: Stream) {
    && !HasStream(init, s.id)
    && (forall i, j :: 0 <= i < j < |s.instances| ==> s.instances[i].GetScope() != s.instances[j].GetScope())
    && (forall i :: 0 <= i < |s.instances| ==> Apart(init, s.instances[i]) && RolesOk(rules, s.instances[i].topics))
  }

  ghost predicate ConflictFree(rules: Rules, streams: seq<Stream>) {
    forall j :: 0 <= j < |streams| ==> Follows(rules, streams[..j], streams[j])
  }

  /** A registry loads exactly when stream ids are unique, no stream repeats a scope, no topic is declared twice in a
      scope, and (when the rule asks for it) every role is known. */
  lemma {:induction false} LoadsIffConflictFree(rules: Rules, streams: seq<Stream>)
    ensures AddStreams(rules, streams).Some? <==> ConflictFree(rules, streams)
  {
    if streams != [] {
      var init, s := streams[..|streams| - 1], streams[|streams| - 1];
      LoadsIffConflictFree(rules, init);
      ConflictFreeStep(rules, init, s);
      assert streams == init + [s];
      if AddStreams(rules, init).Some? { LastFollowsIff(rules, init, s); }
    }
  }

  lemma ConflictFreeStep(rules: Rules, init: seq<Stream>, s: Stream)
    ensures ConflictFree(rules, init + [s]) <==> ConflictFree(rules, init) && Follows(rules, init, s)
  {
    var all := init + [s];
    assert all[..|init|] == init && all[|init|] == s;
    forall j | 0 <= j < |init| ensures Follows(rules, all[..j], all[j]) <==> Follows(rules, init[..j], init[j]) {
      assert all[..j] == init[..j] && all[j] == init[j];
    }
  }

  lemma LastFollowsIff(rules: Rules, init: seq<Stream>, s: Stream)
    requires AddStreams(rules, init).Some?
    ensures Follows(rules, init, s) <==> !HasStream(init, s.id) && AddInstances(rules, AddStreams(rules, init).value, s.instances).Some?
  {
    var idx := AddStreams(rules, init).value;
    InstancesLoadIff(rules, idx, s.instances);
    forall i | 0 <= i < |s.instances| ensures Apart(init, s.instances[i]) <==> Disjoint(s.instances[i].topics, TopicsAt(idx, s.instances[i].GetScope())) {
      ApartIff(rules, init, s.instances[i]);
    }
  }
}
