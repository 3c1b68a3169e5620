/** The v0 compatibility views of a loaded registry, and the v0 round trip (registry/loader.py). */
module CompatView {
  import opened Wrappers
  import opened Text
  import opened Registry
  import opened RegistryIndex
  import R = Resolver

  /** Streams by id, in registry order, and the scope's topic index. */
  datatype View = View(streams: seq<string>, topics: Topics)

  function InScope(streams: seq<Stream>, scope: Scope): seq<string> {
    if streams == [] then []
    else
      var s := streams[|streams| - 1];
      InScope(streams[..|streams| - 1], scope) + if HasScope(s.instances, scope) then [s.id] else []
  }

  /** build_v0_compat_view */
  function ViewOf(reg: Topology, env: string, clusterId: string): Result<View> {
    if NonBlank(env).None? || NonBlank(clusterId).None? then Err("invalid_scope")
    else
      var scope := (Strip(env), Strip(clusterId));
      var ids := InScope(reg.streams, scope);
      if ids == [] then Err("scope_not_found") else Ok(View(ids, TopicsAt(reg.index, scope)))
  }

  method BuildV0CompatView(reg: Topology, env: string, clusterId: string) returns (r: Result<View>)
    ensures r == ViewOf(reg, env, clusterId)
  {
    if NonBlank(env).None? || NonBlank(clusterId).None? { return Err("invalid_scope"); }
    var scope := (Strip(env), Strip(clusterId));
    var ids: seq<string> := [];
    for i := 0 to |reg.streams|
      invariant ids == InScope(reg.streams[..i], scope)
    {
      assert reg.streams[..i + 1][..i] == reg.streams[..i];
      var found := false;
      for j := 0 to |reg.streams[i].instances|
        invariant found <==> HasScope(reg.streams[i].instances[..j], scope)
      {
        var insts := reg.streams[i].instances;
        assert insts[..j + 1] == insts[..j] + [insts[j]];
        ScopeGrows(insts[..j], insts[j]);
        if insts[j].GetScope() == scope { found := true; }
      }
      assert reg.streams[i].instances[..|reg.streams[i].instances|] == reg.streams[i].instances;
      if found { ids := ids + [reg.streams[i].id]; }
    }
    assert reg.streams[..|reg.streams|] == reg.streams;
    if ids == [] { return Err("scope_not_found"); }
    return Ok(View(ids, TopicsAt(reg.index, scope)));
  }

  lemma {:induction false} InScopeIff(streams: seq<Stream>, scope: Scope, id: string)
    ensures id in InScope(streams, scope) <==> exists i :: 0 <= i < |streams| && streams[i].id == id && HasScope(streams[i].instances, scope)
  {
    if streams != [] {
      var n := |streams| - 1;
      var init := streams[..n];
      InScopeIff(init, scope, id);
      if id in InScope(init, scope) {
        var i :| 0 <= i < |init| && init[i].id == id && HasScope(init[i].instances, scope);
        assert streams[i].id == id && HasScope(streams[i].instances, scope);
      }
      assert streams[n] == streams[|streams| - 1];
      forall i | 0 <= i < |streams| && streams[i].id == id && HasScope(streams[i].instances, scope)
        ensures id in InScope(streams, scope)
      {
        if i < n { assert init[i].id == id && HasScope(init[i].instances, scope); }
      }
    }
  }

  // ---------------------------------------------------------------- v0 round trip

  /** A v0 registry and what loading it gives. */
  ghost predicate LoadsV0(rules: Rules, rawIndex: RawTopics, d: Defaults, raw: seq<Option<RawStream>>, index: Topics, reg: Topology) {
    && ParseTopics(V0Topic, rawIndex) == Some(index)
    && V0Streams(rawIndex, d, raw) == Some(reg.streams)
    && AddStreams(rules, reg.streams) == Some(reg.index) && reg.byId == ById(reg.streams)
  }

  /** The one scope a v0 stream lives in. */
  function Home(s: Stream): Scope {
    if s.instances == [] then ("", "") else s.instances[0].GetScope()
  }

  /** A caller can ask for this scope: both parts survive trimming. */
  predicate Reachable(scope: Scope) {
    Stripped(scope.0) && scope.0 != "" && Stripped(scope.1) && scope.1 != ""
  }

  /** One instance per stream, holding exactly the topics that name the stream; unique ids; the index they give. */
  ghost predicate Canonical(rules: Rules, index: Topics, reg: Topology) {
    && (forall i :: 0 <= i < |reg.streams| ==>
          |reg.streams[i].instances| == 1 && reg.streams[i].instances[0].topics == TopicsOf(index, reg.streams[i].id))
    && (forall i, j :: 0 <= i < j < |reg.streams| ==> reg.streams[i].id != reg.streams[j].id)
    && AddStreams(rules, reg.streams) == Some(reg.index)
  }

  lemma V0Shape(rules: Rules, rawIndex: RawTopics, d: Defaults, raw: seq<Option<RawStream>>, index: Topics, reg: Topology)
    requires LoadsV0(rules, rawIndex, d, raw, index, reg)
    ensures Canonical(rules, index, reg) && AllReferencesKnown(index, reg.streams)
  {
    V0Owned(index, d, raw);
    ByIdExact(rules, reg.streams);
    forall i | 0 <= i < |reg.streams|
      ensures |reg.streams[i].instances| == 1 && reg.streams[i].instances[0].topics == TopicsOf(index, reg.streams[i].id)
    {
      V0StreamShape(index, d, raw[i]);
    }
  }

  lemma V0StreamShape(index: Topics, d: Defaults, raw: Option<RawStream>)
    requires V0Stream(index, d, raw).Some?
    ensures var s := V0Stream(index, d, raw).value; |s.instances| == 1 && s.instances[0].topics == TopicsOf(index, s.id)
  {
  }

  /** In the v0 form a topic sits in exactly the scope of the stream it names. */
  lemma V0TopicPlace(rules: Rules, index: Topics, reg: Topology,
                     i: nat, scope: Scope, t: string, e: Topic)
    requires Canonical(rules, index, reg) && i < |reg.streams| && reg.streams[i].id == e.streamId
    ensures At(reg.index, scope, t, e) <==> t in index && index[t] == e && scope == Home(reg.streams[i])
  {
    IndexIsExact(rules, reg.streams, scope, t, e);
    if Placed(reg.streams, scope, t, e) {
      var k :| 0 <= k < |reg.streams| && PlacedIn(reg.streams[k].instances, scope, t, e);
      assert e == TopicsOf(index, reg.streams[k].id)[t];
      assert k == i;
    }
    if t in index && index[t] == e && scope == Home(reg.streams[i]) {
      assert Holds(reg.streams[i].instances[0], scope, t, e);
      assert PlacedIn(reg.streams[i].instances, scope, t, e);
    }
  }

  /** Whatever a view shows is what the raw index said, in the home scope of the stream it names. */
  lemma ViewsShowTheIndex(rules: Rules, index: Topics, reg: Topology,
                          env: string, clusterId: string, t: string)
    requires Canonical(rules, index, reg)
    requires ViewOf(reg, env, clusterId).Ok? && t in ViewOf(reg, env, clusterId).value.topics
    ensures t in index && ViewOf(reg, env, clusterId).value.topics[t] == index[t]
    ensures exists i :: 0 <= i < |reg.streams| && reg.streams[i].id == index[t].streamId && (Strip(env), Strip(clusterId)) == Home(reg.streams[i])
  {
    var scope := (Strip(env), Strip(clusterId));
    var e := ViewOf(reg, env, clusterId).value.topics[t];
    assert At(reg.index, scope, t, e);
    IndexIsExact(rules, reg.streams, scope, t, e);
    var k :| 0 <= k < |reg.streams| && PlacedIn(reg.streams[k].instances, scope, t, e);
    assert e.streamId == reg.streams[k].id;
    V0TopicPlace(rules, index, reg, k, scope, t, e);
  }

  /** The view of a reachable home scope exists, lists the stream, and shows each of its topics. */
  lemma HomeViewShows(rules: Rules, index: Topics, reg: Topology, i: nat)
    requires Canonical(rules, index, reg) && i < |reg.streams| && Reachable(Home(reg.streams[i]))
    ensures var view := ViewOf(reg, Home(reg.streams[i]).0, Home(reg.streams[i]).1);
            && view.Ok? && reg.streams[i].id in view.value.streams
            && forall t :: t in index && index[t].streamId == reg.streams[i].id ==> t in view.value.topics && view.value.topics[t] == index[t]
  {
    var scope := Home(reg.streams[i]);
    StripFixpoint(scope.0);
    StripFixpoint(scope.1);
    assert reg.streams[i].instances[0].GetScope() == scope;
    assert HasScope(reg.streams[i].instances, scope);
    InScopeIff(reg.streams, scope, reg.streams[i].id);
    forall t | t in index && index[t].streamId == reg.streams[i].id ensures At(reg.index, scope, t, index[t]) {
      V0TopicPlace(rules, index, reg, i, scope, t, index[t]);
    }
  }

  /** A stream is listed by no view but that of its home scope. */
  lemma StreamInOneView(rules: Rules, index: Topics, reg: Topology,
                        env: string, clusterId: string, i: nat)
    requires Canonical(rules, index, reg) && i < |reg.streams|
    requires ViewOf(reg, env, clusterId).Ok? && reg.streams[i].id in ViewOf(reg, env, clusterId).value.streams
    ensures (Strip(env), Strip(clusterId)) == Home(reg.streams[i])
  {
    InScopeIff(reg.streams, (Strip(env), Strip(clusterId)), reg.streams[i].id);
  }

  ghost predicate Shown(reg: Topology, t: string, e: Topic) {
    exists env, clusterId :: ViewOf(reg, env, clusterId).Ok? && t in ViewOf(reg, env, clusterId).value.topics
                             && ViewOf(reg, env, clusterId).value.topics[t] == e
  }

  /** The v0 round trip, for every topic of every v0 registry that loads: the views show it with its trimmed role,
      stream and source system if and only if the home scope of its stream can be asked for; no view shows it
      otherwise, differently, or in a second scope. */
  lemma V0RoundTripIff(rules: Rules, rawIndex: RawTopics, d: Defaults, raw: seq<Option<RawStream>>, index: Topics, reg: Topology, t: string)
    requires LoadsV0(rules, rawIndex, d, raw, index, reg) && t in index
    ensures exists i :: 0 <= i < |reg.streams| && reg.streams[i].id == index[t].streamId
    ensures forall i :: 0 <= i < |reg.streams| && reg.streams[i].id == index[t].streamId ==>
              (Shown(reg, t, index[t]) <==> Reachable(Home(reg.streams[i])))
    ensures forall e :: Shown(reg, t, e) ==> e == index[t]
  {
    V0Shape(rules, rawIndex, d, raw, index, reg);
    assert HasStream(reg.streams, index[t].streamId);
    forall i | 0 <= i < |reg.streams| && reg.streams[i].id == index[t].streamId
      ensures Shown(reg, t, index[t]) <==> Reachable(Home(reg.streams[i]))
    {
      if Reachable(Home(reg.streams[i])) { HomeViewShows(rules, index, reg, i); }
      if Shown(reg, t, index[t]) { ShownIsReachable(rules, index, reg, t, i); }
    }
    forall e | Shown(reg, t, e) ensures e == index[t] {
      var env, clusterId :| ViewOf(reg, env, clusterId).Ok? && t in ViewOf(reg, env, clusterId).value.topics
                            && ViewOf(reg, env, clusterId).value.topics[t] == e;
      ViewsShowTheIndex(rules, index, reg, env, clusterId, t);
    }
  }

  /** Each v0 stream is listed by a view if and only if its home scope can be asked for, and only by that scope's view. */
  lemma V0StreamInExactlyOneView(rules: Rules, rawIndex: RawTopics, d: Defaults, raw: seq<Option<RawStream>>, index: Topics, reg: Topology, i: nat)
    requires LoadsV0(rules, rawIndex, d, raw, index, reg) && i < |reg.streams|
    ensures (exists env, clusterId :: Lists(reg, env, clusterId, reg.streams[i].id)) <==> Reachable(Home(reg.streams[i]))
    ensures forall env, clusterId :: Lists(reg, env, clusterId, reg.streams[i].id) ==> (Strip(env), Strip(clusterId)) == Home(reg.streams[i])
  {
    V0Shape(rules, rawIndex, d, raw, index, reg);
    var home := Home(reg.streams[i]);
    if Reachable(home) {
      HomeViewShows(rules, index, reg, i);
      assert Lists(reg, home.0, home.1, reg.streams[i].id);
    }
    forall env, clusterId | Lists(reg, env, clusterId, reg.streams[i].id)
      ensures (Strip(env), Strip(clusterId)) == home && Reachable(home)
    {
      StreamInOneView(rules, index, reg, env, clusterId, i);
      StripFixpoint(env);
      StripFixpoint(clusterId);
    }
  }

  predicate Lists(reg: Topology, env: string, clusterId: string, id: string) {
    ViewOf(reg, env, clusterId).Ok? && id in ViewOf(reg, env, clusterId).value.streams
  }

  lemma ShownIsReachable(rules: Rules, index: Topics, reg: Topology, t: string, i: nat)
    requires Canonical(rules, index, reg) && t in index && i < |reg.streams| && reg.streams[i].id == index[t].streamId
    requires Shown(reg, t, index[t])
    ensures Reachable(Home(reg.streams[i]))
  {
    var env, clusterId :| ViewOf(reg, env, clusterId).Ok? && t in ViewOf(reg, env, clusterId).value.topics
                          && ViewOf(reg, env, clusterId).value.topics[t] == index[t];
    ViewsShowTheIndex(rules, index, reg, env, clusterId, t);
    StripFixpoint(env);
    StripFixpoint(clusterId);
  }

  /** The parts of a home scope are reachable exactly where the stream names them or the default is itself trimmed
      and not empty. */
  lemma HomeReachableIff(index: Topics, d: Defaults, raw: Option<RawStream>)
    requires V0Stream(index, d, raw).Some?
    ensures Reachable(Home(V0Stream(index, d, raw).value)) <==>
            && (Require(raw.value.env).Some? || (Stripped(d.env) && d.env != ""))
            && (Require(raw.value.clusterId).Some? || (Stripped(d.clusterId) && d.clusterId != ""))
  {
    if raw.value.env.RawText? { StripFixpoint(raw.value.env.text); }
    if raw.value.clusterId.RawText? { StripFixpoint(raw.value.clusterId.text); }
  }

  /** The one-topic registry is a v0 registry that loads. */
  lemma OneTopicLoadsV0(rules: Rules, d: Defaults, topic: string)
    ensures var raw, reg := R.OneTopic(d, topic), R.OneTopicSnapshot(d, topic).topology;
            && LoadsV0(rules, raw.topicIndex, d, raw.v0Streams, map[topic := Topic("SOURCE_TOPIC", "s", None)], reg)
            && reg.streams == [R.OneTopicStream(d, topic)] && Home(reg.streams[0]) == (d.env, d.clusterId)
  {
    R.OneTopicLoads(rules, d, topic);
    R.OneTopicIndex(topic);
  }

  /** So every default scope that trimming would change occurs: the registry loads, and no view shows its topic or
      lists its stream. */
  lemma HiddenByDefaultScope(rules: Rules, d: Defaults, topic: string)
    requires !Reachable((d.env, d.clusterId))
    ensures var raw, reg := R.OneTopic(d, topic), R.OneTopicSnapshot(d, topic).topology;
            && LoadsV0(rules, raw.topicIndex, d, raw.v0Streams, map[topic := Topic("SOURCE_TOPIC", "s", None)], reg)
            && (forall e :: !Shown(reg, topic, e))
            && (forall env, clusterId :: !Lists(reg, env, clusterId, "s"))
  {
    OneTopicLoadsV0(rules, d, topic);
    var raw, reg := R.OneTopic(d, topic), R.OneTopicSnapshot(d, topic).topology;
    var index := map[topic := Topic("SOURCE_TOPIC", "s", None)];
    V0RoundTripIff(rules, raw.topicIndex, d, raw.v0Streams, index, reg, topic);
    assert reg.streams[0].id == index[topic].streamId;
    V0StreamInExactlyOneView(rules, raw.topicIndex, d, raw.v0Streams, index, reg, 0);
  }

  /** For instance a default environment configured with a leading blank. */
  lemma LeadingBlankDefaultHides()
    ensures !Reachable((" prod", "c"))
  {
    assert IsSpace(" prod"[0]);
  }

  /** A view is given if and only if both scope parts have text and some stream has an instance in the trimmed scope; the
      two errors are told apart. */
  lemma ViewExistsIff(reg: Topology, env: string, clusterId: string)
    ensures ViewOf(reg, env, clusterId).Ok? <==> Strip(env) != "" && Strip(clusterId) != "" && AnyScope(reg.streams, (Strip(env), Strip(clusterId)))
    ensures Strip(env) == "" || Strip(clusterId) == "" ==> ViewOf(reg, env, clusterId) == Err("invalid_scope")
    ensures Strip(env) != "" && Strip(clusterId) != "" && ViewOf(reg, env, clusterId).Err? ==> ViewOf(reg, env, clusterId) == Err("scope_not_found")
  {
    var scope := (Strip(env), Strip(clusterId));
    var ids := InScope(reg.streams, scope);
    if ids != [] {
      InScopeIff(reg.streams, scope, ids[0]);
      assert ids[0] in ids;
    }
    if AnyScope(reg.streams, scope) {
      var i :| 0 <= i < |reg.streams| && HasScope(reg.streams[i].instances, scope);
      InScopeIff(reg.streams, scope, reg.streams[i].id);
    }
  }
}
