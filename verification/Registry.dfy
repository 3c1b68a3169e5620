/** Topology registry: two raw formats, one canonical form, duplicate checks and the derived topic index
    (registry/loader.py). Which of several violations is reported first is not modelled. */
module Registry {
  import opened Wrappers
  import opened Text

  /** A parsed YAML value where a text is expected. */
  datatype Raw = Missing | NotText | RawText(text: string)

  /** _require_non_empty_string */
  function Require(v: Raw): Option<string> { if v.RawText? then NonBlank(v.text) else None }

  /** _optional_string, followed by `or default`. */
  function OrDefault(v: Raw, default: string): Option<string> {
    match v
    case Missing => Some(default)
    case NotText => None
    case RawText(s) => if NonBlank(s).Some? then NonBlank(s) else Some(default)
  }

  /** _optional_string; `None` inside `Some` is an absent or blank text. */
  function Optional(v: Raw): Option<Option<string>> {
    match v
    case Missing => Some(None)
    case NotText => None
    case RawText(s) => Some(NonBlank(s))
  }

  datatype Topic = Topic(role: string, streamId: string, sourceSystem: Option<string>)
  type Topics = map<string, Topic>
  type Scope = (string, string)
  datatype Instance = Instance(env: string, clusterId: string, topics: Topics)
  {
    function GetScope(): Scope { (env, clusterId) }
  }
  datatype Stream = Stream(id: string, instances: seq<Instance>)

  /** Every topic of a stream's instances names that stream. */
  predicate Owned(s: Stream) {
    forall i, t :: 0 <= i < |s.instances| && t in s.instances[i].topics ==> s.instances[i].topics[t].streamId == s.id
  }

  // ---------------------------------------------------------------- raw entries

  /** An entry that is not an object is `None`. */
  datatype RawTopic = RawTopic(streamId: Raw, role: Raw, sourceSystem: Raw)
  type RawTopics = map<string, Option<RawTopic>>

  /** A v0 topic entry must name its stream. */
  function V0Topic(e: Option<RawTopic>): Option<Topic> {
    if e.None? || Require(e.value.streamId).None? || Require(e.value.role).None? || Optional(e.value.sourceSystem).None? then None
    else Some(Topic(Require(e.value.role).value, Require(e.value.streamId).value, Optional(e.value.sourceSystem).value))
  }

  /** A v1 topic entry may name its stream, and then must name its parent. */
  function V1Topic(parent: string, e: Option<RawTopic>): Option<Topic> {
    if e.None? || OrDefault(e.value.streamId, parent) != Some(parent) || Require(e.value.role).None? || Optional(e.value.sourceSystem).None?
    then None
    else Some(Topic(Require(e.value.role).value, parent, Optional(e.value.sourceSystem).value))
  }

  /** The raw value is this text, trimmed and not empty. */
  predicate Says(v: Raw, text: string) { v.RawText? && Strip(v.text) == text && text != "" }

  /** The raw value is absent or blank. */
  predicate SaysNothing(v: Raw) { v.Missing? || (v.RawText? && Strip(v.text) == "") }

  predicate SaysOptionally(v: Raw, o: Option<string>) { if o.Some? then Says(v, o.value) else SaysNothing(v) }

  /** A v0 entry is accepted if and only if it names a stream and a role, and then keeps stream, role and source system,
      each trimmed. */
  lemma V0TopicSays(e: Option<RawTopic>, t: Topic)
    ensures V0Topic(e) == Some(t) <==>
            e.Some? && Says(e.value.streamId, t.streamId) && Says(e.value.role, t.role) && SaysOptionally(e.value.sourceSystem, t.sourceSystem)
  {
  }

  /** A v1 entry is accepted if and only if it names its parent or no stream, and a role; it keeps role and source system. */
  lemma V1TopicSays(parent: string, e: Option<RawTopic>, t: Topic)
    requires parent != ""
    ensures V1Topic(parent, e) == Some(t) <==>
            && e.Some? && (Says(e.value.streamId, parent) || SaysNothing(e.value.streamId)) && t.streamId == parent
            && Says(e.value.role, t.role) && SaysOptionally(e.value.sourceSystem, t.sourceSystem)
  {
  }

  function ParseTopics(parse: Option<RawTopic> -> Option<Topic>, raw: RawTopics): Option<Topics> {
    if exists t :: t in raw && parse(raw[t]).None? then None
    else Some(map t | t in raw :: parse(raw[t]).value)
  }

  method ParseTopicsLoop(parse: Option<RawTopic> -> Option<Topic>, raw: RawTopics) returns (r: Option<Topics>)
    ensures r == ParseTopics(parse, raw)
  {
    var topics: Topics := map[];
    var rest := raw.Keys;
    while rest != {}
      invariant rest <= raw.Keys && topics.Keys == raw.Keys - rest
      invariant forall t :: t in topics ==> parse(raw[t]) == Some(topics[t])
      decreases rest
    {
      var t :| t in rest;
      var entry := parse(raw[t]);
      if entry.None? { return None; }
      topics := topics[t := entry.value];
      rest := rest - {t};
    }
    assert forall t :: t in raw ==> t in topics && parse(raw[t]).Some?;
    assert topics == map t | t in raw :: parse(raw[t]).value;
    return Some(topics);
  }

  // ---------------------------------------------------------------- v0 streams

  /** `fieldsOk`: the remaining fields of the entry validate. */
  datatype RawStream = RawStream(streamId: Raw, env: Raw, clusterId: Raw, fieldsOk: bool)
  datatype Defaults = Defaults(env: string, clusterId: string)

  function TopicsOf(index: Topics, id: string): Topics { map t | t in index && index[t].streamId == id :: index[t] }

  function V0Stream(index: Topics, d: Defaults, raw: Option<RawStream>): Option<Stream> {
    if raw.None? || Require(raw.value.streamId).None? || OrDefault(raw.value.env, d.env).None?
       || OrDefault(raw.value.clusterId, d.clusterId).None? || !raw.value.fieldsOk
    then None
    else
      var id := Require(raw.value.streamId).value;
      Some(Stream(id, [Instance(OrDefault(raw.value.env, d.env).value, OrDefault(raw.value.clusterId, d.clusterId).value, TopicsOf(index, id))]))
  }

  function V0List(index: Topics, d: Defaults, raw: seq<Option<RawStream>>): Option<seq<Stream>> {
    if raw == [] then Some([])
    else match V0List(index, d, raw[..|raw| - 1])
      case None => None
      case Some(done) =>
        match V0Stream(index, d, raw[|raw| - 1])
        case None => None
        case Some(s) => Some(done + [s])
  }

  /** A v0 stream has the id it names and one instance, in the scope it names or else the default one. */
  lemma V0StreamSays(index: Topics, d: Defaults, raw: Option<RawStream>)
    requires V0Stream(index, d, raw).Some?
    ensures var s := V0Stream(index, d, raw).value;
            && Says(raw.value.streamId, s.id) && |s.instances| == 1
            && (Says(raw.value.env, s.instances[0].env) || (SaysNothing(raw.value.env) && s.instances[0].env == d.env))
            && (Says(raw.value.clusterId, s.instances[0].clusterId) || (SaysNothing(raw.value.clusterId) && s.instances[0].clusterId == d.clusterId))
            && (forall t :: t in s.instances[0].topics <==> t in index && index[t].streamId == s.id)
            && (forall t :: t in s.instances[0].topics ==> s.instances[0].topics[t] == index[t])
  {
  }

  predicate HasStream(streams: seq<Stream>, id: string) { exists i :: 0 <= i < |streams| && streams[i].id == id }

  predicate AllReferencesKnown(index: Topics, streams: seq<Stream>) {
    forall t :: t in index ==> HasStream(streams, index[t].streamId)
  }

  /** _canonicalize_v0_streams */
  function V0Streams(rawIndex: RawTopics, d: Defaults, raw: seq<Option<RawStream>>): Option<seq<Stream>> {
    match ParseTopics(V0Topic, rawIndex)
    case None => None
    case Some(index) =>
      match V0List(index, d, raw)
      case None => None
      case Some(streams) => if AllReferencesKnown(index, streams) then Some(streams) else None
  }

  method CanonicalizeV0Streams(rawIndex: RawTopics, d: Defaults, raw: seq<Option<RawStream>>) returns (r: Option<seq<Stream>>)
    ensures r == V0Streams(rawIndex, d, raw)
  {
    var index := ParseTopicsLoop(V0Topic, rawIndex);
    if index.None? { return None; }
    var byStream := GroupByStream(index.value);
    var streams: seq<Stream> := [];
    var known: set<string> := {};
    for i := 0 to |raw|
      invariant V0List(index.value, d, raw[..i]) == Some(streams)
      invariant forall id :: id in known <==> HasStream(streams, id)
    {
      assert raw[..i + 1][..i] == raw[..i];
      var stream := raw[i];
      var id := if stream.None? then None else Require(stream.value.streamId);
      if id.None? || !stream.value.fieldsOk { FirstFailure(index.value, d, raw, i + 1); return None; }
      known := known + {id.value};
      var env, clusterId := OrDefault(stream.value.env, d.env), OrDefault(stream.value.clusterId, d.clusterId);
      if env.None? || clusterId.None? { FirstFailure(index.value, d, raw, i + 1); return None; }
      var topics := if id.value in byStream then byStream[id.value] else map[];
      UnmentionedIsEmpty(index.value, id.value);
      assert topics == TopicsOf(index.value, id.value);
      ghost var before := streams;
      streams := streams + [Stream(id.value, [Instance(env.value, clusterId.value, topics)])];
      KnownGrows(before, streams[|before|]);
    }
    assert raw[..|raw|] == raw;
    if exists id :: id in byStream.Keys && id !in known { return None; }
    return Some(streams);
  }

  lemma KnownGrows(streams: seq<Stream>, s: Stream)
    ensures forall id :: HasStream(streams + [s], id) <==> HasStream(streams, id) || id == s.id
  {
    forall id ensures HasStream(streams + [s], id) <==> HasStream(streams, id) || id == s.id {
      if HasStream(streams, id) {
        var i :| 0 <= i < |streams| && streams[i].id == id;
        assert (streams + [s])[i].id == id;
      }
      assert (streams + [s])[|streams|] == s;
    }
  }

  lemma {:induction false} FirstFailure(index: Topics, d: Defaults, raw: seq<Option<RawStream>>, i: nat)
    requires i <= |raw| && V0List(index, d, raw[..i]).None?
    ensures V0List(index, d, raw).None?
    decreases |raw|
  {
    if i < |raw| {
      assert raw[..|raw| - 1][..i] == raw[..i];
      FirstFailure(index, d, raw[..|raw| - 1], i);
    } else {
      assert raw[..i] == raw;
    }
  }

  predicate Mentions(index: Topics, id: string) { exists t :: t in index && index[t].streamId == id }

  lemma MentionsGrows(index: Topics, t: string, e: Topic)
    requires t !in index
    ensures forall id :: Mentions(index[t := e], id) <==> Mentions(index, id) || id == e.streamId
  {
    forall id ensures Mentions(index[t := e], id) <==> Mentions(index, id) || id == e.streamId {
      if Mentions(index, id) {
        var u :| u in index && index[u].streamId == id;
        assert index[t := e][u].streamId == id;
      }
      assert index[t := e][t] == e;
    }
  }

  /** Each mentioned stream id with exactly its topics. */
  ghost predicate Groups(index: Topics, groups: map<string, Topics>) {
    && (forall id :: id in groups ==> groups[id] == TopicsOf(index, id))
    && (forall id :: id in groups <==> Mentions(index, id))
  }

  lemma GroupsStep(index: Topics, groups: map<string, Topics>, t: string, e: Topic)
    requires Groups(index, groups) && t !in index
    ensures Groups(index[t := e], groups[e.streamId := (if e.streamId in groups then groups[e.streamId] else map[])[t := e]])
  {
    MentionsGrows(index, t, e);
    forall id: string ensures TopicsOf(index[t := e], id) == if id == e.streamId then TopicsOf(index, id)[t := e] else TopicsOf(index, id) {
    }
    UnmentionedIsEmpty(index, e.streamId);
  }

  lemma UnmentionedIsEmpty(index: Topics, id: string)
    ensures !Mentions(index, id) ==> TopicsOf(index, id) == map[]
  {
  }

  /** topics_by_stream_id */
  method GroupByStream(index: Topics) returns (groups: map<string, Topics>)
    ensures Groups(index, groups)
  {
    groups := map[];
    var done: Topics := map[];
    var rest := index.Keys;
    while rest != {}
      invariant rest <= index.Keys && done == map t | t in index && t !in rest :: index[t]
      invariant Groups(done, groups)
      decreases rest
    {
      var t :| t in rest;
      var id := index[t].streamId;
      GroupsStep(done, groups, t, index[t]);
      var group: Topics := if id in groups then groups[id] else map[];
      groups := groups[id := group[t := index[t]]];
      rest := rest - {t};
      done := done[t := index[t]];
    }
    assert done == index;
  }

  // ---------------------------------------------------------------- v1 streams

  datatype RawInstance = RawInstance(env: Raw, clusterId: Raw, topicIndex: Option<RawTopics>, fieldsOk: bool)
  datatype RawV1Stream = RawV1Stream(streamId: Raw, instances: Option<seq<Option<RawInstance>>>, fieldsOk: bool)

  /** Parse every item, or fail on the first bad one. */
  function MapAll<A, B>(f: A -> Option<B>, xs: seq<A>): Option<seq<B>> {
    if xs == [] then Some([])
    else match MapAll(f, xs[..|xs| - 1])
      case None => None
      case Some(done) => if f(xs[|xs| - 1]).None? then None else Some(done + [f(xs[|xs| - 1]).value])
  }

  lemma {:induction false} MapAllItems<A, B>(f: A -> Option<B>, xs: seq<A>)
    ensures MapAll(f, xs).Some? <==> forall i :: 0 <= i < |xs| ==> f(xs[i]).Some?
    ensures MapAll(f, xs).Some? ==>
              |MapAll(f, xs).value| == |xs| && forall i :: 0 <= i < |xs| ==> f(xs[i]) == Some(MapAll(f, xs).value[i])
  {
    if xs != [] { MapAllItems(f, xs[..|xs| - 1]); }
  }

  method MapAllLoop<A, B>(f: A -> Option<B>, xs: seq<A>) returns (r: Option<seq<B>>)
    ensures r == MapAll(f, xs)
  {
    var out: seq<B> := [];
    for i := 0 to |xs|
      invariant MapAll(f, xs[..i]) == Some(out)
    {
      assert xs[..i + 1][..i] == xs[..i];
      var y := f(xs[i]);
      if y.None? { MapAllItems(f, xs); return None; }
      out := out + [y.value];
    }
    assert xs[..|xs|] == xs;
    return Some(out);
  }

  function V1TopicOf(parent: string): Option<RawTopic> -> Option<Topic> { (e: Option<RawTopic>) => V1Topic(parent, e) }

  function V1Instance(parent: string, raw: Option<RawInstance>): Option<Instance> {
    if raw.None? || Require(raw.value.env).None? || Require(raw.value.clusterId).None? || raw.value.topicIndex.None?
       || ParseTopics(V1TopicOf(parent), raw.value.topicIndex.value).None? || !raw.value.fieldsOk
    then None
    else Some(Instance(Require(raw.value.env).value, Require(raw.value.clusterId).value,
                       ParseTopics(V1TopicOf(parent), raw.value.topicIndex.value).value))
  }

  /** A v1 instance has the scope it names and exactly its own topics. */
  lemma V1InstanceSays(parent: string, raw: Option<RawInstance>)
    requires V1Instance(parent, raw).Some?
    ensures var i := V1Instance(parent, raw).value;
            && Says(raw.value.env, i.env) && Says(raw.value.clusterId, i.clusterId) && i.topics.Keys == raw.value.topicIndex.value.Keys
            && forall t :: t in i.topics ==> V1Topic(parent, raw.value.topicIndex.value[t]) == Some(i.topics[t])
  {
  }

  function V1InstanceOf(parent: string): Option<RawInstance> -> Option<Instance> {
    (raw: Option<RawInstance>) => V1Instance(parent, raw)
  }

  function V1Stream(raw: Option<RawV1Stream>): Option<Stream> {
    if raw.None? || Require(raw.value.streamId).None? || raw.value.instances.None? || !raw.value.fieldsOk then None
    else
      var id := Require(raw.value.streamId).value;
      match MapAll(V1InstanceOf(id), raw.value.instances.value)
      case None => None
      case Some(instances) => Some(Stream(id, instances))
  }

  /** _canonicalize_v1_streams */
  method CanonicalizeV1Streams(raw: seq<Option<RawV1Stream>>) returns (r: Option<seq<Stream>>)
    ensures r == MapAll(V1Stream, raw)
  {
    var streams: seq<Stream> := [];
    for i := 0 to |raw|
      invariant MapAll(V1Stream, raw[..i]) == Some(streams)
    {
      assert raw[..i + 1][..i] == raw[..i];
      MapAllItems(V1Stream, raw);
      var id := if raw[i].None? then None else Require(raw[i].value.streamId);
      if id.None? || raw[i].value.instances.None? || !raw[i].value.fieldsOk { return None; }
      var instances := MapAllLoop(V1InstanceOf(id.value), raw[i].value.instances.value);
      if instances.None? { return None; }
      streams := streams + [Stream(id.value, instances.value)];
    }
    assert raw[..|raw|] == raw;
    return Some(streams);
  }

  /** Both formats yield streams whose topics name their own stream. */
  lemma {:induction false} V0Owned(index: Topics, d: Defaults, raw: seq<Option<RawStream>>)
    requires V0List(index, d, raw).Some?
    ensures var streams := V0List(index, d, raw).value;
            && |streams| == |raw|
            && forall i :: 0 <= i < |streams| ==> V0Stream(index, d, raw[i]) == Some(streams[i]) && Owned(streams[i])
  {
    if raw != [] { V0Owned(index, d, raw[..|raw| - 1]); }
  }

  lemma V1InstanceOwned(parent: string, raw: Option<RawInstance>)
    requires V1Instance(parent, raw).Some?
    ensures forall t :: t in V1Instance(parent, raw).value.topics ==> V1Instance(parent, raw).value.topics[t].streamId == parent
  {
  }

  lemma V1Owned(raw: Option<RawV1Stream>)
    requires V1Stream(raw).Some?
    ensures Owned(V1Stream(raw).value)
  {
    var s := V1Stream(raw).value;
    MapAllItems(V1InstanceOf(s.id), raw.value.instances.value);
    forall i, t | 0 <= i < |s.instances| && t in s.instances[i].topics ensures s.instances[i].topics[t].streamId == s.id {
      assert V1InstanceOf(s.id)(raw.value.instances.value[i]) == Some(s.instances[i]);
      V1InstanceOwned(s.id, raw.value.instances.value[i]);
    }
  }

  // ---------------------------------------------------------------- the topic index

  datatype Rules = Rules(failOnUnknownRole: bool, routingKeyRequired: bool)
  const KNOWN_ROLES: set<string> :=
    {"SOURCE_TOPIC", "KAFKA_SOURCE_STREAM", "STANDARDIZER_SHARED", "AUDIT_RAW_SHARED", "SHARED_TOPIC", "SINK_TOPIC"}
  type Index = map<Scope, Topics>

  function TopicsAt(idx: Index, scope: Scope): Topics { if scope in idx then idx[scope] else map[] }

  predicate Disjoint(a: Topics, b: Topics) { forall t :: t in a ==> t !in b }

  predicate RolesOk(rules: Rules, topics: Topics) {
    rules.failOnUnknownRole ==> forall t :: t in topics ==> topics[t].role in KNOWN_ROLES
  }

  predicate HasScope(insts: seq<Instance>, scope: Scope) { exists i :: 0 <= i < |insts| && insts[i].GetScope() == scope }

  function AddInstance(idx: Index, inst: Instance): Index {
    idx[inst.GetScope() := TopicsAt(idx, inst.GetScope()) + inst.topics]
  }

  function AddInstances(rules: Rules, idx: Index, insts: seq<Instance>): Option<Index> {
    if insts == [] then Some(idx)
    else
      var init, inst := insts[..|insts| - 1], insts[|insts| - 1];
      match AddInstances(rules, idx, init)
      case None => None
      case Some(done) =>
        if HasScope(init, inst.GetScope()) || !Disjoint(inst.topics, TopicsAt(done, inst.GetScope())) || !RolesOk(rules, inst.topics)
        then None else Some(AddInstance(done, inst))
  }

  function AddStreams(rules: Rules, streams: seq<Stream>): Option<Index> {
    if streams == [] then Some(map[])
    else
      var init, s := streams[..|streams| - 1], streams[|streams| - 1];
      match AddStreams(rules, init)
      case None => None
      case Some(done) => if HasStream(init, s.id) then None else AddInstances(rules, done, s.instances)
  }

  function ById(streams: seq<Stream>): map<string, Stream> {
    if streams == [] then map[] else ById(streams[..|streams| - 1])[streams[|streams| - 1].id := streams[|streams| - 1]]
  }
}
