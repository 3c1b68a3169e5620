/** Ownership lookup and anomaly-scope resolution over a loaded registry (registry/loader.py, registry/resolver.py). */
module Resolver {
  import opened Wrappers
  import opened Text
  import opened Registry
  import opened RegistryIndex

  // ---------------------------------------------------------------- ownership

  type OwnerKey = (string, string, string)
  datatype Owner = Owner(key: OwnerKey, routingKey: string)

  /** Group owners by (env, cluster, group), topic owners by (env, cluster, topic), stream defaults by (stream, env, cluster). */
  datatype Ownership = Ownership(groups: seq<Owner>, topics: seq<Owner>, streams: seq<Owner>, platformDefault: Option<string>)

  /** The routing key of the first entry with this key. */
  function FirstHit(owners: seq<Owner>, key: OwnerKey): Option<string> {
    if owners == [] then None
    else if owners[0].key == key then Some(owners[0].routingKey)
    else FirstHit(owners[1..], key)
  }

  type OwnerIndex = map<OwnerKey, string>
  function Get(idx: OwnerIndex, key: OwnerKey): Option<string> { if key in idx then Some(idx[key]) else None }

  /** _build_lookup_indexes for one collection: `setdefault` keeps the first entry. */
  method BuildLookupIndex(owners: seq<Owner>) returns (idx: OwnerIndex)
    ensures forall key :: Get(idx, key) == FirstHit(owners, key)
  {
    idx := map[];
    for i := 0 to |owners|
      invariant forall key :: Get(idx, key) == FirstHit(owners[..i], key)
    {
      ghost var before := idx;
      if owners[i].key !in idx { idx := idx[owners[i].key := owners[i].routingKey]; }
      assert owners[..i + 1] == owners[..i] + [owners[i]];
      forall key ensures Get(idx, key) == FirstHit(owners[..i + 1], key) {
        FirstHitAppend(owners[..i], owners[i], key);
        assert Get(before, key) == FirstHit(owners[..i], key);
      }
    }
    assert owners[..|owners|] == owners;
  }

  lemma {:induction false} FirstHitAppend(owners: seq<Owner>, o: Owner, key: OwnerKey)
    ensures FirstHit(owners + [o], key) ==
            if FirstHit(owners, key).Some? then FirstHit(owners, key) else if o.key == key then Some(o.routingKey) else None
  {
    if owners != [] {
      assert (owners + [o])[1..] == owners[1..] + [o];
      FirstHitAppend(owners[1..], o, key);
    }
  }

  predicate UniqueKeys(owners: seq<Owner>) { forall i, j :: 0 <= i < j < |owners| ==> owners[i].key != owners[j].key }

  predicate AllRouted(owners: seq<Owner>, directory: set<string>) {
    forall i :: 0 <= i < |owners| ==> owners[i].routingKey in directory
  }

  /** _validate_ownership_matrix */
  predicate ValidOwnership(rules: Rules, o: Ownership, directory: set<string>) {
    && UniqueKeys(o.groups) && UniqueKeys(o.topics) && UniqueKeys(o.streams)
    && (rules.routingKeyRequired ==>
          && AllRouted(o.groups, directory) && AllRouted(o.topics, directory) && AllRouted(o.streams, directory)
          && (o.platformDefault.Some? ==> o.platformDefault.value in directory))
  }

  method HasUniqueKeys(owners: seq<Owner>) returns (unique: bool)
    ensures unique == UniqueKeys(owners)
  {
    var seen: set<OwnerKey> := {};
    for i := 0 to |owners|
      invariant UniqueKeys(owners[..i])
      invariant forall key :: key in seen <==> exists j :: 0 <= j < i && owners[j].key == key
    {
      if owners[i].key in seen { return false; }
      seen := seen + {owners[i].key};
    }
    return true;
  }

  method ValidateOwnershipMatrix(rules: Rules, o: Ownership, directory: set<string>) returns (valid: bool)
    ensures valid == ValidOwnership(rules, o, directory)
  {
    var groups := HasUniqueKeys(o.groups);
    if !groups { return false; }
    var topics := HasUniqueKeys(o.topics);
    if !topics { return false; }
    var streams := HasUniqueKeys(o.streams);
    if !streams { return false; }
    var all := o.groups + o.topics + o.streams;
    var referenced: set<string> := set i | 0 <= i < |all| :: all[i].routingKey;
    if o.platformDefault.Some? { referenced := referenced + {o.platformDefault.value}; }
    Routed(o, directory, referenced);
    if rules.routingKeyRequired && exists k :: k in referenced && k !in directory { return false; }
    return true;
  }

  lemma Routed(o: Ownership, directory: set<string>, referenced: set<string>)
    requires var all := o.groups + o.topics + o.streams;
             referenced == (set i | 0 <= i < |all| :: all[i].routingKey) + if o.platformDefault.Some? then {o.platformDefault.value} else {}
    ensures (forall k :: k in referenced ==> k in directory) <==>
            && AllRouted(o.groups, directory) && AllRouted(o.topics, directory) && AllRouted(o.streams, directory)
            && (o.platformDefault.Some? ==> o.platformDefault.value in directory)
  {
    var all := o.groups + o.topics + o.streams;
    var g, t := |o.groups|, |o.topics|;
    assert forall i :: 0 <= i < g ==> all[i] == o.groups[i];
    assert forall i :: 0 <= i < t ==> all[g + i] == o.topics[i];
    assert forall i :: 0 <= i < |o.streams| ==> all[g + t + i] == o.streams[i];
    if forall k :: k in referenced ==> k in directory {
      forall i | 0 <= i < |all| ensures all[i].routingKey in directory { assert all[i].routingKey in referenced; }
      forall i | 0 <= i < |o.topics| ensures o.topics[i].routingKey in directory { assert all[g + i] == o.topics[i]; }
      forall i | 0 <= i < |o.streams| ensures o.streams[i].routingKey in directory { assert all[g + t + i] == o.streams[i]; }
    }
  }

  // ---------------------------------------------------------------- owner selection

  datatype Level = ConsumerGroupOwner | TopicOwner | StreamDefaultOwner | PlatformDefault
  datatype Query = Query(env: string, clusterId: string, topic: string, group: Option<string>)

  /** _select_owner_routing_key over the three lookup indexes. */
  function SelectOwner(groups: OwnerIndex, topics: OwnerIndex, streams: OwnerIndex, platformDefault: Option<string>,
                       q: Query, streamId: string): Option<(Level, string)> {
    if q.group.Some? && (q.env, q.clusterId, q.group.value) in groups then
      Some((ConsumerGroupOwner, groups[(q.env, q.clusterId, q.group.value)]))
    else if (q.env, q.clusterId, q.topic) in topics then Some((TopicOwner, topics[(q.env, q.clusterId, q.topic)]))
    else if (streamId, q.env, q.clusterId) in streams then Some((StreamDefaultOwner, streams[(streamId, q.env, q.clusterId)]))
    else if platformDefault.Some? then Some((PlatformDefault, platformDefault.value))
    else None
  }

  /** Every ownership entry as a rule, most specific level first. */
  datatype OwnerRule = OwnerRule(level: Level, owner: Owner)

  predicate Applies(r: OwnerRule, q: Query, streamId: string) {
    match r.level
    case ConsumerGroupOwner => q.group.Some? && r.owner.key == (q.env, q.clusterId, q.group.value)
    case TopicOwner => r.owner.key == (q.env, q.clusterId, q.topic)
    case StreamDefaultOwner => r.owner.key == (streamId, q.env, q.clusterId)
    case PlatformDefault => true
  }

  function RulesAt(level: Level, owners: seq<Owner>): seq<OwnerRule> {
    if owners == [] then [] else [OwnerRule(level, owners[0])] + RulesAt(level, owners[1..])
  }

  function AllRules(o: Ownership): seq<OwnerRule> {
    RulesAt(ConsumerGroupOwner, o.groups) + (RulesAt(TopicOwner, o.topics) + (RulesAt(StreamDefaultOwner, o.streams) +
    if o.platformDefault.Some? then [OwnerRule(PlatformDefault, Owner(("", "", ""), o.platformDefault.value))] else []))
  }

  /** A plain scan of the whole list. */
  function Scan(rules: seq<OwnerRule>, q: Query, streamId: string): Option<(Level, string)> {
    if rules == [] then None
    else if Applies(rules[0], q, streamId) then Some((rules[0].level, rules[0].owner.routingKey))
    else Scan(rules[1..], q, streamId)
  }

  lemma {:induction false} ScanLevel(level: Level, owners: seq<Owner>, rest: seq<OwnerRule>, q: Query, streamId: string, key: Option<OwnerKey>)
    requires level != PlatformDefault
    requires forall o: Owner :: Applies(OwnerRule(level, o), q, streamId) <==> key == Some(o.key)
    ensures Scan(RulesAt(level, owners) + rest, q, streamId) ==
            if key.Some? && FirstHit(owners, key.value).Some? then Some((level, FirstHit(owners, key.value).value)) else Scan(rest, q, streamId)
  {
    if owners == [] {
      assert RulesAt(level, owners) + rest == rest;
    } else {
      var first := OwnerRule(level, owners[0]);
      assert (RulesAt(level, owners) + rest)[1..] == RulesAt(level, owners[1..]) + rest;
      assert Applies(first, q, streamId) <==> key == Some(owners[0].key);
      ScanLevel(level, owners[1..], rest, q, streamId, key);
    }
  }

  ghost predicate Indexes(o: Ownership, groups: OwnerIndex, topics: OwnerIndex, streams: OwnerIndex) {
    && (forall k :: Get(groups, k) == FirstHit(o.groups, k)) && (forall k :: Get(topics, k) == FirstHit(o.topics, k))
    && (forall k :: Get(streams, k) == FirstHit(o.streams, k))
  }

  /** The indexed selection is the first hit of a plain scan in group, topic, stream, platform order. */
  lemma OwnerIsFirstHit(o: Ownership, groups: OwnerIndex, topics: OwnerIndex, streams: OwnerIndex, q: Query, streamId: string)
    requires Indexes(o, groups, topics, streams)
    ensures SelectOwner(groups, topics, streams, o.platformDefault, q, streamId) == Scan(AllRules(o), q, streamId)
  {
    var last := if o.platformDefault.Some? then [OwnerRule(PlatformDefault, Owner(("", "", ""), o.platformDefault.value))] else [];
    var third := RulesAt(StreamDefaultOwner, o.streams) + last;
    var second := RulesAt(TopicOwner, o.topics) + third;
    var group := if q.group.Some? then Some((q.env, q.clusterId, q.group.value)) else None;
    ScanLevel(ConsumerGroupOwner, o.groups, second, q, streamId, group);
    ScanLevel(TopicOwner, o.topics, third, q, streamId, Some((q.env, q.clusterId, q.topic)));
    ScanLevel(StreamDefaultOwner, o.streams, last, q, streamId, Some((streamId, q.env, q.clusterId)));
    assert Scan(last, q, streamId) == if o.platformDefault.Some? then Some((PlatformDefault, o.platformDefault.value)) else None;
    assert group.Some? ==> Get(groups, group.value) == FirstHit(o.groups, group.value);
    assert Get(topics, (q.env, q.clusterId, q.topic)) == FirstHit(o.topics, (q.env, q.clusterId, q.topic));
    assert Get(streams, (streamId, q.env, q.clusterId)) == FirstHit(o.streams, (streamId, q.env, q.clusterId));
  }

  // ---------------------------------------------------------------- resolution

  datatype Reason = Resolved | InvalidScopeShape | ScopeNotFound | TopicNotFound | StreamNotFound
                  | StreamInstanceNotFound | UnsupportedTopicRole | OwnerNotFound | RoutingKeyNotFound
  datatype Role = SourceTopic | SharedTopic | SinkTopic
  datatype Resolution = Resolution(reason: Reason, streamId: Option<string>, role: Option<Role>, owner: Option<(Level, string)>)

  datatype Snapshot = Snapshot(topology: Topology, ownership: Ownership,
                               groupIndex: OwnerIndex, topicIndex: OwnerIndex, streamIndex: OwnerIndex, directory: set<string>)

  function ParseScope(scope: seq<Raw>): Option<Query> {
    if |scope| == 3 && Require(scope[0]).Some? && Require(scope[1]).Some? && Require(scope[2]).Some? then
      Some(Query(Require(scope[0]).value, Require(scope[1]).value, Require(scope[2]).value, None))
    else if |scope| == 4 && Require(scope[0]).Some? && Require(scope[1]).Some? && Require(scope[2]).Some? && Require(scope[3]).Some? then
      Some(Query(Require(scope[0]).value, Require(scope[1]).value, Require(scope[3]).value, Require(scope[2])))
    else None
  }

  /** This part of a scope is this text, trimmed and not empty. */
  predicate PartIs(v: Raw, text: string) { v.RawText? && Strip(v.text) == text && text != "" }

  /** A scope is understood if and only if it has three or four non-blank texts: environment, cluster and topic, with the
      consumer group as the third of four. */
  lemma ScopeMeans(scope: seq<Raw>, q: Query)
    ensures ParseScope(scope) == Some(q) <==>
            || (|scope| == 3 && PartIs(scope[0], q.env) && PartIs(scope[1], q.clusterId) && PartIs(scope[2], q.topic) && q.group.None?)
            || (|scope| == 4 && PartIs(scope[0], q.env) && PartIs(scope[1], q.clusterId) && q.group.Some? && PartIs(scope[2], q.group.value)
                && PartIs(scope[3], q.topic))
  {
  }

  /** _normalize_topic_role after upper-casing. */
  function RoleOf(name: string): Option<Role> {
    if name == "SOURCE_TOPIC" || name == "KAFKA_SOURCE_STREAM" then Some(SourceTopic)
    else if name == "STANDARDIZER_SHARED" || name == "AUDIT_RAW_SHARED" || name == "SHARED_TOPIC" then Some(SharedTopic)
    else if name == "SINK_TOPIC" then Some(SinkTopic)
    else None
  }

  function Unresolved(reason: Reason): Resolution { Resolution(reason, None, None, None) }

  function Route(snap: Snapshot, q: Query, streamId: string, role: Role): Resolution {
    match SelectOwner(snap.groupIndex, snap.topicIndex, snap.streamIndex, snap.ownership.platformDefault, q, streamId)
    case None => Unresolved(OwnerNotFound)
    case Some(owner) =>
      if owner.1 !in snap.directory then Unresolved(RoutingKeyNotFound)
      else Resolution(Resolved, Some(streamId), Some(role), Some(owner))
  }

  /** resolve_anomaly_scope; `upper` is Python's str.upper. */
  function Resolve(upper: string -> string, snap: Snapshot, scope: seq<Raw>): Resolution {
    match ParseScope(scope)
    case None => Unresolved(InvalidScopeShape)
    case Some(q) =>
      var key := (q.env, q.clusterId);
      if key !in snap.topology.index then Unresolved(ScopeNotFound)
      else if q.topic !in snap.topology.index[key] then Unresolved(TopicNotFound)
      else
        var entry := snap.topology.index[key][q.topic];
        if entry.streamId !in snap.topology.byId then Unresolved(StreamNotFound)
        else if !HasScope(snap.topology.byId[entry.streamId].instances, key) then Unresolved(StreamInstanceNotFound)
        else match RoleOf(upper(Strip(entry.role)))
          case None => Unresolved(UnsupportedTopicRole)
          case Some(role) => Route(snap, q, snap.topology.byId[entry.streamId].id, role)
  }

  /** The role of a resolution, by the six names the registry knows. */
  lemma RoleNames(name: string)
    ensures RoleOf(name).Some? <==> name in KNOWN_ROLES
    ensures RoleOf(name) == Some(SourceTopic) <==> name in {"SOURCE_TOPIC", "KAFKA_SOURCE_STREAM"}
    ensures RoleOf(name) == Some(SharedTopic) <==> name in {"STANDARDIZER_SHARED", "AUDIT_RAW_SHARED", "SHARED_TOPIC"}
    ensures RoleOf(name) == Some(SinkTopic) <==> name == "SINK_TOPIC"
  {
  }

  // ---------------------------------------------------------------- what loading guarantees

  datatype RawRegistry = V0(topicIndex: RawTopics, defaults: Defaults, v0Streams: seq<Option<RawStream>>)
                       | V1(v1Streams: seq<Option<RawV1Stream>>)

  function Canonicalize(raw: RawRegistry): Option<seq<Stream>> {
    match raw
    case V0(index, d, streams) => V0Streams(index, d, streams)
    case V1(streams) => MapAll(V1Stream, streams)
  }

  ghost predicate Loads(rules: Rules, raw: RawRegistry, snap: Snapshot) {
    && Canonicalize(raw) == Some(snap.topology.streams) && AddStreams(rules, snap.topology.streams) == Some(snap.topology.index) && snap.topology.byId == ById(snap.topology.streams)
    && Indexes(snap.ownership, snap.groupIndex, snap.topicIndex, snap.streamIndex)
    && ValidOwnership(rules, snap.ownership, snap.directory)
  }

  lemma CanonicalizeOwned(raw: RawRegistry)
    requires Canonicalize(raw).Some?
    ensures forall i :: 0 <= i < |Canonicalize(raw).value| ==> Owned(Canonicalize(raw).value[i])
  {
    match raw
    case V0(rawIndex, d, streams) =>
      V0Owned(ParseTopics(V0Topic, rawIndex).value, d, streams);
    case V1(streams) =>
      MapAllItems(V1Stream, streams);
      forall i | 0 <= i < |streams| ensures Owned(Canonicalize(raw).value[i]) { V1Owned(streams[i]); }
  }

  /** Every indexed topic names a stream that exists and is deployed in that scope. */
  lemma EntryIsBacked(rules: Rules, streams: seq<Stream>, scope: Scope, t: string)
    requires AddStreams(rules, streams).Some? && forall i :: 0 <= i < |streams| ==> Owned(streams[i])
    requires scope in AddStreams(rules, streams).value && t in AddStreams(rules, streams).value[scope]
    ensures var e := AddStreams(rules, streams).value[scope][t];
            && e.streamId in ById(streams) && ById(streams)[e.streamId].id == e.streamId
            && HasScope(ById(streams)[e.streamId].instances, scope) && (rules.failOnUnknownRole ==> e.role in KNOWN_ROLES)
  {
    var e := AddStreams(rules, streams).value[scope][t];
    IndexIsExact(rules, streams, scope, t, e);
    ByIdExact(rules, streams);
    assert At(AddStreams(rules, streams).value, scope, t, e);
    var i :| 0 <= i < |streams| && PlacedIn(streams[i].instances, scope, t, e);
    var j :| 0 <= j < |streams[i].instances| && Holds(streams[i].instances[j], scope, t, e);
    assert Owned(streams[i]);
    LoadsIffConflictFree(rules, streams);
    assert Follows(rules, streams[..i], streams[i]);
    assert RolesOk(rules, streams[i].instances[j].topics);
  }

  lemma {:induction false} FirstHitRouted(owners: seq<Owner>, directory: set<string>, key: OwnerKey)
    requires AllRouted(owners, directory)
    ensures FirstHit(owners, key).Some? ==> FirstHit(owners, key).value in directory
  {
    if owners != [] {
      assert owners[0].routingKey in directory;
      forall i | 0 <= i < |owners| - 1 ensures owners[1..][i].routingKey in directory { assert owners[1..][i] == owners[i + 1]; }
      FirstHitRouted(owners[1..], directory, key);
    }
  }

  lemma SelectedIsRouted(rules: Rules, snap: Snapshot, q: Query, streamId: string)
    requires rules.routingKeyRequired && ValidOwnership(rules, snap.ownership, snap.directory)
    requires Indexes(snap.ownership, snap.groupIndex, snap.topicIndex, snap.streamIndex)
    ensures var o := SelectOwner(snap.groupIndex, snap.topicIndex, snap.streamIndex, snap.ownership.platformDefault, q, streamId);
            o.Some? ==> o.value.1 in snap.directory
  {
    var t, s := (q.env, q.clusterId, q.topic), (streamId, q.env, q.clusterId);
    if q.group.Some? {
      var g := (q.env, q.clusterId, q.group.value);
      FirstHitRouted(snap.ownership.groups, snap.directory, g);
      assert Get(snap.groupIndex, g) == FirstHit(snap.ownership.groups, g);
    }
    FirstHitRouted(snap.ownership.topics, snap.directory, t);
    FirstHitRouted(snap.ownership.streams, snap.directory, s);
    assert Get(snap.topicIndex, t) == FirstHit(snap.ownership.topics, t);
    assert Get(snap.streamIndex, s) == FirstHit(snap.ownership.streams, s);
  }

  /** The query and entry a resolution is about, once the scope and topic are known. */
  predicate Known(snap: Snapshot, scope: seq<Raw>) {
    && ParseScope(scope).Some?
    && var q := ParseScope(scope).value; (q.env, q.clusterId) in snap.topology.index && q.topic in snap.topology.index[(q.env, q.clusterId)]
  }

  /** Against a loaded registry a known topic always reaches its own stream and instance. */
  lemma KnownReachesRouting(upper: string -> string, rules: Rules, raw: RawRegistry, snap: Snapshot, scope: seq<Raw>)
    requires Loads(rules, raw, snap) && Known(snap, scope)
    ensures var q := ParseScope(scope).value;
            var e := snap.topology.index[(q.env, q.clusterId)][q.topic];
            && Resolve(upper, snap, scope) == (match RoleOf(upper(Strip(e.role))) case None => Unresolved(UnsupportedTopicRole)
                                                                                 case Some(role) => Route(snap, q, e.streamId, role))
            && (rules.failOnUnknownRole ==> e.role in KNOWN_ROLES)
  {
    var q := ParseScope(scope).value;
    CanonicalizeOwned(raw);
    EntryIsBacked(rules, snap.topology.streams, (q.env, q.clusterId), q.topic);
  }

  /** Resolving any scope against any registry that loads with routing_key_required never reports a missing stream,
      instance or routing key. */
  lemma NeverDangles(upper: string -> string, rules: Rules, raw: RawRegistry, snap: Snapshot, scope: seq<Raw>)
    requires Loads(rules, raw, snap) && rules.routingKeyRequired
    ensures var reason := Resolve(upper, snap, scope).reason;
            reason != StreamNotFound && reason != StreamInstanceNotFound && reason != RoutingKeyNotFound
  {
    if Known(snap, scope) {
      KnownReachesRouting(upper, rules, raw, snap, scope);
      var q := ParseScope(scope).value;
      SelectedIsRouted(rules, snap, q, snap.topology.index[(q.env, q.clusterId)][q.topic].streamId);
    }
  }

  /** A resolved scope has the topic's own stream and the first owner of a plain scan. */
  lemma ResolvedOwner(upper: string -> string, rules: Rules, raw: RawRegistry, snap: Snapshot, scope: seq<Raw>)
    requires Loads(rules, raw, snap) && Resolve(upper, snap, scope).reason == Resolved
    ensures Known(snap, scope)
    ensures var q := ParseScope(scope).value;
            var e, r := snap.topology.index[(q.env, q.clusterId)][q.topic], Resolve(upper, snap, scope);
            && r.streamId == Some(e.streamId) && r.owner.Some? && r.owner == Scan(AllRules(snap.ownership), q, e.streamId)
            && r.role == RoleOf(upper(Strip(e.role))) && r.role.Some? && r.owner.value.1 in snap.directory
  {
    KnownReachesRouting(upper, rules, raw, snap, scope);
    var q := ParseScope(scope).value;
    OwnerIsFirstHit(snap.ownership, snap.groupIndex, snap.topicIndex, snap.streamIndex, q, snap.topology.index[(q.env, q.clusterId)][q.topic].streamId);
  }

  /** With a platform default, a known topic resolves if and only if its role is supported. */
  lemma DefaultResolvesIff(upper: string -> string, rules: Rules, raw: RawRegistry, snap: Snapshot, scope: seq<Raw>)
    requires Loads(rules, raw, snap) && rules.routingKeyRequired && snap.ownership.platformDefault.Some? && Known(snap, scope)
    ensures var q := ParseScope(scope).value;
            Resolve(upper, snap, scope).reason == Resolved <==> RoleOf(upper(Strip(snap.topology.index[(q.env, q.clusterId)][q.topic].role))).Some?
  {
    KnownReachesRouting(upper, rules, raw, snap, scope);
    var q := ParseScope(scope).value;
    SelectedIsRouted(rules, snap, q, snap.topology.index[(q.env, q.clusterId)][q.topic].streamId);
  }

  /** Against any loaded registry the reason of a resolution is decided by the first of these questions that fails: is the
      scope understood, is it known, is its topic, is the topic's role supported, has it an owner, is the owner's routing
      key in the directory. */
  lemma ReasonExactly(upper: string -> string, rules: Rules, raw: RawRegistry, snap: Snapshot, scope: seq<Raw>)
    requires Loads(rules, raw, snap)
    ensures var reason := Resolve(upper, snap, scope).reason;
            match ParseScope(scope)
            case None => reason == InvalidScopeShape
            case Some(q) =>
              var key := (q.env, q.clusterId);
              if !AnyScope(snap.topology.streams, key) then reason == ScopeNotFound
              else if key in snap.topology.index && q.topic !in snap.topology.index[key] then reason == TopicNotFound
              else
                && Known(snap, scope)
                && var e := snap.topology.index[key][q.topic];
                   if RoleOf(upper(Strip(e.role))).None? then reason == UnsupportedTopicRole
                   else match Scan(AllRules(snap.ownership), q, e.streamId)
                     case None => reason == OwnerNotFound
                     case Some(owner) => reason == if owner.1 in snap.directory then Resolved else RoutingKeyNotFound
  {
    if ParseScope(scope).Some? {
      var q := ParseScope(scope).value;
      var key := (q.env, q.clusterId);
      IndexIsExact(rules, snap.topology.streams, key, q.topic, Topic("", "", None));
      if Known(snap, scope) {
        KnownReachesRouting(upper, rules, raw, snap, scope);
        OwnerIsFirstHit(snap.ownership, snap.groupIndex, snap.topicIndex, snap.streamIndex, q, snap.topology.index[key][q.topic].streamId);
      }
    }
  }

  // ---------------------------------------------------------------- topics nobody can ask for

  /** The caller's scope names exactly this entry of the index. */
  predicate AsksFor(scope: seq<Raw>, env: string, clusterId: string, topic: string) {
    && ParseScope(scope).Some?
    && ParseScope(scope).value.env == env && ParseScope(scope).value.clusterId == clusterId && ParseScope(scope).value.topic == topic
  }

  predicate Askable(env: string, clusterId: string, topic: string) {
    Stripped(env) && env != "" && Stripped(clusterId) && clusterId != "" && Stripped(topic) && topic != ""
  }

  lemma ParsedIsStripped(v: Raw)
    requires Require(v).Some?
    ensures Stripped(Require(v).value) && Require(v).value != ""
  {
    StripFixpoint(v.text);
  }

  /** An indexed topic is named by some scope a caller can pass if and only if trimming leaves its environment, cluster
      and own name unchanged and non-empty. */
  lemma AskableIff(env: string, clusterId: string, topic: string)
    ensures (exists scope :: AsksFor(scope, env, clusterId, topic)) <==> Askable(env, clusterId, topic)
  {
    if scope :| AsksFor(scope, env, clusterId, topic) {
      forall i | 0 <= i < |scope| ensures Stripped(Require(scope[i]).value) && Require(scope[i]).value != "" { ParsedIsStripped(scope[i]); }
    }
    if Askable(env, clusterId, topic) {
      StripFixpoint(env);
      StripFixpoint(clusterId);
      StripFixpoint(topic);
      assert AsksFor([RawText(env), RawText(clusterId), RawText(topic)], env, clusterId, topic);
    }
  }

  /** The snapshot with one entry taken out of the topic index. */
  function Without(snap: Snapshot, scope: Scope, topic: string): Snapshot
    requires scope in snap.topology.index
  {
    snap.(topology := snap.topology.(index := snap.topology.index[scope := snap.topology.index[scope] - {topic}]))
  }

  /** Some resolution is about this entry. */
  ghost predicate Reached(upper: string -> string, snap: Snapshot, scope: Scope, topic: string)
    requires scope in snap.topology.index
  {
    exists asked: seq<Raw> :: Resolve(upper, snap, asked) != Resolve(upper, Without(snap, scope, topic), asked)
  }

  lemma SameWithout(upper: string -> string, snap: Snapshot, scope: Scope, topic: string, asked: seq<Raw>)
    requires scope in snap.topology.index && !AsksFor(asked, scope.0, scope.1, topic)
    ensures Resolve(upper, snap, asked) == Resolve(upper, Without(snap, scope, topic), asked)
  {
    if ParseScope(asked).Some? {
      var q := ParseScope(asked).value;
      var index, smaller := snap.topology.index, Without(snap, scope, topic).topology.index;
      assert (q.env, q.clusterId) in index <==> (q.env, q.clusterId) in smaller;
      assert forall key :: Route(snap, q, key, SinkTopic) == Route(Without(snap, scope, topic), q, key, SinkTopic);
    }
  }

  /** Over a loaded registry, an indexed topic makes a difference to some resolution if and only if it is askable: one
      with outer blanks in its scope or name is indexed and never seen. */
  lemma IndexedIsReachedIff(upper: string -> string, rules: Rules, raw: RawRegistry, snap: Snapshot, scope: Scope, topic: string)
    requires Loads(rules, raw, snap) && scope in snap.topology.index && topic in snap.topology.index[scope]
    ensures Reached(upper, snap, scope, topic) <==> Askable(scope.0, scope.1, topic)
  {
    AskableIff(scope.0, scope.1, topic);
    if Askable(scope.0, scope.1, topic) {
      var asked :| AsksFor(asked, scope.0, scope.1, topic);
      assert Known(snap, asked);
      KnownReachesRouting(upper, rules, raw, snap, asked);
      assert Resolve(upper, Without(snap, scope, topic), asked) == Unresolved(TopicNotFound);
      assert Resolve(upper, snap, asked).reason != TopicNotFound;
    } else {
      forall asked: seq<Raw> ensures Resolve(upper, snap, asked) == Resolve(upper, Without(snap, scope, topic), asked) {
        SameWithout(upper, snap, scope, topic, asked);
      }
    }
  }

  /** A v0 registry of one stream, one topic and default scope. */
  function OneTopic(d: Defaults, topic: string): RawRegistry {
    V0(map[topic := Some(RawTopic(RawText("s"), RawText("SOURCE_TOPIC"), Missing))], d, [Some(RawStream(RawText("s"), Missing, Missing, true))])
  }

  function OneTopicStream(d: Defaults, topic: string): Stream {
    Stream("s", [Instance(d.env, d.clusterId, map[topic := Topic("SOURCE_TOPIC", "s", None)])])
  }

  function OneTopicSnapshot(d: Defaults, topic: string): Snapshot {
    var s := OneTopicStream(d, topic);
    Snapshot(Topology([s], map["s" := s], map[(d.env, d.clusterId) := s.instances[0].topics]), Ownership([], [], [], None), map[], map[], map[], {})
  }

  lemma OneTopicIndex(topic: string)
    ensures ParseTopics(V0Topic, map[topic := Some(RawTopic(RawText("s"), RawText("SOURCE_TOPIC"), Missing))])
         == Some(map[topic := Topic("SOURCE_TOPIC", "s", None)])
  {
    StripFixpoint("s");
    StripFixpoint("SOURCE_TOPIC");
    var raw := map[topic := Some(RawTopic(RawText("s"), RawText("SOURCE_TOPIC"), Missing))];
    var index := map[topic := Topic("SOURCE_TOPIC", "s", None)];
    assert V0Topic(raw[topic]) == Some(index[topic]);
    assert !exists t :: t in raw && V0Topic(raw[t]).None?;
    var parsed := ParseTopics(V0Topic, raw).value;
    assert parsed.Keys == index.Keys && parsed[topic] == index[topic];
    assert parsed == index;
  }

  lemma OneTopicCanonical(d: Defaults, topic: string)
    ensures Canonicalize(OneTopic(d, topic)) == Some([OneTopicStream(d, topic)])
  {
    StripFixpoint("s");
    OneTopicIndex(topic);
    var index := map[topic := Topic("SOURCE_TOPIC", "s", None)];
    assert TopicsOf(index, "s") == index;
    var streams := [Some(RawStream(RawText("s"), Missing, Missing, true))];
    var s := OneTopicStream(d, topic);
    assert V0Stream(index, d, streams[0]) == Some(s);
    assert streams[..0] == [] && V0List(index, d, []) == Some([]);
    assert [] + [s] == [s];
    assert V0List(index, d, streams) == Some([s]);
    assert [s][0].id == "s";
    assert AllReferencesKnown(index, [s]);
  }

  /** It loads, whatever the default scope and the topic's name are. */
  lemma OneTopicLoads(rules: Rules, d: Defaults, topic: string)
    ensures Loads(rules, OneTopic(d, topic), OneTopicSnapshot(d, topic))
  {
    OneTopicCanonical(d, topic);
    var s := OneTopicStream(d, topic);
    var inst := s.instances[0];
    assert [inst][..0] == [] && [s][..0] == [];
    assert "SOURCE_TOPIC" in KNOWN_ROLES;
    assert AddInstances(rules, map[], [inst]) == Some(map[inst.GetScope() := inst.topics]) by {
      assert TopicsAt(map[], inst.GetScope()) + inst.topics == inst.topics;
    }
    assert ById([s]) == map["s" := s];
  }

  /** So every unaskable combination of default scope and topic name occurs: the registry loads, the topic is indexed,
      and no resolution ever sees it. */
  lemma UnreachedTopics(upper: string -> string, rules: Rules, d: Defaults, topic: string)
    requires !Askable(d.env, d.clusterId, topic)
    ensures var snap, scope := OneTopicSnapshot(d, topic), (d.env, d.clusterId);
            && Loads(rules, OneTopic(d, topic), snap) && scope in snap.topology.index && topic in snap.topology.index[scope]
            && !Reached(upper, snap, scope, topic)
  {
    OneTopicLoads(rules, d, topic);
    IndexedIsReachedIff(upper, rules, OneTopic(d, topic), OneTopicSnapshot(d, topic), (d.env, d.clusterId), topic);
  }

  /** For instance a topic written with a leading blank. */
  lemma LeadingBlankIsUnaskable()
    ensures !Askable("prod", "c", " orders") && !Askable(" prod", "c", "orders")
  {
    assert IsSpace(" orders"[0]) && IsSpace(" prod"[0]);
  }
}
