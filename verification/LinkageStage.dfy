/** One linkage call end to end, and what a call after a crash reconstructs (pipeline/stages/linkage.py). */
module LinkageStage {
  import opened Wrappers
  import opened Text
  import opened Linkage
  import C = CaseStore

  datatype Args = Args(caseId: string, pd: string, incident: Option<string>, triageHash: string,
                       diagnosisHash: Option<string>, window: nat)

  /** ServiceNowLinkageWriteResult */
  datatype LinkResult = LinkResult(
    status: string, reason: string, requestId: string, incident: Option<string>, problemSysId: Option<string>,
    problemExternalId: Option<string>, taskSysIds: seq<string>, taskExternalIds: seq<string>)

  // ---------------------------------------------------------------- the artifact

  predicate AllNonBlank(xs: seq<string>) { forall i :: 0 <= i < |xs| ==> Strip(xs[i]) != "" }

  function StripAll(xs: seq<string>): seq<string> { if xs == [] then [] else [Strip(xs[0])] + StripAll(xs[1..]) }

  /** The validated linkage.json of a terminal result; a blank identifier is a validation error. */
  function BuildFile(c: C.Codec, args: Args, res: LinkResult): Result<C.CaseFile> {
    if ValidIdentifiers(args, res)
    then Ok(Seal(c, Placeholder(args, res)))
    else Err("linkage identifiers must be non-empty when provided")
  }

  predicate ValidIdentifiers(args: Args, res: LinkResult) {
    && ReadableText(OrElse(res.incident, args.incident)) && ReadableText(res.problemSysId)
    && ReadableText(res.problemExternalId) && AllNonBlank(res.taskSysIds) && AllNonBlank(res.taskExternalIds)
  }

  function Placeholder(args: Args, res: LinkResult): C.CaseFile {
    C.LinkageFile(args.caseId, res.status, res.reason, NormalizeText(OrElse(res.incident, args.incident)),
                  NormalizeText(res.problemSysId), NormalizeText(res.problemExternalId),
                  StripAll(res.taskSysIds), StripAll(res.taskExternalIds),
                  args.triageHash, args.diagnosisHash, C.HASH_PLACEHOLDER)
  }

  function Seal(c: C.Codec, f: C.CaseFile): C.CaseFile {
    f.WithOwnHash(c.ComputeHash(f))
  }

  // ---------------------------------------------------------------- what the LINKED row remembers

  function PutText(m: Metadata, k: Key, o: Option<string>): Metadata {
    if o.Some? then m[k := JText(o.value)] else m
  }

  function PutList(m: Metadata, k: Key, xs: seq<string>): Metadata {
    if xs != [] then m[k := JList(xs)] else m
  }

  /** _build_linked_retry_reason_metadata */
  function LinkedMetadata(res: LinkResult): Metadata {
    PutList(PutList(PutText(PutText(
      map[KLinkageStatus := JText(res.status), KLinkageReason := JText(res.reason)],
      KProblemSysId, res.problemSysId), KProblemExternalId, res.problemExternalId),
      KTaskSysIds, res.taskSysIds), KTaskExternalIds, res.taskExternalIds)
  }

  function GetText(m: Metadata, k: Key): Option<string> {
    if k in m && m[k].JText? then NonBlank(m[k].text) else None
  }

  function KeepNonBlank(xs: seq<string>): seq<string> {
    if xs == [] then [] else (if Strip(xs[0]) != "" then [xs[0]] else []) + KeepNonBlank(xs[1..])
  }

  function GetList(m: Metadata, k: Key): seq<string> {
    if k !in m then []
    else match m[k]
      case JList(xs) => KeepNonBlank(xs)
      case JText(s) => if Strip(s) == "" then [] else [Strip(s)]
      case JNumber(_) => []
  }

  function OrText(o: Option<string>, default: string): string { if o.Some? then o.value else default }

  /** _build_terminal_linkage_result_from_retry_state */
  function RecoverResult(r: Record, fallbackIncident: Option<string>): LinkResult {
    LinkResult(
      if r.state == Linked then "linked" else OrText(GetText(r.metadata, KLinkageStatus), "failed"),
      OrText(GetText(r.metadata, KLinkageReason), if r.state == Linked then "already_linked" else "failed_final_terminal"),
      OrText(r.requestId, "unknown"), OrElse(r.incidentSysId, fallbackIncident),
      GetText(r.metadata, KProblemSysId), GetText(r.metadata, KProblemExternalId), GetList(r.metadata, KTaskSysIds), GetList(r.metadata, KTaskExternalIds))
  }

  /** The LINKED row the success path stores. */
  function LinkedRow(searching: Record, args: Args, res: LinkResult, now: int): Result<Record> {
    match MarkSuccess(searching, Some(res.requestId), OrElse(res.incident, args.incident), LinkedMetadata(res), now)
    case Err(e) => Err(e)
    case Ok(next) => Revalidated(next)
  }

  lemma {:induction false} KeepAllNonBlank(xs: seq<string>)
    requires AllNonBlank(xs)
    ensures KeepNonBlank(xs) == xs
  {
    if xs != [] {
      assert Strip(xs[0]) != "";
      KeepAllNonBlank(xs[1..]);
      assert xs == [xs[0]] + xs[1..];
    }
  }

  lemma NormalizeStripped(o: Option<string>)
    requires ReadableText(o)
    ensures o.Some? ==> NonBlank(o.value) == NormalizeText(o)
    ensures ReadableText(NormalizeText(o)) && NormalizeText(NormalizeText(o)) == NormalizeText(o)
  {
    if o.Some? { StripFixpoint(o.value); }
  }

  /** Identifiers survive the trip through the row's metadata and are normalised to the same values. */
  lemma MetadataRoundTrip(res: LinkResult)
    requires ReadableText(res.problemSysId) && ReadableText(res.problemExternalId)
    requires AllNonBlank(res.taskSysIds) && AllNonBlank(res.taskExternalIds)
    ensures var m := LinkedMetadata(res);
            && GetText(m, KProblemSysId) == NormalizeText(res.problemSysId)
            && GetText(m, KProblemExternalId) == NormalizeText(res.problemExternalId)
            && GetList(m, KTaskSysIds) == res.taskSysIds && GetList(m, KTaskExternalIds) == res.taskExternalIds
            && GetText(m, KLinkageReason) == NonBlank(res.reason)
  {
    NormalizeStripped(res.problemSysId);
    NormalizeStripped(res.problemExternalId);
    KeepAllNonBlank(res.taskSysIds);
    KeepAllNonBlank(res.taskExternalIds);
  }

  lemma RecoveredIncident(a: Option<string>, stored: Option<string>, fallback: Option<string>, previous: Option<string>)
    requires ReadableText(a) && ReadableText(OrElse(a, previous)) && stored == NormalizeText(OrElse(a, previous))
    requires fallback.Some? ==> a.Some?
    ensures NormalizeText(OrElse(stored, fallback)) == NormalizeText(a) <==> a.Some? || previous.None?
    ensures ReadableText(OrElse(stored, fallback))
  {
    if a.Some? {
      StripFixpoint(a.value);
      assert Strip("") == "";
    } else if previous.Some? {
      StripFixpoint(previous.value);
    }
  }

  /** A call made after the process died between storing the LINKED row and writing linkage.json rebuilds exactly the
      file the uninterrupted call would have written -- and so its hash -- if and only if the lost result was
      "linked" with a stripped non-empty reason and the row holds no incident the lost call did not know. */
  lemma RecoveryIsFaithfulIff(c: C.Codec, searching: Record, args: Args, res: LinkResult, now: int)
    requires LinkedRow(searching, args, res, now).Ok? && BuildFile(c, args, res).Ok?
    ensures var row := LinkedRow(searching, args, res, now).value;
            && BuildFile(c, args, RecoverResult(row, args.incident)).Ok?
            && (BuildFile(c, args, RecoverResult(row, args.incident)) == BuildFile(c, args, res) <==>
                && res.status == "linked" && Strip(res.reason) == res.reason && res.reason != ""
                && (OrElse(res.incident, args.incident).Some? || searching.incidentSysId.None?))
  {
    var row := LinkedRow(searching, args, res, now).value;
    var back := RecoverResult(row, args.incident);
    var incident := OrElse(res.incident, args.incident);
    MetadataRoundTrip(res);
    RecoveredIncident(incident, row.incidentSysId, args.incident, searching.incidentSysId);
    NormalizeStripped(res.problemSysId);
    NormalizeStripped(res.problemExternalId);
    assert back.taskSysIds == res.taskSysIds && back.taskExternalIds == res.taskExternalIds;
    BackIncident(back, row, args);
    var reason := back.reason;
    assert reason == OrText(NonBlank(res.reason), "already_linked");
    ReasonSurvivesIff(res.reason);
    FilesDifferOnlyInThree(c, args, res, back);
  }

  lemma BackIncident(back: LinkResult, row: Record, args: Args)
    requires back.incident == OrElse(row.incidentSysId, args.incident)
    ensures OrElse(back.incident, args.incident) == OrElse(row.incidentSysId, args.incident)
  {
  }

  lemma ReasonSurvivesIff(reason: string)
    ensures OrText(NonBlank(reason), "already_linked") == reason <==> Strip(reason) == reason && reason != ""
  {
    StripFixpoint(reason);
    StripFixpoint("already_linked");
    assert Stripped("already_linked");
  }

  /** Two results that agree on problem and task identifiers build one file exactly when status, reason and
      incident agree. */
  lemma FilesDifferOnlyInThree(c: C.Codec, args: Args, a: LinkResult, b: LinkResult)
    requires BuildFile(c, args, a).Ok? && BuildFile(c, args, b).Ok?
    requires NormalizeText(a.problemSysId) == NormalizeText(b.problemSysId)
    requires NormalizeText(a.problemExternalId) == NormalizeText(b.problemExternalId)
    requires a.taskSysIds == b.taskSysIds && a.taskExternalIds == b.taskExternalIds
    ensures BuildFile(c, args, a) == BuildFile(c, args, b) <==>
            && a.status == b.status && a.reason == b.reason
            && NormalizeText(OrElse(a.incident, args.incident)) == NormalizeText(OrElse(b.incident, args.incident))
  {
    var f, g := BuildFile(c, args, a).value, BuildFile(c, args, b).value;
    assert f.status == a.status && f.reason == a.reason && f.incidentSysId == NormalizeText(OrElse(a.incident, args.incident));
    assert g.status == b.status && g.reason == b.reason && g.incidentSysId == NormalizeText(OrElse(b.incident, args.incident));
  }

  /** A "skipped" result is reconstructed as "linked": the files always differ. */
  lemma SkippedIsNotRecovered(c: C.Codec, searching: Record, args: Args, res: LinkResult, now: int)
    requires LinkedRow(searching, args, res, now).Ok? && BuildFile(c, args, res).Ok? && res.status == "skipped"
    ensures var back := RecoverResult(LinkedRow(searching, args, res, now).value, args.incident);
            BuildFile(c, args, back).Ok? && BuildFile(c, args, back) != BuildFile(c, args, res)
  {
    assert "skipped"[0] != "linked"[0];
    RecoveryIsFaithfulIff(c, searching, args, res, now);
  }

  // ---------------------------------------------------------------- one call

  datatype Env = Env(codec: C.Codec, rules: Rules, classify: LinkResult -> Failure)
  datatype World = World(rows: Table, objects: C.Objects)

  datatype Outcome =
    | Waiting(row: Record)                                        // a retry is scheduled and not due
    | Retrying(row: Record)                                       // this attempt failed, another is scheduled
    | Finished(row: Record, result: LinkResult, file: C.CaseFile) // linkage.json is in the store

  /** _persist_terminal_linkage_stage */
  function Finish(c: C.Codec, objects: C.Objects, args: Args, res: LinkResult, faults: C.Faults): (C.Objects, Result<C.CaseFile>) {
    match BuildFile(c, args, res)
    case Err(e) => (objects, Err(e))
    case Ok(f) =>
      var (after, written) := C.PersistStage(c, objects, f, faults);
      (after, if written.Ok? then Ok(f) else Err(written.error))
  }

  /** _ensure_terminal_linkage_stage */
  function Ensure(c: C.Codec, objects: C.Objects, args: Args, res: LinkResult, faults: C.Faults): (C.Objects, Result<C.CaseFile>) {
    match C.ReadStage(c, objects, args.caseId, C.Linkage, faults.existingReadable)
    case Err(e) => (objects, Err(e))
    case Ok(Some(f)) => (objects, Ok(f))
    case Ok(None) => Finish(c, objects, args, res, faults)
  }

  function Report(rows: Table, row: Record, res: LinkResult, stored: (C.Objects, Result<C.CaseFile>)): (World, Result<Outcome>) {
    (World(rows, stored.0), if stored.1.Ok? then Ok(Finished(row, res, stored.1.value)) else Err(stored.1.error))
  }

  /** The record a finished attempt leads to. */
  function Settled(env: Env, searching: Record, args: Args, res: LinkResult, now: int): Result<Record> {
    if res.status == "linked" || res.status == "skipped"
    then MarkSuccess(searching, Some(res.requestId), OrElse(res.incident, args.incident), LinkedMetadata(res), now)
    else MarkFailure(env.rules, searching, env.classify(res), now)
  }

  /** Everything after the remote attempt; `dies` stops the process between the row and linkage.json. */
  function Settle(env: Env, w: World, searching: Record, args: Args, res: LinkResult, now: int, faults: C.Faults, dies: bool): (World, Result<Outcome>) {
    match Settled(env, searching, args, res, now)
    case Err(e) => (w, Err(e))
    case Ok(next) =>
      var (rows, stored) := PersistTransition(w.rows, args.caseId, next, {Searching});
      match stored
      case Err(e) => (World(rows, w.objects), Err(e))
      case Ok(row) =>
        if row.state == FailedTemp then (World(rows, w.objects), Ok(Retrying(row)))
        else if dies then (World(rows, w.objects), Err("process died"))
        else Report(rows, row, res, Finish(env.codec, w.objects, args, res, faults))
  }

  function Attempt(env: Env, w: World, row: Record, args: Args, res: LinkResult, now: int, faults: C.Faults, dies: bool): (World, Result<Outcome>) {
    match MarkSearching(row, now)
    case Err(e) => (w, Err(e))
    case Ok(next) =>
      var (rows, stored) := PersistTransition(w.rows, args.caseId, next, {row.state});
      match stored
      case Err(e) => (World(rows, w.objects), Err(e))
      case Ok(searching) => Settle(env, World(rows, w.objects), searching, args, res, now, faults, dies)
  }

  /** execute_servicenow_linkage_and_persist with a repository; `res` is the remote attempt's answer, if one is made. */
  function Execute(env: Env, w: World, args: Args, res: LinkResult, now: int, faults: C.Faults, dies: bool): (World, Result<Outcome>) {
    var (rows, got) := GetOrCreate(w.rows, args.caseId, args.pd, args.incident, args.window, now);
    match got
    case Err(e) => (World(rows, w.objects), Err(e))
    case Ok(row) =>
      if row.Terminal() then
        Report(rows, row, RecoverResult(row, args.incident),
               Ensure(env.codec, w.objects, args, RecoverResult(row, args.incident), faults))
      else if row.state == FailedTemp && !IsRetryDue(row, now) then (World(rows, w.objects), Ok(Waiting(row)))
      else Attempt(env, World(rows, w.objects), row, args, res, now, faults, dies)
  }

  method PersistTerminalLinkageStage(store: C.ObjectStoreClient, c: C.Codec, args: Args, res: LinkResult, faults: C.Faults)
    returns (r: Result<C.CaseFile>)
    modifies store
    ensures (store.objects, r) == Finish(c, old(store.objects), args, res, faults)
  {
    var built := BuildFile(c, args, res);
    if built.Err? { return built; }
    var written := store.Persist(c, built.value, faults);
    if written.Err? { return Err(written.error); }
    return built;
  }

  method EnsureTerminalLinkageStage(store: C.ObjectStoreClient, c: C.Codec, args: Args, res: LinkResult, faults: C.Faults)
    returns (r: Result<C.CaseFile>)
    modifies store
    ensures (store.objects, r) == Ensure(c, old(store.objects), args, res, faults)
  {
    var existing := C.ReadStage(c, store.objects, args.caseId, C.Linkage, faults.existingReadable);
    if existing.Err? { return Err(existing.error); }
    if existing.value.Some? { return Ok(existing.value.value); }
    r := PersistTerminalLinkageStage(store, c, args, res, faults);
  }

  method ExecuteServiceNowLinkageAndPersist(
    repo: LinkageRetrySqlRepository, store: C.ObjectStoreClient, env: Env, args: Args, res: LinkResult, now: int,
    faults: C.Faults, dies: bool) returns (r: Result<Outcome>)
    modifies repo, store
    ensures (World(repo.rows, store.objects), r) == Execute(env, World(old(repo.rows), old(store.objects)), args, res, now, faults, dies)
  {
    var retryState := repo.GetOrCreatePending(args.caseId, args.pd, args.incident, args.window, now);
    if retryState.Err? { return Err(retryState.error); }
    if retryState.value.Terminal() {
      var back := RecoverResult(retryState.value, args.incident);
      var ensured := EnsureTerminalLinkageStage(store, env.codec, args, back, faults);
      if ensured.Err? { return Err(ensured.error); }
      return Ok(Finished(retryState.value, back, ensured.value));
    }
    if retryState.value.state == FailedTemp && !IsRetryDue(retryState.value, now) { return Ok(Waiting(retryState.value)); }
    var searching := MarkSearching(retryState.value, now); // never refused: the row is not terminal
    retryState := repo.Persist(args.caseId, searching.value, {retryState.value.state});
    if retryState.Err? { return Err(retryState.error); }
    var next := Settled(env, retryState.value, args, res, now);
    if next.Err? { return Err(next.error); }
    retryState := repo.Persist(args.caseId, next.value, {Searching});
    if retryState.Err? { return Err(retryState.error); }
    if retryState.value.state == FailedTemp { return Ok(Retrying(retryState.value)); }
    if dies { return Err("process died"); }
    var stored := PersistTerminalLinkageStage(store, env.codec, args, res, faults);
    if stored.Err? { return Err(stored.error); }
    return Ok(Finished(retryState.value, res, stored.value));
  }

  // ---------------------------------------------------------------- crash recovery

  /** The row that the first half of a call leaves as SEARCHING. */
  function SearchingRow(w: World, args: Args, now: int): Result<Record> {
    var (rows, got) := GetOrCreate(w.rows, args.caseId, args.pd, args.incident, args.window, now);
    match got
    case Err(e) => Err(e)
    case Ok(row) =>
      match MarkSearching(row, now)
      case Err(e) => Err(e)
      case Ok(next) => PersistTransition(rows, args.caseId, next, {row.state}).1
  }

  /** What the row already knew about the incident before the attempt. */
  predicate NoStoredIncident(w: World, args: Args) {
    args.caseId !in w.rows || w.rows[args.caseId].incidentSysId.None?
  }

  lemma SearchingIncident(w: World, args: Args, now: int)
    requires SearchingRow(w, args, now).Ok? && args.incident.None?
    ensures SearchingRow(w, args, now).value.incidentSysId.None? <==> NoStoredIncident(w, args)
  {
  }

  /** Dying before linkage.json and finishing agree on the row; finishing adds the file that BuildFile gives. */
  ghost predicate Agree(env: Env, objects: C.Objects, args: Args, res: LinkResult, row: Result<Record>,
                        done: (World, Result<Outcome>), left: (World, Result<Outcome>)) {
    && row.Ok? && left.0.objects == objects && done.0.rows == left.0.rows
    && args.caseId in left.0.rows && left.0.rows[args.caseId] == row.value && row.value.state == Linked
    && done.1.Ok? && done.1.value.Finished? && done.1.value.row == row.value
    && Finish(env.codec, objects, args, res, C.NO_FAULTS) == (done.0.objects, Ok(done.1.value.file))
  }

  predicate FinishedLinked(r: Result<Outcome>) {
    r.Ok? && r.value.Finished? && r.value.row.state == Linked
  }

  lemma FailureNeverLinks(env: Env, searching: Record, args: Args, res: LinkResult, now: int)
    requires res.status != "linked" && res.status != "skipped" && Settled(env, searching, args, res, now).Ok?
    ensures Settled(env, searching, args, res, now).value.state != Linked
  {
  }

  lemma SettleAgrees(env: Env, w: World, searching: Record, args: Args, res: LinkResult, now: int)
    requires args.caseId in w.rows && w.rows[args.caseId].state == Searching
    requires FinishedLinked(Settle(env, w, searching, args, res, now, C.NO_FAULTS, false).1)
    ensures Agree(env, w.objects, args, res, LinkedRow(searching, args, res, now),
                  Settle(env, w, searching, args, res, now, C.NO_FAULTS, false),
                  Settle(env, w, searching, args, res, now, C.NO_FAULTS, true))
  {
    var next := Settled(env, searching, args, res, now).value;
    if res.status != "linked" && res.status != "skipped" { FailureNeverLinks(env, searching, args, res, now); }
    RevalidatedKeeps(next);
    var (rows, stored) := PersistTransition(w.rows, args.caseId, next, {Searching});
    assert stored == Revalidated(next) == LinkedRow(searching, args, res, now);
    assert rows == w.rows[args.caseId := stored.value];
  }

  lemma AttemptAgrees(env: Env, w: World, row: Record, args: Args, res: LinkResult, now: int)
    requires args.caseId in w.rows && w.rows[args.caseId] == row && !row.Terminal()
    requires FinishedLinked(Attempt(env, w, row, args, res, now, C.NO_FAULTS, false).1)
    ensures var searching := PersistTransition(w.rows, args.caseId, MarkSearching(row, now).value, {row.state}).1;
            && searching.Ok?
            && Agree(env, w.objects, args, res, LinkedRow(searching.value, args, res, now),
                     Attempt(env, w, row, args, res, now, C.NO_FAULTS, false),
                     Attempt(env, w, row, args, res, now, C.NO_FAULTS, true))
  {
    var next := MarkSearching(row, now).value;
    var (rows, searching) := PersistTransition(w.rows, args.caseId, next, {row.state});
    RevalidatedKeeps(next);
    SettleAgrees(env, World(rows, w.objects), searching.value, args, res, now);
  }

  lemma InterruptedAgrees(env: Env, w: World, args: Args, res: LinkResult, now: int)
    requires args.caseId in w.rows ==> !w.rows[args.caseId].Terminal()
    requires FinishedLinked(Execute(env, w, args, res, now, C.NO_FAULTS, false).1)
    ensures SearchingRow(w, args, now).Ok?
    ensures Agree(env, w.objects, args, res, LinkedRow(SearchingRow(w, args, now).value, args, res, now),
                  Execute(env, w, args, res, now, C.NO_FAULTS, false), Execute(env, w, args, res, now, C.NO_FAULTS, true))
  {
    GetOrCreateEffect(w.rows, args.caseId, args.pd, args.incident, args.window, now);
    var (rows, got) := GetOrCreate(w.rows, args.caseId, args.pd, args.incident, args.window, now);
    AttemptAgrees(env, World(rows, w.objects), got.value, args, res, now);
  }

  /** Reading the interrupted row: the next call takes the recovery path. */
  lemma RecoveryPath(env: Env, w: World, args: Args, res: LinkResult, now: int)
    requires args.caseId in w.rows && w.rows[args.caseId].state == Linked && w.rows[args.caseId].pdIncidentId == args.pd
    requires Strip(args.caseId) != "" && Strip(args.pd) != "" && args.window >= 1 && ReadableText(args.incident)
    ensures var back := RecoverResult(w.rows[args.caseId], args.incident);
            Execute(env, w, args, res, now, C.NO_FAULTS, false) ==
            Report(w.rows, w.rows[args.caseId], back, Ensure(env.codec, w.objects, args, back, C.NO_FAULTS))
  {
  }

  /** Whether linkage.json can be written onto a free key depends on the call's hashes, not on the result. */
  lemma FinishOnFreeKey(c: C.Codec, objects: C.Objects, args: Args, a: LinkResult, b: LinkResult)
    requires C.ObjectKey(args.caseId, C.Linkage).Ok? && C.ObjectKey(args.caseId, C.Linkage).value !in objects
    requires BuildFile(c, args, a).Ok? && BuildFile(c, args, b).Ok?
    requires Finish(c, objects, args, a, C.NO_FAULTS).1.Ok?
    ensures var key := C.ObjectKey(args.caseId, C.Linkage).value;
            Finish(c, objects, args, b, C.NO_FAULTS) ==
            (objects[key := c.serialize(BuildFile(c, args, b).value)], BuildFile(c, args, b))
  {
    var f, g := BuildFile(c, args, a).value, BuildFile(c, args, b).value;
    assert g.WithOwnHash(C.HASH_PLACEHOLDER) == Placeholder(args, b);
    assert c.HasValidHash(g);
    assert f.caseId == g.caseId && f.triageHash == g.triageHash && f.NamedDiagnosis() == g.NamedDiagnosis();
    assert C.CheckDependencies(c, objects, f, true).Ok?;
    assert C.CheckDependencies(c, objects, g, true).Ok?;
  }

  lemma SearchingRowAccepted(w: World, args: Args, now: int)
    requires SearchingRow(w, args, now).Ok? && (args.caseId in w.rows ==> !w.rows[args.caseId].Terminal())
    ensures Strip(args.caseId) != "" && Strip(args.pd) != "" && args.window >= 1 && ReadableText(args.incident)
    ensures SearchingRow(w, args, now).value.pdIncidentId == args.pd
  {
  }

  /** When a call repeated after the crash rebuilds the lost file. */
  predicate Recoverable(w: World, args: Args, res: LinkResult) {
    && res.status == "linked" && Strip(res.reason) == res.reason && res.reason != ""
    && (OrElse(res.incident, args.incident).Some? || NoStoredIncident(w, args))
  }

  /** The process dies after the LINKED row is stored and before linkage.json is written. The next call with the same
      arguments -- at any time, whatever the remote would answer -- finishes, leaves the row alone, and leaves exactly
      the rows, objects, file and hash of the uninterrupted call if and only if the result was recoverable. */
  lemma CrashRecoveryIff(env: Env, w: World, args: Args, res: LinkResult, now: int, later: int, answer: LinkResult)
    requires env.codec.Lawful()
    requires args.caseId in w.rows ==> !w.rows[args.caseId].Terminal()
    requires C.ObjectKey(args.caseId, C.Linkage).Ok? ==> C.ObjectKey(args.caseId, C.Linkage).value !in w.objects
    requires FinishedLinked(Execute(env, w, args, res, now, C.NO_FAULTS, false).1)
    ensures var (done, r) := Execute(env, w, args, res, now, C.NO_FAULTS, false);
            var (left, _) := Execute(env, w, args, res, now, C.NO_FAULTS, true);
            var (back, r') := Execute(env, left, args, answer, later, C.NO_FAULTS, false);
            && FinishedLinked(r') && r'.value.row == r.value.row && back.rows == done.rows
            && (r'.value.file == r.value.file <==> Recoverable(w, args, res))
            && (back == done <==> Recoverable(w, args, res))
  {
    InterruptedAgrees(env, w, args, res, now);
    SearchingRowAccepted(w, args, now);
    var searching := SearchingRow(w, args, now).value;
    var row := LinkedRow(searching, args, res, now).value;
    var left := Execute(env, w, args, res, now, C.NO_FAULTS, true).0;
    var back := RecoverResult(row, args.incident);
    RecoveryPath(env, left, args, answer, later);
    RecoverableAgrees(env.codec, w, searching, args, res, now);
    FilesEqualIffStoresEqual(env.codec, w.objects, args, res, back);
  }

  lemma RecoverableAgrees(c: C.Codec, w: World, searching: Record, args: Args, res: LinkResult, now: int)
    requires SearchingRow(w, args, now) == Ok(searching)
    requires LinkedRow(searching, args, res, now).Ok? && BuildFile(c, args, res).Ok?
    ensures var row := LinkedRow(searching, args, res, now).value;
            && BuildFile(c, args, RecoverResult(row, args.incident)).Ok?
            && (BuildFile(c, args, RecoverResult(row, args.incident)) == BuildFile(c, args, res) <==> Recoverable(w, args, res))
  {
    RecoveryIsFaithfulIff(c, searching, args, res, now);
    if OrElse(res.incident, args.incident).None? { SearchingIncident(w, args, now); }
  }

  lemma FilesEqualIffStoresEqual(c: C.Codec, objects: C.Objects, args: Args, a: LinkResult, b: LinkResult)
    requires C.ObjectKey(args.caseId, C.Linkage).Ok? ==> C.ObjectKey(args.caseId, C.Linkage).value !in objects
    requires c.Lawful() && BuildFile(c, args, b).Ok? && Finish(c, objects, args, a, C.NO_FAULTS).1.Ok?
    ensures var x, y := Finish(c, objects, args, a, C.NO_FAULTS), Ensure(c, objects, args, b, C.NO_FAULTS);
            && y.1.Ok? && x.1 == BuildFile(c, args, a) && y.1 == BuildFile(c, args, b)
            && (x.0 == y.0 <==> x.1 == y.1)
  {
    FinishOnFreeKey(c, objects, args, a, a);
    FinishOnFreeKey(c, objects, args, a, b);
    var f, g := BuildFile(c, args, a).value, BuildFile(c, args, b).value;
    var key := C.ObjectKey(args.caseId, C.Linkage).value;
    assert c.parse(f.GetStage(), c.serialize(f)) == Some(f) && c.parse(g.GetStage(), c.serialize(g)) == Some(g);
    if objects[key := c.serialize(f)] == objects[key := c.serialize(g)] {
      assert objects[key := c.serialize(f)][key] == objects[key := c.serialize(g)][key];
    }
  }

  // ---------------------------------------------------------------- what a terminal row is recovered as

  /** The metadata holds this text under the key, trimmed and not blank. */
  predicate MetadataSays(m: Metadata, k: Key, text: string) {
    k in m && m[k].JText? && Strip(m[k].text) == text && text != ""
  }

  predicate MetadataSilent(m: Metadata, k: Key) {
    k in m ==> !m[k].JText? || Strip(m[k].text) == ""
  }

  /** A recovered result field by field: the status is "linked" for a LINKED row, and otherwise what the metadata says or
      "failed"; the reason is what the metadata says or the default of the state; the identifiers are the metadata's. */
  lemma RecoveredSays(r: Record, fallback: Option<string>)
    ensures var back, m := RecoverResult(r, fallback), r.metadata;
            && (r.state == Linked ==> back.status == "linked")
            && (r.state != Linked ==> MetadataSays(m, KLinkageStatus, back.status) || (MetadataSilent(m, KLinkageStatus) && back.status == "failed"))
            && (|| MetadataSays(m, KLinkageReason, back.reason)
                || (MetadataSilent(m, KLinkageReason) && back.reason == if r.state == Linked then "already_linked" else "failed_final_terminal"))
            && back.requestId == (if r.requestId.Some? then r.requestId.value else "unknown")
            && back.incident == (if r.incidentSysId.Some? && r.incidentSysId.value != "" then r.incidentSysId else fallback)
            && (if back.problemSysId.Some? then MetadataSays(m, KProblemSysId, back.problemSysId.value) else MetadataSilent(m, KProblemSysId))
            && (if back.problemExternalId.Some? then MetadataSays(m, KProblemExternalId, back.problemExternalId.value) else MetadataSilent(m, KProblemExternalId))
  {
  }

  /** The file a terminal result is written as, field by field. */
  lemma BuiltSays(c: C.Codec, args: Args, res: LinkResult)
    requires BuildFile(c, args, res).Ok?
    ensures var f := BuildFile(c, args, res).value;
            && f.LinkageFile? && f.caseId == args.caseId && f.status == res.status && f.reason == res.reason
            && f.incidentSysId == NormalizeText(if res.incident.Some? && res.incident.value != "" then res.incident else args.incident)
            && f.problemSysId == NormalizeText(res.problemSysId) && f.problemExternalId == NormalizeText(res.problemExternalId)
            && f.triageHash == args.triageHash && f.diagnosisRef == args.diagnosisHash && c.HasValidHash(f)
            && |f.pirTaskSysIds| == |res.taskSysIds| && |f.pirTaskExternalIds| == |res.taskExternalIds|
            && (forall i :: 0 <= i < |res.taskSysIds| ==> f.pirTaskSysIds[i] == Strip(res.taskSysIds[i]))
            && (forall i :: 0 <= i < |res.taskExternalIds| ==> f.pirTaskExternalIds[i] == Strip(res.taskExternalIds[i]))
  {
    StripAllAt(res.taskSysIds);
    StripAllAt(res.taskExternalIds);
    assert BuildFile(c, args, res).value.WithOwnHash(C.HASH_PLACEHOLDER) == Placeholder(args, res);
  }

  lemma {:induction false} StripAllAt(xs: seq<string>)
    ensures |StripAll(xs)| == |xs| && forall i :: 0 <= i < |xs| ==> StripAll(xs)[i] == Strip(xs[i])
  {
    if xs != [] { StripAllAt(xs[1..]); }
  }

  /** The call's arguments are accepted and its row is FAILED_FINAL. */
  predicate FinalRow(w: World, args: Args) {
    && args.caseId in w.rows && w.rows[args.caseId].state == FailedFinal && w.rows[args.caseId].pdIncidentId == args.pd
    && Strip(args.caseId) != "" && Strip(args.pd) != "" && args.window >= 1 && ReadableText(args.incident)
  }

  /** A call that finds a FAILED_FINAL row and a free key leaves the rows alone and, when it finishes, has stored the file
      of what the metadata says: never "linked" unless the metadata says so. */
  lemma FailedFinalIsNotRecoveredAsLinked(env: Env, w: World, args: Args, answer: LinkResult, now: int, faults: C.Faults, dies: bool)
    requires FinalRow(w, args) && C.ObjectKey(args.caseId, C.Linkage).Ok? && C.ObjectKey(args.caseId, C.Linkage).value !in w.objects
    ensures var (after, r) := Execute(env, w, args, answer, now, faults, dies);
            var m, key := w.rows[args.caseId].metadata, C.ObjectKey(args.caseId, C.Linkage).value;
            && after.rows == w.rows
            && (r.Ok? ==>
                  && r.value.Finished? && r.value.file.LinkageFile? && after.objects == w.objects[key := env.codec.serialize(r.value.file)]
                  && (MetadataSays(m, KLinkageStatus, r.value.file.status) || (MetadataSilent(m, KLinkageStatus) && r.value.file.status == "failed"))
                  && (r.value.file.status == "linked" ==> MetadataSays(m, KLinkageStatus, "linked")))
  {
    var row := w.rows[args.caseId];
    var back := RecoverResult(row, args.incident);
    FinalPath(env, w, args, answer, now, faults, dies);
    RecoveredSays(row, args.incident);
    assert "failed"[0] != "linked"[0];
    EnsureOnFreeKey(env.codec, w.objects, args, back, faults);
  }

  lemma FinalPath(env: Env, w: World, args: Args, answer: LinkResult, now: int, faults: C.Faults, dies: bool)
    requires FinalRow(w, args)
    ensures var back := RecoverResult(w.rows[args.caseId], args.incident);
            Execute(env, w, args, answer, now, faults, dies) ==
            Report(w.rows, w.rows[args.caseId], back, Ensure(env.codec, w.objects, args, back, faults))
  {
  }

  /** Finishing on a free key stores exactly the built file. */
  lemma EnsureOnFreeKey(c: C.Codec, objects: C.Objects, args: Args, res: LinkResult, faults: C.Faults)
    requires C.ObjectKey(args.caseId, C.Linkage).Ok? && C.ObjectKey(args.caseId, C.Linkage).value !in objects
    ensures var (after, r) := Ensure(c, objects, args, res, faults);
            r.Ok? ==> && BuildFile(c, args, res) == r && r.value.LinkageFile? && r.value.status == res.status
                      && after == objects[C.ObjectKey(args.caseId, C.Linkage).value := c.serialize(r.value)]
  {
    if BuildFile(c, args, res).Ok? {
      BuiltSays(c, args, res);
      C.PersistCreatesConfirmsOrFails(c, objects, BuildFile(c, args, res).value, faults);
    }
  }

  /** The six keys from which a result is rebuilt; the failure path of the code writes none of them. */
  predicate TellsNothing(m: Metadata) {
    && KLinkageStatus !in m && KLinkageReason !in m && KProblemSysId !in m && KProblemExternalId !in m
    && KTaskSysIds !in m && KTaskExternalIds !in m
  }

  /** Recovery of a FAILED_FINAL row whose metadata tells nothing about the result rebuilds the lost file if and only if
      that file said "failed" for the reason "failed_final_terminal", named no problem and no task, and the same incident:
      any other reason is lost. */
  lemma FinalRecoveryIff(c: C.Codec, row: Record, args: Args, res: LinkResult)
    requires row.state == FailedFinal && TellsNothing(row.metadata)
    requires BuildFile(c, args, res).Ok? && BuildFile(c, args, RecoverResult(row, args.incident)).Ok?
    ensures BuildFile(c, args, RecoverResult(row, args.incident)) == BuildFile(c, args, res) <==>
            && res.status == "failed" && res.reason == "failed_final_terminal" && res.problemSysId.None? && res.problemExternalId.None?
            && res.taskSysIds == [] && res.taskExternalIds == []
            && NormalizeText(OrElse(OrElse(row.incidentSysId, args.incident), args.incident)) == NormalizeText(OrElse(res.incident, args.incident))
  {
    var back := RecoverResult(row, args.incident);
    assert back.status == "failed" && back.reason == "failed_final_terminal" && back.problemSysId.None? && back.problemExternalId.None?;
    assert back.taskSysIds == [] && back.taskExternalIds == [];
    BuiltSays(c, args, res);
    BuiltSays(c, args, back);
    BuiltEqualIff(c, args, res, back);
  }

  lemma BuiltEqualIff(c: C.Codec, args: Args, a: LinkResult, b: LinkResult)
    requires BuildFile(c, args, a).Ok? && BuildFile(c, args, b).Ok?
    ensures BuildFile(c, args, a) == BuildFile(c, args, b) <==> Placeholder(args, a) == Placeholder(args, b)
  {
    var f, g := BuildFile(c, args, a).value, BuildFile(c, args, b).value;
    assert f.WithOwnHash(C.HASH_PLACEHOLDER) == Placeholder(args, a) && g.WithOwnHash(C.HASH_PLACEHOLDER) == Placeholder(args, b);
  }

  // ---------------------------------------------------------------- what a call changes

  predicate Accepts(w: World, args: Args, row: Record) {
    && args.caseId in w.rows && w.rows[args.caseId] == row && row.pdIncidentId == args.pd
    && Strip(args.caseId) != "" && Strip(args.pd) != "" && args.window >= 1 && ReadableText(args.incident)
  }

  /** A call on a row whose retry is not due changes nothing and says that it waits. */
  lemma NotDueDoesNothing(env: Env, w: World, args: Args, res: LinkResult, now: int, faults: C.Faults, dies: bool)
    requires args.caseId in w.rows && Accepts(w, args, w.rows[args.caseId])
    requires var row := w.rows[args.caseId]; row.state == FailedTemp && row.nextAttemptAt.Some? && now < row.nextAttemptAt.value
    ensures Execute(env, w, args, res, now, faults, dies) == (w, Ok(Waiting(w.rows[args.caseId])))
  {
  }

  /** A call on a terminal row whose linkage.json can be read returns that file and changes nothing. */
  lemma ExistingArtifactIsReturned(env: Env, w: World, args: Args, res: LinkResult, now: int, faults: C.Faults, dies: bool)
    requires args.caseId in w.rows && Accepts(w, args, w.rows[args.caseId]) && w.rows[args.caseId].Terminal()
    requires var read := C.ReadStage(env.codec, w.objects, args.caseId, C.Linkage, faults.existingReadable); read.Ok? && read.value.Some?
    ensures var (after, r) := Execute(env, w, args, res, now, faults, dies);
            && after == w && r.Ok? && r.value.Finished? && r.value.row == w.rows[args.caseId]
            && C.ReadStage(env.codec, w.objects, args.caseId, C.Linkage, faults.existingReadable) == Ok(Some(r.value.file))
  {
  }

  /** The bucket changes only when the call leaves the row terminal, and an attempt that is to be retried leaves it in
      FAILED_TEMP with the bucket untouched. */
  lemma BucketChangesOnlyWhenTerminal(env: Env, w: World, args: Args, res: LinkResult, now: int, faults: C.Faults, dies: bool)
    requires env.rules.Positive()
    ensures var (after, r) := Execute(env, w, args, res, now, faults, dies);
            && (after.objects != w.objects ==> args.caseId in after.rows && after.rows[args.caseId].Terminal())
            && (r.Ok? && r.value.Retrying? ==> r.value.row.state == FailedTemp && after.objects == w.objects)
            && (r.Ok? && r.value.Finished? ==> r.value.row.Terminal())
  {
    GetOrCreateEffect(w.rows, args.caseId, args.pd, args.incident, args.window, now);
    var (rows, got) := GetOrCreate(w.rows, args.caseId, args.pd, args.incident, args.window, now);
    if got.Ok? && !got.value.Terminal() && !(got.value.state == FailedTemp && !IsRetryDue(got.value, now)) {
      AttemptBucket(env, World(rows, w.objects), got.value, args, res, now, faults, dies);
    }
  }

  ghost predicate BucketOk(before: C.Objects, args: Args, out: (World, Result<Outcome>)) {
    && (out.0.objects != before ==> args.caseId in out.0.rows && out.0.rows[args.caseId].Terminal())
    && (out.1.Ok? && out.1.value.Retrying? ==> out.1.value.row.state == FailedTemp && out.0.objects == before)
    && (out.1.Ok? && out.1.value.Finished? ==> out.1.value.row.Terminal()) && (out.1.Ok? ==> !out.1.value.Waiting?)
  }

  lemma AttemptBucket(env: Env, w: World, row: Record, args: Args, res: LinkResult, now: int, faults: C.Faults, dies: bool)
    requires args.caseId in w.rows && w.rows[args.caseId] == row && !row.Terminal()
    ensures BucketOk(w.objects, args, Attempt(env, w, row, args, res, now, faults, dies))
  {
    var next := MarkSearching(row, now).value;
    RevalidatedKeeps(next);
    var (rows, searching) := PersistTransition(w.rows, args.caseId, next, {row.state});
    if searching.Ok? { SettleBucket(env, World(rows, w.objects), searching.value, args, res, now, faults, dies); }
  }

  lemma SettleBucket(env: Env, w: World, searching: Record, args: Args, res: LinkResult, now: int, faults: C.Faults, dies: bool)
    requires args.caseId in w.rows && w.rows[args.caseId].state == Searching
    ensures BucketOk(w.objects, args, Settle(env, w, searching, args, res, now, faults, dies))
  {
    var settled := Settled(env, searching, args, res, now);
    if settled.Ok? {
      RevalidatedKeeps(settled.value);
      SettledStates(env, searching, args, res, now);
    }
  }

  lemma SettledStates(env: Env, searching: Record, args: Args, res: LinkResult, now: int)
    requires Settled(env, searching, args, res, now).Ok?
    ensures var s := Settled(env, searching, args, res, now).value; s.Terminal() || s.state == FailedTemp
  {
  }

  /** The recovered task lists: the non-blank entries of the stored list, in order; or a single trimmed text. */
  lemma RecoveredTasks(m: Metadata, k: Key)
    ensures k !in m || m[k].JNumber? ==> GetList(m, k) == []
    ensures k in m && m[k].JText? ==> GetList(m, k) == if Strip(m[k].text) == "" then [] else [Strip(m[k].text)]
    ensures k in m && m[k].JList? ==> && (forall x :: x in GetList(m, k) <==> x in m[k].items && Strip(x) != "")
                                      && |GetList(m, k)| <= |m[k].items|
                                      && (AllNonBlank(m[k].items) ==> GetList(m, k) == m[k].items)
  {
    if k in m && m[k].JList? {
      KeptIff(m[k].items);
      if AllNonBlank(m[k].items) { KeepAllNonBlank(m[k].items); }
    }
  }

  lemma {:induction false} KeptIff(xs: seq<string>)
    ensures |KeepNonBlank(xs)| <= |xs| && forall x :: x in KeepNonBlank(xs) <==> x in xs && Strip(x) != ""
  {
    if xs != [] {
      KeptIff(xs[1..]);
      assert xs == [xs[0]] + xs[1..];
    }
  }

  /** The record an answered attempt leads to: "linked" and "skipped" answers are recorded with their own request, incident
      and identifiers, and every other answer as the failure it is classified as. */
  lemma SettledSays(env: Env, searching: Record, args: Args, res: LinkResult, now: int)
    requires searching.state == Searching
    ensures var s := Settled(env, searching, args, res, now);
            && s.Ok?
            && (s.value.state == Linked <==> res.status == "linked" || res.status == "skipped")
            && (s.value.state == Linked ==>
                  && s.value.requestId == Some(res.requestId) && s.value.metadata == LinkedMetadata(res)
                  && s.value.incidentSysId == OrElse(OrElse(res.incident, args.incident), searching.incidentSysId))
            && (s.value.state != Linked ==> s.value.requestId == env.classify(res).requestId && s.value.incidentSysId == searching.incidentSysId)
  {
    if res.status != "linked" && res.status != "skipped" { FailureRecords(env.rules, searching, env.classify(res), now); }
  }
}
