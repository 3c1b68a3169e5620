/** Write-once case files and their hash chain (storage/casefile_io.py, pipeline/stages/casefile.py,
    storage/client.py). Serialisation and SHA-256 (FIPS 180-4) are arbitrary functions. */
module CaseStore {
  import opened Wrappers
  import opened Text

  newtype Byte = x: int | 0 <= x < 256
  type Bytes = seq<Byte>

  datatype Stage = Triage | Diagnosis | Linkage | Labels

  /** The part of triage.json from which header and excerpt are built, plus everything else as `rest`. */
  datatype TriageContent = TriageContent(
    env: string, clusterId: string, streamId: string, topic: string, anomalyFamily: string,
    topicRole: string, criticalityTier: string, finalAction: string, routingKey: string,
    sustained: bool, peak: Option<bool>, evidence: map<string, string>, findings: seq<string>,
    triageTimestamp: int, rest: string)

  datatype CaseFile =
    | TriageFile(caseId: string, content: TriageContent, triageHash: string)
    | DiagnosisFile(caseId: string, report: string, triageHash: string, diagnosisHash: string)
    | LinkageFile(caseId: string, status: string, reason: string,
                  incidentSysId: Option<string>, problemSysId: Option<string>, problemExternalId: Option<string>,
                  pirTaskSysIds: seq<string>, pirTaskExternalIds: seq<string>,
                  triageHash: string, diagnosisRef: Option<string>, linkageHash: string)
    | LabelsFile(caseId: string, labels: string, triageHash: string, diagnosisRef: Option<string>, labelsHash: string)
  {
    function GetStage(): Stage {
      match this
      case TriageFile(_, _, _) => Triage
      case DiagnosisFile(_, _, _, _) => Diagnosis
      case LinkageFile(_, _, _, _, _, _, _, _, _, _, _) => Linkage
      case LabelsFile(_, _, _, _, _) => Labels
    }

    /** The hash field that belongs to this file's own stage. */
    function OwnHash(): string {
      match this
      case TriageFile(_, _, h) => h
      case DiagnosisFile(_, _, _, h) => h
      case LinkageFile(_, _, _, _, _, _, _, _, _, _, h) => h
      case LabelsFile(_, _, _, _, h) => h
    }

    function WithOwnHash(h: string): CaseFile {
      match this
      case TriageFile(id, content, _) => TriageFile(id, content, h)
      case DiagnosisFile(_, _, _, _) => this.(diagnosisHash := h)
      case LinkageFile(_, _, _, _, _, _, _, _, _, _, _) => this.(linkageHash := h)
      case LabelsFile(_, _, _, _, _) => this.(labelsHash := h)
    }

    /** The diagnosis hash a linkage or labels file names, if any. */
    function NamedDiagnosis(): Option<string> {
      if LinkageFile? || LabelsFile? then diagnosisRef else None
    }
  }

  function Zeros(n: nat): string {
    if n == 0 then "" else "0" + Zeros(n - 1)
  }

  const HASH_PLACEHOLDER: string := Zeros(64)

  datatype Codec = Codec(serialize: CaseFile -> Bytes, parse: (Stage, Bytes) -> Option<CaseFile>, sha256: Bytes -> string)
  {
    /** Reading back what was dumped gives the same model; a parsed payload has the requested stage. */
    ghost predicate Lawful() {
      && (forall f: CaseFile :: parse(f.GetStage(), serialize(f)) == Some(f))
      && (forall st: Stage, b: Bytes :: parse(st, b).Some? ==> parse(st, b).value.GetStage() == st)
    }

    /** The bytes that are hashed: the file with its own hash field replaced by 64 zeros. */
    function CanonicalBytes(f: CaseFile): Bytes {
      serialize(f.WithOwnHash(HASH_PLACEHOLDER))
    }

    function ComputeHash(f: CaseFile): string {
      sha256(CanonicalBytes(f))
    }

    predicate HasValidHash(f: CaseFile) {
      f.OwnHash() == ComputeHash(f)
    }

    /** validate_casefile_stage_json: parse, then check the embedded hash. */
    function Validate(st: Stage, payload: Bytes): Option<CaseFile> {
      match parse(st, payload)
      case Some(f) => if HasValidHash(f) then Some(f) else None
      case None => None
    }
  }

  lemma {:induction false} ZerosAre(n: nat)
    ensures |Zeros(n)| == n && forall i :: 0 <= i < n ==> Zeros(n)[i] == '0'
  {
    if n > 0 { ZerosAre(n - 1); }
  }

  /** A file's hash is taken over the file with 64 zeros in place of its own hash, so it does not depend on that hash; every
      other field is kept. */
  lemma HashIgnoresItself(c: Codec, f: CaseFile, h: string)
    ensures c.ComputeHash(f.WithOwnHash(h)) == c.ComputeHash(f)
    ensures exists zeros: string :: |zeros| == 64 && (forall i :: 0 <= i < 64 ==> zeros[i] == '0')
                                    && c.ComputeHash(f) == c.sha256(c.serialize(f.WithOwnHash(zeros)))
    ensures f.WithOwnHash(h).OwnHash() == h && f.WithOwnHash(h).GetStage() == f.GetStage() && f.WithOwnHash(h).caseId == f.caseId
    ensures f.WithOwnHash(f.OwnHash()) == f
  {
    ZerosAre(64);
    assert f.WithOwnHash(h).WithOwnHash(HASH_PLACEHOLDER) == f.WithOwnHash(HASH_PLACEHOLDER);
  }

  /** Two hash-valid files of one stage with equal hashes are the same file, or their canonical bytes collide. */
  lemma EqualHashesEqualFiles(c: Codec, f: CaseFile, g: CaseFile)
    requires c.Lawful() && f.GetStage() == g.GetStage()
    requires c.HasValidHash(f) && c.HasValidHash(g) && f.OwnHash() == g.OwnHash()
    ensures || f == g
            || (c.CanonicalBytes(f) != c.CanonicalBytes(g)
                && c.sha256(c.CanonicalBytes(f)) == c.sha256(c.CanonicalBytes(g)))
  {
    if c.CanonicalBytes(f) == c.CanonicalBytes(g) {
      var f0, g0 := f.WithOwnHash(HASH_PLACEHOLDER), g.WithOwnHash(HASH_PLACEHOLDER);
      assert c.parse(f0.GetStage(), c.serialize(f0)) == Some(f0);
      assert c.parse(g0.GetStage(), c.serialize(g0)) == Some(g0);
      assert f == f0.WithOwnHash(f.OwnHash()) && g == g0.WithOwnHash(g.OwnHash());
    }
  }

  // ---------------------------------------------------------------- object keys

  function StageName(st: Stage): string {
    match st
    case Triage => "triage"
    case Diagnosis => "diagnosis"
    case Linkage => "linkage"
    case Labels => "labels"
  }

  function KeyOf(id: string, st: Stage): string {
    "cases/" + id + "/" + StageName(st) + ".json"
  }

  /** build_casefile_stage_object_key */
  function ObjectKey(caseId: string, st: Stage): Result<string> {
    var id := Strip(caseId);
    if id == "" then Err("case_id must not be empty") else Ok(KeyOf(id, st))
  }

  function FromEnd(s: string, k: nat): char
    requires 1 <= k <= |s|
  {
    s[|s| - k]
  }

  lemma KeyTail(id: string, st: Stage)
    ensures |KeyOf(id, st)| == |id| + 12 + |StageName(st)| && |StageName(st)| >= 6
    ensures FromEnd(KeyOf(id, st), 6) == FromEnd(StageName(st), 1)
    ensures FromEnd(KeyOf(id, st), 7) == FromEnd(StageName(st), 2)
    ensures FromEnd(KeyOf(id, st), 9) == FromEnd(StageName(st), 4)
    ensures KeyOf(id, st)[6..6 + |id|] == id
  {
    var name := StageName(st);
    var tail := "/" + (name + ".json");
    assert KeyOf(id, st) == "cases/" + (id + tail);
    assert ("cases/" + (id + tail))[6..] == id + tail;
  }

  /** Different case directories or stages never share an object key, even when ids contain slashes. */
  lemma KeyInjective(id: string, st: Stage, id': string, st': Stage)
    requires KeyOf(id, st) == KeyOf(id', st')
    ensures id == id' && st == st'
  {
    KeyTail(id, st);
    KeyTail(id', st');
    assert FromEnd(StageName(st), 1) == FromEnd(StageName(st'), 1);
    assert FromEnd(StageName(st), 2) == FromEnd(StageName(st'), 2);
    assert FromEnd(StageName(st), 4) == FromEnd(StageName(st'), 4);
    assert st == st';
    assert |id| == |id'|;
  }

  // ---------------------------------------------------------------- the store and its failures

  type Objects = map<string, Bytes>

  /** How one conditional put (`If-None-Match: *`, section 13.1.2 of RFC 9110) goes: applied, refused before any
      effect, applied with the reply lost, or answered 409/412 without having been applied. */
  datatype PutFault = PutApplied | PutUnavailable | PutAckLost | PutConflict

  /** Faults met by one persist call. */
  datatype Faults = Faults(put: PutFault, dependencyReadable: bool, existingReadable: bool)
  const NO_FAULTS := Faults(PutApplied, true, true)

  datatype WriteResult = Created | Idempotent

  function PutIfAbsent(s: Objects, key: string, body: Bytes, fault: PutFault): (Objects, Result<bool>)
  {
    match fault
    case PutApplied => if key in s then (s, Ok(false)) else (s[key := body], Ok(true))
    case PutUnavailable => (s, Err("object storage unavailable"))
    case PutAckLost => (if key in s then s else s[key := body], Err("object storage unavailable"))
    case PutConflict => (s, Ok(false))
  }

  /** _persist_casefile_payload_write_once behind the hash check of persist_casefile_*_write_once. */
  function PersistWriteOnce(c: Codec, s: Objects, f: CaseFile, faults: Faults): (Objects, Result<WriteResult>) {
    var payload := c.serialize(f);
    if !c.HasValidHash(f) then (s, Err("hash mismatch before persistence"))
    else match ObjectKey(f.caseId, f.GetStage())
      case Err(e) => (s, Err(e))
      case Ok(key) =>
        var (s', put) := PutIfAbsent(s, key, payload, faults.put);
        match put
        case Err(e) => (s', Err(e))
        case Ok(true) => (s', Ok(Created))
        case Ok(false) =>
          if !faults.existingReadable then (s', Err("object storage unavailable"))
          else if key !in s' then (s', Err("object not found"))
          else if s'[key] != payload then (s', Err("write-once invariant violation: payload differs"))
          else match c.Validate(f.GetStage(), s'[key])
            case None => (s', Err("write-once invariant violation: invalid payload"))
            case Some(g) =>
              if g.OwnHash() != f.OwnHash() then (s', Err("write-once invariant violation: hash differs"))
              else (s', Ok(Idempotent))
  }

  /** read_casefile_stage_json_or_none: `Ok(None)` for an absent stage, an error for an unreadable or invalid one. */
  function ReadStage(c: Codec, s: Objects, caseId: string, st: Stage, readable: bool): Result<Option<CaseFile>> {
    match ObjectKey(caseId, st)
    case Err(e) => Err(e)
    case Ok(key) =>
      if !readable then Err("object storage unavailable")
      else if key !in s then Ok(None)
      else match c.Validate(st, s[key])
        case None => Err("invalid stage payload")
        case Some(f) => Ok(Some(f))
  }

  /** _validate_{diagnosis,linkage,labels}_stage_hashes; triage has no dependency. */
  function CheckDependencies(c: Codec, s: Objects, f: CaseFile, readable: bool): Result<bool> {
    if f.TriageFile? then Ok(true)
    else if !c.HasValidHash(f) then Err("hash mismatch before stage persistence")
    else match ReadStage(c, s, f.caseId, Triage, readable)
      case Err(e) => Err(e)
      case Ok(None) => Err("stage requires triage.json to exist")
      case Ok(Some(t)) =>
        if f.triageHash != c.ComputeHash(t) then Err("triage_hash mismatch")
        else if f.NamedDiagnosis().None? then Ok(true)
        else match ReadStage(c, s, f.caseId, Diagnosis, readable)
          case Err(e) => Err(e)
          case Ok(None) => Err("diagnosis.json is absent")
          case Ok(Some(d)) =>
            if f.NamedDiagnosis().value != c.ComputeHash(d) then Err("diagnosis_hash mismatch") else Ok(true)
  }

  /** persist_casefile_{diagnosis,linkage,labels}_stage, and the triage persist of the hot path. */
  function PersistStage(c: Codec, s: Objects, f: CaseFile, faults: Faults): (Objects, Result<WriteResult>) {
    match CheckDependencies(c, s, f, faults.dependencyReadable)
    case Err(e) => (s, Err(e))
    case Ok(_) => PersistWriteOnce(c, s, f, faults)
  }

  /** The object-store client as the stages use it: a bucket changed only by conditional puts. */
  class ObjectStoreClient {
    var objects: Objects

    constructor ()
      ensures objects == map[]
    {
      objects := map[];
    }

    method Put(key: string, body: Bytes, fault: PutFault) returns (created: Result<bool>)
      modifies this
      ensures (objects, created) == PutIfAbsent(old(objects), key, body, fault)
    {
      if fault == PutUnavailable { return Err("object storage unavailable"); }
      if fault == PutConflict { return Ok(false); }
      var absent := key !in objects;
      if absent { objects := objects[key := body]; }
      if fault == PutAckLost { return Err("object storage unavailable"); }
      return Ok(absent);
    }

    /** One stage persist as the source runs it: check own hash, check dependencies, put, read back on conflict. */
    method Persist(c: Codec, f: CaseFile, faults: Faults) returns (r: Result<WriteResult>)
      modifies this
      ensures (objects, r) == PersistStage(c, old(objects), f, faults)
    {
      var ready := CheckDependencies(c, objects, f, faults.dependencyReadable);
      if ready.Err? { return Err(ready.error); }
      if !c.HasValidHash(f) { return Err("hash mismatch before persistence"); }
      var payload := c.serialize(f);
      var key := ObjectKey(f.caseId, f.GetStage());
      if key.Err? { return Err(key.error); }
      var put := Put(key.value, payload, faults.put);
      if put.Err? { return Err(put.error); }
      if put.value { return Ok(Created); }
      if !faults.existingReadable { return Err("object storage unavailable"); }
      if key.value !in objects { return Err("object not found"); }
      var existing := objects[key.value];
      if existing != payload { return Err("write-once invariant violation: payload differs"); }
      match c.Validate(f.GetStage(), existing) {
        case None => return Err("write-once invariant violation: invalid payload");
        case Some(g) =>
          if g.OwnHash() != f.OwnHash() { return Err("write-once invariant violation: hash differs"); }
          return Ok(Idempotent);
      }
    }
  }

  // ---------------------------------------------------------------- runs of stage persists

  datatype Op = Op(file: CaseFile, faults: Faults)

  function Run(c: Codec, s: Objects, ops: seq<Op>): Objects
    decreases ops
  {
    if ops == [] then s else Run(c, PersistStage(c, s, ops[0].file, ops[0].faults).0, ops[1..])
  }

  /** The persist added its own object and nothing else. */
  predicate Wrote(c: Codec, s: Objects, after: Objects, f: CaseFile) {
    var key := ObjectKey(f.caseId, f.GetStage());
    key.Ok? && key.value !in s && after == s[key.value := c.serialize(f)]
  }

  /** The object was already there with exactly these bytes. */
  predicate Confirms(c: Codec, s: Objects, f: CaseFile) {
    var key := ObjectKey(f.caseId, f.GetStage());
    key.Ok? && key.value in s && s[key.value] == c.serialize(f)
  }

  lemma WriteOnceEffect(c: Codec, s: Objects, f: CaseFile, faults: Faults)
    ensures var (after, r) := PersistWriteOnce(c, s, f, faults);
            && (r == Ok(Created) ==> Wrote(c, s, after, f))
            && (r == Ok(Idempotent) ==> Confirms(c, s, f) && after == s)
            && (r.Err? && after != s ==> faults.put == PutAckLost && Wrote(c, s, after, f))
            && (after != s ==> c.HasValidHash(f))
  {
  }

  /** One persist creates its own object, confirms identical bytes, or reports an error; an error changes the
      store only when the put was applied and its reply lost; nothing is written unless the hashes check out. */
  lemma PersistCreatesConfirmsOrFails(c: Codec, s: Objects, f: CaseFile, faults: Faults)
    ensures var (after, r) := PersistStage(c, s, f, faults);
            && (r == Ok(Created) ==> Wrote(c, s, after, f))
            && (r == Ok(Idempotent) ==> Confirms(c, s, f) && after == s)
            && (r.Err? && after != s ==> faults.put == PutAckLost && Wrote(c, s, after, f))
            && (after != s ==> c.HasValidHash(f) && CheckDependencies(c, s, f, faults.dependencyReadable).Ok?)
  {
    WriteOnceEffect(c, s, f, faults);
  }

  /** What a persist may do to the store, without saying why. */
  ghost predicate Persisted(c: Codec, s: Objects, after: Objects, f: CaseFile) {
    after == s || (Wrote(c, s, after, f) && c.HasValidHash(f) && CheckDependencies(c, s, f, true).Ok?)
  }

  lemma PersistIsPersisted(c: Codec, s: Objects, f: CaseFile, faults: Faults)
    ensures Persisted(c, s, PersistStage(c, s, f, faults).0, f)
  {
    PersistCreatesConfirmsOrFails(c, s, f, faults);
    if PersistStage(c, s, f, faults).0 != s { ReadableAnyway(c, s, f, faults.dependencyReadable); }
  }

  /** Dependencies that check out on a flaky read check out on a clean one. */
  lemma ReadableAnyway(c: Codec, s: Objects, f: CaseFile, readable: bool)
    requires CheckDependencies(c, s, f, readable).Ok?
    ensures CheckDependencies(c, s, f, true).Ok?
  {
    if !readable { assert ReadStage(c, s, f.caseId, Triage, false).Err?; }
  }

  lemma CleanPersist(c: Codec, s: Objects, f: CaseFile)
    requires c.Lawful() && c.HasValidHash(f) && ObjectKey(f.caseId, f.GetStage()).Ok? && CheckDependencies(c, s, f, true).Ok?
    ensures PersistStage(c, s, f, NO_FAULTS).1.Ok? <==> ObjectKey(f.caseId, f.GetStage()).value !in s || Confirms(c, s, f)
  {
    assert c.parse(f.GetStage(), c.serialize(f)) == Some(f);
    assert c.Validate(f.GetStage(), c.serialize(f)) == Some(f);
    assert PersistStage(c, s, f, NO_FAULTS) == PersistWriteOnce(c, s, f, NO_FAULTS);
  }

  /** After any fault, repeating the same persist succeeds exactly when the key was free or already held these bytes. */
  lemma RetryConverges(c: Codec, s: Objects, f: CaseFile, faults: Faults)
    requires c.Lawful() && c.HasValidHash(f) && ObjectKey(f.caseId, f.GetStage()).Ok?
    requires CheckDependencies(c, s, f, true).Ok?
    ensures PersistStage(c, PersistStage(c, s, f, faults).0, f, NO_FAULTS).1.Ok? <==>
            ObjectKey(f.caseId, f.GetStage()).value !in s || Confirms(c, s, f)
  {
    PersistIsPersisted(c, s, f, faults);
    RetryAfter(c, s, PersistStage(c, s, f, faults).0, f);
  }

  lemma RetryAfter(c: Codec, s: Objects, after: Objects, f: CaseFile)
    requires c.Lawful() && c.HasValidHash(f) && ObjectKey(f.caseId, f.GetStage()).Ok?
    requires CheckDependencies(c, s, f, true).Ok? && Persisted(c, s, after, f)
    ensures PersistStage(c, after, f, NO_FAULTS).1.Ok? <==> ObjectKey(f.caseId, f.GetStage()).value !in s || Confirms(c, s, f)
  {
    if after != s { DependenciesUnaffected(c, s, f, c.serialize(f)); }
    CleanPersist(c, after, f);
  }

  lemma ReadElsewhere(c: Codec, s: Objects, key: string, body: Bytes, caseId: string, st: Stage)
    requires KeyOf(Strip(caseId), st) != key
    ensures ReadStage(c, s[key := body], caseId, st, true) == ReadStage(c, s, caseId, st, true)
  {
  }

  /** Writing a stage's own key does not disturb the stages it depends on. */
  lemma DependenciesUnaffected(c: Codec, s: Objects, f: CaseFile, body: Bytes)
    requires ObjectKey(f.caseId, f.GetStage()).Ok? && ObjectKey(f.caseId, f.GetStage()).value !in s
    ensures CheckDependencies(c, s[ObjectKey(f.caseId, f.GetStage()).value := body], f, true).Ok? <== CheckDependencies(c, s, f, true).Ok?
  {
    var id, key := Strip(f.caseId), KeyOf(Strip(f.caseId), f.GetStage());
    if CheckDependencies(c, s, f, true).Ok? && !f.TriageFile? {
      if KeyOf(id, Triage) == key { KeyInjective(id, Triage, id, f.GetStage()); }
      ReadElsewhere(c, s, key, body, f.caseId, Triage);
      if f.NamedDiagnosis().Some? {
        if KeyOf(id, Diagnosis) == key { KeyInjective(id, Diagnosis, id, f.GetStage()); }
        ReadElsewhere(c, s, key, body, f.caseId, Diagnosis);
      }
    }
  }

  /** Bytes at a key never change over any run. */
  lemma {:induction false} WriteOnce(c: Codec, s: Objects, ops: seq<Op>, key: string)
    requires key in s
    ensures key in Run(c, s, ops) && Run(c, s, ops)[key] == s[key]
    decreases ops
  {
    if ops != [] {
      PersistIsPersisted(c, s, ops[0].file, ops[0].faults);
      WriteOnce(c, PersistStage(c, s, ops[0].file, ops[0].faults).0, ops[1..], key);
    }
  }

  /** The validated file stored for a case directory and stage, if the key exists. */
  function Stored(c: Codec, s: Objects, id: string, st: Stage): Option<CaseFile> {
    if KeyOf(id, st) in s then c.Validate(st, s[KeyOf(id, st)]) else None
  }

  /** Every object of the case directory is a valid file of its stage and names the stored files it depends on. */
  ghost predicate DirectoryLinked(c: Codec, s: Objects, id: string) {
    && (forall st: Stage :: KeyOf(id, st) in s ==>
          Stored(c, s, id, st).Some? && Strip(Stored(c, s, id, st).value.caseId) == id)
    && (forall st: Stage :: KeyOf(id, st) in s && st != Triage ==>
          var f := Stored(c, s, id, st).value;
          && Stored(c, s, id, Triage).Some?
          && f.triageHash == Stored(c, s, id, Triage).value.OwnHash()
          && ((f.LinkageFile? || f.LabelsFile?) && f.diagnosisRef.Some? ==>
                && Stored(c, s, id, Diagnosis).Some?
                && f.diagnosisRef.value == Stored(c, s, id, Diagnosis).value.OwnHash()))
  }

  ghost predicate ChainLinked(c: Codec, s: Objects) {
    forall id: string :: DirectoryLinked(c, s, id)
  }

  lemma StoredAfter(c: Codec, s: Objects, f: CaseFile, id: string, other: string, st: Stage)
    requires c.Lawful() && c.HasValidHash(f)
    ensures var after := s[KeyOf(id, f.GetStage()) := c.serialize(f)];
            if other == id && st == f.GetStage() then Stored(c, after, other, st) == Some(f)
            else (KeyOf(other, st) in after <==> KeyOf(other, st) in s) && Stored(c, after, other, st) == Stored(c, s, other, st)
  {
    assert c.parse(f.GetStage(), c.serialize(f)) == Some(f);
    if KeyOf(other, st) == KeyOf(id, f.GetStage()) { KeyInjective(other, st, id, f.GetStage()); }
  }

  /** The stored files a new file names are the ones its dependency check read. */
  lemma NewFileLinked(c: Codec, s: Objects, f: CaseFile, id: string)
    requires c.HasValidHash(f) && Strip(f.caseId) == id && id != "" && CheckDependencies(c, s, f, true).Ok? && !f.TriageFile?
    ensures Stored(c, s, id, Triage).Some? && f.triageHash == Stored(c, s, id, Triage).value.OwnHash()
    ensures f.NamedDiagnosis().Some? ==>
              Stored(c, s, id, Diagnosis).Some? && f.NamedDiagnosis().value == Stored(c, s, id, Diagnosis).value.OwnHash()
  {
  }

  lemma StoreNewFile(c: Codec, s: Objects, f: CaseFile, id: string, other: string)
    requires c.Lawful() && c.HasValidHash(f) && Strip(f.caseId) == id && id != ""
    requires KeyOf(id, f.GetStage()) !in s && CheckDependencies(c, s, f, true).Ok?
    requires DirectoryLinked(c, s, other)
    ensures DirectoryLinked(c, s[KeyOf(id, f.GetStage()) := c.serialize(f)], other)
  {
    forall st: Stage { StoredAfter(c, s, f, id, other, st); }
    if !f.TriageFile? { NewFileLinked(c, s, f, id); }
  }

  lemma ChainKept(c: Codec, s: Objects, after: Objects, f: CaseFile)
    requires c.Lawful() && ChainLinked(c, s) && Persisted(c, s, after, f)
    ensures ChainLinked(c, after)
  {
    if after != s {
      forall other: string ensures DirectoryLinked(c, after, other) {
        StoreNewFile(c, s, f, Strip(f.caseId), other);
      }
    }
  }

  lemma PersistKeepsChain(c: Codec, s: Objects, f: CaseFile, faults: Faults)
    requires c.Lawful() && ChainLinked(c, s)
    ensures ChainLinked(c, PersistStage(c, s, f, faults).0)
  {
    PersistIsPersisted(c, s, f, faults);
    ChainKept(c, s, PersistStage(c, s, f, faults).0, f);
  }

  /** Over every run from an empty bucket, each diagnosis, linkage or labels file names the hash of the stored
      triage and, where it names one, of the stored diagnosis. */
  lemma {:induction false} HashChain(c: Codec, s: Objects, ops: seq<Op>)
    requires c.Lawful() && ChainLinked(c, s)
    ensures ChainLinked(c, Run(c, s, ops))
    decreases ops
  {
    if ops != [] {
      PersistKeepsChain(c, s, ops[0].file, ops[0].faults);
      HashChain(c, PersistStage(c, s, ops[0].file, ops[0].faults).0, ops[1..]);
    }
  }

  lemma HashChainFromEmpty(c: Codec, ops: seq<Op>)
    requires c.Lawful()
    ensures ChainLinked(c, Run(c, map[], ops))
  {
    assert ChainLinked(c, map[]);
    HashChain(c, map[], ops);
  }
}
