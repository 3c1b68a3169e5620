/** Idempotent Problem and PIR-task upserts to a remote table that may lose acknowledgements
    (integrations/servicenow.py). A live sys_id is the record's position in creation order. */
module ServiceNow {
  import opened Wrappers
  import opened Text
  import opened Lists

  /** A remote record: the field the upsert is keyed by, and the problem a task points at. */
  datatype Row = Row(table: string, externalId: string, problem: Option<SysId>)
  datatype SysId = Live(n: nat) | Mock(digest: string)
  type Remote = seq<Row>

  datatype Mode = Off | Log | MockMode | LiveMode

  datatype Config = Config(
    mode: Mode, hasBaseUrl: bool, problemTable: string, taskTable: string, lookupLimit: nat,
    digest: string -> string, blocked: (string, string) -> bool) // `blocked`: a guardrail refuses the payload
  {
    /** Digests are hexadecimal, and a lookup asks for at least one record. */
    ghost predicate Valid() {
      lookupLimit >= 1 && forall s: string :: '^' !in digest(s)
    }
  }

  /** How a POST or PATCH goes: applied, refused before any effect, applied with the reply lost, or applied with a
      reply that carries no sys_id. */
  datatype WriteFault = Applied | Unavailable | AckLost | NoSysId
  datatype Faults = Faults(lookupOk: bool, write: WriteFault)
  const NO_FAULTS := Faults(true, Applied)

  // ---------------------------------------------------------------- lookup

  function Escape(s: string): string {
    if s == "" then "" else (if s[0] == '^' then "" else [s[0]]) + Escape(s[1..])
  }

  lemma {:induction false} EscapeIdentityIff(s: string)
    ensures '^' !in Escape(s)
    ensures Escape(s) == s <==> '^' !in s
  {
    if s != "" {
      EscapeIdentityIff(s[1..]);
      assert s == [s[0]] + s[1..];
    }
  }

  predicate Keyed(r: Row, table: string, id: string) {
    r.table == table && r.externalId == id
  }

  /** Positions of the records with this key, oldest first. */
  function Matches(rows: Remote, table: string, id: string): (m: seq<nat>)
    ensures forall k :: 0 <= k < |m| ==> m[k] < |rows| && Keyed(rows[m[k]], table, id)
    ensures forall i :: 0 <= i < |rows| && Keyed(rows[i], table, id) ==> i in m
    ensures forall i, j :: 0 <= i < j < |m| ==> m[i] < m[j]
  {
    if rows == [] then [] else
      var n := |rows| - 1;
      Matches(rows[..n], table, id) + if Keyed(rows[n], table, id) then [n] else []
  }

  /** The lookup page and _extract_existing_sys_id: none, one, or an error for several. */
  function Existing(cfg: Config, rows: Remote, table: string, id: string): Result<Option<nat>> {
    var all := Matches(rows, table, Escape(id));
    var page := if |all| <= cfg.lookupLimit then all else all[..cfg.lookupLimit];
    if page == [] then Ok(None) else if |page| > 1 then Err("multiple existing records") else Ok(Some(page[0]))
  }

  predicate AtMostOne(rows: Remote) {
    forall i, j :: 0 <= i < j < |rows| ==> rows[i].table != rows[j].table || rows[i].externalId != rows[j].externalId
  }

  lemma {:induction false} MatchesUnique(rows: Remote, table: string, id: string)
    requires AtMostOne(rows)
    ensures |Matches(rows, table, id)| <= 1
  {
    if rows != [] {
      var n := |rows| - 1;
      MatchesUnique(rows[..n], table, id);
      if Keyed(rows[n], table, id) { NoMatches(rows[..n], table, id); }
    }
  }

  lemma NoMatches(rows: Remote, table: string, id: string)
    requires forall i :: 0 <= i < |rows| ==> !Keyed(rows[i], table, id)
    ensures Matches(rows, table, id) == []
  {
  }

  /** With unique keys and no '^' in the id, the lookup answers exactly whether the record exists. */
  lemma LookupIsExact(cfg: Config, rows: Remote, table: string, id: string)
    requires cfg.lookupLimit >= 1 && AtMostOne(rows) && '^' !in id
    ensures Existing(cfg, rows, table, id).Ok?
    ensures match Existing(cfg, rows, table, id).value
            case None => forall i :: 0 <= i < |rows| ==> !Keyed(rows[i], table, id)
            case Some(i) => i < |rows| && Keyed(rows[i], table, id)
  {
    EscapeIdentityIff(id);
    LookupFindsEscaped(cfg, rows, table, id);
  }

  /** For any id the lookup answers exactly whether a record with the escaped id exists. */
  lemma LookupFindsEscaped(cfg: Config, rows: Remote, table: string, id: string)
    requires cfg.lookupLimit >= 1 && AtMostOne(rows)
    ensures Existing(cfg, rows, table, id).Ok?
    ensures match Existing(cfg, rows, table, id).value
            case None => forall i :: 0 <= i < |rows| ==> !Keyed(rows[i], table, Escape(id))
            case Some(i) => i < |rows| && Keyed(rows[i], table, Escape(id))
  {
    MatchesUnique(rows, table, Escape(id));
  }

  // ---------------------------------------------------------------- one upsert

  datatype Outcome = Created | Updated | Skipped | Failed
  datatype Upsert = Upsert(externalId: string, outcome: Outcome, reason: string, sysId: Option<SysId>)

  function Post(rows: Remote, row: Row, fault: WriteFault): Remote {
    if fault == Unavailable then rows else rows + [row]
  }

  function Patch(rows: Remote, i: nat, row: Row, fault: WriteFault): Remote
    requires i < |rows|
  {
    if fault == Unavailable then rows else rows[i := row]
  }

  /** The write half of _upsert_record, after a lookup that answered `existing`. */
  function WriteHalf(rows: Remote, row: Row, existing: Option<nat>, fault: WriteFault): (Remote, Upsert)
    requires existing.Some? ==> existing.value < |rows|
  {
    match existing
    case None =>
      (Post(rows, row, fault),
       if fault == Applied then Upsert(row.externalId, Created, "created", Some(Live(|rows|)))
       else Upsert(row.externalId, Failed, "create_error", None))
    case Some(i) =>
      (Patch(rows, i, row, fault),
       if fault == Applied || fault == NoSysId then Upsert(row.externalId, Updated, "updated", Some(Live(i)))
       else Upsert(row.externalId, Failed, "update_error", None))
  }

  lemma ExistingInRange(cfg: Config, rows: Remote, table: string, id: string)
    ensures var e := Existing(cfg, rows, table, id); e.Ok? && e.value.Some? ==> e.value.value < |rows|
  {
  }

  /** _upsert_record in LIVE mode. */
  function UpsertLive(cfg: Config, rows: Remote, row: Row, f: Faults): (Remote, Upsert) {
    if !cfg.hasBaseUrl then (rows, Upsert(row.externalId, Failed, "missing_base_url", None))
    else if !f.lookupOk then (rows, Upsert(row.externalId, Failed, "lookup_error", None))
    else match Existing(cfg, rows, row.table, row.externalId)
      case Err(_) => (rows, Upsert(row.externalId, Failed, "lookup_error", None))
      case Ok(existing) =>
        ExistingInRange(cfg, rows, row.table, row.externalId);
        WriteHalf(rows, row, existing, f.write)
  }

  /** Records keep their place and key, and one that points at `problem` keeps doing so. */
  predicate Extends(rows: Remote, after: Remote, problem: Option<SysId>) {
    && |rows| <= |after|
    && (forall i :: 0 <= i < |rows| ==> Keyed(after[i], rows[i].table, rows[i].externalId))
    && (forall i :: 0 <= i < |rows| && rows[i].problem == problem ==> after[i].problem == problem)
  }

  /** What a lookup that told the truth says about the remote. */
  predicate Truthful(rows: Remote, row: Row, existing: Option<nat>) {
    match existing
    case None => forall i :: 0 <= i < |rows| ==> !Keyed(rows[i], row.table, row.externalId)
    case Some(i) => i < |rows| && Keyed(rows[i], row.table, row.externalId)
  }

  lemma WriteHalfKeeps(rows: Remote, row: Row, existing: Option<nat>, fault: WriteFault)
    requires AtMostOne(rows) && Truthful(rows, row, existing)
    ensures var (after, u) := WriteHalf(rows, row, existing, fault);
            AtMostOne(after) && Extends(rows, after, row.problem) && Names(after, row, u)
  {
  }

  /** A success names a record with the wanted key and content. */
  predicate Names(rows: Remote, row: Row, u: Upsert) {
    || u.outcome == Failed
    || (&& (u.outcome == Created || u.outcome == Updated) && u.externalId == row.externalId
        && u.sysId.Some? && u.sysId.value.Live? && u.sysId.value.n < |rows| && rows[u.sysId.value.n] == row)
  }

  /** One attempt on a '^'-free id, whatever is lost: keys stay unique, records keep their place, key and problem,
      and a success names a record that holds the wanted key and content. */
  lemma UpsertKeepsUnique(cfg: Config, rows: Remote, row: Row, f: Faults)
    requires cfg.lookupLimit >= 1 && AtMostOne(rows) && '^' !in row.externalId
    ensures var (after, u) := UpsertLive(cfg, rows, row, f);
            AtMostOne(after) && Extends(rows, after, row.problem) && Names(after, row, u)
  {
    LookupIsExact(cfg, rows, row.table, row.externalId);
    var existing := Existing(cfg, rows, row.table, row.externalId);
    WriteHalfKeeps(rows, row, existing.value, f.write);
    assert existing == Ok(existing.value);
  }

  lemma CleanWrite(rows: Remote, row: Row, existing: Option<nat>)
    requires AtMostOne(rows) && Truthful(rows, row, existing)
    ensures var (after, u) := WriteHalf(rows, row, existing, Applied);
            && u.outcome != Failed && |Matches(after, row.table, row.externalId)| == 1
            && |after| == |rows| + if |Matches(rows, row.table, row.externalId)| == 1 then 0 else 1
  {
    WriteHalfKeeps(rows, row, existing, Applied);
    var (after, u) := WriteHalf(rows, row, existing, Applied);
    MatchesUnique(rows, row.table, row.externalId);
    MatchesUnique(after, row.table, row.externalId);
    assert u.sysId.value.n in Matches(after, row.table, row.externalId);
  }

  lemma CleanUpsert(cfg: Config, rows: Remote, row: Row)
    requires cfg.lookupLimit >= 1 && AtMostOne(rows) && '^' !in row.externalId && cfg.hasBaseUrl
    ensures var (after, u) := UpsertLive(cfg, rows, row, NO_FAULTS);
            && u.outcome != Failed && |Matches(after, row.table, row.externalId)| == 1
            && |after| == |rows| + if |Matches(rows, row.table, row.externalId)| == 1 then 0 else 1
  {
    LookupIsExact(cfg, rows, row.table, row.externalId);
    CleanWrite(rows, row, Existing(cfg, rows, row.table, row.externalId).value);
  }

  /** After any fault a clean retry succeeds, leaves exactly one record with the key, and the two attempts together
      add at most one record. */
  lemma RetryConverges(cfg: Config, rows: Remote, row: Row, f: Faults)
    requires cfg.lookupLimit >= 1 && AtMostOne(rows) && '^' !in row.externalId && cfg.hasBaseUrl
    ensures var (once, _) := UpsertLive(cfg, rows, row, f);
            var (twice, u) := UpsertLive(cfg, once, row, NO_FAULTS);
            && u.outcome != Failed && |twice| <= |rows| + 1
            && |Matches(twice, row.table, row.externalId)| == 1
  {
    UpsertKeepsUnique(cfg, rows, row, f);
    AddsAtMostItself(cfg, rows, row, f);
    CleanUpsert(cfg, UpsertLive(cfg, rows, row, f).0, row);
  }

  lemma AddsAtMostItself(cfg: Config, rows: Remote, row: Row, f: Faults)
    requires cfg.lookupLimit >= 1 && AtMostOne(rows) && '^' !in row.externalId
    ensures var after := UpsertLive(cfg, rows, row, f).0;
            |after| == |rows| || (|after| == |rows| + 1 && |Matches(after, row.table, row.externalId)| == 1)
  {
    UpsertKeepsUnique(cfg, rows, row, f);
    LookupIsExact(cfg, rows, row.table, row.externalId);
    var after := UpsertLive(cfg, rows, row, f).0;
    MatchesUnique(after, row.table, row.externalId);
    assert |after| > |rows| ==> after == rows + [row] && |rows| in Matches(after, row.table, row.externalId);
  }

  /** Two clean upserts of one id on an empty remote leave two records with that id exactly when it contains '^'. */
  lemma CaretDuplicatesIff(cfg: Config, row: Row)
    requires cfg.lookupLimit >= 1 && cfg.hasBaseUrl
    ensures var (once, _) := UpsertLive(cfg, [], row, NO_FAULTS);
            var (twice, _) := UpsertLive(cfg, once, row, NO_FAULTS);
            && (twice == [row, row] <==> '^' in row.externalId)
            && (twice == [row] <==> '^' !in row.externalId)
  {
    EscapeIdentityIff(row.externalId);
    var (once, _) := UpsertLive(cfg, [], row, NO_FAULTS);
    assert once == [row];
    var m := Matches(once, row.table, Escape(row.externalId));
    assert m != [] ==> m[0] == 0;
    assert '^' !in row.externalId ==> 0 in m;
  }

  /** Some record has the key that the lookup of this id really asks for. */
  predicate HasEscaped(rows: Remote, row: Row) {
    exists i :: 0 <= i < |rows| && Keyed(rows[i], row.table, Escape(row.externalId))
  }

  /** A clean upsert of an id with '^' looks up another key: it adds a record, or, when a record of that other key
      exists, overwrites it. Either way no record of that other key is left. */
  lemma CaretUpsert(cfg: Config, rows: Remote, row: Row)
    requires cfg.lookupLimit >= 1 && cfg.hasBaseUrl && AtMostOne(rows) && '^' in row.externalId
    ensures var existing, after := Existing(cfg, rows, row.table, row.externalId), UpsertLive(cfg, rows, row, NO_FAULTS).0;
            && existing.Ok? && !HasEscaped(after, row) && row in after
            && match existing.value
               case None => !HasEscaped(rows, row) && after == rows + [row]
               case Some(i) => i < |rows| && Keyed(rows[i], row.table, Escape(row.externalId)) && after == rows[i := row]
  {
    LookupFindsEscaped(cfg, rows, row.table, row.externalId);
    match Existing(cfg, rows, row.table, row.externalId).value
    case None => AddedIsNotEscaped(rows, row);
    case Some(i) => OverwrittenIsGone(rows, row, i);
  }

  lemma AddedIsNotEscaped(rows: Remote, row: Row)
    requires '^' in row.externalId && !HasEscaped(rows, row)
    ensures !HasEscaped(rows + [row], row) && row in rows + [row]
  {
    EscapeIdentityIff(row.externalId);
    var after := rows + [row];
    assert after[|rows|] == row;
    forall i | 0 <= i < |after| ensures !Keyed(after[i], row.table, Escape(row.externalId)) {
      if i < |rows| { assert after[i] == rows[i]; }
    }
  }

  lemma OverwrittenIsGone(rows: Remote, row: Row, i: nat)
    requires '^' in row.externalId && AtMostOne(rows) && i < |rows| && Keyed(rows[i], row.table, Escape(row.externalId))
    ensures !HasEscaped(rows[i := row], row) && row in rows[i := row]
  {
    EscapeIdentityIff(row.externalId);
    var after := rows[i := row];
    assert after[i] == row;
    forall j | 0 <= j < |after| ensures !Keyed(after[j], row.table, Escape(row.externalId)) {
      if j != i { assert after[j] == rows[j]; }
    }
  }

  /** When no record has the escaped key, the next clean upsert adds one more copy. */
  lemma CaretUpsertAgain(cfg: Config, rows: Remote, row: Row)
    requires cfg.lookupLimit >= 1 && cfg.hasBaseUrl && !HasEscaped(rows, row)
    ensures UpsertLive(cfg, rows, row, NO_FAULTS).0 == rows + [row]
  {
    NoMatches(rows, row.table, Escape(row.externalId));
    assert Existing(cfg, rows, row.table, row.externalId) == Ok(None);
  }

  /** On every remote with unique keys: two clean upserts of one id keep keys unique if and only if it has no '^'. */
  lemma TwiceUniqueIff(cfg: Config, rows: Remote, row: Row)
    requires cfg.lookupLimit >= 1 && cfg.hasBaseUrl && AtMostOne(rows)
    ensures var (once, _) := UpsertLive(cfg, rows, row, NO_FAULTS);
            var (twice, _) := UpsertLive(cfg, once, row, NO_FAULTS);
            AtMostOne(twice) <==> '^' !in row.externalId
  {
    var (once, _) := UpsertLive(cfg, rows, row, NO_FAULTS);
    if '^' in row.externalId {
      CaretUpsert(cfg, rows, row);
      CaretUpsertAgain(cfg, once, row);
      CopyBreaksUnique(once, row);
    } else {
      UpsertKeepsUnique(cfg, rows, row, NO_FAULTS);
      UpsertKeepsUnique(cfg, once, row, NO_FAULTS);
    }
  }

  /** A record that is added to a remote already holding it breaks uniqueness. */
  lemma CopyBreaksUnique(rows: Remote, row: Row)
    requires row in rows
    ensures !AtMostOne(rows + [row])
  {
    var i :| 0 <= i < |rows| && rows[i] == row;
    var more := rows + [row];
    assert more[i] == row && more[|rows|] == row;
  }

  /** A LIVE upsert fails exactly when there is no base URL, the lookup fails or finds several records, the write is
      refused or its reply is lost, or a created record comes back without its sys_id. */
  lemma UpsertFailsIff(cfg: Config, rows: Remote, row: Row, f: Faults)
    ensures var existing, u := Existing(cfg, rows, row.table, row.externalId), UpsertLive(cfg, rows, row, f).1;
            && (u.outcome == Failed <==>
                  || !cfg.hasBaseUrl || !f.lookupOk || existing.Err? || f.write == Unavailable || f.write == AckLost
                  || (existing.value.None? && f.write == NoSysId))
            && (u.outcome == Created ==> existing.value.None?) && (u.outcome == Updated ==> existing.value.Some?) && u.outcome != Skipped
  {
  }

  /** Two records with the looked-up key, on a page that shows more than one, are an error. */
  lemma SeveralAreAnError(cfg: Config, rows: Remote, table: string, id: string, i: nat, j: nat)
    requires cfg.lookupLimit >= 2 && i < j < |rows| && Keyed(rows[i], table, Escape(id)) && Keyed(rows[j], table, Escape(id))
    ensures Existing(cfg, rows, table, id).Err?
  {
    var m := Matches(rows, table, Escape(id));
    var a :| 0 <= a < |m| && m[a] == i;
    var b :| 0 <= b < |m| && m[b] == j;
    assert a != b;
  }

  /** A crash forgets where the worker stood and nothing else. */
  lemma CrashForgets(cfg: Config, s: State, p: nat)
    ensures var s' := Next(cfg, s, Crash(p)); s'.At(p) == Idle && s'.rows == s.rows && s'.late == s.late && forall q: nat :: q != p ==> s'.At(q) == s.At(q)
  {
  }

  // ---------------------------------------------------------------- interleaved requests

  /** A worker between its lookup and its write. */
  datatype Local = Idle | Found(row: Row, existing: Option<nat>)

  /** `WriteLate` is a POST that timed out and has not been applied yet; `Arrive` applies one of those. */
  datatype Action =
    | Lookup(p: nat, row: Row)
    | Write(p: nat, fault: WriteFault)
    | WriteLate(p: nat)
    | Arrive(k: nat)
    | Crash(p: nat)

  datatype State = State(rows: Remote, late: seq<Row>, locals: map<nat, Local>)
  {
    function At(p: nat): Local { if p in locals then locals[p] else Idle }
    function Move(p: nat, l: Local): State { this.(locals := locals[p := l]) }
  }

  const INITIAL := State([], [], map[])

  function Next(cfg: Config, s: State, a: Action): State {
    match a
    case Lookup(p, row) =>
      if s.At(p).Idle? && Existing(cfg, s.rows, row.table, row.externalId).Ok?
      then s.Move(p, Found(row, Existing(cfg, s.rows, row.table, row.externalId).value)) else s
    case Write(p, fault) =>
      if s.At(p).Found? && (s.At(p).existing.Some? ==> s.At(p).existing.value < |s.rows|)
      then s.(rows := WriteHalf(s.rows, s.At(p).row, s.At(p).existing, fault).0).Move(p, Idle) else s
    case WriteLate(p) =>
      if s.At(p).Found? && s.At(p).existing.None? then s.(late := s.late + [s.At(p).row]).Move(p, Idle) else s
    case Arrive(k) =>
      if k < |s.late| then s.(rows := s.rows + [s.late[k]], late := s.late[..k] + s.late[k + 1..]) else s
    case Crash(p) => s.Move(p, Idle)
  }

  function Exec(cfg: Config, s: State, run: seq<Action>): State
    decreases run
  {
    if run == [] then s else Exec(cfg, Next(cfg, s, run[0]), run[1..])
  }

  /** Each key is upserted by one worker, and no id contains '^'. */
  predicate Owned(owner: (string, string) -> nat, run: seq<Action>) {
    forall i :: 0 <= i < |run| && run[i].Lookup? ==>
      run[i].p == owner(run[i].row.table, run[i].row.externalId) && '^' !in run[i].row.externalId
  }

  predicate NoneKeyed(rows: seq<Row>, r: Row) {
    forall i :: 0 <= i < |rows| ==> !Keyed(rows[i], r.table, r.externalId)
  }

  /** No key is looked up while a POST for it is still on its way. */
  predicate Settled(cfg: Config, s: State, run: seq<Action>)
    decreases run
  {
    run == [] || ((run[0].Lookup? ==> NoneKeyed(s.late, run[0].row)) && Settled(cfg, Next(cfg, s, run[0]), run[1..]))
  }

  predicate LocalOk(owner: (string, string) -> nat, s: State, p: nat, l: Local) {
    l.Found? ==> owner(l.row.table, l.row.externalId) == p && Truthful(s.rows, l.row, l.existing) && NoneKeyed(s.late, l.row)
  }

  predicate Inv(owner: (string, string) -> nat, s: State) {
    && AtMostOne(s.rows) && AtMostOne(s.late) && (forall k :: 0 <= k < |s.late| ==> NoneKeyed(s.rows, s.late[k]))
    && forall p :: p in s.locals ==> LocalOk(owner, s, p, s.locals[p])
  }

  lemma WriteKeeps(owner: (string, string) -> nat, s: State, p: nat, fault: WriteFault)
    requires Inv(owner, s) && s.At(p).Found?
    ensures s.At(p).existing.Some? ==> s.At(p).existing.value < |s.rows|
    ensures Inv(owner, s.(rows := WriteHalf(s.rows, s.At(p).row, s.At(p).existing, fault).0).Move(p, Idle))
  {
    var l := s.At(p);
    assert LocalOk(owner, s, p, l);
    var rows := WriteHalf(s.rows, l.row, l.existing, fault).0;
    WriteHalfKeeps(s.rows, l.row, l.existing, fault);
    assert |rows| > |s.rows| ==> rows == s.rows + [l.row];
    var s' := s.(rows := rows).Move(p, Idle);
    forall k | 0 <= k < |s.late| ensures NoneKeyed(rows, s.late[k]) { assert NoneKeyed(s.rows, s.late[k]); }
    forall q | q in s.locals && q != p ensures LocalOk(owner, s', q, s.locals[q]) {
      assert LocalOk(owner, s, q, s.locals[q]);
    }
  }

  lemma LateKeeps(owner: (string, string) -> nat, s: State, p: nat)
    requires Inv(owner, s) && s.At(p).Found? && s.At(p).existing.None?
    ensures Inv(owner, s.(late := s.late + [s.At(p).row]).Move(p, Idle))
  {
    var row := s.At(p).row;
    assert LocalOk(owner, s, p, s.At(p));
    var s' := s.(late := s.late + [row]).Move(p, Idle);
    forall q | q in s.locals && q != p ensures LocalOk(owner, s', q, s.locals[q]) {
      assert LocalOk(owner, s, q, s.locals[q]);
    }
  }

  lemma ArriveKeeps(owner: (string, string) -> nat, s: State, k: nat)
    requires Inv(owner, s) && k < |s.late|
    ensures Inv(owner, s.(rows := s.rows + [s.late[k]], late := s.late[..k] + s.late[k + 1..]))
  {
    var rest := s.late[..k] + s.late[k + 1..];
    var s' := s.(rows := s.rows + [s.late[k]], late := rest);
    forall i | 0 <= i < |rest| ensures rest[i] == s.late[if i < k then i else i + 1] {}
    forall i | 0 <= i < |rest| ensures NoneKeyed(s'.rows, rest[i]) {
      assert NoneKeyed(s.rows, s.late[if i < k then i else i + 1]);
    }
    forall q | q in s.locals ensures LocalOk(owner, s', q, s.locals[q]) {
      assert LocalOk(owner, s, q, s.locals[q]);
    }
  }

  /** Any interleaving of lookups, writes, lost replies, late writes and crashes by one worker per key leaves at most
      one remote record per (table, external_id), as long as no key is looked up while a POST for it is on its way. */
  lemma {:induction false} RunKeepsUnique(cfg: Config, owner: (string, string) -> nat, s: State, run: seq<Action>)
    requires cfg.lookupLimit >= 1 && Inv(owner, s) && Owned(owner, run) && Settled(cfg, s, run)
    ensures Inv(owner, Exec(cfg, s, run)) && AtMostOne(Exec(cfg, s, run).rows)
    decreases run
  {
    if run != [] {
      match run[0] {
        case Lookup(p, row) => LookupIsExact(cfg, s.rows, row.table, row.externalId);
        case Write(p, fault) => if s.At(p).Found? { WriteKeeps(owner, s, p, fault); }
        case WriteLate(p) => if s.At(p).Found? && s.At(p).existing.None? { LateKeeps(owner, s, p); }
        case Arrive(k) => if k < |s.late| { ArriveKeeps(owner, s, k); }
        case Crash(p) =>
      }
      RunKeepsUnique(cfg, owner, Next(cfg, s, run[0]), run[1..]);
    }
  }

  /** The ownership hypothesis is needed: two workers that both look up before either writes create two records. */
  lemma TwoWorkersDuplicate(cfg: Config, row: Row)
    requires cfg.lookupLimit >= 1
    ensures Exec(cfg, INITIAL, [Lookup(0, row), Lookup(1, row), Write(0, Applied), Write(1, Applied)]).rows == [row, row]
  {
    assert Existing(cfg, [], row.table, row.externalId) == Ok(None);
    var s1 := Next(cfg, INITIAL, Lookup(0, row));
    var s2 := Next(cfg, s1, Lookup(1, row));
    var s3 := Next(cfg, s2, Write(0, Applied));
    var s4 := Next(cfg, s3, Write(1, Applied));
    assert s4.rows == [row, row];
    assert Exec(cfg, s3, [Write(1, Applied)]) == s4;
    assert Exec(cfg, s2, [Write(0, Applied), Write(1, Applied)]) == s4;
    assert Exec(cfg, s1, [Lookup(1, row), Write(0, Applied), Write(1, Applied)]) == s4;
  }

  /** So is the other one: a POST that arrives after the retry's lookup creates a second record. */
  lemma LateWriteDuplicates(cfg: Config, row: Row)
    requires cfg.lookupLimit >= 1
    ensures Exec(cfg, INITIAL, [Lookup(0, row), WriteLate(0), Lookup(0, row), Arrive(0), Write(0, Applied)]).rows == [row, row]
  {
    assert Existing(cfg, [], row.table, row.externalId) == Ok(None);
    var s1 := Next(cfg, INITIAL, Lookup(0, row));
    var s2 := Next(cfg, s1, WriteLate(0));
    assert s2 == State([], [row], map[0 := Idle]);
    var s3 := Next(cfg, s2, Lookup(0, row));
    assert s3 == State([], [row], map[0 := Found(row, None)]);
    var s4 := Next(cfg, s3, Arrive(0));
    assert s4 == State([row], [], map[0 := Found(row, None)]);
    var s5 := Next(cfg, s4, Write(0, Applied));
    assert s5.rows == [row, row];
    assert Exec(cfg, s4, [Write(0, Applied)]) == s5;
    assert Exec(cfg, s3, [Arrive(0), Write(0, Applied)]) == s5;
    assert Exec(cfg, s2, [Lookup(0, row), Arrive(0), Write(0, Applied)]) == s5;
    assert Exec(cfg, s1, [WriteLate(0), Lookup(0, row), Arrive(0), Write(0, Applied)]) == s5;
  }

  // ---------------------------------------------------------------- external ids

  datatype Request = Request(caseId: string, pd: string, incident: Option<string>, taskTypes: seq<string>)
  {
    predicate CaretFree() {
      '^' !in caseId && '^' !in pd && forall i :: 0 <= i < |taskTypes| ==> '^' !in taskTypes[i]
    }
  }

  /** _build_external_id; a blank task type is left out. */
  function ExternalId(cfg: Config, kind: string, caseId: string, pd: string, taskType: string): string {
    var c, p, t := Strip(caseId), Strip(pd), Strip(taskType);
    if t == "" then "aiops:" + kind + ":" + c + ":" + p + ":" + cfg.digest(c + "|" + p)
    else "aiops:" + kind + ":" + c + ":" + p + ":" + cfg.digest(c + "|" + p + "|" + t) + ":" + t
  }

  function ProblemId(cfg: Config, req: Request): string { ExternalId(cfg, "problem", req.caseId, req.pd, "") }

  function TaskId(cfg: Config, req: Request, taskType: string): string {
    ExternalId(cfg, "pir-task", req.caseId, req.pd, taskType)
  }

  lemma {:induction false} TrimLeftKeepsCaret(s: string)
    ensures '^' in TrimLeft(s) <==> '^' in s
  {
    if s != "" && IsSpace(s[0]) {
      TrimLeftKeepsCaret(s[1..]);
      assert s == [s[0]] + s[1..];
    }
  }

  lemma {:induction false} TrimRightKeepsCaret(s: string)
    ensures '^' in TrimRight(s) <==> '^' in s
  {
    if s != "" && IsSpace(s[|s| - 1]) {
      TrimRightKeepsCaret(s[..|s| - 1]);
      assert s == s[..|s| - 1] + [s[|s| - 1]];
    }
  }

  /** An external id contains '^' exactly when one of the parts the caller supplied does. */
  lemma ExternalIdCaretIff(cfg: Config, kind: string, caseId: string, pd: string, taskType: string)
    requires cfg.Valid() && '^' !in kind
    ensures '^' in ExternalId(cfg, kind, caseId, pd, taskType) <==> '^' in caseId || '^' in pd || '^' in taskType
  {
    StripKeepsCaret(caseId);
    StripKeepsCaret(pd);
    StripKeepsCaret(taskType);
  }

  lemma StripKeepsCaret(s: string)
    ensures '^' in Strip(s) <==> '^' in s
  {
    TrimLeftKeepsCaret(s);
    TrimRightKeepsCaret(TrimLeft(s));
  }

  /** An external id starts with its kind and the trimmed case and incident ids, in that order, and a task's ends with
      its trimmed type. */
  lemma ExternalIdNames(cfg: Config, kind: string, caseId: string, pd: string, taskType: string)
    ensures "aiops:" + kind + ":" + Strip(caseId) + ":" + Strip(pd) + ":" <= ExternalId(cfg, kind, caseId, pd, taskType)
    ensures Strip(taskType) != "" ==> EndsWith(ExternalId(cfg, kind, caseId, pd, taskType), ":" + Strip(taskType))
  {
    var c, p, t := Strip(caseId), Strip(pd), Strip(taskType);
    var head := "aiops:" + kind + ":" + c + ":" + p + ":";
    if t != "" {
      var d := cfg.digest(c + "|" + p + "|" + t);
      assert ExternalId(cfg, kind, caseId, pd, taskType) == (head + d) + (":" + t);
    }
  }

  predicate EndsWith(s: string, suffix: string) { |suffix| <= |s| && s[|s| - |suffix|..] == suffix }

  /** Two problems with one external id belong to the same trimmed case and incident, or their digests collide. */
  lemma SameProblemSameCase(cfg: Config, a: Request, b: Request)
    requires (forall s: string :: |cfg.digest(s)| == 12) && ProblemId(cfg, a) == ProblemId(cfg, b)
    ensures var x, y := Strip(a.caseId) + "|" + Strip(a.pd), Strip(b.caseId) + "|" + Strip(b.pd); x == y || cfg.digest(x) == cfg.digest(y)
  {
    LastTwelve(cfg, "problem", a.caseId, a.pd);
    LastTwelve(cfg, "problem", b.caseId, b.pd);
  }

  /** Two tasks of one type with one external id belong to the same trimmed case and incident, or their digests collide. */
  lemma SameTaskSameCase(cfg: Config, a: Request, b: Request, t: string)
    requires (forall s: string :: |cfg.digest(s)| == 12) && Strip(t) != "" && TaskId(cfg, a, t) == TaskId(cfg, b, t)
    ensures var x, y := Strip(a.caseId) + "|" + Strip(a.pd) + "|" + Strip(t), Strip(b.caseId) + "|" + Strip(b.pd) + "|" + Strip(t);
            x == y || cfg.digest(x) == cfg.digest(y)
  {
    BeforeType(cfg, "pir-task", a.caseId, a.pd, t);
    BeforeType(cfg, "pir-task", b.caseId, b.pd, t);
  }

  /** The twelve characters that end a problem's id are the digest of its trimmed parts. */
  lemma LastTwelve(cfg: Config, kind: string, caseId: string, pd: string)
    requires |cfg.digest(Strip(caseId) + "|" + Strip(pd))| == 12
    ensures var id := ExternalId(cfg, kind, caseId, pd, ""); |id| >= 12 && id[|id| - 12..] == cfg.digest(Strip(caseId) + "|" + Strip(pd))
  {
    var d := cfg.digest(Strip(caseId) + "|" + Strip(pd));
    var head := "aiops:" + kind + ":" + Strip(caseId) + ":" + Strip(pd) + ":";
    assert Strip("") == "";
    assert ExternalId(cfg, kind, caseId, pd, "") == head + d;
  }

  /** The twelve characters before the type of a task's id are the digest of its trimmed parts, the type included. */
  lemma BeforeType(cfg: Config, kind: string, caseId: string, pd: string, t: string)
    requires Strip(t) != "" && |cfg.digest(Strip(caseId) + "|" + Strip(pd) + "|" + Strip(t))| == 12
    ensures var id, k := ExternalId(cfg, kind, caseId, pd, t), |Strip(t)| + 1;
            |id| >= k + 12 && id[|id| - k - 12..|id| - k] == cfg.digest(Strip(caseId) + "|" + Strip(pd) + "|" + Strip(t))
  {
    var d := cfg.digest(Strip(caseId) + "|" + Strip(pd) + "|" + Strip(t));
    var head := "aiops:" + kind + ":" + Strip(caseId) + ":" + Strip(pd) + ":";
    var id := ExternalId(cfg, kind, caseId, pd, t);
    assert id == (head + d) + (":" + Strip(t));
    assert id[..|id| - |Strip(t)| - 1] == head + d;
  }

  /** A problem and a task never share an external id, whatever the parts hold. */
  lemma ProblemIsNotTask(cfg: Config, a: Request, b: Request, t: string)
    ensures ProblemId(cfg, a) != TaskId(cfg, b, t)
  {
    ExternalIdNames(cfg, "problem", a.caseId, a.pd, "");
    ExternalIdNames(cfg, "pir-task", b.caseId, b.pd, t);
    var p, q := ProblemId(cfg, a), TaskId(cfg, b, t);
    var x := "aiops:" + "problem" + ":" + Strip(a.caseId) + ":" + Strip(a.pd) + ":";
    var y := "aiops:" + "pir-task" + ":" + Strip(b.caseId) + ":" + Strip(b.pd) + ":";
    assert x[7] == 'r' && y[7] == 'i' && p[7] == x[7] && q[7] == y[7];
  }

  /** The parts an id is built from are the trimmed ones: requests that differ only in outer blanks share their ids. */
  lemma IdsIgnoreOuterBlanks(cfg: Config, a: Request, b: Request, t: string, u: string)
    requires Strip(a.caseId) == Strip(b.caseId) && Strip(a.pd) == Strip(b.pd) && Strip(t) == Strip(u)
    ensures ProblemId(cfg, a) == ProblemId(cfg, b) && TaskId(cfg, a, t) == TaskId(cfg, b, u)
  {
  }

  /** Distinct non-empty items in order of first appearance. */
  function Dedupe(items: seq<string>): (d: seq<string>)
    ensures forall x :: x in d <==> x in items && x != ""
    ensures forall i, j :: 0 <= i < j < |d| ==> d[i] != d[j]
  {
    if items == [] then [] else
      var rest, x := items[..|items| - 1], items[|items| - 1];
      assert items == rest + [x];
      if x == "" || x in rest then Dedupe(rest) else Dedupe(rest) + [x]
  }

  lemma {:induction false} DedupeKeepsOrder(items: seq<string>)
    ensures InOrderOf(Dedupe(items), items)
  {
    if items != [] {
      var rest, x := items[..|items| - 1], items[|items| - 1];
      assert items == rest + [x];
      DedupeKeepsOrder(rest);
      InOrderGrows(Dedupe(rest), rest, x);
    }
  }

  method DedupePreserveOrder(items: seq<string>) returns (deduped: seq<string>)
    ensures deduped == Dedupe(items)
  {
    deduped := [];
    var seen: set<string> := {};
    for i := 0 to |items|
      invariant deduped == Dedupe(items[..i])
      invariant forall x :: x in seen <==> x in items[..i] && x != ""
    {
      assert items[..i + 1][..i] == items[..i] && items[..i + 1] == items[..i] + [items[i]];
      if items[i] != "" && items[i] !in seen {
        seen := seen + {items[i]};
        deduped := deduped + [items[i]];
      }
    }
    assert items[..|items|] == items;
  }

  // ---------------------------------------------------------------- problem and tasks

  datatype Tables = Tables(rows: Remote, mock: map<(string, string), SysId>)
  datatype LinkStatus = NotLinked | LinkFailed | LinkSkipped | LinkDone
  datatype WriteResult = WriteResult(status: LinkStatus, reason: string, problemSysId: Option<SysId>,
                                     problemExternalId: Option<string>, taskSysIds: seq<SysId>, taskExternalIds: seq<string>)

  /** _upsert_record in every mode. */
  function UpsertRecord(cfg: Config, s: Tables, row: Row, f: Faults): (Tables, Upsert) {
    match cfg.mode
    case Off => (s, Upsert(row.externalId, Skipped, "mode_off", None))
    case Log => (s, Upsert(row.externalId, Skipped, "mode_log_noop", None))
    case MockMode =>
      var key := (row.table, row.externalId);
      var generated := Mock(cfg.digest(row.table + "|" + row.externalId));
      if key in s.mock then (s, Upsert(row.externalId, Updated, "mock_upsert", Some(s.mock[key])))
      else (s.(mock := s.mock[key := generated]), Upsert(row.externalId, Created, "mock_upsert", Some(generated)))
    case LiveMode => var (rows, u) := UpsertLive(cfg, s.rows, row, f); (s.(rows := rows), u)
  }

  predicate Missing(req: Request, third: string) { Strip(req.caseId) == "" || Strip(req.pd) == "" || Strip(third) == "" }

  /** upsert_problem and upsert_pir_task: an error is a guardrail exception raised before any request. */
  function UpsertOne(cfg: Config, s: Tables, req: Request, third: string, row: Row, f: Faults): (Tables, Result<Upsert>) {
    if Missing(req, third) then (s, Ok(Upsert("", Failed, "invalid_input", None)))
    else if cfg.blocked(row.table, row.externalId) then (s, Err("posture violation"))
    else var (s', u) := UpsertRecord(cfg, s, row, f); (s', Ok(u))
  }

  function ProblemRow(cfg: Config, req: Request): Row { Row(cfg.problemTable, ProblemId(cfg, req), None) }

  function TaskRow(cfg: Config, req: Request, problem: SysId, t: string): Row {
    Row(cfg.taskTable, TaskId(cfg, req, t), Some(problem))
  }

  const RAISED := WriteResult(LinkFailed, "upsert_error", None, None, [], [])

  /** The task loop, from the results collected so far. */
  function UpsertTasks(cfg: Config, s: Tables, req: Request, problem: SysId, problemId: string, types: seq<string>,
                       sysIds: seq<SysId>, ids: seq<string>, faults: nat -> Faults): (Tables, WriteResult)
    decreases types
  {
    if types == [] then (s, WriteResult(LinkDone, "linked", Some(problem), Some(problemId), sysIds, ids))
    else
      var (s', r) := UpsertOne(cfg, s, req, types[0], TaskRow(cfg, req, problem, types[0]), faults(|ids| + 1));
      if r.Err? then (s', RAISED)
      else if r.value.outcome == Failed then
        (s', WriteResult(LinkFailed, "upsert_error", Some(problem), Some(problemId), sysIds, ids + [r.value.externalId]))
      else if r.value.outcome == Skipped then
        (s', WriteResult(LinkSkipped, r.value.reason, Some(problem), Some(problemId), [], ids + [r.value.externalId]))
      else
        UpsertTasks(cfg, s', req, problem, problemId, types[1..],
                    if r.value.sysId.Some? then sysIds + [r.value.sysId.value] else sysIds, ids + [r.value.externalId], faults)
  }

  /** upsert_problem_and_pir_tasks */
  function UpsertAll(cfg: Config, s: Tables, req: Request, faults: nat -> Faults): (Tables, WriteResult) {
    if req.incident.None? || Strip(req.incident.value) == "" then
      (s, WriteResult(NotLinked, "missing_incident_sys_id", None, None, [], []))
    else if Dedupe(req.taskTypes) == [] then (s, WriteResult(LinkFailed, "invalid_input", None, None, [], []))
    else
      var (s', r) := UpsertOne(cfg, s, req, req.incident.value, ProblemRow(cfg, req), faults(0));
      if r.Err? then (s', RAISED)
      else if r.value.outcome == Failed then
        (s', WriteResult(LinkFailed, "upsert_error", None, Some(r.value.externalId), [], []))
      else if r.value.outcome == Skipped then
        (s', WriteResult(LinkSkipped, r.value.reason, None, Some(r.value.externalId), [], []))
      else if r.value.sysId.None? then
        (s', WriteResult(LinkFailed, "upsert_error", None, Some(r.value.externalId), [], []))
      else
        UpsertTasks(cfg, s', req, r.value.sysId.value, r.value.externalId, Dedupe(req.taskTypes), [], [], faults)
  }

  class ServiceNowClient {
    const cfg: Config
    var remote: Remote
    var mockUpsertSysIds: map<(string, string), SysId>

    constructor (cfg: Config, remote: Remote)
      ensures this.cfg == cfg && this.remote == remote && mockUpsertSysIds == map[]
    {
      this.cfg := cfg;
      this.remote := remote;
      mockUpsertSysIds := map[];
    }

    /** GET by external id: the existing record's position, or an error. */
    method Lookup(row: Row, ok: bool) returns (existing: Result<Option<nat>>)
      ensures ok ==> existing == Existing(cfg, remote, row.table, row.externalId)
      ensures !ok ==> existing.Err?
      ensures existing.Ok? && existing.value.Some? ==> existing.value.value < |remote|
    {
      if !ok { return Err("lookup failed"); }
      var wanted := Escape(row.externalId);
      var found: seq<nat> := [];
      for i := 0 to |remote|
        invariant found == Matches(remote[..i], row.table, wanted)
      {
        assert remote[..i + 1][..i] == remote[..i];
        if Keyed(remote[i], row.table, wanted) { found := found + [i]; }
      }
      assert remote[..|remote|] == remote;
      ExistingInRange(cfg, remote, row.table, row.externalId);
      var page := if |found| <= cfg.lookupLimit then found else found[..cfg.lookupLimit];
      if page == [] { return Ok(None); }
      if |page| > 1 { return Err("multiple existing records"); }
      return Ok(Some(page[0]));
    }

    /** _upsert_record in LIVE mode: look up, then create or update. */
    method UpsertLiveRecord(row: Row, f: Faults) returns (u: Upsert)
      modifies this
      ensures (remote, u) == UpsertLive(cfg, old(remote), row, f) && mockUpsertSysIds == old(mockUpsertSysIds)
    {
      if !cfg.hasBaseUrl { return Upsert(row.externalId, Failed, "missing_base_url", None); }
      var existing := Lookup(row, f.lookupOk);
      if existing.Err? { return Upsert(row.externalId, Failed, "lookup_error", None); }
      match existing.value {
        case None =>
          var sysId := |remote|;
          if f.write != Unavailable { remote := remote + [row]; }
          if f.write != Applied { return Upsert(row.externalId, Failed, "create_error", None); }
          return Upsert(row.externalId, Created, "created", Some(Live(sysId)));
        case Some(i) =>
          if f.write != Unavailable { remote := remote[i := row]; }
          if f.write != Applied && f.write != NoSysId { return Upsert(row.externalId, Failed, "update_error", None); }
          return Upsert(row.externalId, Updated, "updated", Some(Live(i)));
      }
    }

    /** upsert_problem and upsert_pir_task. OFF and LOG touch nothing; MOCK remembers one sys_id per key for good and
        leaves the remote alone; LIVE on a '^'-free id keeps keys unique whatever is lost, and a success names a
        record that holds the wanted key and content. */
    method UpsertRecordStep(req: Request, third: string, row: Row, f: Faults) returns (r: Result<Upsert>)
      modifies this
      ensures (Tables(remote, mockUpsertSysIds), r) == UpsertOne(cfg, Tables(old(remote), old(mockUpsertSysIds)), req, third, row, f)
      ensures cfg.mode == Off || cfg.mode == Log ==> remote == old(remote) && mockUpsertSysIds == old(mockUpsertSysIds)
      ensures cfg.mode != LiveMode ==> remote == old(remote)
      ensures forall k :: k in old(mockUpsertSysIds) ==> k in mockUpsertSysIds && mockUpsertSysIds[k] == old(mockUpsertSysIds)[k]
      ensures cfg.mode == MockMode && r.Ok? && r.value.outcome != Failed ==>
                var key := (row.table, row.externalId);
                && key in mockUpsertSysIds && r.value.sysId == Some(mockUpsertSysIds[key])
                && (r.value.outcome == Created <==> key !in old(mockUpsertSysIds))
      ensures cfg.mode == LiveMode && cfg.lookupLimit >= 1 && AtMostOne(old(remote)) && '^' !in row.externalId ==>
                && AtMostOne(remote) && Extends(old(remote), remote, row.problem)
                && (r.Ok? ==> Names(remote, row, r.value))
    {
      if cfg.lookupLimit >= 1 && AtMostOne(remote) && '^' !in row.externalId {
        OneKeepsUnique(cfg, Tables(remote, mockUpsertSysIds), req, third, row, f);
      }
      if Missing(req, third) { return Ok(Upsert("", Failed, "invalid_input", None)); }
      if cfg.blocked(row.table, row.externalId) { return Err("posture violation"); }
      match cfg.mode {
        case Off => return Ok(Upsert(row.externalId, Skipped, "mode_off", None));
        case Log => return Ok(Upsert(row.externalId, Skipped, "mode_log_noop", None));
        case MockMode =>
          var key := (row.table, row.externalId);
          if key in mockUpsertSysIds { return Ok(Upsert(row.externalId, Updated, "mock_upsert", Some(mockUpsertSysIds[key]))); }
          var generated := Mock(cfg.digest(row.table + "|" + row.externalId));
          mockUpsertSysIds := mockUpsertSysIds[key := generated];
          return Ok(Upsert(row.externalId, Created, "mock_upsert", Some(generated)));
        case LiveMode =>
          var u := UpsertLiveRecord(row, f);
          return Ok(u);
      }
    }

    method UpsertProblemAndPirTasks(req: Request, faults: nat -> Faults) returns (r: WriteResult)
      modifies this
      ensures (Tables(remote, mockUpsertSysIds), r) == UpsertAll(cfg, Tables(old(remote), old(mockUpsertSysIds)), req, faults)
    {
      if req.incident.None? || Strip(req.incident.value) == "" {
        return WriteResult(NotLinked, "missing_incident_sys_id", None, None, [], []);
      }
      var types := DedupePreserveOrder(req.taskTypes);
      if types == [] { return WriteResult(LinkFailed, "invalid_input", None, None, [], []); }
      var p := UpsertRecordStep(req, req.incident.value, ProblemRow(cfg, req), faults(0));
      if p.Err? { return RAISED; }
      var problem := p.value;
      if problem.outcome == Failed { return WriteResult(LinkFailed, "upsert_error", None, Some(problem.externalId), [], []); }
      if problem.outcome == Skipped { return WriteResult(LinkSkipped, problem.reason, None, Some(problem.externalId), [], []); }
      if problem.sysId.None? { return WriteResult(LinkFailed, "upsert_error", None, Some(problem.externalId), [], []); }
      var sys := problem.sysId.value;
      var sysIds: seq<SysId>, ids: seq<string> := [], [];
      var i := 0;
      ghost var start := Tables(remote, mockUpsertSysIds);
      while i < |types|
        invariant 0 <= i <= |types| && |ids| == i
        invariant UpsertTasks(cfg, Tables(remote, mockUpsertSysIds), req, sys, problem.externalId, types[i..], sysIds, ids, faults)
               == UpsertTasks(cfg, start, req, sys, problem.externalId, types, [], [], faults)
      {
        assert types[i..][0] == types[i] && types[i..][1..] == types[i + 1..];
        var u := UpsertRecordStep(req, types[i], TaskRow(cfg, req, sys, types[i]), faults(i + 1));
        if u.Err? { return RAISED; }
        ids := ids + [u.value.externalId];
        if u.value.outcome == Failed {
          return WriteResult(LinkFailed, "upsert_error", Some(sys), Some(problem.externalId), sysIds, ids);
        }
        if u.value.outcome == Skipped {
          return WriteResult(LinkSkipped, u.value.reason, Some(sys), Some(problem.externalId), [], ids);
        }
        if u.value.sysId.Some? { sysIds := sysIds + [u.value.sysId.value]; }
        i := i + 1;
      }
      return WriteResult(LinkDone, "linked", Some(sys), Some(problem.externalId), sysIds, ids);
    }
  }

  // ---------------------------------------------------------------- what a linkage attempt leaves behind

  /** A record in the task table has the task's external id and points at the problem. */
  predicate IsTask(cfg: Config, r: Row, req: Request, problem: SysId, t: string) {
    r.table == cfg.taskTable && r.externalId == TaskId(cfg, req, t) && r.problem == Some(problem)
  }

  predicate HasTask(cfg: Config, rows: Remote, req: Request, problem: SysId, t: string) {
    exists i :: 0 <= i < |rows| && IsTask(cfg, rows[i], req, problem, t)
  }

  lemma OneKeepsUnique(cfg: Config, s: Tables, req: Request, third: string, row: Row, f: Faults)
    requires cfg.lookupLimit >= 1 && AtMostOne(s.rows) && '^' !in row.externalId
    ensures var (s', r) := UpsertOne(cfg, s, req, third, row, f);
            && AtMostOne(s'.rows) && Extends(s.rows, s'.rows, row.problem)
            && (cfg.mode == LiveMode && r.Ok? ==> Names(s'.rows, row, r.value))
  {
    RecordKeepsUnique(cfg, s, row, f);
  }

  lemma RecordKeepsUnique(cfg: Config, s: Tables, row: Row, f: Faults)
    requires cfg.lookupLimit >= 1 && AtMostOne(s.rows) && '^' !in row.externalId
    ensures var (s', u) := UpsertRecord(cfg, s, row, f);
            && AtMostOne(s'.rows) && Extends(s.rows, s'.rows, row.problem)
            && (cfg.mode == LiveMode ==> Names(s'.rows, row, u))
  {
    if cfg.mode == LiveMode {
      UpsertKeepsUnique(cfg, s.rows, row, f);
    } else {
      assert UpsertRecord(cfg, s, row, f).0.rows == s.rows;
    }
  }

  lemma TaskIdsCaretFree(cfg: Config, req: Request, t: string)
    requires cfg.Valid() && '^' !in req.caseId && '^' !in req.pd && '^' !in t
    ensures '^' !in TaskId(cfg, req, t)
  {
    ExternalIdCaretIff(cfg, "pir-task", req.caseId, req.pd, t);
  }

  /** The result lists, after what was collected before, the task record and the external id of each type in order. */
  predicate Reports(cfg: Config, rows: Remote, req: Request, problem: SysId, types: seq<string>, sysIds: seq<SysId>, ids: seq<string>, r: WriteResult) {
    && sysIds <= r.taskSysIds && |r.taskSysIds| == |sysIds| + |types| && ids <= r.taskExternalIds && |r.taskExternalIds| == |ids| + |types|
    && forall i :: 0 <= i < |types| ==>
         ReportsTask(cfg, rows, req, problem, types[i], r.taskSysIds[|sysIds| + i], r.taskExternalIds[|ids| + i])
  }

  predicate ReportsTask(cfg: Config, rows: Remote, req: Request, problem: SysId, t: string, sysId: SysId, id: string) {
    sysId.Live? && sysId.n < |rows| && IsTask(cfg, rows[sysId.n], req, problem, t) && id == TaskId(cfg, req, t)
  }

  lemma ReportStays(cfg: Config, rows: Remote, after: Remote, req: Request, problem: SysId, t: string, sysId: SysId, id: string)
    requires Extends(rows, after, Some(problem)) && ReportsTask(cfg, rows, req, problem, t, sysId, id)
    ensures ReportsTask(cfg, after, req, problem, t, sysId, id)
  {
  }

  lemma ReportsMore(cfg: Config, rows: Remote, req: Request, problem: SysId, types: seq<string>, sysIds: seq<SysId>, ids: seq<string>,
                    sysId: SysId, id: string, r: WriteResult)
    requires types != [] && Reports(cfg, rows, req, problem, types[1..], sysIds + [sysId], ids + [id], r)
    requires ReportsTask(cfg, rows, req, problem, types[0], sysId, id)
    ensures Reports(cfg, rows, req, problem, types, sysIds, ids, r)
  {
    assert r.taskSysIds[|sysIds|] == (sysIds + [sysId])[|sysIds|] && r.taskExternalIds[|ids|] == (ids + [id])[|ids|];
    forall i | 0 <= i < |types| ensures ReportsTask(cfg, rows, req, problem, types[i], r.taskSysIds[|sysIds| + i], r.taskExternalIds[|ids| + i]) {
      if i > 0 { assert types[i] == types[1..][i - 1]; }
    }
  }

  /** What the task loop guarantees from any point on. */
  ghost predicate TasksDone(cfg: Config, before: Remote, req: Request, problem: SysId, types: seq<string>,
                            sysIds: seq<SysId>, ids: seq<string>, out: (Tables, WriteResult)) {
    && AtMostOne(out.0.rows) && Extends(before, out.0.rows, Some(problem))
    && (cfg.mode == LiveMode && out.1.status == LinkDone ==>
          out.1.problemSysId == Some(problem) && Reports(cfg, out.0.rows, req, problem, types, sysIds, ids, out.1))
  }

  lemma ExtendsThrough(a: Remote, b: Remote, c: Remote, problem: Option<SysId>)
    requires Extends(a, b, problem) && Extends(b, c, problem)
    ensures Extends(a, c, problem)
  {
  }

  /** From the guarantee after the first task to the guarantee before it. */
  lemma TasksStep(cfg: Config, before: Remote, middle: Remote, req: Request, problem: SysId, types: seq<string>,
                  sysIds: seq<SysId>, ids: seq<string>, u: Upsert, out: (Tables, WriteResult))
    requires types != [] && Extends(before, middle, Some(problem))
    requires cfg.mode == LiveMode ==> u.outcome != Failed && Names(middle, TaskRow(cfg, req, problem, types[0]), u)
    requires TasksDone(cfg, middle, req, problem, types[1..], if u.sysId.Some? then sysIds + [u.sysId.value] else sysIds, ids + [u.externalId], out)
    ensures TasksDone(cfg, before, req, problem, types, sysIds, ids, out)
  {
    ExtendsThrough(before, middle, out.0.rows, Some(problem));
    if cfg.mode == LiveMode && out.1.status == LinkDone {
      assert ReportsTask(cfg, middle, req, problem, types[0], u.sysId.value, u.externalId);
      ReportStays(cfg, middle, out.0.rows, req, problem, types[0], u.sysId.value, u.externalId);
      ReportsMore(cfg, out.0.rows, req, problem, types, sysIds, ids, u.sysId.value, u.externalId, out.1);
    }
  }

  lemma {:induction false} TasksRecorded(cfg: Config, s: Tables, req: Request, problem: SysId, problemId: string,
                                         types: seq<string>, sysIds: seq<SysId>, ids: seq<string>, faults: nat -> Faults)
    requires cfg.Valid() && AtMostOne(s.rows) && '^' !in req.caseId && '^' !in req.pd
    requires forall i :: 0 <= i < |types| ==> '^' !in types[i]
    ensures TasksDone(cfg, s.rows, req, problem, types, sysIds, ids, UpsertTasks(cfg, s, req, problem, problemId, types, sysIds, ids, faults))
    decreases types
  {
    if types != [] {
      var row, f := TaskRow(cfg, req, problem, types[0]), faults(|ids| + 1);
      TaskIdsCaretFree(cfg, req, types[0]);
      OneKeepsUnique(cfg, s, req, types[0], row, f);
      var (s', r) := UpsertOne(cfg, s, req, types[0], row, f);
      if r.Ok? && r.value.outcome != Failed && r.value.outcome != Skipped {
        var sysIds' := if r.value.sysId.Some? then sysIds + [r.value.sysId.value] else sysIds;
        var ids' := ids + [r.value.externalId];
        TasksRecorded(cfg, s', req, problem, problemId, types[1..], sysIds', ids', faults);
        TasksStep(cfg, s.rows, s'.rows, req, problem, types, sysIds, ids, r.value,
                  UpsertTasks(cfg, s', req, problem, problemId, types[1..], sysIds', ids', faults));
      }
    }
  }

  /** What a finished LIVE linkage has left in the remote tables and in its result. */
  ghost predicate Recorded(cfg: Config, rows: Remote, req: Request, r: WriteResult) {
    && r.problemSysId.Some? && r.problemSysId.value.Live? && r.problemSysId.value.n < |rows|
    && Keyed(rows[r.problemSysId.value.n], cfg.problemTable, ProblemId(cfg, req)) && r.problemExternalId == Some(ProblemId(cfg, req))
    && (forall t :: t in req.taskTypes && t != "" ==> HasTask(cfg, rows, req, r.problemSysId.value, t))
    && Reports(cfg, rows, req, r.problemSysId.value, Dedupe(req.taskTypes), [], [], r)
  }

  lemma ReportedIsRecorded(cfg: Config, before: Remote, rows: Remote, req: Request, n: nat, r: WriteResult)
    requires n < |before| && before[n] == ProblemRow(cfg, req) && Extends(before, rows, Some(Live(n)))
    requires r.problemSysId == Some(Live(n)) && r.problemExternalId == Some(ProblemId(cfg, req))
    requires Reports(cfg, rows, req, Live(n), Dedupe(req.taskTypes), [], [], r)
    ensures Recorded(cfg, rows, req, r)
  {
    var types := Dedupe(req.taskTypes);
    forall t | t in req.taskTypes && t != "" ensures HasTask(cfg, rows, req, Live(n), t) {
      assert t in types;
      var i :| 0 <= i < |types| && types[i] == t;
      assert ReportsTask(cfg, rows, req, Live(n), types[i], r.taskSysIds[0 + i], r.taskExternalIds[0 + i]);
      assert IsTask(cfg, rows[r.taskSysIds[i].n], req, Live(n), t);
    }
  }

  /** One linkage attempt with '^'-free identifiers, whatever replies are lost: keys stay unique, and in LIVE mode
      "linked" means the problem record exists, every distinct task type has a record pointing at it, and the result names
      those records and their external ids in order. */
  lemma LinkedMeansRecorded(cfg: Config, s: Tables, req: Request, faults: nat -> Faults)
    requires cfg.Valid() && AtMostOne(s.rows) && req.CaretFree()
    ensures var (s', r) := UpsertAll(cfg, s, req, faults);
            AtMostOne(s'.rows) && (cfg.mode == LiveMode && r.status == LinkDone ==> Recorded(cfg, s'.rows, req, r))
  {
    if req.incident.Some? && Strip(req.incident.value) != "" && Dedupe(req.taskTypes) != [] {
      var row := ProblemRow(cfg, req);
      ExternalIdCaretIff(cfg, "problem", req.caseId, req.pd, "");
      OneKeepsUnique(cfg, s, req, req.incident.value, row, faults(0));
      var (s', r) := UpsertOne(cfg, s, req, req.incident.value, row, faults(0));
      if r.Ok? && r.value.outcome != Failed && r.value.outcome != Skipped && r.value.sysId.Some? {
        TasksFollow(cfg, s', req, r.value, faults);
      }
    }
  }

  lemma TasksFollow(cfg: Config, s: Tables, req: Request, u: Upsert, faults: nat -> Faults)
    requires cfg.Valid() && AtMostOne(s.rows) && req.CaretFree() && u.sysId.Some?
    requires cfg.mode == LiveMode ==> u.outcome != Failed && Names(s.rows, ProblemRow(cfg, req), u)
    ensures var (s', r) := UpsertTasks(cfg, s, req, u.sysId.value, u.externalId, Dedupe(req.taskTypes), [], [], faults);
            AtMostOne(s'.rows) && (cfg.mode == LiveMode && r.status == LinkDone ==> Recorded(cfg, s'.rows, req, r))
  {
    var types := Dedupe(req.taskTypes);
    assert forall i :: 0 <= i < |types| ==> types[i] in req.taskTypes;
    TasksRecorded(cfg, s, req, u.sysId.value, u.externalId, types, [], [], faults);
    var (s', r) := UpsertTasks(cfg, s, req, u.sysId.value, u.externalId, types, [], [], faults);
    DoneNamesProblem(cfg, s, req, u.sysId.value, u.externalId, types, [], [], faults);
    if cfg.mode == LiveMode && r.status == LinkDone {
      ReportedIsRecorded(cfg, s.rows, s'.rows, req, u.sysId.value.n, r);
    }
  }

  lemma {:induction false} DoneNamesProblem(cfg: Config, s: Tables, req: Request, problem: SysId, problemId: string,
                                            types: seq<string>, sysIds: seq<SysId>, ids: seq<string>, faults: nat -> Faults)
    ensures var r := UpsertTasks(cfg, s, req, problem, problemId, types, sysIds, ids, faults).1;
            r.status == LinkDone ==> r.problemExternalId == Some(problemId) && r.problemSysId == Some(problem)
    decreases types
  {
    if types != [] {
      var (s', r) := UpsertOne(cfg, s, req, types[0], TaskRow(cfg, req, problem, types[0]), faults(|ids| + 1));
      if r.Ok? && r.value.outcome != Failed && r.value.outcome != Skipped {
        DoneNamesProblem(cfg, s', req, problem, problemId, types[1..],
                         if r.value.sysId.Some? then sysIds + [r.value.sysId.value] else sysIds, ids + [r.value.externalId], faults);
      }
    }
  }

  // ---------------------------------------------------------------- what is sent at all

  /** Without an incident, without task types, with a blank identifier or in OFF and LOG mode nothing is sent, and the
      answer says which it was. */
  lemma NothingSent(cfg: Config, s: Tables, req: Request, faults: nat -> Faults)
    ensures req.incident.None? || Strip(req.incident.value) == "" ==>
              UpsertAll(cfg, s, req, faults) == (s, WriteResult(NotLinked, "missing_incident_sys_id", None, None, [], []))
    ensures req.incident.Some? && Strip(req.incident.value) != "" && (forall t :: t in req.taskTypes ==> t == "") ==>
              UpsertAll(cfg, s, req, faults) == (s, WriteResult(LinkFailed, "invalid_input", None, None, [], []))
    ensures req.incident.Some? && Strip(req.incident.value) != "" && (exists t :: t in req.taskTypes && t != "")
            && (Strip(req.caseId) == "" || Strip(req.pd) == "") ==>
              UpsertAll(cfg, s, req, faults).0 == s && UpsertAll(cfg, s, req, faults).1.status == LinkFailed
    ensures Askable(req) && !cfg.blocked(cfg.problemTable, ProblemId(cfg, req)) && (cfg.mode == Off || cfg.mode == Log) ==>
              UpsertAll(cfg, s, req, faults)
              == (s, WriteResult(LinkSkipped, if cfg.mode == Off then "mode_off" else "mode_log_noop", None, Some(ProblemId(cfg, req)), [], []))
  {
    var d := Dedupe(req.taskTypes);
    assert d != [] ==> d[0] in d;
  }

  /** The request has an incident, a case, a PagerDuty incident and a task type. */
  predicate Askable(req: Request) {
    && req.incident.Some? && Strip(req.incident.value) != "" && Strip(req.caseId) != "" && Strip(req.pd) != ""
    && exists t :: t in req.taskTypes && t != ""
  }

  /** A blank task type, or a case or incident without text, is refused before any request. */
  lemma BlankIsRefused(cfg: Config, s: Tables, req: Request, third: string, row: Row, f: Faults)
    ensures Strip(req.caseId) == "" || Strip(req.pd) == "" || Strip(third) == "" ==>
              UpsertOne(cfg, s, req, third, row, f) == (s, Ok(Upsert("", Failed, "invalid_input", None)))
    ensures Strip(req.caseId) != "" && Strip(req.pd) != "" && Strip(third) != "" && cfg.blocked(row.table, row.externalId) ==>
              UpsertOne(cfg, s, req, third, row, f).0 == s && UpsertOne(cfg, s, req, third, row, f).1.Err?
  {
  }

  datatype Call = Call(req: Request, faults: nat -> Faults)

  function RunCalls(cfg: Config, s: Tables, calls: seq<Call>): Tables
    decreases calls
  {
    if calls == [] then s else RunCalls(cfg, UpsertAll(cfg, s, calls[0].req, calls[0].faults).0, calls[1..])
  }

  /** Any sequence of linkage attempts with lost replies leaves at most one remote record per external id. */
  lemma {:induction false} CallsKeepUnique(cfg: Config, s: Tables, calls: seq<Call>)
    requires cfg.Valid() && AtMostOne(s.rows)
    requires forall i :: 0 <= i < |calls| ==> calls[i].req.CaretFree()
    ensures AtMostOne(RunCalls(cfg, s, calls).rows)
    decreases calls
  {
    if calls != [] {
      LinkedMeansRecorded(cfg, s, calls[0].req, calls[0].faults);
      CallsKeepUnique(cfg, UpsertAll(cfg, s, calls[0].req, calls[0].faults).0, calls[1..]);
    }
  }
}
