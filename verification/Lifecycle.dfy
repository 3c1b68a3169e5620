/** The retention cutoff (storage/lifecycle.py): subtracting calendar months with day clamping. */
module Calendar {
  import opened Wrappers

  /** A UTC timestamp; `tick` is the position within the day. */
  datatype DateTime = DateTime(year: int, month: int, day: int, tick: nat)
  {
    predicate Valid() {
      1 <= year <= 9999 && 1 <= month <= 12 && 1 <= day <= DaysIn(year, month)
    }

    function MonthIndex(): int { year * 12 + (month - 1) }

    predicate DateAtMost(o: DateTime) {
      MonthIndex() < o.MonthIndex() || (MonthIndex() == o.MonthIndex() && day <= o.day)
    }

    predicate AtMost(o: DateTime) {
      || MonthIndex() < o.MonthIndex()
      || (MonthIndex() == o.MonthIndex() && (day < o.day || (day == o.day && tick <= o.tick)))
    }
  }

  predicate Leap(year: int) { year % 4 == 0 && (year % 100 != 0 || year % 400 == 0) }

  function DaysIn(year: int, month: int): int {
    if month == 2 then (if Leap(year) then 29 else 28)
    else if month == 4 || month == 6 || month == 9 || month == 11 then 30 else 31
  }

  /** The Gregorian rule: every fourth year, of the centuries only every fourth. */
  lemma LeapYears(year: int)
    ensures year % 400 == 0 ==> Leap(year)
    ensures year % 100 == 0 && year % 400 != 0 ==> !Leap(year)
    ensures year % 100 != 0 ==> (Leap(year) <==> year % 4 == 0)
  {
  }

  /** February has 28 days, 29 in a leap year; thirty days have April, June, September and November; all the rest 31. */
  lemma MonthLengths(year: int)
    ensures DaysIn(year, 2) == if Leap(year) then 29 else 28
    ensures forall m :: m in {4, 6, 9, 11} ==> DaysIn(year, m) == 30
    ensures forall m :: m in {1, 3, 5, 7, 8, 10, 12} ==> DaysIn(year, m) == 31
  {
  }

  /** The length of the month that lies `months` before the timestamp's. */
  function TargetDays(dt: DateTime, months: int): int {
    DaysIn((dt.MonthIndex() - months) / 12, (dt.MonthIndex() - months) % 12 + 1)
  }

  /** _subtract_months; a year outside 1..9999 raises. */
  function SubtractMonths(dt: DateTime, months: int): Result<DateTime> {
    var total := dt.MonthIndex() - months;
    if 1 <= total / 12 <= 9999 then
      Ok(DateTime(total / 12, total % 12 + 1, if dt.day < TargetDays(dt, months) then dt.day else TargetDays(dt, months), dt.tick))
    else Err("year is out of range")
  }

  /** The cutoff is a valid date exactly `months` month-indexes back, on the greatest day of that month not after the
      original day, at the same time of day. */
  lemma CutoffIsExact(dt: DateTime, months: int)
    requires dt.Valid() && SubtractMonths(dt, months).Ok?
    ensures var c := SubtractMonths(dt, months).value;
            && c.Valid() && c.MonthIndex() == dt.MonthIndex() - months && c.tick == dt.tick && c.day <= dt.day
            && forall day :: c.day < day <= dt.day ==> !c.(day := day).Valid()
  {
  }

  /** It fails exactly when the target month lies before year 1 or after year 9999. */
  lemma CutoffExistsIff(dt: DateTime, months: int)
    requires dt.Valid()
    ensures SubtractMonths(dt, months).Ok? <==> 12 <= dt.MonthIndex() - months <= 9999 * 12 + 11
  {
  }

  /** Calendar dates are monotone in now. */
  lemma CutoffDateMonotone(a: DateTime, b: DateTime, months: int)
    requires a.Valid() && b.Valid() && a.DateAtMost(b)
    requires SubtractMonths(a, months).Ok? && SubtractMonths(b, months).Ok?
    ensures SubtractMonths(a, months).value.DateAtMost(SubtractMonths(b, months).value)
  {
    CutoffIsExact(a, months);
    CutoffIsExact(b, months);
  }

  /** Two days of one month were both clamped to its counterpart's last day while the clock went back. */
  predicate ClampedBack(a: DateTime, b: DateTime, months: int) {
    a.MonthIndex() == b.MonthIndex() && TargetDays(a, months) <= a.day < b.day && b.tick < a.tick
  }

  /** Full timestamps are monotone exactly when clamping does not merge the two days and put the clock back. */
  lemma CutoffMonotoneIff(a: DateTime, b: DateTime, months: int)
    requires a.Valid() && b.Valid() && a.AtMost(b)
    requires SubtractMonths(a, months).Ok? && SubtractMonths(b, months).Ok?
    ensures SubtractMonths(a, months).value.AtMost(SubtractMonths(b, months).value) <==> !ClampedBack(a, b, months)
  {
    CutoffIsExact(a, months);
    CutoffIsExact(b, months);
  }

  /** 30 March 23:00 gives a later cutoff than 31 March 01:00, one month back in a common year. */
  lemma CutoffCanGoBack()
    ensures var a, b := DateTime(2023, 3, 30, 23), DateTime(2023, 3, 31, 1);
            && a.Valid() && b.Valid() && a.AtMost(b) && SubtractMonths(a, 1).Ok? && SubtractMonths(b, 1).Ok?
            && !SubtractMonths(a, 1).value.AtMost(SubtractMonths(b, 1).value)
  {
    CutoffMonotoneIff(DateTime(2023, 3, 30, 23), DateTime(2023, 3, 31, 1), 1);
  }
}

/** The purge run (storage/lifecycle.py): paging, grouping by case, sorting and batching. */
module Lifecycle {
  import opened Wrappers
  import opened Text
  import opened Calendar

  // ---------------------------------------------------------------- case-shaped keys

  predicate StageChar(c: char) { 'A' <= c <= 'Z' || 'a' <= c <= 'z' || '0' <= c <= '9' || c == '_' || c == '-' }

  predicate IsStage(s: string) { s != "" && forall i :: 0 <= i < |s| ==> StageChar(s[i]) }

  /** Stages are made of ASCII letters, digits, underscores and hyphens, and nothing else. */
  lemma StageTexts()
    ensures IsStage("triage") && IsStage("A-Z_a-z_0-9") && !IsStage("") && !IsStage("a.b") && !IsStage("a/b") && !IsStage("a b")
  {
    assert !StageChar("a.b"[1]) && !StageChar("a/b"[1]) && !StageChar("a b"[1]);
  }

  /** The shape the key pattern accepts; `$` also matches before one final newline. */
  ghost predicate CaseShaped(key: string, id: string) {
    && id != "" && '/' !in id
    && exists stage, end :: IsStage(stage) && (end == "" || end == "\n") && key == "cases/" + id + "/" + stage + ".json" + end
  }

  function FirstSlash(s: string): (k: nat)
    ensures k <= |s| && '/' !in s[..k] && (k < |s| ==> s[k] == '/')
  {
    if s == "" || s[0] == '/' then 0
    else
      var k := FirstSlash(s[1..]);
      assert s[..k + 1] == [s[0]] + s[1..][..k];
      k + 1
  }

  function DropFinalNewline(s: string): string {
    if s != "" && s[|s| - 1] == '\n' then s[..|s| - 1] else s
  }

  predicate EndsWith(s: string, suffix: string) { |suffix| <= |s| && s[|s| - |suffix|..] == suffix }

  /** Stage file name: a stage, `.json`, and perhaps a newline. */
  predicate IsStageFile(tail: string) {
    var t := DropFinalNewline(tail);
    EndsWith(t, ".json") && IsStage(t[..|t| - 5])
  }

  /** _extract_case_id */
  function ExtractCaseId(key: string): Option<string> {
    if !("cases/" <= key) then None
    else
      var rest := key[6..];
      var k := FirstSlash(rest);
      if 0 < k < |rest| && IsStageFile(rest[k + 1..]) then Some(rest[..k]) else None
  }

  lemma {:induction false} FirstSlashUnique(id: string, tail: string)
    requires '/' !in id
    ensures FirstSlash(id + "/" + tail) == |id|
  {
    var s := id + "/" + tail;
    if id != "" {
      assert s[0] == id[0] && s[1..] == id[1..] + "/" + tail;
      FirstSlashUnique(id[1..], tail);
    }
  }

  lemma StageFileShape(stage: string, end: string)
    requires IsStage(stage) && (end == "" || end == "\n")
    ensures IsStageFile(stage + ".json" + end)
  {
    var t := stage + ".json";
    assert DropFinalNewline(t + end) == t by {
      if end == "" { assert t + end == t && t[|t| - 1] == 'n'; } else { assert (t + end)[..|t|] == t; }
    }
    assert t[|t| - 5..] == ".json" && t[..|t| - 5] == stage;
  }

  lemma StageFileParts(tail: string)
    requires IsStageFile(tail)
    ensures exists stage, end :: IsStage(stage) && (end == "" || end == "\n") && tail == stage + ".json" + end
  {
    var t := DropFinalNewline(tail);
    var end := tail[|t|..];
    var stage := t[..|t| - 5];
    assert t == stage + ".json" && tail == t + end;
  }

  lemma KeyAssembly(id: string, stage: string, end: string)
    ensures "cases/" + (id + "/" + (stage + ".json" + end)) == "cases/" + id + "/" + stage + ".json" + end
  {
    var tail := stage + ".json" + end;
    assert ("cases/" + id + "/") + tail == ("cases/" + id + "/" + stage) + ".json" + end;
  }

  /** Where the slashes of an accepted key are. */
  lemma ExtractedPositions(key: string, id: string)
    requires ExtractCaseId(key) == Some(id)
    ensures "cases/" <= key && |key| > 6 + |id| && id != "" && '/' !in id
    ensures key[6..6 + |id|] == id && key[6 + |id|] == '/' && IsStageFile(key[7 + |id|..])
  {
    var rest := key[6..];
    var k := FirstSlash(rest);
    assert k == |id| && rest[..k] == id && rest[k] == '/' && IsStageFile(rest[k + 1..]);
    Offsets(key, k);
  }

  lemma Offsets(key: string, k: nat)
    requires |key| >= 6 && k < |key| - 6
    ensures key[6..][..k] == key[6..6 + k] && key[6..][k] == key[6 + k] && key[6..][k + 1..] == key[7 + k..]
  {
  }

  lemma ExtractedParts(key: string, id: string)
    requires "cases/" <= key && |key| > 6 + |id| && key[6..6 + |id|] == id && key[6 + |id|] == '/'
    ensures key == "cases/" + (id + "/" + key[7 + |id|..])
  {
    SplitAt(key, 6);
    SplitAt(key[6..], |id|);
    assert key[6..][..|id|] == id && key[6..][|id|..] == "/" + key[7 + |id|..];
  }

  lemma SplitAt(s: string, k: nat)
    requires k <= |s|
    ensures s == s[..k] + s[k..]
  {
  }

  lemma ExtractedIsShaped(key: string, id: string)
    requires ExtractCaseId(key) == Some(id)
    ensures CaseShaped(key, id)
  {
    ExtractedPositions(key, id);
    ExtractedParts(key, id);
    var tail := key[7 + |id|..];
    StageFileParts(tail);
    var stage, end :| IsStage(stage) && (end == "" || end == "\n") && tail == stage + ".json" + end;
    KeyAssembly(id, stage, end);
  }

  lemma ShapedIsExtracted(key: string, id: string, stage: string, end: string)
    requires id != "" && '/' !in id && IsStage(stage) && (end == "" || end == "\n")
    requires key == "cases/" + id + "/" + stage + ".json" + end
    ensures ExtractCaseId(key) == Some(id)
  {
    var tail := stage + ".json" + end;
    var rest := id + "/" + tail;
    assert key == "cases/" + rest && key[6..] == rest;
    FirstSlashUnique(id, tail);
    StageFileShape(stage, end);
    assert rest[|id| + 1..] == tail && rest[..|id|] == id;
  }

  /** The extraction returns exactly the case of a case-shaped key. */
  lemma ExtractIff(key: string, id: string)
    ensures ExtractCaseId(key) == Some(id) <==> CaseShaped(key, id)
  {
    if ExtractCaseId(key) == Some(id) { ExtractedIsShaped(key, id); }
    if CaseShaped(key, id) {
      var stage, end :| IsStage(stage) && (end == "" || end == "\n") && key == "cases/" + id + "/" + stage + ".json" + end;
      ShapedIsExtracted(key, id, stage, end);
    }
  }

  // ---------------------------------------------------------------- when a case was created

  datatype Object = Object(key: string, modified: DateTime)

  predicate IsTriage(o: Object) { EndsWith(o.key, "/triage.json") }

  function Earliest(objects: seq<Object>): DateTime
    requires objects != []
  {
    if |objects| == 1 then objects[0].modified
    else
      var m := Earliest(objects[1..]);
      if objects[0].modified.AtMost(m) then objects[0].modified else m
  }

  function TriageOnly(objects: seq<Object>): seq<Object> {
    if objects == [] then [] else (if IsTriage(objects[0]) then [objects[0]] else []) + TriageOnly(objects[1..])
  }

  /** _resolve_case_created_at */
  function CreatedAt(objects: seq<Object>): DateTime
    requires objects != []
  {
    if TriageOnly(objects) != [] then Earliest(TriageOnly(objects)) else Earliest(objects)
  }

  lemma {:induction false} EarliestBy(objects: seq<Object>, cutoff: DateTime)
    requires objects != []
    ensures Earliest(objects).AtMost(cutoff) <==> exists i :: 0 <= i < |objects| && objects[i].modified.AtMost(cutoff)
  {
    if |objects| > 1 {
      EarliestBy(objects[1..], cutoff);
      if i :| 0 <= i < |objects| && objects[i].modified.AtMost(cutoff) {
        if i > 0 { assert objects[1..][i - 1].modified.AtMost(cutoff); }
      }
    }
  }

  lemma {:induction false} TriageOnlyIff(objects: seq<Object>, o: Object)
    ensures o in TriageOnly(objects) <==> o in objects && IsTriage(o)
  {
    if objects != [] {
      TriageOnlyIff(objects[1..], o);
      assert objects == [objects[0]] + objects[1..];
    }
  }

  /** A case is old enough when its triage file is, or, without one, when any of its files is. */
  predicate OldEnough(objects: seq<Object>, cutoff: DateTime) {
    exists o :: o in objects && o.modified.AtMost(cutoff) && (IsTriage(o) || forall p :: p in objects ==> !IsTriage(p))
  }

  lemma CreatedByIff(objects: seq<Object>, cutoff: DateTime)
    requires objects != []
    ensures CreatedAt(objects).AtMost(cutoff) <==> OldEnough(objects, cutoff)
  {
    var ts := TriageOnly(objects);
    forall o ensures o in ts <==> o in objects && IsTriage(o) { TriageOnlyIff(objects, o); }
    var chosen := if ts != [] then ts else objects;
    EarliestBy(chosen, cutoff);
    if i :| 0 <= i < |chosen| && chosen[i].modified.AtMost(cutoff) {
      assert chosen[i] in chosen;
      if ts == [] { assert forall p :: p in objects ==> !IsTriage(p); }
    }
    if OldEnough(objects, cutoff) {
      var o :| o in objects && o.modified.AtMost(cutoff) && (IsTriage(o) || forall p :: p in objects ==> !IsTriage(p));
      assert o in chosen by {
        if ts != [] { assert ts[0] in ts; }
      }
    }
  }

  // ---------------------------------------------------------------- sorted keys and batches

  predicate Less(a: string, b: string) {
    if b == "" then false
    else if a == "" then true
    else a[0] < b[0] || (a[0] == b[0] && Less(a[1..], b[1..]))
  }

  /** String order: a proper prefix comes first, and otherwise the smaller character at the first difference decides. */
  ghost predicate Before(a: string, b: string) {
    exists k :: 0 <= k <= |a| && k < |b| && a[..k] == b[..k] && (k == |a| || a[k] < b[k])
  }

  lemma {:induction false} LessIff(a: string, b: string)
    ensures Less(a, b) <==> Before(a, b)
  {
    if a == "" || b == "" {
      assert b != "" ==> a[..0] == b[..0];
    } else {
      LessIff(a[1..], b[1..]);
      if a[0] < b[0] { assert a[..0] == b[..0]; }
      if a[0] == b[0] && Before(a[1..], b[1..]) {
        var k :| 0 <= k <= |a[1..]| && k < |b[1..]| && a[1..][..k] == b[1..][..k] && (k == |a[1..]| || a[1..][k] < b[1..][k]);
        assert a[..k + 1] == [a[0]] + a[1..][..k] && b[..k + 1] == [b[0]] + b[1..][..k];
      }
      if k :| 0 < k <= |a| && k < |b| && a[..k] == b[..k] && (k == |a| || a[k] < b[k]) {
        assert a[..k][0] == b[..k][0];
        assert a[1..][..k - 1] == a[..k][1..] && b[1..][..k - 1] == b[..k][1..];
        assert Before(a[1..], b[1..]);
      }
    }
  }

  lemma {:induction false} LessTotal(a: string, b: string)
    ensures Less(a, b) || Less(b, a) || a == b
    ensures !(Less(a, b) && Less(b, a)) && !Less(a, a)
  {
    if a != "" { LessTotal(a[1..], a[1..]); }
    if a != "" && b != "" {
      LessTotal(a[1..], b[1..]);
      assert a == [a[0]] + a[1..] && b == [b[0]] + b[1..];
    }
  }

  lemma {:induction false} LessTransitive(a: string, b: string, c: string)
    requires Less(a, b) && Less(b, c)
    ensures Less(a, c)
  {
    if a != "" && a[0] == b[0] && b[0] == c[0] { LessTransitive(a[1..], b[1..], c[1..]); }
  }

  predicate Sorted(s: seq<string>) { forall i, j :: 0 <= i < j < |s| ==> Less(s[i], s[j]) }

  method SortKeys(keys: set<string>) returns (out: seq<string>)
    ensures Sorted(out) && forall k :: k in out <==> k in keys
  {
    out := [];
    var rest := keys;
    while rest != {}
      invariant rest <= keys && Sorted(out) && forall k :: k in out <==> k in keys - rest
      decreases rest
    {
      var k :| k in rest;
      var i := 0;
      while i < |out| && Less(out[i], k)
        invariant i <= |out| && forall p :: 0 <= p < i ==> Less(out[p], k)
      {
        i := i + 1;
      }
      InsertSorted(out, k, i);
      ghost var before := out;
      out := out[..i] + [k] + out[i..];
      assert before == before[..i] + before[i..];
      assert forall x :: x in out <==> x in before || x == k;
      rest := rest - {k};
    }
  }

  lemma InsertSorted(s: seq<string>, k: string, i: nat)
    requires Sorted(s) && k !in s && i <= |s| && (forall p :: 0 <= p < i ==> Less(s[p], k)) && (i < |s| ==> !Less(s[i], k))
    ensures Sorted(s[..i] + [k] + s[i..])
  {
    forall p | i <= p < |s| ensures Less(k, s[p]) {
      LessTotal(k, s[i]);
      assert s[i] in s;
      if p > i { LessTransitive(k, s[i], s[p]); }
    }
  }

  lemma SortedDistinct(s: seq<string>, i: nat, j: nat)
    requires Sorted(s) && i < j < |s|
    ensures s[i] != s[j]
  {
    LessTotal(s[i], s[j]);
  }

  function Concat<T>(parts: seq<seq<T>>): seq<T> {
    if parts == [] then [] else Concat(parts[..|parts| - 1]) + parts[|parts| - 1]
  }

  /** Batches are full except perhaps the last, which is not empty. */
  predicate Batched<T(==)>(parts: seq<seq<T>>, size: nat) {
    forall i :: 0 <= i < |parts| ==> 1 <= |parts[i]| <= size && (i < |parts| - 1 ==> |parts[i]| == size)
  }

  method Chunked(values: seq<string>, size: nat) returns (chunks: seq<seq<string>>)
    requires size >= 1
    ensures Concat(chunks) == values && Batched(chunks, size)
  {
    chunks := [];
    var chunk: seq<string> := [];
    for i := 0 to |values|
      invariant Concat(chunks) + chunk == values[..i] && |chunk| < size
      invariant forall c :: 0 <= c < |chunks| ==> |chunks[c]| == size
    {
      chunk := chunk + [values[i]];
      assert values[..i + 1] == values[..i] + [values[i]];
      if |chunk| >= size {
        assert (chunks + [chunk])[..|chunks|] == chunks;
        chunks, chunk := chunks + [chunk], [];
      }
    }
    assert values[..|values|] == values;
    if chunk != [] {
      assert (chunks + [chunk])[..|chunks|] == chunks;
      chunks := chunks + [chunk];
    }
  }

  // ---------------------------------------------------------------- the run

  /** The listed objects of one case, in listing order. */
  function ObjectsOf(all: seq<Object>, id: string): seq<Object> {
    if all == [] then []
    else
      var o := all[|all| - 1];
      ObjectsOf(all[..|all| - 1], id) + if ExtractCaseId(o.key) == Some(id) then [o] else []
  }

  lemma {:induction false} ObjectsOfIff(all: seq<Object>, id: string, o: Object)
    ensures o in ObjectsOf(all, id) <==> o in all && ExtractCaseId(o.key) == Some(id)
  {
    if all != [] {
      var init, last := all[..|all| - 1], all[|all| - 1];
      ObjectsOfIff(init, id, o);
      assert all == init + [last];
      assert o in all <==> o in init || o == last;
    }
  }

  function KeysOf(objects: seq<Object>): set<string> { set i | 0 <= i < |objects| :: objects[i].key }

  predicate Listed(all: seq<Object>, key: string) { exists o :: o in all && o.key == key }

  /** A listed, case-shaped key whose case was created at or before the cutoff. */
  predicate Doomed(all: seq<Object>, cutoff: DateTime, key: string) {
    Listed(all, key) && ExtractCaseId(key).Some? && OldEnough(ObjectsOf(all, ExtractCaseId(key).value), cutoff)
  }

  type Groups = map<string, seq<Object>>

  ghost predicate Grouped(all: seq<Object>, groups: Groups) {
    && (forall id :: id in groups ==> groups[id] == ObjectsOf(all, id) && groups[id] != [])
    && (forall id :: id !in groups ==> ObjectsOf(all, id) == [])
  }

  method AddPage(all: seq<Object>, groups: Groups, page: seq<Object>) returns (after: Groups)
    requires Grouped(all, groups)
    ensures Grouped(all + page, after)
  {
    after := groups;
    assert all + page[..0] == all;
    for i := 0 to |page|
      invariant Grouped(all + page[..i], after)
    {
      var seen := all + page[..i];
      assert all + page[..i + 1] == seen + [page[i]];
      GroupedStep(seen, after, page[i]);
      var id := ExtractCaseId(page[i].key);
      if id.Some? {
        var sofar: seq<Object> := if id.value in after then after[id.value] else [];
        after := after[id.value := sofar + [page[i]]];
      }
    }
    assert all + page[..|page|] == all + page;
  }

  lemma ObjectsOfAppend(all: seq<Object>, o: Object, id: string)
    ensures ObjectsOf(all + [o], id) == ObjectsOf(all, id) + if ExtractCaseId(o.key) == Some(id) then [o] else []
  {
    assert (all + [o])[..|all|] == all;
  }

  lemma GroupedStep(all: seq<Object>, groups: Groups, o: Object)
    requires Grouped(all, groups)
    ensures var id := ExtractCaseId(o.key);
            if id.None? then Grouped(all + [o], groups)
            else Grouped(all + [o], groups[id.value := (if id.value in groups then groups[id.value] else []) + [o]])
  {
    forall id: string { ObjectsOfAppend(all, o, id); }
    Regrouped(all, all + [o], groups, o, ExtractCaseId(o.key));
  }

  lemma Regrouped(all: seq<Object>, more: seq<Object>, groups: Groups, o: Object, home: Option<string>)
    requires Grouped(all, groups)
    requires forall id :: ObjectsOf(more, id) == ObjectsOf(all, id) + if home == Some(id) then [o] else []
    ensures home.None? ==> Grouped(more, groups)
    ensures home.Some? ==> Grouped(more, groups[home.value := (if home.value in groups then groups[home.value] else []) + [o]])
  {
  }

  /** The keys to purge, from the groups. */
  method EligibleKeys(all: seq<Object>, groups: Groups, cutoff: DateTime) returns (keys: set<string>)
    requires Grouped(all, groups)
    ensures forall k :: k in keys <==> Doomed(all, cutoff, k)
  {
    keys := {};
    var rest := groups.Keys;
    while rest != {}
      invariant rest <= groups.Keys
      invariant forall k :: k in keys <==> Listed(all, k) && ExtractCaseId(k).Some? && ExtractCaseId(k).value in groups.Keys - rest
                                           && OldEnough(ObjectsOf(all, ExtractCaseId(k).value), cutoff)
      decreases rest
    {
      var id :| id in rest;
      var objects := groups[id];
      CreatedByIff(objects, cutoff);
      CaseKeys(all, id);
      if CreatedAt(objects).AtMost(cutoff) { keys := keys + KeysOf(objects); }
      rest := rest - {id};
    }
    forall k | Doomed(all, cutoff, k) ensures ExtractCaseId(k).value in groups {
      CaseKeys(all, ExtractCaseId(k).value);
    }
  }

  lemma CaseKeys(all: seq<Object>, id: string)
    ensures forall k :: k in KeysOf(ObjectsOf(all, id)) <==> Listed(all, k) && ExtractCaseId(k) == Some(id)
  {
    var objects := ObjectsOf(all, id);
    forall k ensures k in KeysOf(objects) <==> Listed(all, k) && ExtractCaseId(k) == Some(id) {
      if k in KeysOf(objects) {
        var i :| 0 <= i < |objects| && objects[i].key == k;
        ObjectsOfIff(all, id, objects[i]);
      }
      if Listed(all, k) && ExtractCaseId(k) == Some(id) {
        var o :| o in all && o.key == k;
        ObjectsOfIff(all, id, o);
        KeyOfMember(objects, o);
      }
    }
  }

  lemma KeyOfMember(objects: seq<Object>, o: Object)
    requires o in objects
    ensures o.key in KeysOf(objects)
  {
    var i :| 0 <= i < |objects| && objects[i] == o;
    assert objects[i].key == o.key;
  }

  /** How one batch was answered: keys deleted and keys refused. */
  datatype Answer = Answer(deleted: seq<string>, failed: seq<string>)
  datatype Report = Report(scanned: nat, eligible: nat, purged: nat, failed: nat, caseIds: seq<string>)

  /** Every key of a batch is reported once, as deleted or as failed. */
  ghost predicate Honest(delete: seq<string> -> Result<Answer>) {
    forall b :: delete(b).Ok? ==> multiset(delete(b).value.deleted) + multiset(delete(b).value.failed) == multiset(b)
  }

  /** The constructor's normalisation; blanks survive as an empty text. */
  function Approval(ref: Option<string>): Option<string> {
    if ref.Some? && ref.value != "" then Some(Strip(ref.value)) else None
  }

  /** The paging loop. */
  method ListAll(pages: seq<seq<Object>>) returns (scanned: nat, groups: Groups)
    ensures scanned == |Concat(pages)| && Grouped(Concat(pages), groups)
  {
    scanned, groups := 0, map[];
    var n := 0;
    while n < |pages|
      invariant n <= |pages| && Grouped(Concat(pages[..n]), groups) && scanned == |Concat(pages[..n])|
    {
      assert pages[..n + 1][..n] == pages[..n];
      scanned := scanned + |pages[n]|;
      groups := AddPage(Concat(pages[..n]), groups, pages[n]);
      n := n + 1;
    }
    assert pages[..|pages|] == pages;
  }

  /** The two lists hold exactly the given keys. */
  ghost predicate Reported(keys: seq<string>, deleted: seq<string>, failed: seq<string>) {
    |deleted| + |failed| == |keys| && forall k :: k in keys <==> k in deleted || k in failed
  }

  lemma ReportedMore(keys: seq<string>, deleted: seq<string>, failed: seq<string>, batch: seq<string>, a: Answer)
    requires Reported(keys, deleted, failed) && multiset(a.deleted) + multiset(a.failed) == multiset(batch)
    ensures Reported(keys + batch, deleted + a.deleted, failed + a.failed)
  {
    assert |multiset(a.deleted)| + |multiset(a.failed)| == |multiset(batch)|;
    forall k ensures k in batch <==> k in a.deleted || k in a.failed {
      assert k in multiset(batch) <==> k in multiset(a.deleted) || k in multiset(a.failed);
    }
  }

  /** The keys the answers to these batches call deleted, and those they call failed. */
  function DeletedOf(delete: seq<string> -> Result<Answer>, sent: seq<seq<string>>): seq<string> {
    if sent == [] then []
    else DeletedOf(delete, sent[..|sent| - 1]) + if delete(sent[|sent| - 1]).Ok? then delete(sent[|sent| - 1]).value.deleted else []
  }

  function FailedOf(delete: seq<string> -> Result<Answer>, sent: seq<seq<string>>): seq<string> {
    if sent == [] then []
    else FailedOf(delete, sent[..|sent| - 1]) + if delete(sent[|sent| - 1]).Ok? then delete(sent[|sent| - 1]).value.failed else []
  }

  /** The deletion loop: batches are sent in order until one raises. */
  method DeleteAll(batches: seq<seq<string>>, delete: seq<string> -> Result<Answer>)
    returns (raised: bool, sent: seq<seq<string>>, deleted: seq<string>, failed: seq<string>)
    ensures sent <= batches && (forall i :: 0 <= i < |sent| - 1 ==> delete(sent[i]).Ok?)
    ensures raised <==> sent != [] && delete(sent[|sent| - 1]).Err?
    ensures !raised ==> sent == batches
    ensures !raised ==> deleted == DeletedOf(delete, batches) && failed == FailedOf(delete, batches)
    ensures !raised && Honest(delete) ==> Reported(Concat(batches), deleted, failed)
  {
    sent, deleted, failed := [], [], [];
    for i := 0 to |batches|
      invariant sent == batches[..i] && (forall k :: 0 <= k < i ==> delete(sent[k]).Ok?)
      invariant deleted == DeletedOf(delete, sent) && failed == FailedOf(delete, sent)
      invariant Honest(delete) ==> Reported(Concat(sent), deleted, failed)
    {
      var answer := delete(batches[i]);
      assert (sent + [batches[i]])[..|sent|] == sent;
      ghost var before := Concat(sent);
      sent := sent + [batches[i]];
      if answer.Err? { return true, sent, deleted, failed; }
      if Honest(delete) { ReportedMore(before, deleted, failed, batches[i], answer.value); }
      deleted, failed := deleted + answer.value.deleted, failed + answer.value.failed;
    }
    raised := false;
  }

  /** The case ids reported for the audit trail. */
  method CaseIdsOf(keys: seq<string>) returns (ids: seq<string>)
    ensures Sorted(ids) && forall id :: id in ids <==> exists k :: k in keys && ExtractCaseId(k) == Some(id)
  {
    var found := set k | k in keys && ExtractCaseId(k).Some? :: ExtractCaseId(k).value;
    ids := SortKeys(found);
  }

  lemma {:induction false} ConcatPrefix<T>(parts: seq<seq<T>>, n: nat)
    requires n <= |parts|
    ensures Concat(parts[..n]) <= Concat(parts)
    decreases |parts|
  {
    if n < |parts| {
      var init := parts[..|parts| - 1];
      assert init[..n] == parts[..n];
      ConcatPrefix(init, n);
    } else {
      assert parts[..n] == parts;
    }
  }

  lemma SentIsBatched(batches: seq<seq<string>>, sent: seq<seq<string>>, size: nat)
    requires Batched(batches, size) && sent <= batches && Sorted(Concat(batches))
    ensures Batched(sent, size) && Sorted(Concat(sent)) && forall k :: k in Concat(sent) ==> k in Concat(batches)
  {
    assert sent == batches[..|sent|];
    ConcatPrefix(batches, |sent|);
    forall i | 0 <= i < |sent| ensures 1 <= |sent[i]| <= size && (i < |sent| - 1 ==> |sent[i]| == size) { assert sent[i] == batches[i]; }
  }

  /** Case ids with at least one key to purge. */
  ghost predicate DoomedCase(all: seq<Object>, cutoff: DateTime, id: string) {
    exists k :: Doomed(all, cutoff, k) && ExtractCaseId(k) == Some(id)
  }

  /** The approval counts as missing exactly when none is configured or it is the empty text; blanks pass this check. */
  lemma ApprovalMissingIff(ref: Option<string>)
    ensures Approval(ref).None? <==> ref.None? || ref.value == ""
  {
  }

  /** run_once, over the pages the store lists and the answers it gives. Whatever happens, only doomed keys are sent,
      each once, in string order and in batches within the limit. A normal return has sent them all; the run raises
      exactly when there is something to purge without an approval, or when a delete raised. */
  method RunOnce(pages: seq<seq<Object>>, cutoff: DateTime, batchSize: nat, approvalRef: Option<string>, delete: seq<string> -> Result<Answer>)
    returns (r: Result<Report>, sent: seq<seq<string>>)
    requires 1 <= batchSize <= 1000
    ensures Sorted(Concat(sent)) && Batched(sent, batchSize) && forall k :: k in Concat(sent) ==> Doomed(Concat(pages), cutoff, k)
    ensures r.Err? <==> || (Approval(approvalRef).None? && exists k :: Doomed(Concat(pages), cutoff, k))
                        || (sent != [] && delete(sent[|sent| - 1]).Err?)
    ensures r.Ok? ==> forall k :: Doomed(Concat(pages), cutoff, k) ==> k in Concat(sent)
    ensures r.Ok? ==> r.value.scanned == |Concat(pages)| && r.value.eligible == |Concat(sent)|
                      && r.value.purged == |DeletedOf(delete, sent)| && r.value.failed == |FailedOf(delete, sent)|
    ensures r.Ok? && Honest(delete) ==>
              && r.value.purged + r.value.failed == r.value.eligible && Sorted(r.value.caseIds)
              && forall id :: id in r.value.caseIds <==> DoomedCase(Concat(pages), cutoff, id)
  {
    sent := [];
    var scanned, ordered := SelectKeys(pages, cutoff);
    if ordered != [] && Approval(approvalRef).None? {
      assert ordered[0] in ordered;
      return Err("governance approval metadata is required for destructive lifecycle purge"), sent;
    }
    assert Approval(approvalRef).None? ==> forall k :: k !in ordered;
    var batches := Chunked(ordered, batchSize);
    var raised: bool, deleted: seq<string>, failed: seq<string>;
    raised, sent, deleted, failed := DeleteAll(batches, delete);
    SentIsBatched(batches, sent, batchSize);
    if raised { return Err("object storage unavailable"), sent; }
    var caseIds := CaseIdsOf(deleted + failed);
    if Honest(delete) { ReportedCases(Concat(pages), cutoff, ordered, deleted, failed, caseIds); }
    return Ok(Report(scanned, |ordered|, |deleted|, |failed|, caseIds)), sent;
  }

  /** Listing, grouping, selecting and ordering. */
  method SelectKeys(pages: seq<seq<Object>>, cutoff: DateTime) returns (scanned: nat, ordered: seq<string>)
    ensures scanned == |Concat(pages)| && Sorted(ordered) && forall k :: k in ordered <==> Doomed(Concat(pages), cutoff, k)
  {
    var groups: Groups;
    scanned, groups := ListAll(pages);
    var keys := EligibleKeys(Concat(pages), groups, cutoff);
    ordered := SortKeys(keys);
  }

  lemma ReportedCases(all: seq<Object>, cutoff: DateTime, keys: seq<string>, deleted: seq<string>, failed: seq<string>, ids: seq<string>)
    requires Reported(keys, deleted, failed) && forall k :: k in keys <==> Doomed(all, cutoff, k)
    requires forall id :: id in ids <==> exists k :: k in deleted + failed && ExtractCaseId(k) == Some(id)
    ensures forall id :: id in ids <==> DoomedCase(all, cutoff, id)
  {
    forall k ensures k in deleted + failed <==> Doomed(all, cutoff, k) {}
  }

  /** A case is purged whole or not at all: two listed keys of one case share their fate. */
  lemma WholeCaseOrNone(all: seq<Object>, cutoff: DateTime, a: string, b: string, id: string)
    requires Listed(all, a) && Listed(all, b) && CaseShaped(a, id) && CaseShaped(b, id)
    ensures Doomed(all, cutoff, a) <==> Doomed(all, cutoff, b)
  {
    ExtractIff(a, id);
    ExtractIff(b, id);
  }

  /** Only the set of listed objects matters: paging and listing order do not. */
  lemma PagingIsIrrelevant(pages: seq<seq<Object>>, other: seq<seq<Object>>, cutoff: DateTime, key: string)
    requires forall o :: o in Concat(pages) <==> o in Concat(other)
    ensures Doomed(Concat(pages), cutoff, key) <==> Doomed(Concat(other), cutoff, key)
  {
    var a, b := Concat(pages), Concat(other);
    if ExtractCaseId(key).Some? {
      var id := ExtractCaseId(key).value;
      forall o ensures o in ObjectsOf(a, id) <==> o in ObjectsOf(b, id) {
        ObjectsOfIff(a, id, o);
        ObjectsOfIff(b, id, o);
      }
      SameObjectsSameAge(ObjectsOf(a, id), ObjectsOf(b, id), cutoff);
    }
  }

  lemma SameObjectsSameAge(a: seq<Object>, b: seq<Object>, cutoff: DateTime)
    requires forall o :: o in a <==> o in b
    ensures OldEnough(a, cutoff) <==> OldEnough(b, cutoff)
  {
  }
}
