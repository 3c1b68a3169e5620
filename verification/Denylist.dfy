/** Exposure denylist enforcement (denylist/enforcement.py): a recursive tree rewrite with a removal counter. */
module Denylist {

  /** A Python value as the sanitiser sees it. `Tup` is a tuple, which is neither `dict` nor `list`. */
  datatype Value =
    | Obj(fields: seq<Field>)
    | Arr(items: seq<Value>)
    | Tup(parts: seq<Value>)
    | Str(text: string)
    | Atom(id: int)

  datatype Field = Field(key: string, value: Value)

  /** `str.lower` and `re.search(pattern, text)`, left abstract. */
  datatype Matcher = Matcher(lower: string -> string, search: (string, string) -> bool)

  datatype Denylist = Denylist(fieldNames: seq<string>, valuePatterns: seq<string>)
  {
    predicate DeniesName(m: Matcher, key: string) {
      exists i :: 0 <= i < |fieldNames| && m.lower(fieldNames[i]) == m.lower(key)
    }
    predicate DeniesText(m: Matcher, text: string) {
      exists i :: 0 <= i < |valuePatterns| && m.search(valuePatterns[i], text)
    }
    function Union(other: Denylist): Denylist {
      Denylist(fieldNames + other.fieldNames, valuePatterns + other.valuePatterns)
    }
  }

  /** What one call of `_sanitize_value` returns. */
  datatype Outcome = Outcome(keep: bool, value: Value, removed: nat)

  function SanitizeValue(m: Matcher, d: Denylist, v: Value): Outcome
    decreases v, 1
  {
    match v
    case Obj(fs) => var (kept, n) := SanitizeFields(m, d, fs); Outcome(true, Obj(kept), n)
    case Arr(xs) => var (kept, n) := SanitizeItems(m, d, xs); Outcome(true, Arr(kept), n)
    case Str(s) => if d.DeniesText(m, s) then Outcome(false, Atom(0), 0) else Outcome(true, v, 0)
    case _ => Outcome(true, v, 0)
  }

  function SanitizeFields(m: Matcher, d: Denylist, fs: seq<Field>): (seq<Field>, nat)
    decreases fs, 0
  {
    if fs == [] then ([], 0)
    else
      var (rest, n) := SanitizeFields(m, d, fs[1..]);
      if d.DeniesName(m, fs[0].key) then (rest, n + 1)
      else
        var o := SanitizeValue(m, d, fs[0].value);
        if o.keep then ([Field(fs[0].key, o.value)] + rest, n + o.removed) else (rest, n + 1 + o.removed)
  }

  function SanitizeItems(m: Matcher, d: Denylist, xs: seq<Value>): (seq<Value>, nat)
    decreases xs, 0
  {
    if xs == [] then ([], 0)
    else
      var (rest, n) := SanitizeItems(m, d, xs[1..]);
      var o := SanitizeValue(m, d, xs[0]);
      if o.keep then ([o.value] + rest, n + o.removed) else (rest, n + o.removed + 1)
  }

  // ---------------------------------------------------------------- the mutually recursive loops

  method SanitizeMappingLoop(m: Matcher, d: Denylist, fields: seq<Field>) returns (result: seq<Field>, removed: nat)
    ensures (result, removed) == SanitizeFields(m, d, fields)
    decreases fields, 0
  {
    result, removed := [], 0;
    assert fields[0..] == fields;
    var i := 0;
    while i < |fields|
      invariant 0 <= i <= |fields|
      invariant SanitizeFields(m, d, fields).0 == result + SanitizeFields(m, d, fields[i..]).0
      invariant SanitizeFields(m, d, fields).1 == removed + SanitizeFields(m, d, fields[i..]).1
    {
      ghost var before := result;
      ghost var tail := SanitizeFields(m, d, fields[i + 1..]);
      assert fields[i..][1..] == fields[i + 1..];
      if d.DeniesName(m, fields[i].key) {
        removed := removed + 1;
      } else {
        var o := SanitizeValueLoop(m, d, fields[i].value);
        if o.keep {
          result := result + [Field(fields[i].key, o.value)];
          removed := removed + o.removed;
          assert before + ([Field(fields[i].key, o.value)] + tail.0) == result + tail.0;
        } else {
          removed := removed + 1 + o.removed;
        }
      }
      i := i + 1;
    }
    assert fields[i..] == [] && result + [] == result;
  }

  method SanitizeValueLoop(m: Matcher, d: Denylist, v: Value) returns (o: Outcome)
    ensures o == SanitizeValue(m, d, v)
    decreases v, 1
  {
    match v {
      case Obj(fs) =>
        var kept, n := SanitizeMappingLoop(m, d, fs);
        o := Outcome(true, Obj(kept), n);
      case Arr(xs) =>
        var kept: seq<Value>, removed: nat := [], 0;
        assert xs[0..] == xs;
        var i := 0;
        while i < |xs|
          invariant 0 <= i <= |xs|
          invariant SanitizeItems(m, d, xs).0 == kept + SanitizeItems(m, d, xs[i..]).0
          invariant SanitizeItems(m, d, xs).1 == removed + SanitizeItems(m, d, xs[i..]).1
        {
          ghost var before := kept;
          ghost var tail := SanitizeItems(m, d, xs[i + 1..]);
          assert xs[i..][1..] == xs[i + 1..];
          var item := SanitizeValueLoop(m, d, xs[i]);
          removed := removed + item.removed;
          if item.keep {
            kept := kept + [item.value];
            assert before + ([item.value] + tail.0) == kept + tail.0;
          } else {
            removed := removed + 1;
          }
          i := i + 1;
        }
        assert xs[i..] == [] && kept + [] == kept;
        o := Outcome(true, Arr(kept), removed);
      case Str(s) =>
        if d.DeniesText(m, s) { o := Outcome(false, Atom(0), 0); } else { o := Outcome(true, v, 0); }
      case _ =>
        o := Outcome(true, v, 0);
    }
  }

  // ---------------------------------------------------------------- nothing denied survives

  /** No denied name and no matching string anywhere inside, tuples included. */
  predicate Clean(m: Matcher, d: Denylist, v: Value) {
    match v
    case Obj(fs) => forall f :: f in fs ==> !d.DeniesName(m, f.key) && Clean(m, d, f.value)
    case Arr(xs) => forall x :: x in xs ==> Clean(m, d, x)
    case Tup(xs) => forall x :: x in xs ==> Clean(m, d, x)
    case Str(s) => !d.DeniesText(m, s)
    case Atom(_) => true
  }

  /** Every tuple reached through kept fields and list items is already clean. */
  predicate TuplesClean(m: Matcher, d: Denylist, v: Value) {
    match v
    case Obj(fs) => forall f :: f in fs ==> d.DeniesName(m, f.key) || TuplesClean(m, d, f.value)
    case Arr(xs) => forall x :: x in xs ==> TuplesClean(m, d, x)
    case Tup(_) => Clean(m, d, v)
    case _ => true
  }

  /** The rewrite leaves a kept value clean at every depth exactly when the tuples it does not descend into were. */
  lemma {:induction false} SanitizedIsClean(m: Matcher, d: Denylist, v: Value)
    ensures var o := SanitizeValue(m, d, v);
            o.keep ==> (Clean(m, d, o.value) <==> TuplesClean(m, d, v))
    decreases v, 1
  {
    match v
    case Obj(fs) => FieldsClean(m, d, fs);
    case Arr(xs) => ItemsClean(m, d, xs);
    case _ =>
  }

  lemma {:induction false} FieldsClean(m: Matcher, d: Denylist, fs: seq<Field>)
    ensures Clean(m, d, Obj(SanitizeFields(m, d, fs).0)) <==> TuplesClean(m, d, Obj(fs))
    decreases fs, 0
  {
    if fs != [] {
      FieldsClean(m, d, fs[1..]);
      SanitizedIsClean(m, d, fs[0].value);
      assert fs == [fs[0]] + fs[1..];
      var rest := SanitizeFields(m, d, fs[1..]).0;
      assert TuplesClean(m, d, Obj(fs)) <==>
             ((d.DeniesName(m, fs[0].key) || TuplesClean(m, d, fs[0].value)) && TuplesClean(m, d, Obj(fs[1..])));
      var o := SanitizeValue(m, d, fs[0].value);
      if !d.DeniesName(m, fs[0].key) && o.keep {
        var f := Field(fs[0].key, o.value);
        assert f in [f] + rest;
        assert Clean(m, d, Obj([f] + rest)) <==> (Clean(m, d, f.value) && Clean(m, d, Obj(rest)));
      }
    }
  }

  lemma {:induction false} ItemsClean(m: Matcher, d: Denylist, xs: seq<Value>)
    ensures Clean(m, d, Arr(SanitizeItems(m, d, xs).0)) <==> TuplesClean(m, d, Arr(xs))
    decreases xs, 0
  {
    if xs != [] {
      ItemsClean(m, d, xs[1..]);
      SanitizedIsClean(m, d, xs[0]);
      assert xs == [xs[0]] + xs[1..];
      var rest := SanitizeItems(m, d, xs[1..]).0;
      assert TuplesClean(m, d, Arr(xs)) <==> (TuplesClean(m, d, xs[0]) && TuplesClean(m, d, Arr(xs[1..])));
      var o := SanitizeValue(m, d, xs[0]);
      if o.keep {
        assert o.value in [o.value] + rest;
        assert Clean(m, d, Arr([o.value] + rest)) <==> (Clean(m, d, o.value) && Clean(m, d, Arr(rest)));
      }
    }
  }

  /** A secret inside a tuple passes through although the same secret in a list is dropped. */
  lemma TupleIsNotDescended(m: Matcher, d: Denylist, secret: string)
    requires d.DeniesText(m, secret)
    ensures var v := Tup([Str(secret)]);
            SanitizeValue(m, d, v) == Outcome(true, v, 0) && !Clean(m, d, v)
    ensures SanitizeValue(m, d, Arr([Str(secret)])) == Outcome(true, Arr([]), 1)
  {
    var v := Tup([Str(secret)]);
    assert Str(secret) in v.parts;
    var xs := [Str(secret)];
    assert xs[1..] == [] && SanitizeItems(m, d, xs) == ([], 1);
  }

  // ---------------------------------------------------------------- the counter

  function Size(v: Value): nat
    decreases v, 1
  {
    match v
    case Obj(fs) => 1 + FieldsSize(fs)
    case Arr(xs) => 1 + ItemsSize(xs)
    case _ => 1
  }

  function FieldsSize(fs: seq<Field>): nat
    decreases fs, 0
  {
    if fs == [] then 0 else 1 + Size(fs[0].value) + FieldsSize(fs[1..])
  }

  function ItemsSize(xs: seq<Value>): nat
    decreases xs, 0
  {
    if xs == [] then 0 else Size(xs[0]) + ItemsSize(xs[1..])
  }

  /** Each counted removal takes at least one node, and no removal means no change. */
  lemma {:induction false} RemovalShrinks(m: Matcher, d: Denylist, v: Value)
    ensures var o := SanitizeValue(m, d, v);
            o.keep ==> Size(o.value) + o.removed <= Size(v) && (o.removed == 0 ==> o.value == v)
    decreases v, 1
  {
    match v
    case Obj(fs) => FieldRemovalShrinks(m, d, fs);
    case Arr(xs) => ItemRemovalShrinks(m, d, xs);
    case _ =>
  }

  lemma {:induction false} FieldRemovalShrinks(m: Matcher, d: Denylist, fs: seq<Field>)
    ensures var (kept, n) := SanitizeFields(m, d, fs);
            FieldsSize(kept) + n <= FieldsSize(fs) && (n == 0 ==> kept == fs)
    decreases fs, 0
  {
    if fs != [] {
      FieldRemovalShrinks(m, d, fs[1..]);
      RemovalShrinks(m, d, fs[0].value);
      var kept := SanitizeFields(m, d, fs).0;
      if kept != [] && kept[1..] == SanitizeFields(m, d, fs[1..]).0 {
        assert fs == [fs[0]] + fs[1..];
      }
      var o := SanitizeValue(m, d, fs[0].value);
      if !d.DeniesName(m, fs[0].key) && o.keep {
        var rest := SanitizeFields(m, d, fs[1..]).0;
        assert ([Field(fs[0].key, o.value)] + rest)[1..] == rest;
      }
    }
  }

  lemma {:induction false} ItemRemovalShrinks(m: Matcher, d: Denylist, xs: seq<Value>)
    ensures var (kept, n) := SanitizeItems(m, d, xs);
            ItemsSize(kept) + n <= ItemsSize(xs) && (n == 0 ==> kept == xs)
    decreases xs, 0
  {
    if xs != [] {
      ItemRemovalShrinks(m, d, xs[1..]);
      RemovalShrinks(m, d, xs[0]);
      assert xs == [xs[0]] + xs[1..];
      var o := SanitizeValue(m, d, xs[0]);
      if o.keep {
        var rest := SanitizeItems(m, d, xs[1..]).0;
        assert ([o.value] + rest)[1..] == rest;
      }
    }
  }

  /** apply_denylist_with_removed_count reports zero removals exactly when it changed nothing. */
  lemma ZeroRemovedIffUnchanged(m: Matcher, d: Denylist, fs: seq<Field>)
    ensures var (kept, n) := SanitizeFields(m, d, fs); n == 0 <==> kept == fs
  {
    FieldRemovalShrinks(m, d, fs);
  }

  // ---------------------------------------------------------------- composition

  lemma UnionDenies(m: Matcher, d1: Denylist, d2: Denylist, s: string)
    ensures d1.Union(d2).DeniesName(m, s) <==> d1.DeniesName(m, s) || d2.DeniesName(m, s)
    ensures d1.Union(d2).DeniesText(m, s) <==> d1.DeniesText(m, s) || d2.DeniesText(m, s)
  {
    var u := d1.Union(d2);
    forall i | 0 <= i < |d1.fieldNames| ensures u.fieldNames[i] == d1.fieldNames[i] {}
    forall i | 0 <= i < |d2.fieldNames| ensures u.fieldNames[|d1.fieldNames| + i] == d2.fieldNames[i] {}
    forall i | 0 <= i < |d1.valuePatterns| ensures u.valuePatterns[i] == d1.valuePatterns[i] {}
    forall i | 0 <= i < |d2.valuePatterns| ensures u.valuePatterns[|d1.valuePatterns| + i] == d2.valuePatterns[i] {}
  }

  /** Sanitising with d1 and then with d2 is sanitising with their union, which never counts more. */
  lemma {:induction false} ComposeFields(m: Matcher, d1: Denylist, d2: Denylist, fs: seq<Field>)
    ensures var (once, n1) := SanitizeFields(m, d1, fs);
            var (twice, n2) := SanitizeFields(m, d2, once);
            var (both, n) := SanitizeFields(m, d1.Union(d2), fs);
            both == twice && n <= n1 + n2
    decreases fs, 0
  {
    if fs != [] {
      ComposeFields(m, d1, d2, fs[1..]);
      ComposeValue(m, d1, d2, fs[0].value);
      UnionDenies(m, d1, d2, fs[0].key);
      var rest := SanitizeFields(m, d1, fs[1..]).0;
      var o := SanitizeValue(m, d1, fs[0].value);
      if !d1.DeniesName(m, fs[0].key) && o.keep {
        var once := [Field(fs[0].key, o.value)] + rest;
        assert once[1..] == rest;
      }
    }
  }

  lemma {:induction false} ComposeItems(m: Matcher, d1: Denylist, d2: Denylist, xs: seq<Value>)
    ensures var (once, n1) := SanitizeItems(m, d1, xs);
            var (twice, n2) := SanitizeItems(m, d2, once);
            var (both, n) := SanitizeItems(m, d1.Union(d2), xs);
            both == twice && n <= n1 + n2
    decreases xs, 0
  {
    if xs != [] {
      ComposeItems(m, d1, d2, xs[1..]);
      ComposeValue(m, d1, d2, xs[0]);
      var rest := SanitizeItems(m, d1, xs[1..]).0;
      var o := SanitizeValue(m, d1, xs[0]);
      if o.keep {
        var once := [o.value] + rest;
        assert once[1..] == rest;
      }
    }
  }

  lemma {:induction false} ComposeValue(m: Matcher, d1: Denylist, d2: Denylist, v: Value)
    ensures var first := SanitizeValue(m, d1, v);
            var both := SanitizeValue(m, d1.Union(d2), v);
            if first.keep then
              var second := SanitizeValue(m, d2, first.value);
              && both.keep == second.keep
              && (both.keep ==> both.value == second.value)
              && both.removed <= first.removed + second.removed
            else !both.keep && both.removed == 0
    decreases v, 1
  {
    match v
    case Obj(fs) => ComposeFields(m, d1, d2, fs);
    case Arr(xs) => ComposeItems(m, d1, d2, xs);
    case Str(s) => UnionDenies(m, d1, d2, s);
    case _ =>
  }

  /** A second pass with the same denylist removes nothing. */
  lemma {:induction false} Idempotent(m: Matcher, d: Denylist, v: Value)
    ensures var o := SanitizeValue(m, d, v);
            o.keep ==> SanitizeValue(m, d, o.value) == Outcome(true, o.value, 0)
    decreases v, 1
  {
    match v
    case Obj(fs) => IdempotentFields(m, d, fs);
    case Arr(xs) => IdempotentItems(m, d, xs);
    case _ =>
  }

  lemma {:induction false} IdempotentFields(m: Matcher, d: Denylist, fs: seq<Field>)
    ensures var kept := SanitizeFields(m, d, fs).0; SanitizeFields(m, d, kept) == (kept, 0)
    decreases fs, 0
  {
    if fs != [] {
      IdempotentFields(m, d, fs[1..]);
      Idempotent(m, d, fs[0].value);
      var rest := SanitizeFields(m, d, fs[1..]).0;
      var o := SanitizeValue(m, d, fs[0].value);
      if !d.DeniesName(m, fs[0].key) && o.keep {
        var kept := [Field(fs[0].key, o.value)] + rest;
        assert kept[1..] == rest;
      }
    }
  }

  lemma {:induction false} IdempotentItems(m: Matcher, d: Denylist, xs: seq<Value>)
    ensures var kept := SanitizeItems(m, d, xs).0; SanitizeItems(m, d, kept) == (kept, 0)
    decreases xs, 0
  {
    if xs != [] {
      IdempotentItems(m, d, xs[1..]);
      Idempotent(m, d, xs[0]);
      var rest := SanitizeItems(m, d, xs[1..]).0;
      var o := SanitizeValue(m, d, xs[0]);
      if o.keep {
        var kept := [o.value] + rest;
        assert kept[1..] == rest;
      }
    }
  }

  // ---------------------------------------------------------------- what survives, over the raw input

  /** A name is denied exactly when some entry of the list equals it up to case. */
  lemma NameDeniedIff(m: Matcher, d: Denylist, key: string)
    ensures d.DeniesName(m, key) <==> exists name :: name in d.fieldNames && m.lower(name) == m.lower(key)
  {
    if d.DeniesName(m, key) {
      var i :| 0 <= i < |d.fieldNames| && m.lower(d.fieldNames[i]) == m.lower(key);
      assert d.fieldNames[i] in d.fieldNames;
    }
  }

  /** A text is denied exactly when some pattern is found in it. */
  lemma TextDeniedIff(m: Matcher, d: Denylist, text: string)
    ensures d.DeniesText(m, text) <==> exists pattern :: pattern in d.valuePatterns && m.search(pattern, text)
  {
    if d.DeniesText(m, text) {
      var i :| 0 <= i < |d.valuePatterns| && m.search(d.valuePatterns[i], text);
      assert d.valuePatterns[i] in d.valuePatterns;
    }
  }

  /** The field stays: no denied name equals its key up to case, and its value is not a text with a denied pattern. */
  ghost predicate Stays(m: Matcher, d: Denylist, f: Field) {
    && (forall name :: name in d.fieldNames ==> m.lower(name) != m.lower(f.key))
    && (f.value.Str? ==> forall pattern :: pattern in d.valuePatterns ==> !m.search(pattern, f.value.text))
  }

  lemma KeepsIff(m: Matcher, d: Denylist, v: Value)
    ensures SanitizeValue(m, d, v).keep <==> (v.Str? ==> !d.DeniesText(m, v.text))
    ensures !v.Obj? && !v.Arr? && SanitizeValue(m, d, v).keep ==> SanitizeValue(m, d, v).value == v && SanitizeValue(m, d, v).removed == 0
  {
  }

  /** The sanitised mapping holds exactly the fields that stay, in their order, each with its sanitised value; texts, tuples
      and atoms that stay are unchanged. */
  lemma {:induction false} SurvivorsIff(m: Matcher, d: Denylist, fs: seq<Field>, g: Field)
    ensures g in SanitizeFields(m, d, fs).0 <==> exists f :: f in fs && Stays(m, d, f) && g == Field(f.key, SanitizeValue(m, d, f.value).value)
  {
    if fs != [] {
      SurvivorsIff(m, d, fs[1..], g);
      NameDeniedIff(m, d, fs[0].key);
      KeepsIff(m, d, fs[0].value);
      if fs[0].value.Str? { TextDeniedIff(m, d, fs[0].value.text); }
      assert fs == [fs[0]] + fs[1..];
      assert forall f :: f in fs <==> f == fs[0] || f in fs[1..];
    }
  }

  // ---------------------------------------------------------------- what the counter counts

  /** The places where something is removed: a field that does not stay, wherever mappings and lists lead, and a list item
      that is a text with a denied pattern. Nothing inside a removed place counts. */
  ghost function Sites(m: Matcher, d: Denylist, v: Value): nat
    decreases v, 1
  {
    match v
    case Obj(fs) => FieldSites(m, d, fs)
    case Arr(xs) => ItemSites(m, d, xs)
    case _ => 0
  }

  ghost function FieldSites(m: Matcher, d: Denylist, fs: seq<Field>): nat
    decreases fs, 0
  {
    if fs == [] then 0 else (if Stays(m, d, fs[0]) then Sites(m, d, fs[0].value) else 1) + FieldSites(m, d, fs[1..])
  }

  ghost function ItemSites(m: Matcher, d: Denylist, xs: seq<Value>): nat
    decreases xs, 0
  {
    if xs == [] then 0
    else
      (if xs[0].Str? && exists pattern :: pattern in d.valuePatterns && m.search(pattern, xs[0].text) then 1 else Sites(m, d, xs[0]))
      + ItemSites(m, d, xs[1..])
  }

  /** The removal counter is the number of those places. */
  lemma {:induction false} CountsSites(m: Matcher, d: Denylist, v: Value)
    ensures SanitizeValue(m, d, v).removed == Sites(m, d, v)
    decreases v, 1
  {
    match v
    case Obj(fs) => CountsFieldSites(m, d, fs);
    case Arr(xs) => CountsItemSites(m, d, xs);
    case _ =>
  }

  lemma {:induction false} CountsFieldSites(m: Matcher, d: Denylist, fs: seq<Field>)
    ensures SanitizeFields(m, d, fs).1 == FieldSites(m, d, fs)
    decreases fs, 0
  {
    if fs != [] {
      CountsFieldSites(m, d, fs[1..]);
      CountsSites(m, d, fs[0].value);
      NameDeniedIff(m, d, fs[0].key);
      KeepsIff(m, d, fs[0].value);
      if fs[0].value.Str? { TextDeniedIff(m, d, fs[0].value.text); }
    }
  }

  lemma {:induction false} CountsItemSites(m: Matcher, d: Denylist, xs: seq<Value>)
    ensures SanitizeItems(m, d, xs).1 == ItemSites(m, d, xs)
    decreases xs, 0
  {
    if xs != [] {
      CountsItemSites(m, d, xs[1..]);
      CountsSites(m, d, xs[0]);
      KeepsIff(m, d, xs[0]);
      if xs[0].Str? { TextDeniedIff(m, d, xs[0].text); }
    }
  }
}
