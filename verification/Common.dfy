/** Failure-compatible wrappers shared by every component model. */
module Wrappers {
  datatype Option<+T> = None | Some(value: T)

  /** A Python call that either returns or raises; `error` names the raise site. */
  datatype Result<+T> = Ok(value: T) | Err(error: string)
}

/** The part of Python's `str` that identifiers go through: `strip`. */
module Text {
  import opened Wrappers

  /** Code points for which `str.isspace` holds, the ones `strip` removes. */
  predicate IsSpace(c: char) {
    var n := c as int;
    || 9 <= n <= 13 || 28 <= n <= 32 || n == 0x85 || n == 0xA0 || n == 0x1680
    || 0x2000 <= n <= 0x200A || n == 0x2028 || n == 0x2029 || n == 0x202F || n == 0x205F || n == 0x3000
  }

  function TrimLeft(s: string): string {
    if s == "" || !IsSpace(s[0]) then s else TrimLeft(s[1..])
  }

  function TrimRight(s: string): string {
    if s == "" || !IsSpace(s[|s| - 1]) then s else TrimRight(s[..|s| - 1])
  }

  function Strip(s: string): string {
    TrimRight(TrimLeft(s))
  }

  /** No whitespace at either end. */
  predicate Stripped(s: string) {
    s == "" || (!IsSpace(s[0]) && !IsSpace(s[|s| - 1]))
  }

  lemma {:induction false} TrimLeftEdge(s: string)
    ensures TrimLeft(s) == "" || !IsSpace(TrimLeft(s)[0])
  {
    if s != "" && IsSpace(s[0]) { TrimLeftEdge(s[1..]); }
  }

  lemma {:induction false} TrimRightEdge(s: string)
    ensures TrimRight(s) <= s
    ensures TrimRight(s) == "" || !IsSpace(TrimRight(s)[|TrimRight(s)| - 1])
  {
    if s != "" && IsSpace(s[|s| - 1]) { TrimRightEdge(s[..|s| - 1]); }
  }

  /** `strip` returns a stripped string and is the identity on exactly those. */
  lemma StripFixpoint(s: string)
    ensures Stripped(Strip(s))
    ensures Strip(s) == s <==> Stripped(s)
    ensures Strip(Strip(s)) == Strip(s)
  {
    TrimLeftEdge(s);
    TrimRightEdge(TrimLeft(s));
    assert Stripped(s) ==> Strip(s) == s;
    var t := Strip(s);
    assert Stripped(t) ==> Strip(t) == t;
  }

  /** `value.strip() or None`, the normalisation applied to optional identifiers. */
  function NonBlank(s: string): Option<string> {
    var t := Strip(s);
    if t == "" then None else Some(t)
  }
}

/** Order of first appearance in a list. */
module Lists {
  function FirstAt<T(==)>(s: seq<T>, x: T): (i: nat)
    requires x in s
    ensures i < |s| && s[i] == x && x !in s[..i]
  {
    if s[0] == x then 0
    else
      var i := FirstAt(s[1..], x) + 1;
      assert s[..i] == [s[0]] + s[1..][..i - 1];
      i
  }

  /** The first place of an item does not move when the list grows. */
  lemma {:induction false} FirstAtStays<T>(s: seq<T>, x: T, y: T)
    requires x in s
    ensures FirstAt(s + [y], x) == FirstAt(s, x)
  {
    if s[0] != x {
      assert (s + [y])[1..] == s[1..] + [y];
      FirstAtStays(s[1..], x, y);
    }
  }

  /** A new item comes last. */
  lemma {:induction false} FirstAtNew<T>(s: seq<T>, x: T)
    requires x !in s
    ensures FirstAt(s + [x], x) == |s|
  {
    if s != [] {
      assert (s + [x])[1..] == s[1..] + [x];
      FirstAtNew(s[1..], x);
    }
  }

  /** The items of `u` appear in `s` for the first time in this order. */
  ghost predicate InOrderOf<T>(u: seq<T>, s: seq<T>) {
    (forall x :: x in u ==> x in s) && forall i, j :: 0 <= i < j < |u| ==> FirstAt(s, u[i]) < FirstAt(s, u[j])
  }

  lemma InOrderGrows<T>(u: seq<T>, s: seq<T>, y: T)
    requires InOrderOf(u, s)
    ensures InOrderOf(u, s + [y]) && (y !in s ==> InOrderOf(u + [y], s + [y]))
  {
    forall i | 0 <= i < |u| ensures FirstAt(s + [y], u[i]) == FirstAt(s, u[i]) {
      assert u[i] in u;
      FirstAtStays(s, u[i], y);
    }
    if y !in s {
      FirstAtNew(s, y);
      var v := u + [y];
      forall i, j | 0 <= i < j < |v| ensures FirstAt(s + [y], v[i]) < FirstAt(s + [y], v[j]) {
        if j == |u| { assert u[i] in u && FirstAt(s, u[i]) < |s|; }
      }
    }
  }
}
