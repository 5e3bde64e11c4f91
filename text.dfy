/**
 * Text helpers: lower-casing over the ASCII range (`toLowerCase()`,
 * `str.lower()`; other characters are left as they are), Python's
 * whitespace stripping (`str.strip()`), prefix and suffix tests.
 */
module Text {
  function LowerChar(c: char): (d: char)
    ensures 'A' <= c <= 'Z' ==> d as int == c as int + 32
    ensures !('A' <= c <= 'Z') ==> d == c
  {
    if 'A' <= c <= 'Z' then (c as int + 32) as char else c
  }

  function Lower(s: string): (t: string)
    ensures |t| == |s|
    ensures forall i :: 0 <= i < |s| ==> t[i] == LowerChar(s[i])
  {
    if s == [] then [] else [LowerChar(s[0])] + Lower(s[1..])
  }

  predicate IsUpper(c: char) { 'A' <= c <= 'Z' }

  /** Lower-cased text holds no upper-case letter, and lower-casing twice changes nothing. */
  lemma {:induction false} LowerIdempotent(s: string)
    ensures forall i :: 0 <= i < |Lower(s)| ==> !IsUpper(Lower(s)[i])
    ensures Lower(Lower(s)) == Lower(s)
  {
    var t := Lower(s);
    assert forall i :: 0 <= i < |t| ==> !IsUpper(t[i]);
    assert Lower(t) == t;
  }

  /**
   * Python's whitespace, the characters `str.strip()` removes: the ASCII
   * controls tab to carriage return and the four separators 0x1C to 0x1F,
   * the space, the next-line control, the no-break space, and the Unicode
   * spaces and separators.
   */
  predicate IsSpace(c: char) {
    ('\t' <= c <= '\r') || ('\U{1C}' <= c <= ' ') || c == '\U{85}' || c == '\U{A0}' || c == '\U{1680}'
    || ('\U{2000}' <= c <= '\U{200A}') || c == '\U{2028}' || c == '\U{2029}' || c == '\U{202F}'
    || c == '\U{205F}' || c == '\U{3000}'
  }

  /** Every character of `s` is whitespace. */
  predicate AllSpace(s: string) {
    forall i :: 0 <= i < |s| ==> IsSpace(s[i])
  }

  /** `s` neither starts nor ends with whitespace. */
  predicate Trimmed(s: string) {
    s == [] || (!IsSpace(s[0]) && !IsSpace(s[|s| - 1]))
  }

  /** `str.lstrip()`: the whitespace prefix removed, and only that. */
  function StripLeft(s: string): (t: string)
    ensures |t| <= |s| && t == s[|s| - |t|..]
    ensures AllSpace(s[..|s| - |t|])
    ensures t == [] || !IsSpace(t[0])
  {
    if s != [] && IsSpace(s[0]) then
      var t := StripLeft(s[1..]);
      assert s[..|s| - |t|] == [s[0]] + s[1..][..|s| - 1 - |t|];
      t
    else s
  }

  /** `str.rstrip()`: the whitespace suffix removed, and only that. */
  function StripRight(s: string): (t: string)
    ensures |t| <= |s| && t == s[..|t|]
    ensures AllSpace(s[|t|..])
    ensures t == [] || !IsSpace(t[|t| - 1])
  {
    if s != [] && IsSpace(s[|s| - 1]) then
      var t := StripRight(s[..|s| - 1]);
      assert s[|t|..] == s[..|s| - 1][|t|..] + [s[|s| - 1]];
      t
    else s
  }

  /**
   * `str.strip()`: `s` is some whitespace, then the result, then more
   * whitespace, and the result is trimmed at both ends.
   */
  function Strip(s: string): (t: string)
    ensures |t| <= |s|
    ensures exists i :: Surrounded(s, t, i)
    ensures Trimmed(t)
  {
    StripSurrounded(s);
    StripTrimmed(s);
    StripRight(StripLeft(s))
  }

  lemma StripSurrounded(s: string)
    ensures Surrounded(s, StripRight(StripLeft(s)), |s| - |StripLeft(s)|)
  {
    var l := StripLeft(s);
    var t := StripRight(l);
    assert PrefixCut(s, l);
    assert SuffixCut(l, t);
    SurroundedBy(s, l, t);
  }

  /** `l` is what is left of `s` once a whitespace prefix is cut off. */
  predicate PrefixCut(s: string, l: string) {
    |l| <= |s| && l == s[|s| - |l|..] && AllSpace(s[..|s| - |l|])
  }

  /** `t` is what is left of `l` once a whitespace suffix is cut off. */
  predicate SuffixCut(l: string, t: string) {
    |t| <= |l| && t == l[..|t|] && AllSpace(l[|t|..])
  }

  lemma SurroundedBy(s: string, l: string, t: string)
    requires PrefixCut(s, l) && SuffixCut(l, t)
    ensures Surrounded(s, t, |s| - |l|)
  {
    var i := |s| - |l|;
    assert s[i..][..|t|] == s[i..i + |t|] && s[i..][|t|..] == s[i + |t|..];
  }

  lemma StripTrimmed(s: string)
    ensures Trimmed(StripRight(StripLeft(s)))
  {
    var l := StripLeft(s);
    var t := StripRight(l);
    if t != [] {
      assert t[0] == l[0];
    }
  }

  /** `s` is whitespace, then `t` from index `i` on, then whitespace. */
  predicate Surrounded(s: string, t: string, i: int) {
    0 <= i <= |s| - |t| && t == s[i..i + |t|] && AllSpace(s[..i]) && AllSpace(s[i + |t|..])
  }

  /** Whitespace in front of text changes nothing once stripped from the left. */
  lemma {:induction false} StripLeftSkips(a: string, rest: string)
    requires AllSpace(a)
    ensures StripLeft(a + rest) == StripLeft(rest)
    decreases |a|
  {
    if a != [] {
      assert (a + rest)[1..] == a[1..] + rest;
      StripLeftSkips(a[1..], rest);
    } else {
      assert a + rest == rest;
    }
  }

  /** Whitespace after text changes nothing once stripped from the right. */
  lemma {:induction false} StripRightSkips(rest: string, b: string)
    requires AllSpace(b)
    ensures StripRight(rest + b) == StripRight(rest)
    decreases |b|
  {
    if b != [] {
      assert (rest + b)[..|rest + b| - 1] == rest + b[..|b| - 1];
      StripRightSkips(rest, b[..|b| - 1]);
    } else {
      assert rest + b == rest;
    }
  }

  /**
   * The reference reading of `str.strip()`: whatever whitespace surrounds a
   * trimmed text, stripping gives back exactly that text.
   */
  lemma StripIsCore(a: string, core: string, b: string)
    requires AllSpace(a) && AllSpace(b) && Trimmed(core)
    ensures Strip(a + core + b) == core
  {
    var s := a + core + b;
    assert s == a + (core + b);
    StripLeftSkips(a, core + b);
    if core == [] {
      assert core + b == b + [];
      StripLeftSkips(b, []);
      assert StripLeft(s) == [];
    } else {
      StripLeftKeeps(core + b);
      StripRightSkips(core, b);
      StripRightKeeps(core);
    }
    assert Strip(s) == StripRight(StripLeft(s));
  }

  /** Text that does not start with whitespace is its own left strip. */
  lemma StripLeftKeeps(s: string)
    requires s != [] && !IsSpace(s[0])
    ensures StripLeft(s) == s
  {
  }

  /** Text that does not end with whitespace is its own right strip. */
  lemma StripRightKeeps(s: string)
    requires s != [] && !IsSpace(s[|s| - 1])
    ensures StripRight(s) == s
  {
  }

  predicate StartsWith(s: string, p: string) { |p| <= |s| && s[..|p|] == p }

  predicate EndsWith(s: string, p: string) { |p| <= |s| && s[|s| - |p|..] == p }
}
