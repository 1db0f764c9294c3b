/**
 * String primitives that the TypeScript front end and the Python back end both
 * rely on: the two languages' whitespace classes, trimming, splitting on one
 * character, ASCII case folding and decimal rendering of array indices.
 * Strings are sequences of Unicode scalar values.
 */
module Strings {

  /** ECMAScript WhiteSpace and LineTerminator: the class `\s` and what `String.prototype.trim` removes. */
  predicate IsJsSpace(c: char) {
    c == '\t' || c == '\n' || c == '\U{000B}' || c == '\U{000C}' || c == '\r' || c == ' '
    || c == '\U{00A0}' || c == '\U{1680}' || ('\U{2000}' <= c <= '\U{200A}')
    || c == '\U{2028}' || c == '\U{2029}' || c == '\U{202F}' || c == '\U{205F}'
    || c == '\U{3000}' || c == '\U{FEFF}'
  }

  /** Python's Unicode whitespace: what `str.strip()` removes and what `\s` matches in a `str` pattern. */
  predicate IsPySpace(c: char) {
    ('\t' <= c <= '\r') || ('\U{001C}' <= c <= '\U{001F}') || c == ' '
    || c == '\U{0085}' || c == '\U{00A0}' || c == '\U{1680}' || ('\U{2000}' <= c <= '\U{200A}')
    || c == '\U{2028}' || c == '\U{2029}' || c == '\U{202F}' || c == '\U{205F}' || c == '\U{3000}'
  }

  /** The characters on which the two whitespace classes disagree. */
  predicate SpaceClassesDiffer(c: char) {
    ('\U{001C}' <= c <= '\U{001F}') || c == '\U{0085}' || c == '\U{FEFF}'
  }

  lemma SpaceClassesAgree(c: char)
    requires !SpaceClassesDiffer(c)
    ensures IsJsSpace(c) <==> IsPySpace(c)
  {
  }

  /** Which language's whitespace a trim removes. */
  datatype SpaceClass = Js | Py

  predicate IsSpace(cls: SpaceClass, c: char) {
    if cls == Js then IsJsSpace(c) else IsPySpace(c)
  }

  /** Drops the longest prefix of `cls` whitespace. */
  function TrimStart(s: string, cls: SpaceClass): (r: string)
    ensures |r| <= |s|
  {
    if s == [] || !IsSpace(cls, s[0]) then s else TrimStart(s[1..], cls)
  }

  /** Drops the longest suffix of `cls` whitespace. */
  function TrimEnd(s: string, cls: SpaceClass): (r: string)
    ensures |r| <= |s|
  {
    if s == [] || !IsSpace(cls, s[|s| - 1]) then s else TrimEnd(s[..|s| - 1], cls)
  }

  /** TrimStart removes a prefix of spaces and stops at the first non-space. */
  lemma {:induction false} TrimStartSpec(s: string, cls: SpaceClass)
    ensures var r := TrimStart(s, cls);
      r == s[|s| - |r|..]
      && (forall i :: 0 <= i < |s| - |r| ==> IsSpace(cls, s[i]))
      && (r != [] ==> !IsSpace(cls, r[0]))
  {
    if s != [] && IsSpace(cls, s[0]) {
      TrimStartSpec(s[1..], cls);
      var r := TrimStart(s, cls);
      forall i | 0 <= i < |s| - |r| ensures IsSpace(cls, s[i]) {
        if i > 0 {
          assert s[i] == s[1..][i - 1];
        }
      }
    }
  }

  /** TrimEnd removes a suffix of spaces and stops at the last non-space. */
  lemma {:induction false} TrimEndSpec(s: string, cls: SpaceClass)
    ensures var r := TrimEnd(s, cls);
      r == s[..|r|]
      && (forall i :: |r| <= i < |s| ==> IsSpace(cls, s[i]))
      && (r != [] ==> !IsSpace(cls, r[|r| - 1]))
  {
    if s != [] && IsSpace(cls, s[|s| - 1]) {
      TrimEndSpec(s[..|s| - 1], cls);
      var r := TrimEnd(s, cls);
      forall i | |r| <= i < |s| ensures IsSpace(cls, s[i]) {
        if i < |s| - 1 {
          assert s[i] == s[..|s| - 1][i];
        }
      }
    }
  }

  function Trim(s: string, cls: SpaceClass): string {
    TrimEnd(TrimStart(s, cls), cls)
  }

  /** A string with no space at either end is its own trim. */
  lemma TrimOfUnpadded(s: string, cls: SpaceClass)
    requires s != [] ==> !IsSpace(cls, s[0]) && !IsSpace(cls, s[|s| - 1])
    ensures Trim(s, cls) == s
  {
  }

  /** `s.trim()` in TypeScript. */
  function JsTrim(s: string): string {
    Trim(s, Js)
  }

  /** `s.strip()` in Python. */
  function PyStrip(s: string): string {
    Trim(s, Py)
  }

  /**
   * Trimming keeps exactly the slice between the first and the last
   * non-space character, and yields "" when every character is a space.
   */
  lemma TrimIsSlice(s: string, cls: SpaceClass)
    ensures var r := Trim(s, cls);
      exists a, b :: 0 <= a <= b <= |s| && r == s[a..b]
        && (forall i :: 0 <= i < a ==> IsSpace(cls, s[i]))
        && (forall i :: b <= i < |s| ==> IsSpace(cls, s[i]))
        && (a < b ==> !IsSpace(cls, s[a]) && !IsSpace(cls, s[b - 1]))
  {
    var t := TrimStart(s, cls);
    var r := TrimEnd(t, cls);
    TrimStartSpec(s, cls);
    TrimEndSpec(t, cls);
    var a := |s| - |t|;
    var b := a + |r|;
    assert t == s[a..];
    assert r == t[..|r|];
    assert r == s[a..b];
    assert forall i :: 0 <= i < a ==> IsSpace(cls, s[i]);
    forall i | b <= i < |s| ensures IsSpace(cls, s[i]) {
      assert s[i] == t[i - a];
    }
    if a < b {
      assert s[a] == r[0] && s[b - 1] == r[|r| - 1];
    }
    assert 0 <= a <= b <= |s| && r == s[a..b]
      && (forall i :: 0 <= i < a ==> IsSpace(cls, s[i]))
      && (forall i :: b <= i < |s| ==> IsSpace(cls, s[i]))
      && (a < b ==> !IsSpace(cls, s[a]) && !IsSpace(cls, s[b - 1]));
  }

  lemma TrimEmptyIffAllSpace(s: string, cls: SpaceClass)
    ensures Trim(s, cls) == [] <==> forall i :: 0 <= i < |s| ==> IsSpace(cls, s[i])
  {
    var t := TrimStart(s, cls);
    TrimStartSpec(s, cls);
    TrimEndSpec(t, cls);
  }

  /** `parts.map(part => part.trim())`. */
  function JsTrimAll(parts: seq<string>): (r: seq<string>)
    ensures |r| == |parts|
    ensures forall i :: 0 <= i < |parts| ==> r[i] == JsTrim(parts[i])
  {
    if parts == [] then [] else [JsTrim(parts[0])] + JsTrimAll(parts[1..])
  }

  /** `s.split(d)` for a one-character separator; TypeScript and Python agree on it. */
  function Split(s: string, d: char): (r: seq<string>)
    ensures |r| >= 1
    ensures forall i :: 0 <= i < |r| ==> d !in r[i]
  {
    if s == [] then [[]]
    else
      var rest := Split(s[1..], d);
      if s[0] == d then [[]] + rest else [[s[0]] + rest[0]] + rest[1..]
  }

  /** The inverse of Split: the pieces glued back with the separator. */
  function Join(parts: seq<string>, d: char): string
    requires |parts| >= 1
  {
    if |parts| == 1 then parts[0] else parts[0] + [d] + Join(parts[1..], d)
  }

  lemma {:induction false} SplitJoin(s: string, d: char)
    ensures Join(Split(s, d), d) == s
  {
    if s != [] {
      SplitJoin(s[1..], d);
      var rest := Split(s[1..], d);
      if s[0] == d {
        assert Split(s, d)[1..] == rest;
      } else {
        if |rest| == 1 {
          assert Join(Split(s, d), d) == [s[0]] + rest[0];
        } else {
          assert Split(s, d)[1..] == rest[1..];
          assert Join(rest, d) == rest[0] + [d] + Join(rest[1..], d);
        }
      }
    }
  }

  /** The first piece of a split is the text before the first separator, or all of it. */
  lemma {:induction false} SplitHead(s: string, d: char)
    ensures Split(s, d)[0] <= s
    ensures |Split(s, d)[0]| < |s| ==> s[|Split(s, d)[0]|] == d
  {
    SplitJoin(s, d);
    var parts := Split(s, d);
    if |parts| > 1 {
      assert s == parts[0] + [d] + Join(parts[1..], d);
    }
  }

  /** Splitting around one separator splits each side. */
  lemma PrependAssoc<T>(x: T, ra: seq<T>, rb: seq<T>)
    ensures [x] + (ra + rb) == ([x] + ra) + rb
  {
  }

  lemma ExtendFirstPiece(h: string, ra: seq<string>, rb: seq<string>)
    requires ra != []
    ensures [h + (ra + rb)[0]] + (ra + rb)[1..] == ([h + ra[0]] + ra[1..]) + rb
  {
    assert (ra + rb)[1..] == ra[1..] + rb;
  }

  /** The inductive step of SplitAppend when `a` starts with the separator. */
  lemma SplitAppendStepAtSeparator(a: string, b: string, d: char)
    requires a != [] && a[0] == d
    requires Split(a[1..] + [d] + b, d) == Split(a[1..], d) + Split(b, d)
    ensures Split(a + [d] + b, d) == Split(a, d) + Split(b, d)
  {
    var s := a + [d] + b;
    var ra, rb := Split(a[1..], d), Split(b, d);
    assert s[0] == d && s[1..] == a[1..] + [d] + b;
    assert Split(s, d) == [[]] + (ra + rb);
    assert Split(a, d) == [[]] + ra;
    PrependAssoc([], ra, rb);
  }

  /** The inductive step of SplitAppend when `a` starts with another character. */
  lemma SplitAppendStepOther(a: string, b: string, d: char)
    requires a != [] && a[0] != d
    requires Split(a[1..] + [d] + b, d) == Split(a[1..], d) + Split(b, d)
    ensures Split(a + [d] + b, d) == Split(a, d) + Split(b, d)
  {
    var s := a + [d] + b;
    var ra, rb := Split(a[1..], d), Split(b, d);
    assert s[0] == a[0] && s[1..] == a[1..] + [d] + b;
    assert Split(s, d) == [[a[0]] + (ra + rb)[0]] + (ra + rb)[1..];
    assert Split(a, d) == [[a[0]] + ra[0]] + ra[1..];
    ExtendFirstPiece([a[0]], ra, rb);
  }

  lemma {:induction false} SplitAppend(a: string, b: string, d: char)
    ensures Split(a + [d] + b, d) == Split(a, d) + Split(b, d)
  {
    if a == [] {
      var s := a + [d] + b;
      assert s[0] == d && s[1..] == b;
    } else {
      SplitAppend(a[1..], b, d);
      if a[0] == d {
        SplitAppendStepAtSeparator(a, b, d);
      } else {
        SplitAppendStepOther(a, b, d);
      }
    }
  }

  /** A string without the separator is one piece. */
  lemma {:induction false} SplitNoSeparator(s: string, d: char)
    requires d !in s
    ensures Split(s, d) == [s]
  {
    if s != [] {
      SplitNoSeparator(s[1..], d);
      assert [s[0]] + s[1..] == s;
    }
  }

  /** ASCII `A`..`Z` to `a`..`z`; every other character unchanged. */
  function AsciiLower(c: char): (r: char)
    ensures 'A' <= c <= 'Z' ==> 'a' <= r <= 'z' && r as int == c as int + 32
    ensures !('A' <= c <= 'Z') ==> r == c
  {
    if 'A' <= c <= 'Z' then (c as int + 32) as char else c
  }

  function AsciiLowerString(s: string): (r: string)
    ensures |r| == |s|
    ensures forall i :: 0 <= i < |s| ==> r[i] == AsciiLower(s[i])
  {
    if s == [] then [] else [AsciiLower(s[0])] + AsciiLowerString(s[1..])
  }

  predicate IsAsciiLetterOrDigit(c: char) {
    ('a' <= c <= 'z') || ('A' <= c <= 'Z') || ('0' <= c <= '9')
  }

  predicate EndsWith(s: string, suffix: string) {
    |suffix| <= |s| && s[|s| - |suffix|..] == suffix
  }

  /** JavaScript's `length`: UTF-16 code units, two for a character outside the Basic Multilingual Plane. */
  function Utf16Length(s: string): (n: nat)
    ensures |s| <= n <= 2 * |s|
  {
    if s == [] then 0 else (if s[0] as int > 0xFFFF then 2 else 1) + Utf16Length(s[1..])
  }

  /** Decimal rendering of a natural number, as JavaScript renders an array index used as a key. */
  function NatToString(n: nat): (r: string)
    ensures |r| >= 1
    ensures forall i :: 0 <= i < |r| ==> '0' <= r[i] <= '9'
    decreases n
  {
    if n < 10 then [('0' as int + n) as char] else NatToString(n / 10) + [('0' as int + n % 10) as char]
  }
}
