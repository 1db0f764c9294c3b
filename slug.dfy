/**
 * The company id the front end derives from a company name before uploading
 * a sample: lower-case it, turn every character outside `a-z0-9` into `_`,
 * collapse runs of `_`, and drop a leading and a trailing `_`.
 */
module Slug {
  import Strings

  predicate IsSlugChar(c: char) {
    ('a' <= c <= 'z') || ('0' <= c <= '9') || c == '_'
  }

  predicate NoDoubleUnderscore(s: string) {
    forall i :: 0 <= i < |s| - 1 ==> !(s[i] == '_' && s[i + 1] == '_')
  }

  /** The shape every slug has: the slug alphabet, no `__`, no `_` at either end. */
  predicate IsCanonicalSlug(s: string) {
    (forall i :: 0 <= i < |s| ==> IsSlugChar(s[i]))
    && NoDoubleUnderscore(s)
    && (s != [] ==> s[0] != '_' && s[|s| - 1] != '_')
  }

  /** A character that can lower-case into `a-z0-9`. */
  predicate MapsToAlnum(c: char) {
    Strings.IsAsciiLetterOrDigit(c) || c == '\U{212A}' || c == '\U{0130}'
  }

  /**
   * `toLowerCase` as far as it can produce `a-z0-9`: ASCII capitals, the
   * KELVIN SIGN (to `k`) and the dotted capital I (to `i` and a combining dot).
   * Every other character is kept: its true lower-case form lies outside
   * `a-z0-9` just as the character does, so the next step replaces both by `_`.
   */
  function LowerChar(c: char): (r: string)
    ensures 1 <= |r| <= 2
    ensures !MapsToAlnum(c) ==> |r| == 1 && !('a' <= r[0] <= 'z' || '0' <= r[0] <= '9')
  {
    if 'A' <= c <= 'Z' then [Strings.AsciiLower(c)]
    else if c == '\U{212A}' then "k"
    else if c == '\U{0130}' then "i\U{0307}"
    else [c]
  }

  function Lower(s: string): string {
    if s == [] then [] else LowerChar(s[0]) + Lower(s[1..])
  }

  /** `.replace(/[^a-z0-9]/g, '_')`. */
  function Sanitize(s: string): (r: string)
    ensures |r| == |s|
    ensures forall i :: 0 <= i < |s| ==> r[i] == (if IsSlugChar(s[i]) && s[i] != '_' then s[i] else '_')
  {
    if s == [] then []
    else [if IsSlugChar(s[0]) && s[0] != '_' then s[0] else '_'] + Sanitize(s[1..])
  }

  /** `.replace(/_{2,}/g, '_')`: of every run of `_` only the last one stays. */
  function Collapse(s: string): (r: string)
    ensures |r| <= |s|
    ensures (r == []) == (s == [])
    ensures s != [] ==> r[0] == s[0]
    ensures forall i :: 0 <= i < |r| ==> r[i] in s
    ensures NoDoubleUnderscore(r)
  {
    if s == [] then []
    else if |s| >= 2 && s[0] == '_' && s[1] == '_' then Collapse(s[1..])
    else [s[0]] + Collapse(s[1..])
  }

  /** `.replace(/^_|_$/g, '')`. */
  function StripEdges(s: string): (r: string)
    ensures exists a, b :: 0 <= a <= b <= |s| && r == s[a..b]
  {
    var a := if s != [] && s[0] == '_' then 1 else 0;
    var b := if |s| > a && s[|s| - 1] == '_' then |s| - 1 else |s|;
    s[a..b]
  }

  /** The company id sent with the sample upload. */
  function Slug(name: string): string {
    StripEdges(Collapse(Sanitize(Lower(name))))
  }

  lemma SliceKeepsNoDouble(s: string, a: int, b: int)
    requires 0 <= a <= b <= |s| && NoDoubleUnderscore(s)
    ensures NoDoubleUnderscore(s[a..b])
  {
    var t := s[a..b];
    forall i | 0 <= i < |t| - 1 ensures !(t[i] == '_' && t[i + 1] == '_') {
      assert t[i] == s[a + i] && t[i + 1] == s[a + i + 1];
    }
  }

  /** Stripping a string without `__` leaves no `_` at either end. */
  lemma StripEdgesCanonical(s: string)
    requires NoDoubleUnderscore(s)
    requires forall i :: 0 <= i < |s| ==> IsSlugChar(s[i])
    ensures IsCanonicalSlug(StripEdges(s))
  {
    var a := if s != [] && s[0] == '_' then 1 else 0;
    var b := if |s| > a && s[|s| - 1] == '_' then |s| - 1 else |s|;
    var r := s[a..b];
    assert StripEdges(s) == r;
    SliceKeepsNoDouble(s, a, b);
    forall i | 0 <= i < |r| ensures IsSlugChar(r[i]) {
      assert r[i] == s[a + i];
    }
    if |s| >= 2 {
      assert !(s[0] == '_' && s[1] == '_');
      assert !(s[|s| - 2] == '_' && s[|s| - 1] == '_');
    }
    if r != [] {
      assert r[0] == s[a];
      assert r[|r| - 1] == s[b - 1];
    }
  }

  /** Every slug is canonical: only `a-z`, `0-9` and `_`, never `__`, no `_` at either end. */
  lemma SlugIsCanonical(name: string)
    ensures IsCanonicalSlug(Slug(name))
  {
    var c := Collapse(Sanitize(Lower(name)));
    forall i | 0 <= i < |c| ensures IsSlugChar(c[i]) {
      assert c[i] in Sanitize(Lower(name));
    }
    StripEdgesCanonical(c);
  }

  lemma {:induction false} LowerOfSlugChars(s: string)
    requires forall i :: 0 <= i < |s| ==> IsSlugChar(s[i])
    ensures Lower(s) == s
  {
    if s != [] {
      LowerOfSlugChars(s[1..]);
    }
  }

  lemma {:induction false} CollapseOfNoDouble(s: string)
    requires NoDoubleUnderscore(s)
    ensures Collapse(s) == s
  {
    if s != [] {
      SliceKeepsNoDouble(s, 1, |s|);
      CollapseOfNoDouble(s[1..]);
    }
  }

  lemma SanitizeOfSlugChars(s: string)
    requires forall i :: 0 <= i < |s| ==> IsSlugChar(s[i])
    ensures Sanitize(s) == s
  {
    var r := Sanitize(s);
    forall i | 0 <= i < |s| ensures r[i] == s[i] {
      assert IsSlugChar(s[i]);
    }
  }

  /** A string already in slug form is its own slug. */
  lemma CanonicalFixpoint(s: string)
    requires IsCanonicalSlug(s)
    ensures Slug(s) == s
  {
    LowerOfSlugChars(s);
    SanitizeOfSlugChars(s);
    CollapseOfNoDouble(s);
    assert Collapse(Sanitize(Lower(s))) == s;
    if s != [] {
      assert s[0] != '_' && s[|s| - 1] != '_';
      assert s[0..|s|] == s;
    }
  }

  /** Slugging twice is slugging once. */
  lemma SlugIdempotent(name: string)
    ensures Slug(Slug(name)) == Slug(name)
  {
    SlugIsCanonical(name);
    CanonicalFixpoint(Slug(name));
  }

  lemma {:induction false} LowerHasNoAlnum(s: string)
    requires forall i :: 0 <= i < |s| ==> !MapsToAlnum(s[i])
    ensures forall i :: 0 <= i < |Lower(s)| ==> !('a' <= Lower(s)[i] <= 'z' || '0' <= Lower(s)[i] <= '9')
  {
    if s != [] {
      LowerHasNoAlnum(s[1..]);
      var head := LowerChar(s[0]);
      assert |head| == 1 && !('a' <= head[0] <= 'z' || '0' <= head[0] <= '9');
      assert Lower(s) == head + Lower(s[1..]);
    }
  }

  lemma {:induction false} CollapseAllUnderscore(s: string)
    requires forall i :: 0 <= i < |s| ==> s[i] == '_'
    ensures |Collapse(s)| <= 1
  {
    if |s| >= 2 {
      CollapseAllUnderscore(s[1..]);
    }
  }

  /**
   * A name with no character that lower-cases into `a-z0-9` (an all-Hebrew
   * name, say) has the empty slug.
   */
  lemma NoAlnumGivesEmpty(name: string)
    requires forall i :: 0 <= i < |name| ==> !MapsToAlnum(name[i])
    ensures Slug(name) == ""
  {
    LowerHasNoAlnum(name);
    var z := Sanitize(Lower(name));
    assert forall i :: 0 <= i < |z| ==> z[i] == '_';
    CollapseAllUnderscore(z);
    var c := Collapse(z);
    if c != [] {
      assert c[0] == '_';
    }
  }

  /** All-Hebrew names in particular. */
  lemma HebrewNameGivesEmpty(name: string)
    requires forall i :: 0 <= i < |name| ==> '\U{0590}' <= name[i] <= '\U{05FF}'
    ensures Slug(name) == ""
  {
    NoAlnumGivesEmpty(name);
  }
}
