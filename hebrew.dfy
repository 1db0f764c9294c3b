/**
 * The Hebrew text helpers of the OCR name extractor: the test for Hebrew
 * characters, and the cleaner applied to each Hebrew word before it is
 * compared with the known names. The cleaner deletes diacritics,
 * punctuation, digits and currency signs, rewrites four letter pairs that
 * OCR confuses, and drops one common prefix letter and one common suffix
 * letter.
 */
module Hebrew {
  import Strings

  /** The Hebrew block, U+0590 to U+05FF. */
  predicate IsHebrew(c: char) {
    '\U{0590}' <= c <= '\U{05FF}'
  }

  /** `re.search('[֐-׿]', text)`, scanning from the left. */
  predicate ContainsHebrew(text: string) {
    text != [] && (IsHebrew(text[0]) || ContainsHebrew(text[1..]))
  }

  lemma {:induction false} ContainsHebrewSpec(text: string)
    ensures ContainsHebrew(text) <==> exists i :: 0 <= i < |text| && IsHebrew(text[i])
  {
    if text != [] {
      ContainsHebrewSpec(text[1..]);
      if exists i :: 0 <= i < |text| && IsHebrew(text[i]) {
        var i :| 0 <= i < |text| && IsHebrew(text[i]);
        if i > 0 {
          assert text[1..][i - 1] == text[i];
        }
      }
      if ContainsHebrew(text[1..]) {
        var i :| 0 <= i < |text[1..]| && IsHebrew(text[1..][i]);
        assert text[i + 1] == text[1..][i];
      }
    }
  }

  /** The four character classes the cleaner deletes, in its order. */
  datatype Deletion =
    | Niqqud         // `[֑-ׇ]`
    | Punctuation    // `[.,;:״"'`\-_\s]`
    | Numeric        // `[0-9₪$€£¥]`
    | Artifact       // `[./\\|]`

  predicate Deletes(d: Deletion, c: char) {
    match d
    case Niqqud => '\U{0591}' <= c <= '\U{05C7}'
    case Punctuation =>
      c == '.' || c == ',' || c == ';' || c == ':' || c == '\U{05F4}' || c == '"' || c == '\'' || c == '`'
      || c == '-' || c == '_' || Strings.IsPySpace(c)
    case Numeric =>
      ('0' <= c <= '9') || c == '\U{20AA}' || c == '$' || c == '\U{20AC}' || c == '\U{00A3}' || c == '\U{00A5}'
    case Artifact => c == '.' || c == '/' || c == '\\' || c == '|'
  }

  /** A character one of the four deletions removes. */
  predicate Deletable(c: char) {
    Deletes(Niqqud, c) || Deletes(Punctuation, c) || Deletes(Numeric, c) || Deletes(Artifact, c)
  }

  /** `re.sub('[…]', '', s)` for one class: the characters outside it, in order. */
  function Delete(s: string, d: Deletion): (r: string)
    ensures |r| <= |s|
  {
    if s == [] then []
    else (if Deletes(d, s[0]) then [] else [s[0]]) + Delete(s[1..], d)
  }

  lemma {:induction false} DeleteSpec(s: string, d: Deletion)
    ensures forall i :: 0 <= i < |Delete(s, d)| ==> !Deletes(d, Delete(s, d)[i]) && Delete(s, d)[i] in s
    ensures Delete(s, d) == [] <==> forall i :: 0 <= i < |s| ==> Deletes(d, s[i])
  {
    if s != [] {
      DeleteSpec(s[1..], d);
      var head := if Deletes(d, s[0]) then [] else [s[0]];
      var rest := Delete(s[1..], d);
      assert Delete(s, d) == head + rest;
      forall i | 0 <= i < |Delete(s, d)| ensures !Deletes(d, Delete(s, d)[i]) && Delete(s, d)[i] in s {
        if i < |head| {
          assert Delete(s, d)[i] == s[0];
        } else {
          assert Delete(s, d)[i] == rest[i - |head|];
          assert rest[i - |head|] in s[1..];
        }
      }
      assert (forall i :: 0 <= i < |s| ==> Deletes(d, s[i])) <==>
        Deletes(d, s[0]) && forall i :: 0 <= i < |s[1..]| ==> Deletes(d, s[1..][i]);
    }
  }

  /** The four deletions in sequence. */
  function Stripped(word: string): (r: string)
    ensures |r| <= |word|
  {
    Delete(Delete(Delete(Delete(word, Niqqud), Punctuation), Numeric), Artifact)
  }

  /** After the deletions no deletable character is left, and every one left was in the word. */
  lemma StrippedSpec(word: string)
    ensures forall i :: 0 <= i < |Stripped(word)| ==> !Deletable(Stripped(word)[i]) && Stripped(word)[i] in word
    ensures Stripped(word) == [] <==> forall i :: 0 <= i < |word| ==> Deletable(word[i])
  {
    var s1 := Delete(word, Niqqud);
    var s2 := Delete(s1, Punctuation);
    var s3 := Delete(s2, Numeric);
    var s4 := Delete(s3, Artifact);
    DeleteSpec(word, Niqqud);
    DeleteSpec(s1, Punctuation);
    DeleteSpec(s2, Numeric);
    DeleteSpec(s3, Artifact);
    forall i | 0 <= i < |s4| ensures !Deletable(s4[i]) && s4[i] in word {
      var c := s4[i];
      assert c in s3;
      var i3 :| 0 <= i3 < |s3| && s3[i3] == c;
      assert c in s2;
      var i2 :| 0 <= i2 < |s2| && s2[i2] == c;
      assert c in s1;
      var i1 :| 0 <= i1 < |s1| && s1[i1] == c;
    }
    if forall i :: 0 <= i < |word| ==> Deletable(word[i]) {
      forall i | 0 <= i < |s1| ensures Deletes(Punctuation, s1[i]) || Deletes(Numeric, s1[i]) || Deletes(Artifact, s1[i]) {
        assert s1[i] in word;
      }
      forall i | 0 <= i < |s2| ensures Deletes(Numeric, s2[i]) || Deletes(Artifact, s2[i]) {
        assert s2[i] in s1;
      }
      forall i | 0 <= i < |s3| ensures Deletes(Artifact, s3[i]) {
        assert s3[i] in s2;
      }
    }
    if s4 == [] {
      forall i | 0 <= i < |word| ensures Deletable(word[i]) {
        WordCharDeletedSomewhere(word, i);
      }
    }
  }

  /** A character of the word that survives no deletion would be in the stripped word. */
  lemma WordCharDeletedSomewhere(word: string, i: nat)
    requires i < |word| && Stripped(word) == []
    ensures Deletable(word[i])
  {
    var c := word[i];
    if !Deletable(c) {
      KeptBy(word, Niqqud, i);
      var s1 := Delete(word, Niqqud);
      var i1 :| 0 <= i1 < |s1| && s1[i1] == c;
      KeptBy(s1, Punctuation, i1);
      var s2 := Delete(s1, Punctuation);
      var i2 :| 0 <= i2 < |s2| && s2[i2] == c;
      KeptBy(s2, Numeric, i2);
      var s3 := Delete(s2, Numeric);
      var i3 :| 0 <= i3 < |s3| && s3[i3] == c;
      KeptBy(s3, Artifact, i3);
      assert false;
    }
  }

  /** A character outside the class survives its deletion. */
  lemma {:induction false} KeptBy(s: string, d: Deletion, i: nat)
    requires i < |s| && !Deletes(d, s[i])
    ensures s[i] in Delete(s, d)
  {
    if i > 0 {
      KeptBy(s[1..], d, i - 1);
      assert s[1..][i - 1] == s[i];
    }
  }

  const Shin := '\U{05E9}'
  const Mem := '\U{05DE}'
  const He := '\U{05D4}'
  const Vav := '\U{05D5}'
  const Het := '\U{05D7}'
  const Bet := '\U{05D1}'
  const Kaf := '\U{05DB}'
  const Lamed := '\U{05DC}'
  const Yod := '\U{05D9}'
  const FinalMem := '\U{05DD}'

  /** `s.replace(a + b, rep)`: every non-overlapping occurrence of the pair, from the left. */
  function ReplacePair(s: string, a: char, b: char, rep: string): (r: string)
    requires |rep| <= 2
    ensures |r| <= |s|
  {
    if |s| >= 2 && s[0] == a && s[1] == b then rep + ReplacePair(s[2..], a, b, rep)
    else if s == [] then []
    else [s[0]] + ReplacePair(s[1..], a, b, rep)
  }

  /** Every character after a replacement was in the text or in the replacement. */
  lemma {:induction false} ReplacePairChars(s: string, a: char, b: char, rep: string)
    requires |rep| <= 2
    ensures forall c :: c in ReplacePair(s, a, b, rep) ==> c in s || c in rep
    decreases |s|
  {
    if |s| >= 2 && s[0] == a && s[1] == b {
      ReplacePairChars(s[2..], a, b, rep);
      forall c | c in s[2..] ensures c in s {
        var k :| 0 <= k < |s[2..]| && s[2..][k] == c;
        assert s[k + 2] == c;
      }
    } else if s != [] {
      ReplacePairChars(s[1..], a, b, rep);
      forall c | c in s[1..] ensures c in s {
        var k :| 0 <= k < |s[1..]| && s[1..][k] == c;
        assert s[k + 1] == c;
      }
    }
  }

  /** A text without the first letter of the pair is left as it is. */
  lemma {:induction false} ReplacePairAbsent(s: string, a: char, b: char, rep: string)
    requires |rep| <= 2 && a !in s
    ensures ReplacePair(s, a, b, rep) == s
  {
    if s != [] {
      ReplacePairAbsent(s[1..], a, b, rep);
      assert s == [s[0]] + s[1..];
    }
  }

  /** The four OCR corrections, in order. */
  function Corrected(s: string): (r: string)
    ensures |r| <= |s|
  {
    var r1 := ReplacePair(s, Shin, Mem, [Mem, Shin]);
    var r2 := ReplacePair(r1, He, Vav, [Vav]);
    var r3 := ReplacePair(r2, Vav, Vav, [Vav]);
    ReplacePair(r3, Het, Het, [Het])
  }

  lemma CorrectedChars(s: string)
    ensures forall c :: c in Corrected(s) ==> c in s || c == Mem || c == Shin || c == Vav || c == Het
  {
    var r1 := ReplacePair(s, Shin, Mem, [Mem, Shin]);
    var r2 := ReplacePair(r1, He, Vav, [Vav]);
    var r3 := ReplacePair(r2, Vav, Vav, [Vav]);
    ReplacePairChars(s, Shin, Mem, [Mem, Shin]);
    ReplacePairChars(r1, He, Vav, [Vav]);
    ReplacePairChars(r2, Vav, Vav, [Vav]);
    ReplacePairChars(r3, Het, Het, [Het]);
  }

  /** `^[הוובכלמ]`. */
  predicate IsPrefixLetter(c: char) {
    c == He || c == Vav || c == Bet || c == Kaf || c == Lamed || c == Mem
  }

  /** `[ים]$`. */
  predicate IsSuffixLetter(c: char) {
    c == Yod || c == FinalMem
  }

  function DropPrefix(s: string): string {
    if s != [] && IsPrefixLetter(s[0]) then s[1..] else s
  }

  function DropSuffix(s: string): string {
    if s != [] && IsSuffixLetter(s[|s| - 1]) then s[..|s| - 1] else s
  }

  /** `_clean_hebrew_word`. */
  function CleanHebrewWord(word: string): (r: string)
    ensures |r| <= |word|
  {
    DropSuffix(DropPrefix(Corrected(Stripped(word))))
  }

  /**
   * `r` is `w` less at most its first character, which must then be a
   * prefix letter, and at most its last, which must then be a suffix letter.
   */
  predicate TrimmedBy(w: string, a: nat, b: nat, r: string) {
    a <= 1 && b <= 1 && a + b <= |w| && r == w[a..|w| - b]
    && (a == 1 ==> IsPrefixLetter(w[0])) && (b == 1 ==> IsSuffixLetter(w[|w| - 1]))
  }

  /**
   * Only one leading prefix letter and one trailing suffix letter are
   * removed from the corrected word, and a leading prefix letter always is.
   */
  lemma CleanTrimsAtMostOneEach(word: string)
    ensures exists a: nat, b: nat :: TrimmedBy(Corrected(Stripped(word)), a, b, CleanHebrewWord(word))
    ensures Corrected(Stripped(word)) != [] && IsPrefixLetter(Corrected(Stripped(word))[0]) ==>
      |CleanHebrewWord(word)| < |Corrected(Stripped(word))|
  {
    var w := Corrected(Stripped(word));
    var p := DropPrefix(w);
    var a: nat := if w != [] && IsPrefixLetter(w[0]) then 1 else 0;
    var b: nat := if p != [] && IsSuffixLetter(p[|p| - 1]) then 1 else 0;
    assert p == w[a..];
    if b == 1 {
      assert p[|p| - 1] == w[|w| - 1];
    }
    assert TrimmedBy(w, a, b, CleanHebrewWord(word));
  }

  /** The letters the corrections write are none of them deletable. */
  lemma CorrectionLettersKept()
    ensures !Deletable(Mem) && !Deletable(Shin) && !Deletable(Vav) && !Deletable(Het)
  {
  }

  /** Correcting a text without deletable characters introduces none. */
  lemma CorrectedNotDeletable(s: string)
    requires forall i :: 0 <= i < |s| ==> !Deletable(s[i])
    ensures forall c :: c in Corrected(s) ==> !Deletable(c)
  {
    CorrectedChars(s);
    CorrectionLettersKept();
    forall c | c in Corrected(s) ensures !Deletable(c) {
      if c in s {
        var k :| 0 <= k < |s| && s[k] == c;
      }
    }
  }

  /** The cleaned word holds no diacritic, punctuation, whitespace, digit, currency sign or OCR artifact. */
  lemma CleanHasNoDeletable(word: string)
    ensures forall i :: 0 <= i < |CleanHebrewWord(word)| ==> !Deletable(CleanHebrewWord(word)[i])
  {
    var s := Stripped(word);
    var w := Corrected(s);
    StrippedSpec(word);
    CorrectedNotDeletable(s);
    CleanTrimsAtMostOneEach(word);
    var a: nat, b: nat :| TrimmedBy(w, a, b, CleanHebrewWord(word));
    TrimmedKeepsNoDeletable(w, a, b, CleanHebrewWord(word));
  }

  lemma TrimmedKeepsNoDeletable(w: string, a: nat, b: nat, r: string)
    requires TrimmedBy(w, a, b, r)
    requires forall c :: c in w ==> !Deletable(c)
    ensures forall i :: 0 <= i < |r| ==> !Deletable(r[i])
  {
    forall i | 0 <= i < |r| ensures !Deletable(r[i]) {
      assert r[i] == w[a + i];
    }
  }

  /** A word made only of deletable characters cleans to the empty word. */
  lemma AllDeletableCleansToEmpty(word: string)
    requires forall i :: 0 <= i < |word| ==> Deletable(word[i])
    ensures CleanHebrewWord(word) == ""
  {
    StrippedSpec(word);
  }

  /** Plain letters with no confusable pair and no prefix or suffix letter at the ends come through unchanged. */
  lemma PlainWordUnchanged(word: string)
    requires forall i :: 0 <= i < |word| ==> !Deletable(word[i])
    requires Shin !in word && He !in word && Vav !in word && Het !in word
    requires word != [] ==> !IsPrefixLetter(word[0]) && !IsSuffixLetter(word[|word| - 1])
    ensures CleanHebrewWord(word) == word
  {
    StrippedKeepsClean(word);
    ReplacePairAbsent(word, Shin, Mem, [Mem, Shin]);
    ReplacePairAbsent(word, He, Vav, [Vav]);
    ReplacePairAbsent(word, Vav, Vav, [Vav]);
    ReplacePairAbsent(word, Het, Het, [Het]);
  }

  /** A word with no deletable character survives the deletions whole. */
  lemma StrippedKeepsClean(word: string)
    requires forall i :: 0 <= i < |word| ==> !Deletable(word[i])
    ensures Stripped(word) == word
  {
    DeleteNoneOf(word, Niqqud);
    DeleteNoneOf(word, Punctuation);
    DeleteNoneOf(word, Numeric);
    DeleteNoneOf(word, Artifact);
  }

  lemma {:induction false} DeleteNoneOf(s: string, d: Deletion)
    requires forall i :: 0 <= i < |s| ==> !Deletes(d, s[i])
    ensures Delete(s, d) == s
  {
    if s != [] {
      assert forall i :: 0 <= i < |s[1..]| ==> s[1..][i] == s[i + 1];
      DeleteNoneOf(s[1..], d);
      assert s == [s[0]] + s[1..];
    }
  }
}
