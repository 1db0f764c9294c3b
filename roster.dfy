/**
 * The employee roster the browser reads from a CSV file before uploading it:
 * one employee per line after a header, name and e-mail in the first two
 * comma-separated fields, e-mail checked against `^[^\s@]+@[^\s@]+\.[^\s@]+$`.
 */
module Roster {
  import opened Wrappers
  import Strings

  datatype ParsedEmployee = ParsedEmployee(name: string, email: string, lineNumber: nat)

  /** The parse errors the panel lists; line numbers count non-empty lines from 1. */
  datatype RosterError =
    | NeedsHeaderAndRow          // fewer than two non-empty lines
    | UnreadableFile             // `file.text()` rejected
    | TooFewFields(line: nat)
    | MissingField(line: nat)
    | BadEmail(line: nat, email: string)

  /** `.filter(line => line)`: drops the empty strings, keeping order. */
  function NonEmpty(ls: seq<string>): (r: seq<string>)
    ensures |r| <= |ls|
    ensures forall i :: 0 <= i < |r| ==> r[i] != ""
  {
    if ls == [] then []
    else if ls[0] == "" then NonEmpty(ls[1..])
    else [ls[0]] + NonEmpty(ls[1..])
  }

  /** `text.split('\n').map(line => line.trim()).filter(line => line)`. */
  function Lines(text: string): seq<string> {
    NonEmpty(Strings.JsTrimAll(Strings.Split(text, '\n')))
  }

  /** No whitespace (in the JavaScript sense) and no `@`: the class `[^\s@]`. */
  predicate NoSpaceOrAt(s: string) {
    forall i :: 0 <= i < |s| ==> !Strings.IsJsSpace(s[i]) && s[i] != '@'
  }

  /** The pattern read as a grammar: three non-empty `[^\s@]+` segments joined by `@` and `.`. */
  ghost predicate MatchesEmailPattern(s: string) {
    exists p, q :: 0 < p && p + 1 < q < |s| - 1 && s[p] == '@' && s[q] == '.'
      && NoSpaceOrAt(s[..p]) && NoSpaceOrAt(s[p + 1..q]) && NoSpaceOrAt(s[q + 1..])
  }

  function IndexOf(s: string, c: char): (i: int)
    ensures -1 <= i < |s|
    ensures i >= 0 ==> s[i] == c && forall j :: 0 <= j < i ==> s[j] != c
    ensures i < 0 ==> c !in s
  {
    if s == [] then -1
    else if s[0] == c then 0
    else var k := IndexOf(s[1..], c); if k < 0 then -1 else k + 1
  }

  /**
   * `emailRegex.test(email)`, decided directly: no whitespace, exactly one
   * `@` and not first, and a `.` at least two places after it and not last.
   */
  predicate EmailRegexTest(s: string) {
    var p := IndexOf(s, '@');
    p > 0
    && (forall i :: 0 <= i < |s| ==> !Strings.IsJsSpace(s[i]))
    && (forall i :: p < i < |s| ==> s[i] != '@')
    && (exists q :: p + 1 < q < |s| - 1 && s[q] == '.')
  }

  lemma SliceNoSpaceOrAt(s: string, a: int, b: int)
    requires 0 <= a <= b <= |s|
    ensures NoSpaceOrAt(s[a..b]) <==> forall i :: a <= i < b ==> !Strings.IsJsSpace(s[i]) && s[i] != '@'
  {
    var t := s[a..b];
    assert forall i :: 0 <= i < |t| ==> t[i] == s[a + i];
    if forall i :: a <= i < b ==> !Strings.IsJsSpace(s[i]) && s[i] != '@' {
      forall i | 0 <= i < |t| ensures !Strings.IsJsSpace(t[i]) && t[i] != '@' {
        assert t[i] == s[a + i];
      }
    }
    if NoSpaceOrAt(t) {
      forall i | a <= i < b ensures !Strings.IsJsSpace(s[i]) && s[i] != '@' {
        assert s[i] == t[i - a];
      }
    }
  }

  /** A string the direct test accepts matches the pattern. */
  lemma EmailTestSound(s: string)
    requires EmailRegexTest(s)
    ensures MatchesEmailPattern(s)
  {
    var p := IndexOf(s, '@');
    var q :| p + 1 < q < |s| - 1 && s[q] == '.';
    SliceNoSpaceOrAt(s, 0, p);
    SliceNoSpaceOrAt(s, p + 1, q);
    SliceNoSpaceOrAt(s, q + 1, |s|);
    assert s[..p] == s[0..p] && s[q + 1..] == s[q + 1..|s|];
    assert NoSpaceOrAt(s[..p]) && NoSpaceOrAt(s[p + 1..q]) && NoSpaceOrAt(s[q + 1..]);
  }

  /** The first occurrence of `c` is at `p` when `s[p]` is `c` and no earlier character is. */
  lemma IndexOfFirst(s: string, c: char, p: nat)
    requires p < |s| && s[p] == c
    requires forall j :: 0 <= j < p ==> s[j] != c
    ensures IndexOf(s, c) == p
  {
    assert c in s;
  }

  /** The three segments of a pattern match, as facts about positions in `s`. */
  lemma SegmentsOfMatch(s: string, p: nat, q: nat)
    requires 0 < p && p + 1 < q < |s| - 1
    requires NoSpaceOrAt(s[..p]) && NoSpaceOrAt(s[p + 1..q]) && NoSpaceOrAt(s[q + 1..])
    ensures forall i :: 0 <= i < p ==> !Strings.IsJsSpace(s[i]) && s[i] != '@'
    ensures forall i :: p < i < q ==> !Strings.IsJsSpace(s[i]) && s[i] != '@'
    ensures forall i :: q < i < |s| ==> !Strings.IsJsSpace(s[i]) && s[i] != '@'
  {
    assert s[..p] == s[0..p] && s[q + 1..] == s[q + 1..|s|];
    SliceNoSpaceOrAt(s, 0, p);
    SliceNoSpaceOrAt(s, p + 1, q);
    SliceNoSpaceOrAt(s, q + 1, |s|);
  }

  /** A string matching the pattern passes the direct test. */
  lemma EmailTestComplete(s: string)
    requires MatchesEmailPattern(s)
    ensures EmailRegexTest(s)
  {
    var p, q :| 0 < p && p + 1 < q < |s| - 1 && s[p] == '@' && s[q] == '.'
      && NoSpaceOrAt(s[..p]) && NoSpaceOrAt(s[p + 1..q]) && NoSpaceOrAt(s[q + 1..]);
    SegmentsOfMatch(s, p, q);
    forall i | 0 <= i < |s| ensures !Strings.IsJsSpace(s[i]) {
      // the two separators are not spaces either
      if i == p || i == q {
      }
    }
    forall i | p < i < |s| ensures s[i] != '@' {
      if i == q {
      }
    }
    IndexOfFirst(s, '@', p);
    assert p + 1 < q < |s| - 1 && s[q] == '.';
  }

  /** The direct test agrees with the pattern, both ways. */
  lemma EmailTestMatchesPattern(s: string)
    ensures EmailRegexTest(s) <==> MatchesEmailPattern(s)
  {
    if EmailRegexTest(s) {
      EmailTestSound(s);
    }
    if MatchesEmailPattern(s) {
      EmailTestComplete(s);
    }
  }

  /** What one data line yields: an employee, or the error the panel lists for it. */
  function ClassifyLine(line: string, lineNumber: nat): (r: Result<ParsedEmployee, RosterError>)
    ensures r.Ok? ==> r.value.lineNumber == lineNumber && r.value.name != "" && EmailRegexTest(r.value.email)
    ensures r.Err? ==>
      (r.error.TooFewFields? || r.error.MissingField? || r.error.BadEmail?) && r.error.line == lineNumber
  {
    var parts := Strings.JsTrimAll(Strings.Split(line, ','));
    if |parts| >= 2 then
      var name := parts[0];
      var email := parts[1];
      if name != "" && email != "" then
        if EmailRegexTest(email) then Ok(ParsedEmployee(name, email, lineNumber))
        else Err(BadEmail(lineNumber, email))
      else Err(MissingField(lineNumber))
    else Err(TooFewFields(lineNumber))
  }

  /** The outcomes of `lines[1..n]`, the line at index `k` numbered `k + 1`. */
  function OutcomesUpTo(lines: seq<string>, n: nat): (outs: seq<Result<ParsedEmployee, RosterError>>)
    requires n <= |lines|
    ensures |outs| == if n <= 1 then 0 else n - 1
  {
    if n <= 1 then [] else OutcomesUpTo(lines, n - 1) + [ClassifyLine(lines[n - 1], n)]
  }

  /** The outcome of every line after the header. */
  function DataOutcomes(lines: seq<string>): seq<Result<ParsedEmployee, RosterError>> {
    OutcomesUpTo(lines, |lines|)
  }

  /** The employees among the outcomes, in order. */
  function Accepted(outs: seq<Result<ParsedEmployee, RosterError>>): seq<ParsedEmployee> {
    if outs == [] then []
    else
      var last := outs[|outs| - 1];
      Accepted(outs[..|outs| - 1]) + (if last.Ok? then [last.value] else [])
  }

  /** The errors among the outcomes, in order. */
  function Rejected(outs: seq<Result<ParsedEmployee, RosterError>>): seq<RosterError> {
    if outs == [] then []
    else
      var last := outs[|outs| - 1];
      Rejected(outs[..|outs| - 1]) + (if last.Err? then [last.error] else [])
  }

  /** One more outcome adds its employee or its error at the end. */
  lemma AppendOutcome(outs: seq<Result<ParsedEmployee, RosterError>>, o: Result<ParsedEmployee, RosterError>)
    ensures Accepted(outs + [o]) == Accepted(outs) + (if o.Ok? then [o.value] else [])
    ensures Rejected(outs + [o]) == Rejected(outs) + (if o.Err? then [o.error] else [])
  {
    assert (outs + [o])[..|outs|] == outs;
  }

  /** Line `i` adds its own outcome to the employees or to the errors. */
  lemma OutcomesStep(lines: seq<string>, i: nat)
    requires 1 <= i < |lines|
    ensures var o := ClassifyLine(lines[i], i + 1);
      Accepted(OutcomesUpTo(lines, i + 1)) == Accepted(OutcomesUpTo(lines, i)) + (if o.Ok? then [o.value] else [])
      && Rejected(OutcomesUpTo(lines, i + 1)) == Rejected(OutcomesUpTo(lines, i)) + (if o.Err? then [o.error] else [])
  {
    var o := ClassifyLine(lines[i], i + 1);
    assert OutcomesUpTo(lines, i + 1) == OutcomesUpTo(lines, i) + [o];
    AppendOutcome(OutcomesUpTo(lines, i), o);
  }

  /**
   * `parseCSV(file)`: `text` is the file's content, or `None` when reading it
   * fails. Returns the panel's new `parsedEmployees` and `parseErrors`.
   */
  method ParseCsv(text: Option<string>) returns (employees: seq<ParsedEmployee>, errors: seq<RosterError>)
    ensures text.None? ==> employees == [] && errors == [UnreadableFile]
    ensures text.Some? && |Lines(text.value)| < 2 ==> employees == [] && errors == [NeedsHeaderAndRow]
    ensures text.Some? && |Lines(text.value)| >= 2 ==>
      employees == Accepted(DataOutcomes(Lines(text.value)))
      && errors == Rejected(DataOutcomes(Lines(text.value)))
  {
    if text.None? {
      return [], [UnreadableFile];
    }
    var lines := Lines(text.value);
    if |lines| < 2 {
      return [], [NeedsHeaderAndRow];
    }
    employees, errors := ParseDataLines(lines);
  }

  /** The loop of `parseCSV`: every line after the header pushes one employee or one error. */
  method ParseDataLines(lines: seq<string>) returns (employees: seq<ParsedEmployee>, errors: seq<RosterError>)
    ensures employees == Accepted(DataOutcomes(lines)) && errors == Rejected(DataOutcomes(lines))
  {
    employees, errors := [], [];
    if |lines| < 2 {
      return;
    }
    var i := 1;
    while i < |lines|
      invariant 1 <= i <= |lines|
      invariant employees == Accepted(OutcomesUpTo(lines, i))
      invariant errors == Rejected(OutcomesUpTo(lines, i))
    {
      var outcome := ClassifyLine(lines[i], i + 1);
      OutcomesStep(lines, i);
      if outcome.Ok? {
        employees := employees + [outcome.value];
      } else {
        errors := errors + [outcome.error];
      }
      i := i + 1;
    }
  }

  /** Every outcome is one employee or one error. */
  lemma {:induction false} OneOutcomeEach(outs: seq<Result<ParsedEmployee, RosterError>>)
    ensures |Accepted(outs)| + |Rejected(outs)| == |outs|
  {
    if outs != [] {
      OneOutcomeEach(outs[..|outs| - 1]);
    }
  }

  /** The header yields nothing and every later line exactly one employee or error. */
  lemma OneOutcomePerLine(lines: seq<string>)
    requires |lines| >= 2
    ensures |Accepted(DataOutcomes(lines))| + |Rejected(DataOutcomes(lines))| == |lines| - 1
  {
    OneOutcomeEach(DataOutcomes(lines));
  }

  /** Outcome `k` carries line number `k + 2`. */
  predicate NumberedFromTwo(outs: seq<Result<ParsedEmployee, RosterError>>) {
    forall k :: 0 <= k < |outs| && outs[k].Ok? ==> outs[k].value.lineNumber == k + 2
  }

  lemma {:induction false} AcceptedSorted(outs: seq<Result<ParsedEmployee, RosterError>>)
    requires NumberedFromTwo(outs)
    ensures forall i :: 0 <= i < |Accepted(outs)| ==> 2 <= Accepted(outs)[i].lineNumber <= |outs| + 1
    ensures forall i, j :: 0 <= i < j < |Accepted(outs)| ==> Accepted(outs)[i].lineNumber < Accepted(outs)[j].lineNumber
  {
    if outs != [] {
      var init := outs[..|outs| - 1];
      var last := outs[|outs| - 1];
      assert NumberedFromTwo(init) by {
        forall k | 0 <= k < |init| && init[k].Ok? ensures init[k].value.lineNumber == k + 2 {
          assert init[k] == outs[k];
        }
      }
      AcceptedSorted(init);
      var prev := Accepted(init);
      if last.Ok? {
        var es := prev + [last.value];
        assert Accepted(outs) == es;
        assert last.value.lineNumber == |outs| + 1;
        assert forall i :: 0 <= i < |prev| ==> es[i] == prev[i];
      } else {
        assert Accepted(outs) == prev;
      }
    }
  }

  /** The outcome at index `k` is the classification of line `k + 1`, numbered `k + 2`. */
  lemma {:induction false} OutcomesAreClassifications(lines: seq<string>, n: nat)
    requires n <= |lines|
    ensures forall k :: 0 <= k < |OutcomesUpTo(lines, n)| ==>
      OutcomesUpTo(lines, n)[k] == ClassifyLine(lines[k + 1], k + 2)
  {
    if n > 1 {
      OutcomesAreClassifications(lines, n - 1);
      var init := OutcomesUpTo(lines, n - 1);
      var outs := OutcomesUpTo(lines, n);
      assert outs == init + [ClassifyLine(lines[n - 1], n)];
      forall k | 0 <= k < |outs| ensures outs[k] == ClassifyLine(lines[k + 1], k + 2) {
        if k < |init| {
          assert outs[k] == init[k];
          assert init[k] == ClassifyLine(lines[k + 1], k + 2);
        } else {
          assert k == n - 2;
        }
      }
    }
  }

  /**
   * Accepted entries keep file order: their line numbers increase strictly
   * and lie between 2 and the number of lines, so the header is never an employee.
   */
  lemma AcceptedInLineOrder(lines: seq<string>)
    ensures forall e :: e in Accepted(DataOutcomes(lines)) ==> 2 <= e.lineNumber <= |lines|
    ensures var es := Accepted(DataOutcomes(lines));
      forall i, j :: 0 <= i < j < |es| ==> es[i].lineNumber < es[j].lineNumber
  {
    var outs := DataOutcomes(lines);
    OutcomesAreClassifications(lines, |lines|);
    assert NumberedFromTwo(outs) by {
      forall k | 0 <= k < |outs| && outs[k].Ok? ensures outs[k].value.lineNumber == k + 2 {
        assert outs[k] == ClassifyLine(lines[k + 1], k + 2);
      }
    }
    AcceptedSorted(outs);
  }

  lemma {:induction false} AcceptedAreOutcomes(outs: seq<Result<ParsedEmployee, RosterError>>)
    ensures forall e :: e in Accepted(outs) ==> Ok(e) in outs
  {
    if outs != [] {
      AcceptedAreOutcomes(outs[..|outs| - 1]);
      assert forall x :: x in outs[..|outs| - 1] ==> x in outs;
    }
  }

  /** The outcome at index `k` is the classification of line `k + 1`. */
  lemma ClassifiedAt(lines: seq<string>, k: nat)
    requires k < |DataOutcomes(lines)|
    ensures DataOutcomes(lines)[k] == ClassifyLine(lines[k + 1], k + 2)
  {
    OutcomesAreClassifications(lines, |lines|);
  }

  /** An employee comes from its own line: classifying that line gives the employee back. */
  lemma AcceptedComeFromTheirLine(lines: seq<string>)
    ensures forall e :: e in Accepted(DataOutcomes(lines)) ==>
      2 <= e.lineNumber <= |lines| && ClassifyLine(lines[e.lineNumber - 1], e.lineNumber) == Ok(e)
  {
    var outs := DataOutcomes(lines);
    AcceptedAreOutcomes(outs);
    forall e | e in Accepted(outs)
      ensures 2 <= e.lineNumber <= |lines| && ClassifyLine(lines[e.lineNumber - 1], e.lineNumber) == Ok(e)
    {
      var k :| 0 <= k < |outs| && outs[k] == Ok(e);
      ClassifiedAt(lines, k);
      assert e.lineNumber == k + 2;
    }
  }

  /** Two lines whose first two trimmed fields agree are classified alike. */
  lemma SameFieldsSameOutcome(line: string, other: string, lineNumber: nat)
    requires |Strings.JsTrimAll(Strings.Split(line, ','))| >= 2
    requires |Strings.JsTrimAll(Strings.Split(other, ','))| >= 2
    requires Strings.JsTrimAll(Strings.Split(line, ','))[..2] == Strings.JsTrimAll(Strings.Split(other, ','))[..2]
    ensures ClassifyLine(line, lineNumber) == ClassifyLine(other, lineNumber)
  {
    var p, q := Strings.JsTrimAll(Strings.Split(line, ',')), Strings.JsTrimAll(Strings.Split(other, ','));
    assert p[0] == p[..2][0] == q[..2][0] == q[0];
    assert p[1] == p[..2][1] == q[..2][1] == q[1];
  }

  /** Fields after the second are never read. */
  lemma ExtraFieldsIgnored(line: string, extra: string, lineNumber: nat)
    requires |Strings.Split(line, ',')| >= 2
    ensures ClassifyLine(line + "," + extra, lineNumber) == ClassifyLine(line, lineNumber)
  {
    var p := Strings.Split(line, ',');
    var q := Strings.Split(line + "," + extra, ',');
    assert line + "," + extra == line + [','] + extra;
    Strings.SplitAppend(line, extra, ',');
    assert q == p + Strings.Split(extra, ',');
    assert q[..2] == p[..2];
    TrimmedPrefix(q, p);
    SameFieldsSameOutcome(line + "," + extra, line, lineNumber);
  }

  lemma TrimmedPrefix(q: seq<string>, p: seq<string>)
    requires |p| >= 2 && |q| >= 2 && q[..2] == p[..2]
    ensures Strings.JsTrimAll(q)[..2] == Strings.JsTrimAll(p)[..2]
  {
    assert q[0] == p[0] && q[1] == p[1];
  }

  /** A line without a comma is a format error. */
  lemma NoCommaIsFormatError(line: string, lineNumber: nat)
    requires ',' !in line
    ensures ClassifyLine(line, lineNumber) == Err(TooFewFields(lineNumber))
  {
    if line != [] {
      Strings.SplitNoSeparator(line, ',');
    }
  }

  /** The accumulator of `parsedEmployees.reduce` after its first `n` entries. */
  function EmailsUpTo(employees: seq<ParsedEmployee>, n: nat): map<string, string>
    requires n <= |employees|
  {
    if n == 0 then map[] else EmailsUpTo(employees, n - 1)[employees[n - 1].name := employees[n - 1].email]
  }

  /** The name-to-e-mail map the roster upload hands to the store. */
  function NameEmails(employees: seq<ParsedEmployee>): map<string, string> {
    EmailsUpTo(employees, |employees|)
  }

  /** No entry in `(i, n)` has the same name as entry `i`. */
  predicate LastWithItsNameUpTo(employees: seq<ParsedEmployee>, i: nat, n: nat)
    requires i < n <= |employees|
  {
    forall j :: i < j < n ==> employees[j].name != employees[i].name
  }

  lemma {:induction false} EmailsUpToKeys(employees: seq<ParsedEmployee>, n: nat)
    requires n <= |employees|
    ensures EmailsUpTo(employees, n).Keys == set i | 0 <= i < n :: employees[i].name
  {
    if n > 0 {
      EmailsUpToKeys(employees, n - 1);
      assert (set i | 0 <= i < n :: employees[i].name)
        == (set i | 0 <= i < n - 1 :: employees[i].name) + {employees[n - 1].name};
    }
  }

  lemma {:induction false} EmailsUpToLastWins(employees: seq<ParsedEmployee>, n: nat, i: nat)
    requires i < n <= |employees| && LastWithItsNameUpTo(employees, i, n)
    ensures employees[i].name in EmailsUpTo(employees, n)
    ensures EmailsUpTo(employees, n)[employees[i].name] == employees[i].email
  {
    if i < n - 1 {
      EmailsUpToLastWins(employees, n - 1, i);
    }
  }

  /** The map has one key per distinct name, and each key holds the e-mail of that name's last entry. */
  lemma NameEmailsSpec(employees: seq<ParsedEmployee>)
    ensures NameEmails(employees).Keys == set e | e in employees :: e.name
    ensures forall i :: 0 <= i < |employees| && LastWithItsName(employees, i) ==>
      NameEmails(employees)[employees[i].name] == employees[i].email
  {
    EmailsUpToKeys(employees, |employees|);
    assert (set i | 0 <= i < |employees| :: employees[i].name) == set e | e in employees :: e.name by {
      forall e | e in employees ensures e.name in set i | 0 <= i < |employees| :: employees[i].name {
        var i :| 0 <= i < |employees| && employees[i] == e;
      }
    }
    forall i | 0 <= i < |employees| && LastWithItsName(employees, i)
      ensures NameEmails(employees)[employees[i].name] == employees[i].email
    {
      EmailsUpToLastWins(employees, |employees|, i);
    }
  }

  /** No later entry has the same name as entry `i`. */
  predicate LastWithItsName(employees: seq<ParsedEmployee>, i: nat)
    requires i < |employees|
  {
    forall j :: i < j < |employees| ==> employees[j].name != employees[i].name
  }

  /**
   * `parsedEmployees.reduce((acc, emp) => { acc[emp.name] = emp.email; … }, {})`:
   * one key per distinct name, holding the e-mail of that name's last entry.
   */
  method NameEmailMap(employees: seq<ParsedEmployee>) returns (m: map<string, string>)
    ensures m == NameEmails(employees)
    ensures m.Keys == set e | e in employees :: e.name
    ensures forall i :: 0 <= i < |employees| && LastWithItsName(employees, i) ==>
      m[employees[i].name] == employees[i].email
  {
    m := map[];
    var k := 0;
    while k < |employees|
      invariant 0 <= k <= |employees|
      invariant m == EmailsUpTo(employees, k)
    {
      m := m[employees[k].name := employees[k].email];
      k := k + 1;
    }
    NameEmailsSpec(employees);
  }
}
