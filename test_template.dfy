/**
 * The wizard's test step: a trial run of the template over a payslip file,
 * the per-page classification of its results and their summary, and the
 * step that finishes the setup.
 */
module TestTemplate {
  import opened Wrappers
  import opened Types
  import AppStore
  import ConfigStore

  datatype TestTemplateResponse = TestTemplateResponse(message: string, results: seq<ProcessingResult>)

  /** The three ways a tested page can turn out. */
  datatype ResultStatus = Identified | NameNotInRoster | NoName

  /** A page is identified when it has a matched employee, else judged by whether a name was read. */
  function Status(r: ProcessingResult): (s: ResultStatus)
    ensures s == Identified <==> r.matchedEmployee.Some?
    ensures s == NameNotInRoster <==> r.matchedEmployee.None? && r.extractedName != ""
    ensures s == NoName <==> r.matchedEmployee.None? && r.extractedName == ""
  {
    if r.matchedEmployee.Some? then Identified
    else if r.extractedName != "" then NameNotInRoster
    else NoName
  }

  /** `results.filter(r => r.matched_employee).length`. */
  function MatchedCount(results: seq<ProcessingResult>): nat {
    if results == [] then 0
    else (if results[0].matchedEmployee.Some? then 1 else 0) + MatchedCount(results[1..])
  }

  /** `results.filter(r => r.extracted_name && !r.matched_employee).length`. */
  function UnmatchedNameCount(results: seq<ProcessingResult>): nat {
    if results == [] then 0
    else
      var here := if results[0].extractedName != "" && results[0].matchedEmployee.None? then 1 else 0;
      here + UnmatchedNameCount(results[1..])
  }

  /** `results.filter(r => !r.extracted_name).length`. */
  function EmptyAreaCount(results: seq<ProcessingResult>): nat {
    if results == [] then 0
    else (if results[0].extractedName == "" then 1 else 0) + EmptyAreaCount(results[1..])
  }

  /** The number of pages with a given status. */
  function StatusCount(results: seq<ProcessingResult>, s: ResultStatus): nat {
    if results == [] then 0 else (if Status(results[0]) == s then 1 else 0) + StatusCount(results[1..], s)
  }

  lemma {:induction false} StatusesPartition(results: seq<ProcessingResult>)
    ensures StatusCount(results, Identified) + StatusCount(results, NameNotInRoster)
      + StatusCount(results, NoName) == |results|
  {
    if results != [] {
      StatusesPartition(results[1..]);
    }
  }

  /**
   * The first two summary figures count exactly the identified and the
   * unmatched-name pages. The third counts every page without a name,
   * matched or not, so the three add up to the number of pages exactly
   * when no matched page lacks a name.
   */
  lemma {:induction false} SummaryCounts(results: seq<ProcessingResult>)
    ensures MatchedCount(results) == StatusCount(results, Identified)
    ensures UnmatchedNameCount(results) == StatusCount(results, NameNotInRoster)
    ensures EmptyAreaCount(results) >= StatusCount(results, NoName)
    ensures (MatchedCount(results) + UnmatchedNameCount(results) + EmptyAreaCount(results) == |results|)
      <==> (forall i :: 0 <= i < |results| && results[i].matchedEmployee.Some? ==> results[i].extractedName != "")
  {
    StatusesPartition(results);
    if results != [] {
      SummaryCounts(results[1..]);
      var rest := results[1..];
      assert forall i :: 1 <= i < |results| ==> results[i] == rest[i - 1];
      if results[0].matchedEmployee.Some? && results[0].extractedName == "" {
        assert EmptyAreaCount(results) == 1 + EmptyAreaCount(rest);
        assert StatusCount(results, NoName) == StatusCount(rest, NoName);
        assert MatchedCount(results) + UnmatchedNameCount(results) + EmptyAreaCount(results) > |results|
        by {
          NoNameExcess(rest);
        }
      }
    }
  }

  /** Every page counted without a name is either a `NoName` page or a matched page without a name. */
  lemma {:induction false} NoNameExcess(results: seq<ProcessingResult>)
    ensures EmptyAreaCount(results) >= StatusCount(results, NoName)
  {
    if results != [] {
      NoNameExcess(results[1..]);
    }
  }

  /** A matched page whose name came back empty is counted twice: as identified and as an empty area. */
  lemma MatchedWithoutNameCountsTwice(r: ProcessingResult)
    requires r.matchedEmployee.Some? && r.extractedName == ""
    ensures MatchedCount([r]) + UnmatchedNameCount([r]) + EmptyAreaCount([r]) == 2
  {
  }

  class TestRun {
    var testResults: seq<ProcessingResult>
    var isTesting: bool
    var hasRun: bool
    var testFile: Option<File>

    constructor ()
      ensures testResults == [] && !isTesting && !hasRun && testFile == None
    {
      testResults := [];
      isTesting := false;
      hasRun := false;
      testFile := None;
    }

    /** The finish button's enabled state. */
    predicate FinishEnabled()
      reads this
    {
      hasRun && !isTesting
    }

    /**
     * Runs the test. Without a current company or a file only an error is
     * set. A resolved run stores the results and marks the test as run,
     * with a success message when some page matched and an error otherwise;
     * a rejected run sets an error and keeps the previous results.
     */
    method RunTest(store: AppStore.Store, outcome: ApiOutcome<TestTemplateResponse>) returns (called: bool)
      modifies this, store
      ensures testFile == old(testFile)
      ensures called <==> old(store.currentCompany).Some? && testFile.Some?
      ensures old(store.currentCompany).None? ==>
        store.View() == old(store.View()).(error := Some(NoCompanyData), successMessage := None)
      ensures old(store.currentCompany).Some? && testFile.None? ==>
        store.View() == old(store.View()).(error := Some(NoTestFile), successMessage := None)
      ensures !called ==> testResults == old(testResults) && hasRun == old(hasRun) && isTesting == old(isTesting)
      ensures called ==> !isTesting && (FinishEnabled() <==> hasRun)
      ensures called && outcome.Rejected? ==>
        testResults == old(testResults) && hasRun == old(hasRun)
        && store.View() == old(store.View()).(isLoading := false,
          error := Some(ErrorMessage(outcome.detail, TestFailed)), successMessage := None)
      ensures called && outcome.Resolved? ==>
        testResults == outcome.response.results && hasRun
        && var n := MatchedCount(outcome.response.results);
        store.View() == (if n > 0
          then old(store.View()).(isLoading := false, error := None, successMessage := Some(TestMatches(n)))
          else old(store.View()).(isLoading := false, error := Some(NoMatches), successMessage := None))
    {
      if store.currentCompany.None? {
        store.SetError(Some(NoCompanyData));
        return false;
      }
      if testFile.None? {
        store.SetError(Some(NoTestFile));
        return false;
      }
      called := true;
      isTesting := true;
      store.SetLoading(true);
      store.SetError(None);
      match outcome {
        case Rejected(detail) =>
          store.SetError(Some(ErrorMessage(detail, TestFailed)));
        case Resolved(response) =>
          testResults := response.results;
          hasRun := true;
          var successCount := MatchedCount(response.results);
          if successCount > 0 {
            store.SetSuccessMessage(Some(TestMatches(successCount)));
          } else {
            store.SetError(Some(NoMatches));
          }
      }
      isTesting := false;
      store.SetLoading(false);
    }

    /**
     * Finishes the setup. A current company is written to the browser store
     * and appended to the store's list with a success message; the step then
     * becomes `complete`. A failed write throws out of the handler before
     * anything else happens.
     */
    method CompleteSetup(store: AppStore.Store, configs: ConfigStore.CompanyConfigService, writeOk: bool)
      modifies store, configs
      ensures old(store.currentCompany).None? ==>
        store.View() == old(store.View()).(setupStep := Complete) && configs.slot == old(configs.slot)
      ensures old(store.currentCompany).Some? && !writeOk ==>
        store.View() == old(store.View()) && configs.slot == old(configs.slot)
      ensures old(store.currentCompany).Some? && writeOk ==>
        store.View() == old(store.View()).(companies := old(store.companies) + [old(store.currentCompany).value],
          error := None, successMessage := Some(SetupCompleted), setupStep := Complete)
        && configs.GetConfig(old(store.currentCompany).value.companyId) == old(store.currentCompany)
    {
      var current := store.currentCompany;
      if current.Some? {
        var written := configs.SaveConfig(current.value, writeOk);
        if written.Err? {
          return;
        }
        store.AddCompany(current.value);
        store.SetSuccessMessage(Some(SetupCompleted));
      }
      store.SetSetupStep(Complete);
    }

    /** Back to the roster step and nothing else. */
    method GoBack(store: AppStore.Store)
      modifies store
      ensures store.View() == old(store.View()).(setupStep := Employees)
    {
      store.SetSetupStep(Employees);
    }
  }
}
