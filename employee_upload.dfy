/**
 * The wizard's roster step: the chosen CSV file is parsed in the browser,
 * and the upload sends it for the current company and records the
 * name-to-e-mail map locally.
 */
module EmployeeUpload {
  import opened Wrappers
  import opened Types
  import Roster
  import AppStore
  import ConfigStore

  datatype UploadEmployeesResponse = UploadEmployeesResponse(message: string, template: Option<Template>)

  class RosterForm {
    var selectedFile: Option<File>
    var parsedEmployees: seq<Roster.ParsedEmployee>
    var parseErrors: seq<Roster.RosterError>
    var isUploading: bool

    constructor ()
      ensures selectedFile == None && parsedEmployees == [] && parseErrors == [] && !isUploading
    {
      selectedFile := None;
      parsedEmployees := [];
      parseErrors := [];
      isUploading := false;
    }

    /** Picking a file parses it; `text` is the file's text, or `None` when it cannot be read. */
    method HandleFileSelect(file: File, text: Option<string>)
      modifies this
      ensures selectedFile == Some(file) && isUploading == old(isUploading)
      ensures text.None? ==> parsedEmployees == [] && parseErrors == [Roster.UnreadableFile]
      ensures text.Some? && |Roster.Lines(text.value)| < 2 ==>
        parsedEmployees == [] && parseErrors == [Roster.NeedsHeaderAndRow]
      ensures text.Some? && |Roster.Lines(text.value)| >= 2 ==>
        parsedEmployees == Roster.Accepted(Roster.DataOutcomes(Roster.Lines(text.value)))
        && parseErrors == Roster.Rejected(Roster.DataOutcomes(Roster.Lines(text.value)))
    {
      selectedFile := Some(file);
      parsedEmployees, parseErrors := Roster.ParseCsv(text);
    }

    predicate CanUpload()
      reads this
    {
      selectedFile.Some? && |parsedEmployees| > 0 && !isUploading
    }

    /**
     * The upload handler. Without a file or a current company, or with no
     * valid employee, it only sets an error and makes no call (`called` is
     * false). A resolved call writes the returned template to the browser
     * store, gives the current company the parsed roster and moves on to the
     * test step; a rejected call or a failed write sets an error and keeps
     * the step.
     */
    method HandleUpload(store: AppStore.Store, configs: ConfigStore.CompanyConfigService,
                        outcome: ApiOutcome<UploadEmployeesResponse>, writeOk: bool)
      returns (called: bool)
      modifies this, store, configs
      ensures selectedFile == old(selectedFile) && parsedEmployees == old(parsedEmployees)
      ensures parseErrors == old(parseErrors)
      ensures called <==> selectedFile.Some? && old(store.currentCompany).Some? && |parsedEmployees| > 0
      ensures old(CanUpload()) && old(store.currentCompany).Some? ==> called
      ensures selectedFile.None? || old(store.currentCompany).None? ==>
        store.View() == old(store.View()).(error := Some(NoFileOrCompany), successMessage := None)
        && configs.slot == old(configs.slot) && isUploading == old(isUploading)
      ensures selectedFile.Some? && old(store.currentCompany).Some? && |parsedEmployees| == 0 ==>
        store.View() == old(store.View()).(error := Some(NoValidEmployees), successMessage := None)
        && configs.slot == old(configs.slot) && isUploading == old(isUploading)
      ensures called ==> !isUploading
      ensures called && outcome.Rejected? ==>
        store.View() == old(store.View()).(isLoading := false,
          error := Some(ErrorMessage(outcome.detail, EmployeesUploadFailed)), successMessage := None)
        && configs.slot == old(configs.slot)
      ensures called && outcome.Resolved? && outcome.response.template.None? ==>
        store.View() == old(store.View()).(isLoading := false, error := None,
          successMessage := Some(EmployeesUploaded(outcome.response.message)), setupStep := Test)
        && configs.slot == old(configs.slot)
      ensures called && outcome.Resolved? && outcome.response.template.Some? && !writeOk ==>
        store.View() == old(store.View()).(isLoading := false,
          error := Some(EmployeesUploadFailed), successMessage := None)
        && configs.slot == old(configs.slot)
      ensures called && outcome.Resolved? && outcome.response.template.Some? && writeOk ==>
        var roster := NoUpdate.(employeeEmails := Some(Roster.NameEmails(parsedEmployees)));
        store.View() == old(store.View()).(isLoading := false, error := None,
          successMessage := Some(EmployeesUploaded(outcome.response.message)), setupStep := Test,
          companies := AppStore.UpdatedCompanies(old(store.companies), old(store.currentCompany).value.companyId, roster),
          currentCompany := Some(ApplyUpdate(old(store.currentCompany).value, roster)))
        && configs.GetConfig(outcome.response.template.value.companyId) == Some(outcome.response.template.value)
    {
      var current := store.currentCompany;
      if selectedFile.None? || current.None? {
        store.SetError(Some(NoFileOrCompany));
        return false;
      }
      if |parsedEmployees| == 0 {
        store.SetError(Some(NoValidEmployees));
        return false;
      }
      called := true;
      isUploading := true;
      store.SetLoading(true);
      store.SetError(None);
      ApplyUploadResponse(store, configs, current.value.companyId, outcome, writeOk);
      isUploading := false;
      store.SetLoading(false);
    }

    /**
     * What the handler does with the call's outcome: a rejection sets its
     * error; a response stores its template, if any, and gives the company
     * the parsed roster before announcing success and moving on.
     */
    method ApplyUploadResponse(store: AppStore.Store, configs: ConfigStore.CompanyConfigService, companyId: string,
                               outcome: ApiOutcome<UploadEmployeesResponse>, writeOk: bool)
      modifies store, configs
      ensures outcome.Rejected? ==>
        store.View() == old(store.View()).(error := Some(ErrorMessage(outcome.detail, EmployeesUploadFailed)),
          successMessage := None)
        && configs.slot == old(configs.slot)
      ensures outcome.Resolved? && outcome.response.template.None? ==>
        store.View() == old(store.View()).(error := None,
          successMessage := Some(EmployeesUploaded(outcome.response.message)), setupStep := Test)
        && configs.slot == old(configs.slot)
      ensures outcome.Resolved? && outcome.response.template.Some? && !writeOk ==>
        store.View() == old(store.View()).(error := Some(EmployeesUploadFailed), successMessage := None)
        && configs.slot == old(configs.slot)
      ensures outcome.Resolved? && outcome.response.template.Some? && writeOk ==>
        var roster := NoUpdate.(employeeEmails := Some(Roster.NameEmails(parsedEmployees)));
        store.View() == old(store.View()).(error := None,
          successMessage := Some(EmployeesUploaded(outcome.response.message)), setupStep := Test,
          companies := AppStore.UpdatedCompanies(old(store.companies), companyId, roster),
          currentCompany := AppStore.UpdatedCurrent(old(store.currentCompany), companyId, roster))
        && configs.GetConfig(outcome.response.template.value.companyId) == Some(outcome.response.template.value)
    {
      match outcome {
        case Rejected(detail) =>
          store.SetError(Some(ErrorMessage(detail, EmployeesUploadFailed)));
        case Resolved(response) =>
          var saved := true;
          if response.template.Some? {
            var written := configs.SaveConfig(response.template.value, writeOk);
            if written.Err? {
              // the storage error carries no response detail
              store.SetError(Some(ErrorMessage(None, EmployeesUploadFailed)));
              saved := false;
            } else {
              var emails := Roster.NameEmailMap(parsedEmployees);
              store.UpdateCompany(companyId, NoUpdate.(employeeEmails := Some(emails)));
            }
          }
          if saved {
            store.SetSuccessMessage(Some(EmployeesUploaded(response.message)));
            store.SetSetupStep(Test);
          }
      }
    }

    /** Back to the crop step. */
    method GoBack(store: AppStore.Store)
      modifies store
      ensures store.View() == old(store.View()).(setupStep := Crop)
    {
      store.SetSetupStep(Crop);
    }
  }
}
