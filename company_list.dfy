/**
 * The home page's company list: it is loaded from the browser store, and
 * companies can be deleted one by one or all at once, exported and
 * imported.
 */
module CompanyList {
  import opened Wrappers
  import opened Types
  import AppStore
  import ConfigStore
  import Roster

  /** `companies.filter(c => c.company_id !== companyId)`. */
  function RemoveId(companies: seq<Template>, companyId: string): (r: seq<Template>)
    ensures |r| <= |companies|
    ensures forall t :: t in r <==> t in companies && t.companyId != companyId
  {
    if companies == [] then []
    else
      var rest := RemoveId(companies[1..], companyId);
      assert forall t :: t in companies[1..] ==> t in companies;
      assert companies == [companies[0]] + companies[1..];
      (if companies[0].companyId == companyId then [] else [companies[0]]) + rest
  }

  /** The filter keeps the order of what it keeps: it distributes over concatenation. */
  lemma {:induction false} RemoveIdAppend(a: seq<Template>, b: seq<Template>, companyId: string)
    ensures RemoveId(a + b, companyId) == RemoveId(a, companyId) + RemoveId(b, companyId)
  {
    if a != [] {
      var head := if a[0].companyId == companyId then [] else [a[0]];
      assert (a + b)[0] == a[0];
      assert (a + b)[1..] == a[1..] + b;
      calc {
        RemoveId(a + b, companyId);
        head + RemoveId(a[1..] + b, companyId);
        { RemoveIdAppend(a[1..], b, companyId); }
        head + (RemoveId(a[1..], companyId) + RemoveId(b, companyId));
        (head + RemoveId(a[1..], companyId)) + RemoveId(b, companyId);
        RemoveId(a, companyId) + RemoveId(b, companyId);
      }
    } else {
      assert a + b == b;
    }
  }

  /** A list without the id is left as it is. */
  lemma {:induction false} RemoveAbsentId(companies: seq<Template>, companyId: string)
    requires forall i :: 0 <= i < |companies| ==> companies[i].companyId != companyId
    ensures RemoveId(companies, companyId) == companies
  {
    if companies != [] {
      RemoveAbsentId(companies[1..], companyId);
      assert companies == [companies[0]] + companies[1..];
    }
  }

  /** The figure shown on a company's card: the number of roster names. */
  function EmployeeCount(t: Template): nat {
    |t.employeeEmails.Keys|
  }

  /** After a roster upload the card shows the number of distinct names the roster accepted. */
  lemma EmployeeCountAfterUpload(t: Template, employees: seq<Roster.ParsedEmployee>)
    ensures EmployeeCount(ApplyUpdate(t, NoUpdate.(employeeEmails := Some(Roster.NameEmails(employees)))))
      == |set e | e in employees :: e.name|
  {
    Roster.NameEmailsSpec(employees);
  }

  /** What the page shows: a spinner, the onboarding view for an empty list, or the cards. */
  datatype ListView = Spinner | Onboarding | Cards

  function ViewFor(isLoading: bool, companies: seq<Template>): (v: ListView)
    ensures v == Spinner <==> isLoading
    ensures v == Onboarding <==> !isLoading && |companies| == 0
    ensures v == Cards <==> !isLoading && |companies| > 0
  {
    if isLoading then Spinner else if |companies| == 0 then Onboarding else Cards
  }

  /** The download `exportConfigs` offers: a file name and the serialised configurations. */
  datatype Download = Download(fileName: string, configs: map<string, Template>)

  class CompanyListPage {
    var companies: seq<Template>
    var isLoading: bool
    /** The import file input's current file, if any. */
    var inputFile: Option<ConfigStore.ImportText>

    constructor ()
      ensures companies == [] && isLoading && inputFile == None
    {
      companies := [];
      isLoading := true;
      inputFile := None;
    }

    /** Reads the list from the browser store; every stored template once. */
    method LoadCompanies(configs: ConfigStore.CompanyConfigService)
      modifies this
      ensures !isLoading && inputFile == old(inputFile)
      ensures |companies| == |configs.AllConfigs()|
      ensures forall t :: t in companies <==> t in configs.AllConfigs().Values
    {
      isLoading := true;
      var loaded := configs.GetCompanyList();
      companies := loaded;
      isLoading := false;
    }

    /** With confirmation: empties the browser store and the list and reports it. */
    method HandleDeleteAll(store: AppStore.Store, configs: ConfigStore.CompanyConfigService, confirmed: bool)
      modifies this, store, configs
      ensures !confirmed ==>
        companies == old(companies) && store.View() == old(store.View()) && configs.slot == old(configs.slot)
      ensures confirmed ==>
        companies == [] && configs.AllConfigs() == map[]
        && store.View() == old(store.View()).(error := None, successMessage := Some(AllDeleted))
        && ViewFor(isLoading, companies) != Cards
      ensures isLoading == old(isLoading) && inputFile == old(inputFile)
    {
      if confirmed {
        configs.ClearAllConfigs();
        companies := [];
        store.SetSuccessMessage(Some(AllDeleted));
      }
    }

    /**
     * With confirmation: deletes the company from the browser store and
     * drops it from the list. The store's answer is not looked at, so the
     * card goes away even when the rewrite of the slot fails.
     */
    method HandleDeleteCompany(store: AppStore.Store, configs: ConfigStore.CompanyConfigService,
                               companyId: string, companyName: string, confirmed: bool, writeOk: bool)
      modifies this, store, configs
      ensures !confirmed ==>
        companies == old(companies) && store.View() == old(store.View()) && configs.slot == old(configs.slot)
      ensures confirmed ==>
        companies == RemoveId(old(companies), companyId)
        && store.View() == old(store.View()).(error := None, successMessage := Some(CompanyDeleted(companyName)))
      ensures confirmed && writeOk ==> configs.GetConfig(companyId) == None
      ensures confirmed && writeOk ==> configs.AllConfigs() == old(configs.AllConfigs()) - {companyId}
      ensures confirmed && !writeOk ==> configs.slot == old(configs.slot)
      ensures forall t :: t in companies ==> t.companyId != companyId || !confirmed
      ensures isLoading == old(isLoading) && inputFile == old(inputFile)
    {
      if confirmed {
        var _ := configs.DeleteConfig(companyId, writeOk);
        companies := RemoveId(companies, companyId);
        store.SetSuccessMessage(Some(CompanyDeleted(companyName)));
      }
    }

    /** The export button: the current configurations under a dated file name. */
    method HandleExportConfigs(store: AppStore.Store, configs: ConfigStore.CompanyConfigService, nowIso: string)
      returns (download: Download)
      modifies store
      ensures download == Download(ConfigStore.ExportFileName(nowIso), configs.AllConfigs())
      ensures store.View() == old(store.View()).(error := None, successMessage := Some(ConfigsExported))
    {
      download := Download(ConfigStore.ExportFileName(nowIso), configs.ExportedConfigs());
      store.SetSuccessMessage(Some(ConfigsExported));
    }

    /**
     * The import input's change handler. Without a file nothing happens.
     * A successful import reloads the list and reports the number of
     * imported keys; a failed one sets an error. Either way the input is
     * cleared afterwards.
     */
    method HandleImportConfigs(store: AppStore.Store, configs: ConfigStore.CompanyConfigService, writeOk: bool)
      returns (result: Option<Result<nat, ConfigStore.StorageError>>)
      modifies this, store, configs
      ensures old(inputFile).None? ==>
        result == None && companies == old(companies) && isLoading == old(isLoading)
        && store.View() == old(store.View()) && configs.slot == old(configs.slot) && inputFile == None
      ensures old(inputFile).Some? ==> inputFile == None && result.Some?
      ensures old(inputFile).Some? ==>
        (result.value.Ok? <==> ConfigStore.ImportedObject(old(inputFile).value).Some? && writeOk)
      ensures old(inputFile).Some? && result.value.Err? ==>
        store.View() == old(store.View()).(error := Some(ImportFailed), successMessage := None)
        && configs.slot == old(configs.slot) && companies == old(companies) && isLoading == old(isLoading)
      ensures old(inputFile).Some? && result.value.Ok? ==>
        result.value.value == ConfigStore.ImportedCount(old(inputFile).value)
        && configs.AllConfigs() == ConfigStore.Merge(old(configs.AllConfigs()),
          ConfigStore.ImportedObject(old(inputFile).value).value)
        && |companies| == |configs.AllConfigs()|
        && (forall t :: t in companies <==> t in configs.AllConfigs().Values)
        && !isLoading
        && store.View() == old(store.View()).(error := None, successMessage := Some(ConfigsImported(result.value.value)))
    {
      var file := inputFile;
      if file.None? {
        return None;
      }
      var imported := configs.ImportConfigs(file.value, writeOk);
      result := Some(imported);
      if imported.Ok? {
        LoadCompanies(configs);
        store.SetSuccessMessage(Some(ConfigsImported(imported.value)));
      } else {
        store.SetError(Some(ImportFailed));
      }
      inputFile := None;
    }
  }
}
