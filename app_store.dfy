/**
 * The application store: one record of wizard, processing, message and
 * authentication state, and one action per way the components change it.
 * Every action replaces the fields it names and keeps every other field.
 */
module AppStore {
  import opened Wrappers
  import opened Types
  import ApiClient

  /** The whole store as one value, so that an action's effect is a record update of the old value. */
  datatype StoreView = StoreView(
    auth: AuthState,
    companies: seq<Template>,
    currentCompany: Option<Template>,
    setupStep: SetupStep,
    previewUrl: Option<string>,
    uploadedSampleId: Option<string>,
    isLoading: bool,
    error: Option<Msg>,
    successMessage: Option<Msg>,
    processId: Option<string>,
    previewResults: seq<PreviewResult>,
    emailSendResults: seq<EmailSendResult>,
    processingResults: seq<ProcessingResult>)

  /** The state the store starts in. */
  const InitialView := StoreView(SignedOutAuth, [], None, Upload, None, None, false, None, None, None, [], [], [])

  /** Only one of the two message slots is filled. */
  predicate OneMessage(v: StoreView) {
    v.error.None? || v.successMessage.None?
  }

  /**
   * `updateCompany`'s new list: every company whose id matches gets the
   * update merged in, in place; every other entry and the length stay.
   */
  function UpdatedCompanies(companies: seq<Template>, companyId: string, u: TemplateUpdate): (r: seq<Template>)
    ensures |r| == |companies|
    ensures forall i :: 0 <= i < |r| && companies[i].companyId != companyId ==> r[i] == companies[i]
    ensures forall i :: 0 <= i < |r| && companies[i].companyId == companyId ==> r[i] == ApplyUpdate(companies[i], u)
  {
    if companies == [] then []
    else
      [if companies[0].companyId == companyId then ApplyUpdate(companies[0], u) else companies[0]]
      + UpdatedCompanies(companies[1..], companyId, u)
  }

  /** `updateCompany`'s new current company: updated iff it is set and its id matches. */
  function UpdatedCurrent(current: Option<Template>, companyId: string, u: TemplateUpdate): (r: Option<Template>)
    ensures r.Some? <==> current.Some?
    ensures current.Some? && current.value.companyId == companyId ==> r == Some(ApplyUpdate(current.value, u))
    ensures current.Some? && current.value.companyId != companyId ==> r == current
  {
    if current.Some? && current.value.companyId == companyId then Some(ApplyUpdate(current.value, u)) else current
  }

  /** An update that carries no properties leaves the list as it was. */
  lemma {:induction false} EmptyUpdateKeepsCompanies(companies: seq<Template>, companyId: string)
    ensures UpdatedCompanies(companies, companyId, NoUpdate) == companies
  {
    if companies != [] {
      EmptyUpdateKeepsCompanies(companies[1..], companyId);
    }
  }

  /** A company list with no entry for the id is not touched by an update of that id. */
  lemma {:induction false} UpdateOfAbsentId(companies: seq<Template>, companyId: string, u: TemplateUpdate)
    requires forall i :: 0 <= i < |companies| ==> companies[i].companyId != companyId
    ensures UpdatedCompanies(companies, companyId, u) == companies
  {
    if companies != [] {
      UpdateOfAbsentId(companies[1..], companyId, u);
    }
  }

  class Store {
    var auth: AuthState
    var companies: seq<Template>
    var currentCompany: Option<Template>
    var setupStep: SetupStep
    var previewUrl: Option<string>
    var uploadedSampleId: Option<string>
    var isLoading: bool
    var error: Option<Msg>
    var successMessage: Option<Msg>
    var processId: Option<string>
    var previewResults: seq<PreviewResult>
    var emailSendResults: seq<EmailSendResult>
    var processingResults: seq<ProcessingResult>

    function View(): StoreView
      reads this
    {
      StoreView(auth, companies, currentCompany, setupStep, previewUrl, uploadedSampleId, isLoading,
        error, successMessage, processId, previewResults, emailSendResults, processingResults)
    }

    /** The store as the application creates it. */
    constructor ()
      ensures View() == InitialView
    {
      auth := SignedOutAuth;
      companies := [];
      currentCompany := None;
      setupStep := Upload;
      previewUrl := None;
      uploadedSampleId := None;
      isLoading := false;
      error := None;
      successMessage := None;
      processId := None;
      previewResults := [];
      emailSendResults := [];
      processingResults := [];
    }

    method SetCompanies(list: seq<Template>)
      modifies this
      ensures View() == old(View()).(companies := list)
    {
      companies := list;
    }

    method SetCurrentCompany(company: Option<Template>)
      modifies this
      ensures View() == old(View()).(currentCompany := company)
    {
      currentCompany := company;
    }

    /** Appends without looking for an entry with the same id. */
    method AddCompany(company: Template)
      modifies this
      ensures View() == old(View()).(companies := old(companies) + [company])
      ensures |companies| == |old(companies)| + 1 && companies[|companies| - 1] == company
    {
      companies := companies + [company];
    }

    method UpdateCompany(companyId: string, u: TemplateUpdate)
      modifies this
      ensures View() == old(View()).(
        companies := UpdatedCompanies(old(companies), companyId, u),
        currentCompany := UpdatedCurrent(old(currentCompany), companyId, u))
    {
      companies := UpdatedCompanies(companies, companyId, u);
      currentCompany := UpdatedCurrent(currentCompany, companyId, u);
    }

    method SetSetupStep(step: SetupStep)
      modifies this
      ensures View() == old(View()).(setupStep := step)
    {
      setupStep := step;
    }

    method SetPreviewUrl(url: Option<string>)
      modifies this
      ensures View() == old(View()).(previewUrl := url)
    {
      previewUrl := url;
    }

    method SetUploadedSampleId(id: Option<string>)
      modifies this
      ensures View() == old(View()).(uploadedSampleId := id)
    {
      uploadedSampleId := id;
    }

    /** Back to the first wizard step; companies, auth and the processing state stay. */
    method ResetSetup()
      modifies this
      ensures View() == old(View()).(setupStep := Upload, previewUrl := None, uploadedSampleId := None,
        currentCompany := None, processingResults := [], error := None, successMessage := None)
    {
      setupStep := Upload;
      previewUrl := None;
      uploadedSampleId := None;
      currentCompany := None;
      processingResults := [];
      error := None;
      successMessage := None;
    }

    method SetLoading(loading: bool)
      modifies this
      ensures View() == old(View()).(isLoading := loading)
    {
      isLoading := loading;
    }

    /** Sets the error and clears the success message. */
    method SetError(e: Option<Msg>)
      modifies this
      ensures View() == old(View()).(error := e, successMessage := None)
      ensures OneMessage(View())
    {
      error := e;
      successMessage := None;
    }

    /** Sets the success message and clears the error. */
    method SetSuccessMessage(m: Option<Msg>)
      modifies this
      ensures View() == old(View()).(successMessage := m, error := None)
      ensures OneMessage(View())
    {
      successMessage := m;
      error := None;
    }

    method ClearMessages()
      modifies this
      ensures View() == old(View()).(error := None, successMessage := None)
    {
      error := None;
      successMessage := None;
    }

    method SetProcessId(id: Option<string>)
      modifies this
      ensures View() == old(View()).(processId := id)
    {
      processId := id;
    }

    method SetPreviewResults(results: seq<PreviewResult>)
      modifies this
      ensures View() == old(View()).(previewResults := results)
    {
      previewResults := results;
    }

    method SetEmailSendResults(results: seq<EmailSendResult>)
      modifies this
      ensures View() == old(View()).(emailSendResults := results)
    {
      emailSendResults := results;
    }

    /** Forgets the current processing run and nothing else. */
    method ClearProcessing()
      modifies this
      ensures View() == old(View()).(processId := None, previewResults := [], emailSendResults := [],
        processingResults := [])
    {
      processId := None;
      previewResults := [];
      emailSendResults := [];
      processingResults := [];
    }

    /** The user is authenticated exactly when one is given; the token is kept. */
    method SetAuthUser(user: Option<User>)
      modifies this
      ensures View() == old(View()).(auth := old(auth).(user := user, isAuthenticated := user.Some?))
    {
      auth := auth.(user := user, isAuthenticated := user.Some?);
    }

    method SetAuthToken(token: Option<string>)
      modifies this
      ensures View() == old(View()).(auth := old(auth).(token := token))
    {
      auth := auth.(token := token);
    }

    method SetAuthLoading(loading: bool)
      modifies this
      ensures View() == old(View()).(auth := old(auth).(isLoading := loading))
    {
      auth := auth.(isLoading := loading);
    }

    method SetUsageStats(usage: Option<UsageStats>)
      modifies this
      ensures View() == old(View()).(auth := old(auth).(usage := usage))
    {
      auth := auth.(usage := usage);
    }

    /**
     * `signOut`: the auth service drops the stored token, then the store goes
     * back to the signed-out record with a success message; the error slot
     * is left as it was, so both messages can be set afterwards.
     */
    method SignOut(session: ApiClient.Session)
      modifies this, session
      ensures View() == old(View()).(auth := SignedOutAuth, successMessage := Some(SignedOutMessage))
      ensures session.authToken == None && session.reloadRequested == old(session.reloadRequested)
    {
      // the auth service's logout removes the stored token first
      session.authToken := None;
      auth := SignedOutAuth;
      successMessage := Some(SignedOutMessage);
    }
  }

  /** `signOut` does not clear a pending error, so it can leave both message slots filled. */
  lemma SignOutKeepsError(v: StoreView)
    requires v.error.Some?
    ensures !OneMessage(v.(auth := SignedOutAuth, successMessage := Some(SignedOutMessage)))
  {
  }
}
