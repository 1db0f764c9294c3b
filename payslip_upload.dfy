/**
 * The processing page of one company: the route's company id is checked,
 * a payslip file is sent for a preview, and the e-mails of the whole batch
 * are sent by process id (and sent once more on retry).
 */
module PayslipUpload {
  import opened Wrappers
  import opened Types
  import Strings
  import AppStore
  import Results
  import EmailResults

  /** The class `[a-zA-Z0-9_-]`. */
  predicate IsIdChar(c: char) {
    ('a' <= c <= 'z') || ('A' <= c <= 'Z') || ('0' <= c <= '9') || c == '_' || c == '-'
  }

  /**
   * `/^[^a-zA-Z0-9_-]+$/.test(s)`, decided one character at a time. A
   * character outside the Basic Multilingual Plane is two code units of
   * JavaScript, both outside the class, so it is treated the same way.
   */
  predicate NoIdCharRegex(s: string) {
    s != [] && !IsIdChar(s[0]) && (|s| == 1 || NoIdCharRegex(s[1..]))
  }

  lemma {:induction false} NoIdCharRegexSpec(s: string)
    ensures NoIdCharRegex(s) <==> s != [] && forall i :: 0 <= i < |s| ==> !IsIdChar(s[i])
  {
    if |s| > 1 {
      NoIdCharRegexSpec(s[1..]);
      assert forall i :: 1 <= i < |s| ==> s[i] == s[1..][i - 1];
    }
  }

  /**
   * The page's guard: the id is missing or empty, shorter than three UTF-16
   * code units, or made only of characters outside `[a-zA-Z0-9_-]`.
   */
  predicate IsInvalidCompanyId(companyId: Option<string>) {
    !Truthy(companyId) || Strings.Utf16Length(companyId.value) < 3 || NoIdCharRegex(companyId.value)
  }

  /** An id is rejected exactly when it is missing or short, or has no allowed character at all. */
  lemma InvalidCompanyIdSpec(companyId: Option<string>)
    ensures IsInvalidCompanyId(companyId) <==>
      companyId.None? || Strings.Utf16Length(companyId.value) < 3
      || forall i :: 0 <= i < |companyId.value| ==> !IsIdChar(companyId.value[i])
  {
    if companyId.Some? {
      NoIdCharRegexSpec(companyId.value);
    }
  }

  /** One allowed character anywhere is enough for an id of length three or more. */
  lemma OneAllowedCharSuffices(id: string, k: nat)
    requires Strings.Utf16Length(id) >= 3 && k < |id| && IsIdChar(id[k])
    ensures !IsInvalidCompanyId(Some(id))
  {
    NoIdCharRegexSpec(id);
  }

  lemma InvalidExamples()
    ensures IsInvalidCompanyId(Some("ab"))
    ensures IsInvalidCompanyId(Some("!!!"))
    ensures !IsInvalidCompanyId(Some("abc"))
    ensures !IsInvalidCompanyId(Some("a!b"))
  {
    assert Strings.Utf16Length("!!!") == 3;
    NoIdCharRegexSpec("!!!");
    OneAllowedCharSuffices("abc", 0);
    OneAllowedCharSuffices("a!b", 0);
  }

  /**
   * The preview request. The handler passes two of the three arguments the
   * client function declares, so the company configuration is always
   * undefined: the form field holds the string `undefined`, which the
   * server's preview route does not read.
   */
  datatype PreviewRequest = PreviewRequest(file: File, companyId: string, companyConfig: Option<Template>)

  datatype PreviewResponse = PreviewResponse(processId: string, preview: seq<PreviewResult>)

  /** The send request: by process id alone; the undefined configuration drops out of the JSON body. */
  datatype SendRequest = SendRequest(processId: string, companyId: string, companyConfig: Option<Template>)

  datatype SendResponse = SendResponse(emailResults: seq<EmailSendResult>)

  /** The store after the usage refresh: `refresh` is the usage the user lookup returned, if it returned a user. */
  function Refreshed(v: AppStore.StoreView, refresh: Option<Option<UsageStats>>): AppStore.StoreView {
    if refresh.Some? then v.(auth := v.auth.(usage := refresh.value)) else v
  }

  /** The file-upload panel shows only before a run. */
  predicate ShowsUploadPanel(v: AppStore.StoreView) {
    !Truthy(v.processId) && |v.emailSendResults| == 0
  }

  predicate ShowsResults(v: AppStore.StoreView) {
    |v.previewResults| > 0 || |v.emailSendResults| > 0
  }

  class PayslipPage {
    /** The route parameter; fixed for the page's lifetime. */
    const companyId: Option<string>
    var selectedFile: Option<File>

    constructor (companyId: Option<string>)
      ensures this.companyId == companyId && selectedFile == None
    {
      this.companyId := companyId;
      selectedFile := None;
    }

    method RefreshUsageStats(store: AppStore.Store, refresh: Option<Option<UsageStats>>)
      modifies store
      ensures store.View() == Refreshed(old(store.View()), refresh)
    {
      if refresh.Some? {
        store.SetUsageStats(refresh.value);
      }
    }

    /**
     * Picking a file clears the previous run and asks for a preview. A
     * resolved preview stores its process id and results, refreshes the
     * usage figures, and reports the matches (or an error when there are
     * none); a rejected one sets an error and forgets the file.
     */
    method HandleFileSelect(store: AppStore.Store, file: File, outcome: ApiOutcome<PreviewResponse>,
                            refresh: Option<Option<UsageStats>>)
      returns (sent: Option<PreviewRequest>)
      modifies this, store
      ensures !Truthy(companyId) ==>
        sent == None && store.View() == old(store.View()) && selectedFile == old(selectedFile)
      ensures Truthy(companyId) ==> sent == Some(PreviewRequest(file, companyId.value, None))
      ensures Truthy(companyId) && outcome.Rejected? ==>
        selectedFile == None
        && store.View() == old(store.View()).(isLoading := false, error := Some(PreviewFailed), successMessage := None,
          processId := None, previewResults := [], emailSendResults := [], processingResults := [])
      ensures Truthy(companyId) && outcome.Resolved? ==>
        selectedFile == Some(file)
        && var n := |Results.Matched(outcome.response.preview)|;
        var cleared := old(store.View()).(isLoading := false, processId := Some(outcome.response.processId),
          previewResults := outcome.response.preview, emailSendResults := [], processingResults := []);
        store.View() == Refreshed(
          if n > 0 then cleared.(error := None, successMessage := Some(PreviewMatches(n)))
          else cleared.(error := Some(NoMatches), successMessage := None),
          refresh)
      ensures Truthy(companyId) && outcome.Resolved? ==>
        (store.successMessage.Some? <==>
          exists i :: 0 <= i < |outcome.response.preview| && outcome.response.preview[i].foundMatch)
    {
      if !Truthy(companyId) {
        return None;
      }
      selectedFile := Some(file);
      store.SetLoading(true);
      store.SetError(None);
      store.ClearProcessing();
      sent := Some(PreviewRequest(file, companyId.value, None));
      match outcome {
        case Rejected(_) =>
          store.SetError(Some(PreviewFailed));
          selectedFile := None;
        case Resolved(response) =>
          store.SetProcessId(Some(response.processId));
          store.SetPreviewResults(response.preview);
          RefreshUsageStats(store, refresh);
          var matchedCount := |Results.Matched(response.preview)|;
          if matchedCount > 0 {
            store.SetSuccessMessage(Some(PreviewMatches(matchedCount)));
          } else {
            store.SetError(Some(NoMatches));
          }
      }
      store.SetLoading(false);
    }

    /**
     * Sends the batch. Without a company id or a process id nothing
     * happens. The request names the process only: the selection the
     * results panel hands over is ignored. A resolved send stores the
     * results, refreshes the usage figures and reports the number sent, if
     * any; a rejected one sets an error.
     */
    method HandleSendEmails(store: AppStore.Store, selection: seq<PreviewResult>, outcome: ApiOutcome<SendResponse>,
                            refresh: Option<Option<UsageStats>>)
      returns (sent: Option<SendRequest>)
      modifies store
      ensures !Truthy(companyId) || !Truthy(old(store.processId)) ==>
        sent == None && store.View() == old(store.View())
      ensures Truthy(companyId) && Truthy(old(store.processId)) ==>
        sent == Some(SendRequest(old(store.processId).value, companyId.value, None))
      ensures sent.Some? && outcome.Rejected? ==>
        store.View() == old(store.View()).(isLoading := false, error := Some(SendFailed), successMessage := None)
      ensures sent.Some? && outcome.Resolved? ==>
        var n := EmailResults.SuccessCount(outcome.response.emailResults);
        var stored := old(store.View()).(isLoading := false, emailSendResults := outcome.response.emailResults,
          error := None);
        store.View() == Refreshed(if n > 0 then stored.(successMessage := Some(EmailsSent(n)))
          else stored.(successMessage := None), refresh)
      ensures sent.Some? && outcome.Resolved? ==>
        (store.successMessage.Some? <==>
          exists i :: 0 <= i < |outcome.response.emailResults| && outcome.response.emailResults[i].emailSent)
    {
      if !Truthy(companyId) || !Truthy(store.processId) {
        return None;
      }
      store.SetLoading(true);
      store.SetError(None);
      sent := Some(SendRequest(store.processId.value, companyId.value, None));
      match outcome {
        case Rejected(_) =>
          store.SetError(Some(SendFailed));
        case Resolved(response) =>
          store.SetEmailSendResults(response.emailResults);
          RefreshUsageStats(store, refresh);
          var successCount := EmailResults.SuccessCount(response.emailResults);
          EmailResults.NoSuccessIffNoneSent(response.emailResults);
          if successCount > 0 {
            store.SetSuccessMessage(Some(EmailsSent(successCount)));
          }
      }
      store.SetLoading(false);
    }

    /** Retry clears the e-mail results and sends the same whole batch again. */
    method HandleRetryEmails(store: AppStore.Store, outcome: ApiOutcome<SendResponse>,
                             refresh: Option<Option<UsageStats>>)
      returns (sent: Option<SendRequest>)
      modifies store
      ensures !Truthy(companyId) || !Truthy(old(store.processId)) ==>
        sent == None && store.View() == old(store.View()).(emailSendResults := [])
      ensures Truthy(companyId) && Truthy(old(store.processId)) ==>
        sent == Some(SendRequest(old(store.processId).value, companyId.value, None))
      ensures sent.Some? && outcome.Rejected? ==>
        store.View() == old(store.View()).(emailSendResults := [], isLoading := false, error := Some(SendFailed),
          successMessage := None)
      ensures sent.Some? && outcome.Resolved? ==>
        var n := EmailResults.SuccessCount(outcome.response.emailResults);
        var stored := old(store.View()).(isLoading := false, emailSendResults := outcome.response.emailResults,
          error := None);
        store.View() == Refreshed(if n > 0 then stored.(successMessage := Some(EmailsSent(n)))
          else stored.(successMessage := None), refresh)
      ensures sent.Some? && outcome.Resolved? ==>
        (store.successMessage.Some? <==>
          exists i :: 0 <= i < |outcome.response.emailResults| && outcome.response.emailResults[i].emailSent)
    {
      store.SetEmailSendResults([]);
      sent := HandleSendEmails(store, [], outcome, refresh);
    }

    /** The mount effect, once the id has passed the guard: the previous run is forgotten and no file is selected. */
    method OnMount(store: AppStore.Store)
      modifies this, store
      ensures selectedFile == None
      ensures store.View() == old(store.View()).(processId := None, previewResults := [], emailSendResults := [],
        processingResults := [])
      ensures ShowsUploadPanel(store.View())
    {
      store.ClearProcessing();
      selectedFile := None;
    }

    /** Start over: no file, no run; the upload panel is shown again. */
    method HandleStartOver(store: AppStore.Store)
      modifies this, store
      ensures selectedFile == None
      ensures store.View() == old(store.View()).(processId := None, previewResults := [], emailSendResults := [],
        processingResults := [])
      ensures ShowsUploadPanel(store.View()) && !ShowsResults(store.View())
    {
      selectedFile := None;
      store.ClearProcessing();
    }
  }
}
