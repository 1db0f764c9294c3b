/**
 * The e-mail results view: how many e-mails went out and how many failed,
 * whether the retry button is offered, and the result rows.
 */
module EmailResults {
  import opened Types

  /** `emailSendResults.filter(r => r.email_sent).length`. */
  function SuccessCount(results: seq<EmailSendResult>): (n: nat)
    ensures n <= |results|
  {
    if results == [] then 0
    else SuccessCount(results[..|results| - 1]) + (if results[|results| - 1].emailSent then 1 else 0)
  }

  /** `emailSendResults.length - successCount`. */
  function FailedCount(results: seq<EmailSendResult>): (n: nat)
    ensures n + SuccessCount(results) == |results|
  {
    |results| - SuccessCount(results)
  }

  /** A reference count of the unsent results. */
  function UnsentCount(results: seq<EmailSendResult>): nat {
    if results == [] then 0
    else (if results[0].emailSent then 0 else 1) + UnsentCount(results[1..])
  }

  /** Both ends of a sequence give the same count. */
  lemma {:induction false} SuccessCountSplit(results: seq<EmailSendResult>)
    requires results != []
    ensures SuccessCount(results) == (if results[0].emailSent then 1 else 0) + SuccessCount(results[1..])
    decreases |results|
  {
    if |results| > 1 {
      var init := results[..|results| - 1];
      SuccessCountSplit(init);
      assert init[1..] == results[1..][..|results[1..]| - 1];
      assert init[0] == results[0];
    } else {
      assert results[1..] == [];
      assert results[..0] == [];
    }
  }

  /** The failed figure counts exactly the results that were not sent. */
  lemma {:induction false} FailedAreUnsent(results: seq<EmailSendResult>)
    ensures FailedCount(results) == UnsentCount(results)
  {
    if results != [] {
      SuccessCountSplit(results);
      FailedAreUnsent(results[1..]);
    }
  }

  /** No failure exactly when every result was sent. */
  lemma {:induction false} NoFailureIffAllSent(results: seq<EmailSendResult>)
    ensures FailedCount(results) == 0 <==> forall i :: 0 <= i < |results| ==> results[i].emailSent
  {
    FailedAreUnsent(results);
    UnsentZero(results);
  }

  lemma {:induction false} UnsentZero(results: seq<EmailSendResult>)
    ensures UnsentCount(results) == 0 <==> forall i :: 0 <= i < |results| ==> results[i].emailSent
  {
    if results != [] {
      UnsentZero(results[1..]);
      assert forall i :: 1 <= i < |results| ==> results[i] == results[1..][i - 1];
    }
  }

  /** No success exactly when no result was sent. */
  lemma {:induction false} NoSuccessIffNoneSent(results: seq<EmailSendResult>)
    ensures SuccessCount(results) == 0 <==> forall i :: 0 <= i < |results| ==> !results[i].emailSent
  {
    if results != [] {
      var init := results[..|results| - 1];
      NoSuccessIffNoneSent(init);
      assert forall i :: 0 <= i < |init| ==> init[i] == results[i];
    }
  }

  /** The retry button: hidden, or shown and enabled unless loading. */
  datatype RetryButton = Hidden | Offered(enabled: bool)

  function RetryButtonFor(results: seq<EmailSendResult>, hasRetryHandler: bool, isLoading: bool): (b: RetryButton)
    ensures b.Offered? <==> FailedCount(results) > 0 && hasRetryHandler
    ensures b.Offered? ==> (b.enabled <==> !isLoading)
  {
    if FailedCount(results) > 0 && hasRetryHandler then Offered(!isLoading) else Hidden
  }

  /** Retry is offered exactly when some e-mail failed and the page supplied a handler. */
  lemma RetryOfferedIffSomeFailed(results: seq<EmailSendResult>, hasRetryHandler: bool, isLoading: bool)
    ensures RetryButtonFor(results, hasRetryHandler, isLoading).Offered?
      <==> hasRetryHandler && exists i :: 0 <= i < |results| && !results[i].emailSent
  {
    NoFailureIffAllSent(results);
  }

  datatype EmailRow = EmailRow(page: int, name: string, email: string, sent: bool, detail: string)

  function RowOf(r: EmailSendResult): EmailRow {
    EmailRow(r.page, r.employeeName, r.employeeEmail, r.emailSent, r.emailDetail)
  }

  /** One row per result, in order, each showing its own result's page, name, e-mail, status and detail. */
  function Rows(results: seq<EmailSendResult>): (rows: seq<EmailRow>)
    ensures |rows| == |results|
    ensures forall i :: 0 <= i < |rows| ==> rows[i].page == results[i].page && (rows[i].sent <==> results[i].emailSent)
    ensures forall i :: 0 <= i < |rows| ==> rows[i].name == results[i].employeeName && rows[i].email == results[i].employeeEmail
    ensures forall i :: 0 <= i < |rows| ==> rows[i].detail == results[i].emailDetail
  {
    seq(|results|, i requires 0 <= i < |results| => RowOf(results[i]))
  }
}
