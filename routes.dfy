/**
 * The back end's request handlers that carry logic of their own: upload
 * validation, the quota check in front of the processing routes, saving a
 * crop area, the roster upload and the e-mail sending step. The logged-in
 * user, the date, the request fields and each e-mail's delivery outcome are
 * parameters; the template file and the processing cache are objects.
 */
module Routes {
  import opened Wrappers
  import opened Types
  import Strings
  import Slug
  import RateLimit
  import ConfigManager
  import EmailResults
  import FileUpload

  /** Why a roster upload failed inside its `try` block; every such failure is reported as a 500. */
  datatype CsvFailure = Undecodable | TemplateNotFound | SaveEmployeeListFailed

  /** The `detail` of each `HTTPException` the handlers raise. */
  datatype Detail =
    | FileTooLarge(maxMb: nat)
    | OnlyPdfAllowed
    | RateLimitExceeded(endpoint: string, used: int, limit: int)
    | MissingRequiredData
    | SaveCropAreaFailed
    | NotCsv
    | CsvProcessingError(cause: CsvFailure)
    | CompanyNotFound
    | ProcessIdRequired
    | ProcessExpired
    | InternalError        // an exception no handler catches

  datatype HttpError = HttpError(status: int, detail: Detail)

  const MiB: nat := 1024 * 1024

  /** `MAX_FILE_SIZE`: the configured number of megabytes, in bytes. */
  function MaxFileSize(maxFileSizeMb: nat): nat {
    maxFileSizeMb * MiB
  }

  /** `filename.lower().endswith(suffix)` for an ASCII suffix. */
  predicate LowerEndsWith(name: string, suffix: string) {
    Strings.EndsWith(Slug.Lower(name), suffix)
  }

  /**
   * `validate_file_size`: a size over the limit is refused with 413 first
   * (a missing or zero size skips the check); then a name that is missing,
   * empty or does not end in `.pdf` in any case is refused with 400.
   */
  function ValidateUpload(size: Option<nat>, filename: Option<string>, maxFileSizeMb: nat): (r: Result<(), HttpError>)
    ensures r == Err(HttpError(413, FileTooLarge(maxFileSizeMb))) <==>
      size.Some? && size.value > 0 && size.value > MaxFileSize(maxFileSizeMb)
    ensures r == Err(HttpError(400, OnlyPdfAllowed)) <==>
      !(size.Some? && size.value > MaxFileSize(maxFileSizeMb))
      && (filename.None? || filename.value == "" || !LowerEndsWith(filename.value, ".pdf"))
    ensures r.Ok? <==>
      !(size.Some? && size.value > MaxFileSize(maxFileSizeMb))
      && filename.Some? && LowerEndsWith(filename.value, ".pdf")
  {
    if size.Some? && size.value > 0 && size.value > MaxFileSize(maxFileSizeMb) then
      // the detail's `MAX_FILE_SIZE // (1024*1024)` gives back the megabytes
      assert MaxFileSize(maxFileSizeMb) / MiB == maxFileSizeMb;
      Err(HttpError(413, FileTooLarge(maxFileSizeMb)))
    else if filename.None? || filename.value == "" || !LowerEndsWith(filename.value, ".pdf") then
      Err(HttpError(400, OnlyPdfAllowed))
    else Ok(())
  }

  lemma {:induction false} LowerAppend(a: string, b: string)
    ensures Slug.Lower(a + b) == Slug.Lower(a) + Slug.Lower(b)
  {
    if a != [] {
      LowerAppend(a[1..], b);
      assert (a + b)[1..] == a[1..] + b;
    } else {
      assert a + b == b;
    }
  }

  lemma LowerAroundDot(stem: string, ext: string)
    ensures Slug.Lower(stem + "." + ext) == Slug.Lower(stem) + "." + Slug.Lower(ext)
  {
    LowerAppend(stem + ".", ext);
    LowerAppend(stem, ".");
    assert Slug.Lower(".") == ".";
  }

  /** A name whose text after the last dot lowers to `pdf` ends in `.pdf` once lowered. */
  lemma LowerEndsWithPdf(stem: string, ext: string)
    requires Slug.Lower(ext) == "pdf"
    ensures LowerEndsWith(stem + "." + ext, ".pdf")
  {
    LowerAroundDot(stem, ext);
    var lowered := Slug.Lower(stem + "." + ext);
    assert lowered == Slug.Lower(stem) + ".pdf";
    assert lowered[|lowered| - 4..] == ".pdf";
  }

  /**
   * A file the browser's picker accepts under `.pdf` within its default
   * limit, and whose name has a dot, passes the server's check under the
   * default limit of 10 MB.
   */
  lemma PickerAcceptedPasses(stem: string, ext: string, size: nat)
    requires '.' !in ext
    requires FileUpload.ValidateFile(File(stem + "." + ext, size), ".pdf", FileUpload.DefaultMaxSize).None?
    ensures ValidateUpload(Some(size), Some(stem + "." + ext), 10).Ok?
  {
    FileUpload.ExtensionAfterLastDot(stem, ext);
    FileUpload.AcceptPdf();
    var low := Slug.Lower(ext);
    assert "." + low == ".pdf";
    assert low == ("." + low)[1..];
    LowerEndsWithPdf(stem, ext);
    assert MaxFileSize(10) == FileUpload.DefaultMaxSize;
  }

  /**
   * Without a dot the picker takes the whole name as the extension, so a
   * file named `PDF` passes its `.pdf` filter; the server refuses the same
   * name with 400.
   */
  lemma DotlessNameDisagrees()
    ensures FileUpload.ValidateFile(File("PDF", 1), ".pdf", FileUpload.DefaultMaxSize).None?
    ensures ValidateUpload(Some(1), Some("PDF"), 10) == Err(HttpError(400, OnlyPdfAllowed))
  {
    FileUpload.ExtensionWithoutDot("PDF");
    FileUpload.LowerPdf();
    FileUpload.AcceptPdf();
    assert FileUpload.Extension("PDF") == ".pdf";
    assert !LowerEndsWith("PDF", ".pdf");
    assert MaxFileSize(10) == FileUpload.DefaultMaxSize;
  }

  /**
   * The quota dependency in front of the preview and send routes: the day
   * reset happens, and a count at or over the limit is refused with 429.
   */
  method RateLimitDependency(auth: RateLimit.AuthService, user: string, endpoint: string, today: string)
    returns (r: Result<(), HttpError>)
    modifies auth
    ensures auth.userLimits == RateLimit.AfterInit(old(auth.userLimits), user, today)
    ensures r.Ok? <==> RateLimit.CountOf(auth.userLimits[user], endpoint) < auth.LimitOf(endpoint)
    ensures r.Err? ==> r.error == HttpError(429, RateLimitExceeded(endpoint,
      RateLimit.CountOf(auth.userLimits[user], endpoint), auth.LimitOf(endpoint)))
  {
    var allowed, count, limit := auth.CheckRateLimit(user, endpoint, today);
    if !allowed {
      return Err(HttpError(429, RateLimitExceeded(endpoint, count, limit)));
    }
    r := Ok(());
  }

  /** Python's `int()` of a number: truncation toward zero. */
  function Truncate(x: real): (n: int)
    ensures x >= 0.0 ==> n as real <= x < n as real + 1.0
    ensures x < 0.0 ==> n as real - 1.0 < x <= n as real
  {
    if x >= 0.0 then x.Floor else -((-x).Floor)
  }

  /** `all([company_id, company_name, crop_area])`: present and non-empty. */
  predicate AllGiven(companyId: Option<string>, companyName: Option<string>, cropArea: Option<map<string, real>>) {
    companyId.Some? && companyId.value != "" && companyName.Some? && companyName.value != ""
    && cropArea.Some? && |cropArea.value| > 0
  }

  predicate HasCropKeys(crop: map<string, real>) {
    "x" in crop && "y" in crop && "width" in crop && "height" in crop
  }

  /** The template `save_crop_area` builds: the truncated rectangle, an empty roster, created now. */
  function CropTemplate(companyId: string, companyName: string, crop: map<string, real>, nowIso: string): (t: Template)
    requires HasCropKeys(crop)
    ensures t.companyId == companyId && t.companyName == companyName
    ensures t.employeeEmails == map[] && t.ocrConfidenceThreshold == ConfigManager.DefaultThreshold
    ensures t.createdAt == Some(nowIso) && t.updatedAt == None
  {
    Template(companyId, companyName,
      CropArea(Truncate(crop["x"]) as real, Truncate(crop["y"]) as real,
               Truncate(crop["width"]) as real, Truncate(crop["height"]) as real),
      map[], ConfigManager.DefaultThreshold, Some(nowIso), None)
  }

  /**
   * `save_crop_area`: 400 when a field is missing or empty; otherwise the
   * single template is replaced by one with an empty roster, and a failed
   * save is a 500. A crop object without one of its four keys raises an
   * uncaught `KeyError`.
   */
  method SaveCropArea(mgr: ConfigManager.ConfigManager, companyId: Option<string>, companyName: Option<string>,
                      cropArea: Option<map<string, real>>, nowIso: string, outcome: ConfigManager.WriteOutcome)
    returns (r: Result<(), HttpError>)
    modifies mgr
    ensures r == Err(HttpError(400, MissingRequiredData)) <==> !AllGiven(companyId, companyName, cropArea)
    ensures !AllGiven(companyId, companyName, cropArea) ==> mgr.file == old(mgr.file)
    ensures AllGiven(companyId, companyName, cropArea) && !HasCropKeys(cropArea.value) ==>
      r == Err(HttpError(500, InternalError)) && mgr.file == old(mgr.file)
    ensures AllGiven(companyId, companyName, cropArea) && HasCropKeys(cropArea.value) ==>
      (r.Ok? <==> outcome == ConfigManager.Written)
      && (r.Ok? ==> mgr.LoadTemplate() == Some(CropTemplate(companyId.value, companyName.value, cropArea.value, nowIso)))
      && (r.Err? ==> r.error == HttpError(500, SaveCropAreaFailed))
    ensures r == Err(HttpError(500, SaveCropAreaFailed)) ==>
      (outcome == ConfigManager.OpenFailed ==> mgr.file == old(mgr.file))
      && (outcome == ConfigManager.DumpFailed ==> mgr.file == ConfigManager.Unreadable && mgr.LoadTemplate() == None)
  {
    if !AllGiven(companyId, companyName, cropArea) {
      return Err(HttpError(400, MissingRequiredData));
    }
    var crop := cropArea.value;
    if !HasCropKeys(crop) {
      return Err(HttpError(500, InternalError));
    }
    var template := CropTemplate(companyId.value, companyName.value, crop, nowIso);
    var saved := mgr.SaveTemplate(template, outcome);
    if saved {
      r := Ok(());
    } else {
      r := Err(HttpError(500, SaveCropAreaFailed));
    }
  }

  /**
   * One roster line's contribution: a non-blank line with at least two
   * comma fields whose stripped name and e-mail are both non-empty.
   * The e-mail's form is not checked.
   */
  function LineEntry(line: string): (e: Option<(string, string)>)
    ensures e.Some? ==> e.value.0 != "" && e.value.1 != ""
  {
    if Strings.PyStrip(line) == "" then None
    else
      var parts := Strings.Split(line, ',');
      if |parts| < 2 then None
      else
        var name := Strings.PyStrip(parts[0]);
        var email := Strings.PyStrip(parts[1]);
        if name != "" && email != "" then Some((name, email)) else None
  }

  /** `csv_content.strip().split('\n')`. */
  function CsvLines(text: string): (lines: seq<string>)
    ensures |lines| >= 1
  {
    Strings.Split(Strings.PyStrip(text), '\n')
  }

  /** The dictionary after the data lines `lines[1..n]`. */
  function RosterUpTo(lines: seq<string>, n: nat): map<string, string>
    requires n <= |lines|
  {
    if n <= 1 then map[]
    else
      var m := RosterUpTo(lines, n - 1);
      var e := LineEntry(lines[n - 1]);
      if e.Some? then m[e.value.0 := e.value.1] else m
  }

  /** The `employee_emails` dictionary `upload_employees` builds from the file's text. */
  function BackendRoster(text: string): map<string, string> {
    RosterUpTo(CsvLines(text), |CsvLines(text)|)
  }

  /** A data line (not the header) whose entry carries this name. */
  predicate NamedAt(lines: seq<string>, j: nat, name: string)
    requires j < |lines|
  {
    1 <= j && LineEntry(lines[j]).Some? && LineEntry(lines[j]).value.0 == name
  }

  /** The keys are exactly the names of the accepted data lines; no key or value is empty. */
  lemma {:induction false} RosterUpToKeys(lines: seq<string>, n: nat)
    requires n <= |lines|
    ensures forall k :: k in RosterUpTo(lines, n) <==> exists j :: 0 <= j < n && NamedAt(lines, j, k)
    ensures forall k :: k in RosterUpTo(lines, n) ==> k != "" && RosterUpTo(lines, n)[k] != ""
  {
    if n > 1 {
      RosterUpToKeys(lines, n - 1);
      forall k ensures k in RosterUpTo(lines, n) <==> exists j :: 0 <= j < n && NamedAt(lines, j, k) {
        if k in RosterUpTo(lines, n) && !NamedAt(lines, n - 1, k) {
          assert k in RosterUpTo(lines, n - 1);
          var j :| 0 <= j < n - 1 && NamedAt(lines, j, k);
        }
        if exists j :: 0 <= j < n && NamedAt(lines, j, k) {
          var j :| 0 <= j < n && NamedAt(lines, j, k);
          if j < n - 1 {
            assert k in RosterUpTo(lines, n - 1);
          }
        }
      }
    }
  }

  /** For a duplicated name the last accepted line wins. */
  lemma {:induction false} RosterUpToLastWins(lines: seq<string>, n: nat, j: nat)
    requires j < n <= |lines| && 1 <= j && LineEntry(lines[j]).Some?
    requires forall i :: j < i < n ==> !NamedAt(lines, i, LineEntry(lines[j]).value.0)
    ensures LineEntry(lines[j]).value.0 in RosterUpTo(lines, n)
    ensures RosterUpTo(lines, n)[LineEntry(lines[j]).value.0] == LineEntry(lines[j]).value.1
  {
    if j < n - 1 {
      RosterUpToLastWins(lines, n - 1, j);
      assert !NamedAt(lines, n - 1, LineEntry(lines[j]).value.0);
    }
  }

  /** The header line never contributes, whatever it holds. */
  lemma HeaderIgnored(lines: seq<string>, header: string)
    requires |lines| >= 1
    ensures RosterUpTo(lines[0 := header], |lines|) == RosterUpTo(lines, |lines|)
  {
    HeaderIgnoredUpTo(lines, header, |lines|);
  }

  lemma {:induction false} HeaderIgnoredUpTo(lines: seq<string>, header: string, n: nat)
    requires 1 <= |lines| && n <= |lines|
    ensures RosterUpTo(lines[0 := header], n) == RosterUpTo(lines, n)
  {
    if n > 1 {
      HeaderIgnoredUpTo(lines, header, n - 1);
    }
  }

  /** Any text after the comma is taken as the e-mail: `name,email` with unpadded fields gives that pair. */
  lemma NoEmailCheck(name: string, email: string)
    requires name != [] && email != []
    requires ',' !in name && ',' !in email
    requires !Strings.IsPySpace(name[0]) && !Strings.IsPySpace(name[|name| - 1])
    requires !Strings.IsPySpace(email[0]) && !Strings.IsPySpace(email[|email| - 1])
    ensures LineEntry(name + "," + email) == Some((name, email))
  {
    var line := name + "," + email;
    assert line == name + [','] + email;
    Strings.SplitAppend(name, email, ',');
    Strings.SplitNoSeparator(name, ',');
    Strings.SplitNoSeparator(email, ',');
    Strings.TrimOfUnpadded(name, Strings.Py);
    Strings.TrimOfUnpadded(email, Strings.Py);
    Strings.TrimEmptyIffAllSpace(line, Strings.Py);
    assert line[0] == name[0];
  }

  /** One more line: the dictionary grows by that line's entry, if any. */
  lemma RosterUpToStep(lines: seq<string>, i: nat)
    requires 1 <= i < |lines|
    ensures LineEntry(lines[i]).None? ==> RosterUpTo(lines, i + 1) == RosterUpTo(lines, i)
    ensures LineEntry(lines[i]).Some? ==>
      RosterUpTo(lines, i + 1) == RosterUpTo(lines, i)[LineEntry(lines[i]).value.0 := LineEntry(lines[i]).value.1]
  {
  }

  /** The parsing loop of `upload_employees`. */
  method ParseEmployeeEmails(text: string) returns (employeeEmails: map<string, string>)
    ensures employeeEmails == BackendRoster(text)
    ensures forall k :: k in employeeEmails <==>
      exists j :: 0 <= j < |CsvLines(text)| && NamedAt(CsvLines(text), j, k)
  {
    var lines := CsvLines(text);
    employeeEmails := map[];
    var i := 1;
    while i < |lines|
      invariant 1 <= i <= |lines|
      invariant employeeEmails == RosterUpTo(lines, i)
    {
      var line := lines[i];
      RosterUpToStep(lines, i);
      if Strings.PyStrip(line) != "" {
        var parts := Strings.Split(line, ',');
        if |parts| >= 2 {
          var name := Strings.PyStrip(parts[0]);
          var email := Strings.PyStrip(parts[1]);
          if name != "" && email != "" {
            employeeEmails := employeeEmails[name := email];
          }
        }
      }
      i := i + 1;
    }
    RosterUpToKeys(lines, |lines|);
  }

  /**
   * `upload_employees`: a name not ending in `.csv` is a 400. Inside the
   * `try` block every failure, the missing template's 404 included, is
   * reported as a 500. On success the template's roster is replaced
   * wholesale by the parsed one, every other field kept, and the reply
   * carries the number of names.
   */
  method UploadEmployees(mgr: ConfigManager.ConfigManager, filename: string, content: Option<string>,
                         outcome: ConfigManager.WriteOutcome)
    returns (r: Result<nat, HttpError>)
    modifies mgr
    ensures r == Err(HttpError(400, NotCsv)) <==> !LowerEndsWith(filename, ".csv")
    ensures r.Err? ==> r.error.status == 400 || r.error.status == 500
    ensures LowerEndsWith(filename, ".csv") && content.None? ==> r == Err(HttpError(500, CsvProcessingError(Undecodable)))
    ensures LowerEndsWith(filename, ".csv") && content.Some? && old(mgr.LoadTemplate()).None? ==>
      r == Err(HttpError(500, CsvProcessingError(TemplateNotFound)))
    ensures r.Ok? <==>
      LowerEndsWith(filename, ".csv") && content.Some? && old(mgr.LoadTemplate()).Some? && outcome == ConfigManager.Written
    ensures r.Ok? ==>
      mgr.LoadTemplate() == Some(old(mgr.LoadTemplate()).value.(employeeEmails := BackendRoster(content.value)))
      && r.value == |BackendRoster(content.value)|
    ensures r.Err? && r.error != HttpError(500, CsvProcessingError(SaveEmployeeListFailed)) ==> mgr.file == old(mgr.file)
    ensures r == Err(HttpError(500, CsvProcessingError(SaveEmployeeListFailed))) ==>
      (outcome == ConfigManager.OpenFailed ==> mgr.file == old(mgr.file))
      && (outcome == ConfigManager.DumpFailed ==> mgr.file == ConfigManager.Unreadable && mgr.LoadTemplate() == None)
  {
    if !LowerEndsWith(filename, ".csv") {
      return Err(HttpError(400, NotCsv));
    }
    if content.None? {
      return Err(HttpError(500, CsvProcessingError(Undecodable)));
    }
    var employeeEmails := ParseEmployeeEmails(content.value);
    var template := mgr.LoadTemplate();
    if template.None? {
      return Err(HttpError(500, CsvProcessingError(TemplateNotFound)));
    }
    var updated := template.value.(employeeEmails := employeeEmails);
    var saved := mgr.SaveTemplate(updated, outcome);
    if !saved {
      return Err(HttpError(500, CsvProcessingError(SaveEmployeeListFailed)));
    }
    r := Ok(|employeeEmails|);
  }

  /** One entry of the cached preview results, as the send step reads it. */
  datatype CachedResult = CachedResult(foundMatch: bool, employeeName: string, employeeEmail: string, page: int)

  /** What `send_payslip_email` returned: success and its detail. */
  datatype SendOutcome = SendOutcome(success: bool, detail: string)

  function Attempt(r: CachedResult, o: SendOutcome): EmailSendResult {
    EmailSendResult(r.page, r.employeeName, r.employeeEmail, o.success, o.detail)
  }

  /** The matched entries among `results[..n]`, in order. */
  function MatchedUpTo(results: seq<CachedResult>, n: nat): (m: seq<CachedResult>)
    requires n <= |results|
    ensures |m| <= n
    ensures forall k :: 0 <= k < |m| ==> m[k].foundMatch
  {
    if n == 0 then []
    else MatchedUpTo(results, n - 1) + (if results[n - 1].foundMatch then [results[n - 1]] else [])
  }

  /**
   * The e-mail results after `results[..n]`: the `k`-th e-mail sent (counted
   * from 0) has the delivery outcome `send(k)`.
   */
  function SentUpTo(results: seq<CachedResult>, n: nat, send: nat -> SendOutcome): seq<EmailSendResult>
    requires n <= |results|
  {
    if n == 0 then []
    else
      var prev := SentUpTo(results, n - 1, send);
      if results[n - 1].foundMatch then prev + [Attempt(results[n - 1], send(|prev|))] else prev
  }

  /** One e-mail result per matched entry, in the entries' order, each carrying its own send outcome. */
  lemma {:induction false} SentPerMatch(results: seq<CachedResult>, n: nat, send: nat -> SendOutcome)
    requires n <= |results|
    ensures |SentUpTo(results, n, send)| == |MatchedUpTo(results, n)|
    ensures forall k :: 0 <= k < |SentUpTo(results, n, send)| ==>
      SentUpTo(results, n, send)[k] == Attempt(MatchedUpTo(results, n)[k], send(k))
  {
    if n > 0 {
      SentPerMatch(results, n - 1, send);
    }
  }

  /** The matched entries of a shorter prefix come first among those of a longer one. */
  lemma {:induction false} MatchedUpToPrefix(results: seq<CachedResult>, i: nat, n: nat)
    requires i <= n <= |results|
    ensures MatchedUpTo(results, i) <= MatchedUpTo(results, n)
  {
    if i < n {
      MatchedUpToPrefix(results, i, n - 1);
    }
  }

  /** Extracting the page of every matched entry succeeds. */
  predicate AllExtracted(results: seq<CachedResult>, extract: nat -> bool) {
    forall k :: 0 <= k < |MatchedUpTo(results, |results|)| ==> extract(k)
  }

  /**
   * The send loop: every matched entry has its page extracted and is then
   * sent, in order; the others are skipped. `extract(k)` says whether
   * extracting the page of the `k`-th matched entry succeeds; a failure
   * raises out of the loop, after the earlier e-mails have gone out.
   */
  method SendLoop(results: seq<CachedResult>, extract: nat -> bool, send: nat -> SendOutcome)
    returns (emailResults: seq<EmailSendResult>, extracted: bool)
    ensures extracted <==> AllExtracted(results, extract)
    ensures extracted ==> emailResults == SentUpTo(results, |results|, send)
    ensures extracted ==> |emailResults| == |MatchedUpTo(results, |results|)|
    ensures !extracted ==> |emailResults| < |MatchedUpTo(results, |results|)| && !extract(|emailResults|)
    ensures |emailResults| <= |MatchedUpTo(results, |results|)|
    ensures forall k :: 0 <= k < |emailResults| ==>
      emailResults[k] == Attempt(MatchedUpTo(results, |results|)[k], send(k))
  {
    emailResults, extracted := [], true;
    var i := 0;
    while i < |results|
      invariant 0 <= i <= |results|
      invariant emailResults == SentUpTo(results, i, send)
      invariant forall k :: 0 <= k < |emailResults| ==> extract(k)
    {
      var result := results[i];
      if result.foundMatch {
        if !extract(|emailResults|) {
          SentPerMatch(results, i, send);
          MatchedUpToPrefix(results, i + 1, |results|);
          assert MatchedUpTo(results, i + 1) == MatchedUpTo(results, i) + [result];
          extracted := false;
          return;
        }
        var outcome := send(|emailResults|);
        emailResults := emailResults + [Attempt(result, outcome)];
      }
      i := i + 1;
    }
    SentPerMatch(results, |results|, send);
  }

  /** The processing cache: the results of each preview still awaiting its send step, by process id. */
  class ProcessingCache {
    var processes: map<string, seq<CachedResult>>

    constructor (processes: map<string, seq<CachedResult>>)
      ensures this.processes == processes
    {
      this.processes := processes;
    }

    method Remove(processId: string)
      modifies this
      ensures processes == old(processes) - {processId}
    {
      processes := processes - {processId};
    }
  }

  datatype SendReply = SendReply(emailResults: seq<EmailSendResult>, company: string)

  /** After the day reset a second reset on the same day changes nothing. */
  lemma AfterInitSettles(limits: map<string, RateLimit.UserData>, user: string, today: string)
    ensures RateLimit.AfterInit(RateLimit.AfterInit(limits, user, today), user, today)
      == RateLimit.AfterInit(limits, user, today)
  {
  }

  /** `if not process_id`: the id is present and non-empty. */
  predicate IdGiven(processId: Option<string>) {
    processId.Some? && processId.value != ""
  }

  /**
   * `process_payslip_send`: behind the `email_sends` quota, a missing
   * process id is a 400 and a missing template or cached process a 404.
   * Otherwise every matched entry is sent, the cached process is dropped,
   * and the `email_sends` counter goes up once exactly when at least one
   * e-mail went out. A page extraction that fails (`extract`) is a 500:
   * the `finally` still drops the cached process, and the counter is not
   * touched although the earlier e-mails went out.
   */
  method ProcessPayslipSend(auth: RateLimit.AuthService, mgr: ConfigManager.ConfigManager, cache: ProcessingCache,
                            user: string, today: string, processId: Option<string>,
                            extract: nat -> bool, send: nat -> SendOutcome)
    returns (r: Result<SendReply, HttpError>)
    modifies auth, cache
    ensures var count := RateLimit.CountOf(RateLimit.AfterInit(old(auth.userLimits), user, today)[user], RateLimit.EmailSends);
      var limit := auth.LimitOf(RateLimit.EmailSends);
      var cached := if IdGiven(processId) && processId.value in old(cache.processes) then old(cache.processes)[processId.value] else [];
      (r == Err(HttpError(429, RateLimitExceeded(RateLimit.EmailSends, count, limit))) <==> count >= limit)
      && (r == Err(HttpError(400, ProcessIdRequired)) <==> count < limit && !IdGiven(processId))
      && (r == Err(HttpError(404, CompanyNotFound)) <==>
            count < limit && IdGiven(processId) && mgr.LoadTemplate().None?)
      && (r == Err(HttpError(404, ProcessExpired)) <==>
            count < limit && IdGiven(processId) && mgr.LoadTemplate().Some? && processId.value !in old(cache.processes))
      && (r == Err(HttpError(500, InternalError)) <==>
            count < limit && IdGiven(processId) && mgr.LoadTemplate().Some? && processId.value in old(cache.processes)
            && !AllExtracted(cached, extract))
      && (r.Ok? <==>
            count < limit && IdGiven(processId) && mgr.LoadTemplate().Some? && processId.value in old(cache.processes)
            && AllExtracted(cached, extract))
    ensures r.Err? ==> auth.userLimits == RateLimit.AfterInit(old(auth.userLimits), user, today)
    ensures r.Err? && r.error.status != 500 ==> cache.processes == old(cache.processes)
    ensures r == Err(HttpError(500, InternalError)) ==>
      processId.Some? && cache.processes == old(cache.processes) - {processId.value}
    ensures r.Ok? ==>
      processId.Some? && processId.value in old(cache.processes) && mgr.LoadTemplate().Some?
      && AllExtracted(old(cache.processes)[processId.value], extract)
      && r.value.company == mgr.LoadTemplate().value.companyName
      && r.value.emailResults == SentUpTo(old(cache.processes)[processId.value],
                                          |old(cache.processes)[processId.value]|, send)
      && cache.processes == old(cache.processes) - {processId.value}
      && (EmailResults.SuccessCount(r.value.emailResults) > 0 ==>
            auth.userLimits == RateLimit.Incremented(old(auth.userLimits), user, RateLimit.EmailSends, today))
      && (EmailResults.SuccessCount(r.value.emailResults) == 0 ==>
            auth.userLimits == RateLimit.AfterInit(old(auth.userLimits), user, today))
  {
    var quota := RateLimitDependency(auth, user, RateLimit.EmailSends, today);
    if quota.Err? {
      return Err(quota.error);
    }
    if processId.None? || processId.value == "" {
      return Err(HttpError(400, ProcessIdRequired));
    }
    var template := mgr.LoadTemplate();
    if template.None? {
      return Err(HttpError(404, CompanyNotFound));
    }
    if processId.value !in cache.processes {
      return Err(HttpError(404, ProcessExpired));
    }
    var results := cache.processes[processId.value];
    var emailResults, extracted := SendLoop(results, extract, send);
    if !extracted {
      cache.Remove(processId.value);
      return Err(HttpError(500, InternalError));
    }
    if EmailResults.SuccessCount(emailResults) > 0 {
      ghost var reset := auth.userLimits;
      var _ := auth.IncrementUsage(user, RateLimit.EmailSends, today);
      AfterInitSettles(old(auth.userLimits), user, today);
    }
    cache.Remove(processId.value);
    r := Ok(SendReply(emailResults, template.value.companyName));
  }
}
