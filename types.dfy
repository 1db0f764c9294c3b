/**
 * The records exchanged between the wizard's components, the application
 * store, local storage and the back end. Optional TypeScript properties and
 * nullable values are `Option`s; JavaScript numbers are exact `real`s.
 */
module Types {
  import opened Wrappers

  /** A rectangle in source-image pixels. */
  datatype CropArea = CropArea(x: real, y: real, width: real, height: real)

  /** A company's saved configuration: crop region, roster and OCR threshold. */
  datatype Template = Template(
    companyId: string,
    companyName: string,
    nameCropArea: CropArea,
    employeeEmails: map<string, string>,
    ocrConfidenceThreshold: real,
    createdAt: Option<string>,
    updatedAt: Option<string>)

  /**
   * `Partial<CompanyTemplate>`: the properties an update object carries.
   * A property that is `None` is absent from the object.
   */
  datatype TemplateUpdate = TemplateUpdate(
    companyId: Option<string>,
    companyName: Option<string>,
    nameCropArea: Option<CropArea>,
    employeeEmails: Option<map<string, string>>,
    ocrConfidenceThreshold: Option<real>,
    createdAt: Option<Option<string>>,
    updatedAt: Option<Option<string>>)

  const NoUpdate := TemplateUpdate(None, None, None, None, None, None, None)

  function Pick<T>(o: Option<T>, keep: T): T {
    if o.Some? then o.value else keep
  }

  /** `{ ...t, ...u }`: every property the update carries overrides the template's. */
  function ApplyUpdate(t: Template, u: TemplateUpdate): (r: Template)
    ensures u == NoUpdate ==> r == t
    ensures u.companyId.Some? ==> r.companyId == u.companyId.value
    ensures u.companyId.None? ==> r.companyId == t.companyId
    ensures u.nameCropArea.Some? ==> r.nameCropArea == u.nameCropArea.value
    ensures u.nameCropArea.None? ==> r.nameCropArea == t.nameCropArea
    ensures u.employeeEmails.Some? ==> r.employeeEmails == u.employeeEmails.value
    ensures u.employeeEmails.None? ==> r.employeeEmails == t.employeeEmails
    ensures u.companyName.Some? ==> r.companyName == u.companyName.value
    ensures u.companyName.None? ==> r.companyName == t.companyName
    ensures u.ocrConfidenceThreshold.Some? ==> r.ocrConfidenceThreshold == u.ocrConfidenceThreshold.value
    ensures u.ocrConfidenceThreshold.None? ==> r.ocrConfidenceThreshold == t.ocrConfidenceThreshold
    ensures u.createdAt.Some? ==> r.createdAt == u.createdAt.value
    ensures u.createdAt.None? ==> r.createdAt == t.createdAt
    ensures u.updatedAt.Some? ==> r.updatedAt == u.updatedAt.value
    ensures u.updatedAt.None? ==> r.updatedAt == t.updatedAt
  {
    Template(
      Pick(u.companyId, t.companyId),
      Pick(u.companyName, t.companyName),
      Pick(u.nameCropArea, t.nameCropArea),
      Pick(u.employeeEmails, t.employeeEmails),
      Pick(u.ocrConfidenceThreshold, t.ocrConfidenceThreshold),
      Pick(u.createdAt, t.createdAt),
      Pick(u.updatedAt, t.updatedAt))
  }

  /** A file the user picked: its name and its size in bytes. */
  datatype File = File(name: string, size: nat)

  /** The wizard's steps. */
  datatype SetupStep = Upload | Crop | Employees | Test | Complete

  datatype MatchedEmployee = MatchedEmployee(name: string, email: string)

  /** One page of a template test run. */
  datatype ProcessingResult = ProcessingResult(
    page: int,
    extractedName: string,
    confidence: real,
    matchedEmployee: Option<MatchedEmployee>,
    aiCropImagePath: Option<string>)

  /** One page of a processing preview. */
  datatype PreviewResult = PreviewResult(
    page: int,
    foundMatch: bool,
    extractedName: string,
    employeeName: Option<string>,
    employeeEmail: Option<string>,
    error: Option<string>,
    croppedImagePath: Option<string>)

  /** One attempted e-mail. */
  datatype EmailSendResult = EmailSendResult(
    page: int,
    employeeName: string,
    employeeEmail: string,
    emailSent: bool,
    emailDetail: string)

  datatype User = User(googleUserId: string, email: string, name: string, picture: Option<string>)

  datatype Usage = Usage(used: int, limit: int)

  /** Daily quota counters as the back end reports them. */
  datatype UsageStats = UsageStats(aiCalls: Usage, emailSends: Usage, pdfUploads: Usage, lastReset: string)

  datatype AuthState = AuthState(
    user: Option<User>,
    token: Option<string>,
    isAuthenticated: bool,
    isLoading: bool,
    usage: Option<UsageStats>)

  const SignedOutAuth := AuthState(None, None, false, false, None)

  /**
   * The user-visible status messages the components put into the store's
   * single error slot and single success slot; `ServerDetail` carries the
   * `detail` of a failed HTTP response.
   */
  datatype Msg =
    | ServerDetail(detail: string)
    // sample upload
    | MissingNameOrFile | SampleUploaded | SampleUploadFailed
    // crop selection and test run share this one
    | NoCompanyData
    | CropSaved | CropSaveFailed
    // roster upload
    | NoFileOrCompany | NoValidEmployees | EmployeesUploaded(serverMessage: string) | EmployeesUploadFailed
    // template test
    | NoTestFile | TestMatches(count: nat) | NoMatches | TestFailed | SetupCompleted
    // processing
    | PreviewMatches(count: nat) | PreviewFailed | EmailsSent(count: nat) | SendFailed
    // company list
    | AllDeleted | CompanyDeleted(name: string) | ConfigsExported
    | ConfigsImported(count: nat) | ImportFailed
    // authentication
    | SignedOutMessage

  /** `error.response?.data?.detail || fallback`: an empty or missing detail falls back. */
  function ErrorMessage(detail: Option<string>, fallback: Msg): (m: Msg)
    ensures detail.Some? && detail.value != "" ==> m == ServerDetail(detail.value)
    ensures detail.None? || detail.value == "" ==> m == fallback
  {
    if detail.Some? && detail.value != "" then ServerDetail(detail.value) else fallback
  }

  /** A JavaScript truthiness test on an optional string: present and not empty. */
  predicate Truthy(s: Option<string>) {
    s.Some? && s.value != ""
  }

  /** The outcome of one remote call: its response, or a rejection carrying the response's `detail`, if any. */
  datatype ApiOutcome<T> = Resolved(response: T) | Rejected(detail: Option<string>)
}
