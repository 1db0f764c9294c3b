# Payslip wizard: a Dafny model

This project models the deterministic core of a payslip-distribution service.

A user first builds a **company template**: a sample PDF, a 300×80 name-crop rectangle on that PDF, and an employee name→email roster. The template is then tested against a sample. Afterwards, monthly payslip PDFs are uploaded. Each page's name is matched to the roster, and each matched page is emailed to its employee.

The project covers both halves of the system:

- **The browser client.** This covers:
  - the template store kept in `localStorage`;
  - the global application store;
  - the wizard step handlers: sample upload, crop, roster upload, test, and the wizard frame;
  - the processing pages: upload, results, preview table, email results, company list;
  - the file picker's validation;
  - the request and response interceptors;
  - the company-id slug.
- **The Python server.** This covers:
  - the per-user daily rate limiter;
  - the single-file template store;
  - upload validation;
  - crop saving;
  - the server's roster parser;
  - the send loop and its usage counter;
  - the Hebrew-word cleaner.

## How the model is organised

There is one module per source component.

- Code that works on values becomes datatypes, functions and lemmas: the slug, the CSV roster parser, the file validator, the counts and views, the Hebrew cleaner and the geometry.
- Code that updates state in place becomes a `class`. Its fields are the state and its methods are the handlers. This covers the zustand store (`AppStore.Store`), each component's local state, the `localStorage` template store (`ConfigStore.CompanyConfigService`), the rate limiter (`RateLimit.AuthService`) and the server's config file (`ConfigManager.ConfigManager`).
- Each handler method states its whole new state. Usually this is `store.View() == old(store.View()).(field := …)`, which says that nothing else changes.
- Loops in the source are `while` loops with invariants. They are proved against a specification function, which has its own lemmas:
  - the client's roster parse loop;
  - the name→email `reduce`;
  - the server's roster loop;
  - the send loop;
  - the company-id and company-list collection;
  - the send-selection filter.

### Inputs that become parameters

Anything the core cannot compute becomes a parameter:

- **Remote calls.** `ApiOutcome`: `Resolved(response)` or `Rejected(detail)`. The `detail` is what `error.response?.data?.detail` held.
- **`localStorage.setItem` succeeding or throwing.** `writeOk`.
- **The current time.** `nowIso` and `today`.
- **The server file write.** `WriteOutcome`.
- **Reading the uploaded file.** `Option<string>`.
- **Each email send.** `send: nat -> SendOutcome`.

### Text and numbers

- **JavaScript whitespace.** `trim` and `\s` are modelled exactly, as `Strings.IsJsSpace`.
- **Python whitespace.** `str.strip` and `re`'s `\s` are modelled exactly too, as `Strings.IsPySpace`. The two classes differ on U+001C–U+001F, U+0085 and U+FEFF.
- **`toLowerCase`.** It is modelled only as far as it can produce `a-z0-9`. The characters that can are the ASCII capitals, U+212A KELVIN SIGN and U+0130.
- **JavaScript `length`.** It counts UTF-16 code units: `Strings.Utf16Length`.
- **JSON.** Serialisation is the identity on the modelled records.
- **JavaScript numbers.** They are exact `real`s. Python's `int()` of a float truncates toward zero: `Routes.Truncate`.

## Model

| member | source | states |
|---|---|---|
| Types.ApplyUpdate | frontend/src/store/index.ts:75-84 | `{ ...t, ...u }`: each property the update carries replaces the template's; each property it lacks is kept; the empty update is the identity |
| Types.ErrorMessage | frontend/src/components/CompanySetup/EmployeeUpload.tsx:125 | `detail \|\| fallback`: a non-empty server detail is shown, otherwise the handler's own message |
| Strings.SpaceClassesAgree | app/routes.py:310-314 | JavaScript and Python whitespace agree on every character outside U+001C–U+001F, U+0085 and U+FEFF |
| Strings.TrimStartSpec | frontend/src/components/CompanySetup/EmployeeUpload.tsx:32 | trimming the start drops exactly the longest all-space prefix |
| Strings.TrimEndSpec | frontend/src/components/CompanySetup/EmployeeUpload.tsx:32 | trimming the end drops exactly the longest all-space suffix |
| Strings.TrimIsSlice | frontend/src/components/CompanySetup/EmployeeUpload.tsx:32 | `trim()` / `strip()` yields the slice between the first and last non-space characters; everything outside it is space |
| Strings.TrimEmptyIffAllSpace | frontend/src/components/CompanySetup/EmployeeUpload.tsx:32 | a trimmed string is empty iff every character is whitespace |
| Strings.TrimOfUnpadded | app/routes.py:313-314 | a string with no space at either end is its own trim |
| Strings.JsTrimAll | frontend/src/components/CompanySetup/EmployeeUpload.tsx:32 | `.map(line => line.trim())` keeps the count and trims each element |
| Strings.Split | frontend/src/components/CompanySetup/EmployeeUpload.tsx:32 | `split(d)` yields at least one piece and no piece contains the separator |
| Strings.SplitJoin | frontend/src/components/CompanySetup/EmployeeUpload.tsx:46 | joining the pieces of `split(d)` with `d` gives the string back |
| Strings.SplitAppend | frontend/src/components/CompanySetup/EmployeeUpload.tsx:46 | splitting `a + d + b` is splitting `a`, then `b` |
| Strings.SplitNoSeparator | frontend/src/components/CompanySetup/EmployeeUpload.tsx:46-49 | a string without the separator splits into itself alone |
| Strings.AsciiLowerString | app/routes.py:116 | ASCII lower-casing maps each capital to its small letter and keeps every other character |
| Strings.Utf16Length | frontend/src/components/ProcessPayslip/PayslipUpload.tsx:30 | JavaScript `length` lies between the character count and twice it |
| Strings.NatToString | frontend/src/services/companyConfigService.ts:122 | an array index as an object key is a non-empty string of decimal digits |
| ConfigStore.Merge | frontend/src/services/companyConfigService.ts:117-118 | `{ ...existing, ...imported }`: keys are the union, imported values win, other existing values stay |
| ConfigStore.MergeDisjointCommutes | frontend/src/services/companyConfigService.ts:118 | two imports with disjoint keys can be applied in either order |
| ConfigStore.MergeAssociative | frontend/src/services/companyConfigService.ts:118 | two successive imports equal one import of their merge |
| ConfigStore.ArrayAsObject | frontend/src/services/companyConfigService.ts:112-118 | an imported JSON array passes the object check and merges under the keys "0", "1", … |
| ConfigStore.ImportedObject | frontend/src/services/companyConfigService.ts:109-114 | import is refused exactly when the text is not JSON, is `null`, or is a scalar; an object imports as itself |
| ConfigStore.ExportFileName | frontend/src/services/companyConfigService.ts:93 | the export file name is `company-configs-`, then the timestamp up to its first `T`, then `.json` |
| ConfigStore.CompanyConfigService.GetConfig | frontend/src/services/companyConfigService.ts:24-32 | the record is returned iff the id is stored; an absent or corrupt slot reads as `{}` |
| ConfigStore.CompanyConfigService.SaveConfig | frontend/src/services/companyConfigService.ts:9-19 | a successful save stores the config under its id and leaves every other id's record unchanged; a failed write is an error and changes nothing |
| ConfigStore.CompanyConfigService.GetCompanyIds | frontend/src/services/companyConfigService.ts:50-53 | the ids are exactly the stored keys, each once |
| ConfigStore.CompanyConfigService.GetCompanyList | frontend/src/services/companyConfigService.ts:58-61 | one template per stored key, and exactly the stored templates |
| ConfigStore.CompanyConfigService.DeleteConfig | frontend/src/services/companyConfigService.ts:66-80 | returns true iff the write succeeded and the truthiness test passed, that is the id was stored or names an inherited `Object.prototype` member such as `constructor`; then exactly that id is gone; otherwise storage is unchanged |
| ConfigStore.CompanyConfigService.ImportConfigs | frontend/src/services/companyConfigService.ts:106-130 | on success the store is the right-biased merge and the result is the number of imported keys; on a refused file or failed write it is an error and storage is unchanged |
| ConfigStore.CompanyConfigService.ClearAllConfigs | frontend/src/services/companyConfigService.ts:135-143 | the slot is removed and every read then yields `{}` |
| ConfigStore.ImportCountIsFileSize | frontend/src/services/companyConfigService.ts:122-125 | the reported count is the imported object's key count, not the number of new keys |
| ConfigStore.ExportImportRoundTrip | frontend/src/services/companyConfigService.ts:85-130 | re-importing what was exported leaves the store unchanged |
| Slug.LowerChar | frontend/src/services/api.ts:79 | lower-casing a character yields one or two characters, and a character that cannot become `a-z0-9` does not |
| Slug.Sanitize | frontend/src/services/api.ts:80 | every character outside `a-z0-9` becomes `_`, position by position |
| Slug.Collapse | frontend/src/services/api.ts:81 | runs of `_` become one: the result has no `__`, keeps the first character and adds no characters |
| Slug.StripEdges | frontend/src/services/api.ts:82 | stripping one leading and one trailing `_` leaves a slice of the input |
| Slug.SlugIsCanonical | frontend/src/services/api.ts:78-82 | every slug uses only `a-z0-9_`, has no `__`, and neither starts nor ends with `_` |
| Slug.CanonicalFixpoint | frontend/src/services/api.ts:78-82 | a string already in slug form is its own slug |
| Slug.SlugIdempotent | frontend/src/services/api.ts:78-82 | slug(slug(s)) = slug(s) |
| Slug.NoAlnumGivesEmpty | frontend/src/services/api.ts:78-82 | a name with no character that lower-cases into `a-z0-9` has the empty slug |
| Slug.HebrewNameGivesEmpty | frontend/src/services/api.ts:78-82 | an all-Hebrew company name has the empty slug |
| Slug.LowerOfSlugChars | frontend/src/services/api.ts:79 | lower-casing leaves a string of `a-z0-9_` unchanged |
| Slug.CollapseOfNoDouble | frontend/src/services/api.ts:81 | collapsing leaves a string with no `__` unchanged |
| ApiClient.BearerHeader | frontend/src/services/api.ts:25-28 | a header is added iff the stored token is present and non-empty, and the header carries that token back |
| ApiClient.HeaderRoundTrip | frontend/src/services/api.ts:27 | a `Bearer <token>` header is rebuilt exactly from its token |
| ApiClient.AttachAuthToken | frontend/src/services/api.ts:23-30 | the request goes out with `Authorization` set to the bearer header when there is a token, and otherwise with its headers untouched |
| ApiClient.OnResponseError | frontend/src/services/api.ts:37-52 | a 401 removes the stored token and requests a reload; every error is re-thrown unchanged |
| ApiClient.UnauthorizedThenRequest | frontend/src/services/api.ts:25-47 | after a 401 the token is gone and the interceptor adds no header: the next request keeps exactly the headers it was built with, so one built without `Authorization` goes out without it |
| Roster.NonEmpty | frontend/src/components/CompanySetup/EmployeeUpload.tsx:32 | `.filter(line => line)` keeps only non-empty lines |
| Roster.IndexOf | frontend/src/components/CompanySetup/EmployeeUpload.tsx:54 | the first occurrence of a character, or −1 when absent |
| Roster.EmailTestMatchesPattern | frontend/src/components/CompanySetup/EmployeeUpload.tsx:54 | the executable email check accepts exactly the strings of the form `[^\s@]+@[^\s@]+\.[^\s@]+` |
| Roster.EmailTestSound | frontend/src/components/CompanySetup/EmployeeUpload.tsx:54 | whatever the check accepts matches the pattern |
| Roster.EmailTestComplete | frontend/src/components/CompanySetup/EmployeeUpload.tsx:54 | whatever matches the pattern the check accepts |
| Roster.SliceNoSpaceOrAt | frontend/src/components/CompanySetup/EmployeeUpload.tsx:54 | a segment is `[^\s@]*` iff each of its positions in the whole string is |
| Roster.ClassifyLine | frontend/src/components/CompanySetup/EmployeeUpload.tsx:44-70 | a data line yields an employee with its line number, a non-empty name and a pattern-matching email, or one error naming that line |
| Roster.OutcomesUpTo | frontend/src/components/CompanySetup/EmployeeUpload.tsx:44 | every line after the first yields exactly one outcome |
| Roster.ParseCsv | frontend/src/components/CompanySetup/EmployeeUpload.tsx:29-79 | an unreadable file gives one error; fewer than two non-empty lines give one error; otherwise the employees and errors are those of the data lines, in order |
| Roster.ParseDataLines | frontend/src/components/CompanySetup/EmployeeUpload.tsx:44-70 | the loop's employees and errors are the accepted and rejected outcomes of every line after the header |
| Roster.OneOutcomeEach | frontend/src/components/CompanySetup/EmployeeUpload.tsx:44-70 | each outcome is either an employee or an error |
| Roster.OneOutcomePerLine | frontend/src/components/CompanySetup/EmployeeUpload.tsx:43-70 | employees + errors = non-empty lines − 1 |
| Roster.AcceptedSorted | frontend/src/components/CompanySetup/EmployeeUpload.tsx:55-60 | accepted employees are in strictly increasing line order, numbered from 2 |
| Roster.OutcomesAreClassifications | frontend/src/components/CompanySetup/EmployeeUpload.tsx:44-70 | outcome k is the classification of non-empty line k+2, numbered k+2 |
| Roster.AcceptedInLineOrder | frontend/src/components/CompanySetup/EmployeeUpload.tsx:32-60 | accepted employees keep file order, and line numbers count non-empty lines only |
| Roster.AcceptedAreOutcomes | frontend/src/components/CompanySetup/EmployeeUpload.tsx:55-60 | every accepted employee is one of the successful outcomes |
| Roster.AcceptedComeFromTheirLine | frontend/src/components/CompanySetup/EmployeeUpload.tsx:44-70 | each accepted employee is what its own line classifies to |
| Roster.ExtraFieldsIgnored | frontend/src/components/CompanySetup/EmployeeUpload.tsx:46-52 | fields after the second do not change a line's outcome |
| Roster.NoCommaIsFormatError | frontend/src/components/CompanySetup/EmployeeUpload.tsx:46-49 | a line without a comma is a format error for its line |
| Roster.EmailsUpToKeys | frontend/src/components/CompanySetup/EmployeeUpload.tsx:110-113 | the keys of the partial `reduce` are the names seen so far |
| Roster.EmailsUpToLastWins | frontend/src/components/CompanySetup/EmployeeUpload.tsx:110-113 | a name's value is the email of its last occurrence so far |
| Roster.NameEmailsSpec | frontend/src/components/CompanySetup/EmployeeUpload.tsx:110-113 | the roster map's keys are exactly the employees' names, and a repeated name keeps its last email |
| Roster.NameEmailMap | frontend/src/components/CompanySetup/EmployeeUpload.tsx:110-113 | the `reduce` loop builds that map: every name, the last email for each |
| EmployeeUpload.RosterForm.HandleFileSelect | frontend/src/components/CompanySetup/EmployeeUpload.tsx:81-84 | the chosen file is kept and the parse results replace the panel's employees and errors |
| EmployeeUpload.RosterForm.HandleUpload | frontend/src/components/CompanySetup/EmployeeUpload.tsx:86-130 | with no file, no company, or no valid employee, only an error is set and no call is made; otherwise a failure sets the server's or the fallback error; a success merges the returned template into the store, persists it, and moves to the test step |
| EmployeeUpload.RosterForm.ApplyUploadResponse | frontend/src/components/CompanySetup/EmployeeUpload.tsx:106-125 | a rejection sets the server's or the fallback error; a response with a template persists it and gives the company the name-to-email map, unless the write fails; then success and the test step |
| EmployeeUpload.RosterForm.GoBack | frontend/src/components/CompanySetup/EmployeeUpload.tsx:145-147 | the step becomes crop and nothing else changes |
| CropSelection.Clamp | frontend/src/components/CompanySetup/CropAreaSelector.tsx:121-122 | `max(0, min(v, hi))` is non-negative, at most `hi` when `hi ≥ 0`, and `v` itself when in range |
| CropSelection.Centred | frontend/src/components/CompanySetup/CropAreaSelector.tsx:34-39 | the 300×80 box is centred on each axis the image is large enough for, and at 0 otherwise |
| CropSelection.Dragged | frontend/src/components/CompanySetup/CropAreaSelector.tsx:118-124 | a drag keeps the size and leaves the box inside the canvas |
| CropSelection.MoveBackToPress | frontend/src/components/CompanySetup/CropAreaSelector.tsx:107-122 | moving back to the press point leaves an in-bounds box where it was |
| CropSelection.Selector.constructor | frontend/src/components/CompanySetup/CropAreaSelector.tsx:9-13 | initial state: box (0,0,300,80), no drag, no image |
| CropSelection.Selector.OnImageLoad | frontend/src/components/CompanySetup/CropAreaSelector.tsx:28-40 | the canvas takes the image size and the box is centred and in bounds |
| CropSelection.Selector.MouseDown | frontend/src/components/CompanySetup/CropAreaSelector.tsx:100-112 | a press inside the box (edges included) starts a drag with offset cursor − origin, within the box; a press outside changes nothing |
| CropSelection.Selector.MouseMove | frontend/src/components/CompanySetup/CropAreaSelector.tsx:114-125 | while dragging the box follows the cursor clamped to the canvas; otherwise nothing changes; the size never does |
| CropSelection.Selector.MouseUp | frontend/src/components/CompanySetup/CropAreaSelector.tsx:127-129 | the drag always ends; the box is unchanged |
| CropSelection.Selector.HandleSave | frontend/src/components/CompanySetup/CropAreaSelector.tsx:131-168 | with no company, only an error and nothing is posted; otherwise the company's id and name and the current rectangle are posted; a failure sets the error and keeps the step; a success moves to the employees step, and the store and storage take the new crop only when the response carries a template |
| CropSelection.Selector.ApplySaveResponse | frontend/src/components/CompanySetup/CropAreaSelector.tsx:149-163 | a rejection sets the error; a response with a template persists it and records the crop on the company, unless the write fails; then success and the employees step |
| CropSelection.Selector.GoBack | frontend/src/components/CompanySetup/CropAreaSelector.tsx:170-172 | the step becomes upload and nothing else changes |
| AppStore.UpdatedCompanies | frontend/src/store/index.ts:77-79 | every company with the id gets the update merged in; every other entry and the length stay |
| AppStore.UpdatedCurrent | frontend/src/store/index.ts:80-82 | the current company gets the update iff its id matches |
| AppStore.EmptyUpdateKeepsCompanies | frontend/src/store/index.ts:75-84 | an empty update leaves the list unchanged |
| AppStore.UpdateOfAbsentId | frontend/src/store/index.ts:75-84 | updating an id no company has leaves the list unchanged |
| AppStore.Store.constructor | frontend/src/store/index.ts:40-64 | initial state: step upload, empty lists, every nullable field null, signed out |
| AppStore.Store.SetCompanies | frontend/src/store/index.ts:67 | replaces the list; nothing else changes |
| AppStore.Store.SetCurrentCompany | frontend/src/store/index.ts:69 | replaces the current company; nothing else changes |
| AppStore.Store.AddCompany | frontend/src/store/index.ts:71-73 | appends, so the length grows by one even for an id already present |
| AppStore.Store.UpdateCompany | frontend/src/store/index.ts:75-84 | the list and the current company become the updated ones; nothing else changes |
| AppStore.Store.SetSetupStep | frontend/src/store/index.ts:87 | sets the step only |
| AppStore.Store.SetPreviewUrl | frontend/src/store/index.ts:89 | sets the preview URL only |
| AppStore.Store.SetUploadedSampleId | frontend/src/store/index.ts:91 | sets the sample id only |
| AppStore.Store.ResetSetup | frontend/src/store/index.ts:93-101 | step upload; preview URL, sample id, current company and both messages cleared; processing results emptied; companies, processId, preview and email results untouched |
| AppStore.Store.SetLoading | frontend/src/store/index.ts:104 | sets the loading flag only |
| AppStore.Store.SetError | frontend/src/store/index.ts:106 | sets the error and clears the success message, so at most one message shows |
| AppStore.Store.SetSuccessMessage | frontend/src/store/index.ts:108 | sets the success message and clears the error, so at most one message shows |
| AppStore.Store.ClearMessages | frontend/src/store/index.ts:110 | clears both messages only |
| AppStore.Store.SetProcessId | frontend/src/store/index.ts:113 | sets the process id only |
| AppStore.Store.SetPreviewResults | frontend/src/store/index.ts:114 | sets the preview results only |
| AppStore.Store.SetEmailSendResults | frontend/src/store/index.ts:115 | sets the email results only |
| AppStore.Store.ClearProcessing | frontend/src/store/index.ts:116-121 | process id null and the three result lists empty; nothing else changes |
| AppStore.Store.SetAuthUser | frontend/src/store/index.ts:204-206 | sets the user and `isAuthenticated` = user present; the token is unchanged |
| AppStore.Store.SetAuthToken | frontend/src/store/index.ts:208-210 | sets the token only |
| AppStore.Store.SetAuthLoading | frontend/src/store/index.ts:212-214 | sets the auth loading flag only |
| AppStore.Store.SetUsageStats | frontend/src/store/index.ts:216-218 | sets the usage statistics only |
| AppStore.Store.SignOut | frontend/src/store/index.ts:150-162 | the auth service's stored token is removed; auth becomes the signed-out record and a success message is set; nothing else changes |
| AppStore.SignOutKeepsError | frontend/src/store/index.ts:150-162 | signing out while an error is shown leaves both an error and a success message set |
| SampleUpload.RequestFor | frontend/src/components/CompanySetup/SampleUpload.tsx:34 | the request carries the trimmed name and a company id in slug form |
| SampleUpload.SampleForm.HandleUpload | frontend/src/components/CompanySetup/SampleUpload.tsx:23-66 | with no file or a blank name, only an error and no call; a failure sets the error and keeps the step; a success stores the initial template (the response's id, crop (0,0,300,80), empty roster, threshold 80), the preview URL and sample id, and moves to the crop step; uploading always ends |
| SampleUpload.SampleForm.ApplyUploadResponse | frontend/src/components/CompanySetup/SampleUpload.tsx:36-61 | a rejection sets the error; a response sets the preview, the sample id and the initial template as current company, persists the template and, when that write succeeds, announces success and moves to the crop step |
| TestTemplate.Status | frontend/src/components/CompanySetup/TestTemplate.tsx:88-96 | each page is exactly one of: matched, name read but not in the roster, no name |
| TestTemplate.StatusesPartition | frontend/src/components/CompanySetup/TestTemplate.tsx:88-96 | the three status counts sum to the number of pages |
| TestTemplate.SummaryCounts | frontend/src/components/CompanySetup/TestTemplate.tsx:242-254 | the first two summary counts are the matched and not-in-roster statuses; the three counts sum to the page count iff no matched page has an empty name |
| TestTemplate.NoNameExcess | frontend/src/components/CompanySetup/TestTemplate.tsx:254 | the "no name" summary count is at least the number of no-name pages |
| TestTemplate.MatchedWithoutNameCountsTwice | frontend/src/components/CompanySetup/TestTemplate.tsx:242-254 | a matched page with an empty name is counted twice in the summary |
| TestTemplate.TestRun.RunTest | frontend/src/components/CompanySetup/TestTemplate.tsx:24-59 | with no company or no file, only an error and no call; a success stores the results, marks the run, and sets a success message iff a page matched; the finish button is then enabled iff a run succeeded |
| TestTemplate.TestRun.CompleteSetup | frontend/src/components/CompanySetup/TestTemplate.tsx:61-72 | with a company and a good write it is persisted and appended and the step becomes complete; with no company only the step changes |
| TestTemplate.TestRun.GoBack | frontend/src/components/CompanySetup/TestTemplate.tsx:74-76 | the step becomes employees and nothing else changes |
| SetupWizard.RenderStep | frontend/src/components/CompanySetup/SetupWizard.tsx:11-35 | each step renders its own screen, and no two steps share one |
| SetupWizard.StepIndex | frontend/src/components/CompanySetup/SetupWizard.tsx:53-64 | `indexOf` in the four indicator steps, −1 for complete |
| SetupWizard.HasConnector | frontend/src/components/CompanySetup/SetupWizard.tsx:74 | a connector follows each indicator but the last |
| SetupWizard.IndicatorLooks | frontend/src/components/CompanySetup/SetupWizard.tsx:62-64 | an indicator is highlighted iff its step is the current one, and green iff it comes before it |
| SetupWizard.OneCurrentIndicator | frontend/src/components/CompanySetup/SetupWizard.tsx:62 | before completion exactly one indicator is highlighted |
| SetupWizard.CompleteShowsNoProgress | frontend/src/components/CompanySetup/SetupWizard.tsx:62-64 | at completion no indicator is highlighted or green |
| PayslipUpload.NoIdCharRegexSpec | frontend/src/components/ProcessPayslip/PayslipUpload.tsx:30 | `/^[^a-zA-Z0-9_-]+$/` holds iff the id is non-empty and every character is outside the class |
| PayslipUpload.InvalidCompanyIdSpec | frontend/src/components/ProcessPayslip/PayslipUpload.tsx:30 | an id is rejected iff it is missing or empty, shorter than 3, or made only of disallowed characters |
| PayslipUpload.OneAllowedCharSuffices | frontend/src/components/ProcessPayslip/PayslipUpload.tsx:30 | an id of length at least 3 with one allowed character passes |
| PayslipUpload.InvalidExamples | frontend/src/components/ProcessPayslip/PayslipUpload.tsx:30 | "ab" and "!!!" are rejected; "abc" and "a!b" pass |
| PayslipUpload.PayslipPage.RefreshUsageStats | frontend/src/components/ProcessPayslip/PayslipUpload.tsx:89-98 | a successful refresh replaces the usage statistics; a failed one changes nothing |
| PayslipUpload.PayslipPage.HandleFileSelect | frontend/src/components/ProcessPayslip/PayslipUpload.tsx:57-87 | processing state is cleared before the preview call; a success stores the process id and results and sets a success message iff a page matched; a failure sets an error and drops the file |
| PayslipUpload.PayslipPage.HandleSendEmails | frontend/src/components/ProcessPayslip/PayslipUpload.tsx:100-123 | without a company id or process id nothing happens; otherwise the send names the process only, whatever the selection, and the results are stored, with a success message iff an email was sent |
| PayslipUpload.PayslipPage.HandleRetryEmails | frontend/src/components/ProcessPayslip/PayslipUpload.tsx:125-129 | the email results are cleared and the same whole-batch send is issued; a resolved send stores its results, ends loading, refreshes usage and sets the success message iff some email was sent |
| PayslipUpload.PayslipPage.OnMount | frontend/src/components/ProcessPayslip/PayslipUpload.tsx:51-55 | processing state is cleared, so the upload panel shows |
| PayslipUpload.PayslipPage.HandleStartOver | frontend/src/components/ProcessPayslip/PayslipUpload.tsx:131-134 | file and processing state are cleared; the upload panel shows and no results do |
| Results.MatchedUpTo | frontend/src/components/ProcessPayslip/Results.tsx:21 | the filter on a prefix is empty iff the prefix has no match |
| Results.PositionsUpToSpec | frontend/src/components/ProcessPayslip/Results.tsx:21 | each kept result comes from a strictly increasing position holding a match, and every match is kept |
| Results.MatchedIsOrderedFilter | frontend/src/components/ProcessPayslip/Results.tsx:21 | `matchedResults` is the `found_match` results, in preview order |
| Results.MatchedMembers | frontend/src/components/ProcessPayslip/Results.tsx:21 | a result is matched iff it is in the preview and has `found_match` |
| Results.MatchedAppend | frontend/src/components/ProcessPayslip/Results.tsx:21 | the filter distributes over concatenation |
| Results.MatchedPrefix | frontend/src/components/ProcessPayslip/Results.tsx:21 | the filter up to n is the filter of the first n results |
| Results.MatchedUpToAgree | frontend/src/components/ProcessPayslip/Results.tsx:21 | the filter up to n depends only on the first n results |
| Results.AllMatchedKept | frontend/src/components/ProcessPayslip/Results.tsx:21 | when every result matched, the filter keeps them all |
| Results.AllIndicesMembers | frontend/src/components/ProcessPayslip/Results.tsx:24-26 | the initial selection is {0 … n−1} |
| Results.AllIndicesSize | frontend/src/components/ProcessPayslip/Results.tsx:24-26 | that set has n elements |
| Results.SelectedCount | frontend/src/components/ProcessPayslip/Results.tsx:49-52 | as many results are handed over as selected indices are in range |
| Results.SelectAllSendsAll | frontend/src/components/ProcessPayslip/Results.tsx:31-52 | selecting all hands over every matched result in order; selecting none hands over none |
| Results.OutOfRangeIgnored | frontend/src/components/ProcessPayslip/Results.tsx:49-52 | an out-of-range index in the selection is ignored |
| Results.ChooseView | frontend/src/components/ProcessPayslip/Results.tsx:54-67 | placeholder iff both lists are empty; email view iff there are email results; preview view otherwise |
| Results.ResultsPanel.constructor | frontend/src/components/ProcessPayslip/Results.tsx:24-26 | every matched index starts selected, so sending would hand over every match |
| Results.ResultsPanel.HandleSelectAll | frontend/src/components/ProcessPayslip/Results.tsx:31-37 | checked selects every matched index, unchecked selects none |
| Results.ResultsPanel.HandleSelectResult | frontend/src/components/ProcessPayslip/Results.tsx:39-47 | adds or removes exactly that index; every other index keeps its state |
| Results.ResultsPanel.HandleSendSelected | frontend/src/components/ProcessPayslip/Results.tsx:49-52 | hands over the selected matched results, in order, one per selected in-range index |
| PreviewTable.FindFrom | frontend/src/components/ProcessPayslip/PreviewResultsTable.tsx:32 | the first position from `from` with the page, or −1 if there is none |
| PreviewTable.FindIndexByPage | frontend/src/components/ProcessPayslip/PreviewResultsTable.tsx:32 | `findIndex` by page: the first matched result with that page, or −1 iff none has it |
| PreviewTable.Rows | frontend/src/components/ProcessPayslip/PreviewResultsTable.tsx:30-79 | one row per preview result, in order |
| PreviewTable.RowsSpec | frontend/src/components/ProcessPayslip/PreviewResultsTable.tsx:30-75 | a row has a checkbox iff its result matched; the checkbox carries `matchedIndex` and is checked iff it is selected; unmatched rows show placeholders |
| PreviewTable.Toggle | frontend/src/components/ProcessPayslip/PreviewResultsTable.tsx:41 | toggling reports (`matchedIndex`, checked) exactly for rows with a checkbox |
| PreviewTable.MatchedRowHasIndex | frontend/src/components/ProcessPayslip/PreviewResultsTable.tsx:31-32 | a matched row's `matchedIndex` is a valid index of a matched result on the same page |
| PreviewTable.DistinctPagesSelectOwnResult | frontend/src/components/ProcessPayslip/PreviewResultsTable.tsx:32-40 | when pages are distinct, a row's checkbox selects that row's own result |
| PreviewTable.MatchedUpToGrows | frontend/src/components/ProcessPayslip/Results.tsx:21 | the matched results of a prefix come first among those of a longer prefix |
| PreviewTable.FindOwnIndex | frontend/src/components/ProcessPayslip/PreviewResultsTable.tsx:32 | with distinct pages, the `k`-th matched result is found by its page at index `k` |
| PreviewTable.TickedStep | frontend/src/components/ProcessPayslip/PreviewResultsTable.tsx:32-40 | with distinct pages, one more row keeps the ticked results equal to the selected matched results |
| PreviewTable.TickedUpToSelected | frontend/src/components/ProcessPayslip/PreviewResultsTable.tsx:30-79 | with distinct pages, the ticked rows among the first `n` are the selected results among the matched ones they hold |
| PreviewTable.TickedRowsAreSent | frontend/src/components/ProcessPayslip/PreviewResultsTable.tsx:30-79 | with distinct pages, the results of the ticked rows, in table order, are exactly those the panel sends for the selection |
| PreviewTable.RepeatedPageSharesIndex | frontend/src/components/ProcessPayslip/PreviewResultsTable.tsx:32 | two matched results on the same page share the first one's index |
| EmailResults.SuccessCount | frontend/src/components/ProcessPayslip/EmailResultsView.tsx:11 | the sent count is at most the total |
| EmailResults.FailedCount | frontend/src/components/ProcessPayslip/EmailResultsView.tsx:12 | sent + failed = total |
| EmailResults.FailedAreUnsent | frontend/src/components/ProcessPayslip/EmailResultsView.tsx:11-12 | the failed count is the number of results not sent |
| EmailResults.NoFailureIffAllSent | frontend/src/components/ProcessPayslip/EmailResultsView.tsx:12 | no failure iff every email was sent |
| EmailResults.NoSuccessIffNoneSent | frontend/src/components/ProcessPayslip/EmailResultsView.tsx:11 | no success iff no email was sent |
| EmailResults.RetryButtonFor | frontend/src/components/ProcessPayslip/EmailResultsView.tsx:24-33 | retry is offered iff something failed and a handler exists, and is enabled iff not loading |
| EmailResults.RetryOfferedIffSomeFailed | frontend/src/components/ProcessPayslip/EmailResultsView.tsx:24 | retry is offered iff a handler exists and some email was not sent |
| EmailResults.Rows | frontend/src/components/ProcessPayslip/EmailResultsView.tsx:64-85 | one row per result, in order, with its page, name, e-mail, status and detail |
| CompanyList.RemoveId | frontend/src/components/CompanyList.tsx:44 | the list without that id: exactly the other companies |
| CompanyList.RemoveIdAppend | frontend/src/components/CompanyList.tsx:44 | removal keeps order: it distributes over concatenation |
| CompanyList.RemoveAbsentId | frontend/src/components/CompanyList.tsx:44 | removing an absent id changes nothing |
| CompanyList.EmployeeCountAfterUpload | frontend/src/components/CompanyList.tsx:262 | after a roster upload the card shows the number of distinct accepted names |
| CompanyList.ViewFor | frontend/src/components/CompanyList.tsx:79-89 | spinner iff loading; onboarding iff loaded and empty; cards iff loaded and non-empty |
| CompanyList.CompanyListPage.LoadCompanies | frontend/src/components/CompanyList.tsx:13-24 | the list becomes the stored templates, one per key, and loading ends |
| CompanyList.CompanyListPage.HandleDeleteAll | frontend/src/components/CompanyList.tsx:26-36 | unconfirmed, nothing changes; confirmed, storage and the list are emptied and a success message is set |
| CompanyList.CompanyListPage.HandleDeleteCompany | frontend/src/components/CompanyList.tsx:38-48 | unconfirmed, nothing changes; confirmed, the id leaves the list (the rest in order) and storage, and a success message is set; after a successful write the stored companies are the old ones without that id |
| CompanyList.CompanyListPage.HandleExportConfigs | frontend/src/components/CompanyList.tsx:50-57 | the download is the stored map under the dated `.json` name, and a success message is set |
| CompanyList.CompanyListPage.HandleImportConfigs | frontend/src/components/CompanyList.tsx:59-73 | success reloads the list from the merged storage and reports the imported count; failure sets an error; the file input is reset in either case |
| FileUpload.ValidateFile | frontend/src/components/common/FileUpload.tsx:32-45 | size is checked first (too large iff size > max); then accepted iff the extension equals a trimmed `accept` entry |
| FileUpload.SizeAtLimitPasses | frontend/src/components/common/FileUpload.tsx:33-35 | a file of exactly the maximum size is not too large |
| FileUpload.ExtensionAfterLastDot | frontend/src/components/common/FileUpload.tsx:38 | the extension is "." + the lower-cased text after the last dot |
| FileUpload.ExtensionWithoutDot | frontend/src/components/common/FileUpload.tsx:38 | a name without a dot is its own extension, lower-cased, after "." |
| FileUpload.LowerHasNoUpper | frontend/src/components/common/FileUpload.tsx:38 | a lower-cased extension has no ASCII capital |
| FileUpload.UpperCaseEntryNeverMatches | frontend/src/components/common/FileUpload.tsx:37-40 | when every `accept` entry has a capital, every file is refused |
| FileUpload.UpperCaseFileNameAccepted | frontend/src/components/common/FileUpload.tsx:37-42 | `report.PDF` is accepted by `.pdf` |
| FileUpload.FileInput.constructor | frontend/src/components/common/FileUpload.tsx:19 | the size limit defaults to 10·1024·1024 bytes |
| FileUpload.FileInput.HandleFile | frontend/src/components/common/FileUpload.tsx:47-56 | the error becomes the validation result, and the file is passed on iff it is valid |
| FileUpload.FileInput.HandleDrop | frontend/src/components/common/FileUpload.tsx:77-87 | the drag ends; a drop while disabled or uploading, or with no file, is ignored; otherwise the first file is handled |
| FileUpload.FileInput.HandleInputChange | frontend/src/components/common/FileUpload.tsx:89-93 | the file handed on is the first chosen one (`files[0]`); no file changes nothing |
| FileUpload.FileInput.HandleDragIn | frontend/src/components/common/FileUpload.tsx:63-69 | dragging items in activates the drop zone |
| FileUpload.FileInput.HandleDragOut | frontend/src/components/common/FileUpload.tsx:71-75 | leaving deactivates the drop zone |
| RateLimit.AfterInit | app/services/auth_service.py:96-112 | a new user, or one last reset on another day, gets zeroed counters and `last_reset` = today; the same day changes nothing; other users are untouched |
| RateLimit.Bump | app/services/auth_service.py:135-136 | only the named counter rises, by exactly one; an unknown endpoint has no counter |
| RateLimit.RepeatedIncrements | app/services/auth_service.py:131-136 | after k increments on a fresh day the named counter is k and the others 0 |
| RateLimit.DeniedAtTheLimit | app/services/auth_service.py:125 | a user is allowed below the limit and denied once the count reaches it |
| RateLimit.AuthService.constructor | app/services/auth_service.py:28-35 | limits come from the environment, defaulting to 50/20/10, and no user is known |
| RateLimit.AuthService.LimitOf | app/services/auth_service.py:123 | an unknown endpoint has limit 0 |
| RateLimit.AuthService.InitUserLimits | app/services/auth_service.py:96-112 | the user table becomes the day-reset one |
| RateLimit.AuthService.CheckRateLimit | app/services/auth_service.py:114-129 | only the day reset changes state; allowed iff count < limit; a first check is (limit > 0, 0, limit); an unknown endpoint is never allowed |
| RateLimit.AuthService.IncrementUsage | app/services/auth_service.py:131-139 | raises exactly the named counter by one; an unknown endpoint fails on its missing key |
| RateLimit.AuthService.GetUserUsage | app/services/auth_service.py:141-160 | only the day reset changes state; reports used/limit for the three endpoints and today as `last_reset` |
| ConfigManager.Parse | app/config.py:56-67 | a record loads iff name, crop area and roster are present; the id defaults to `main` and the threshold to 80.0 |
| ConfigManager.ParseDump | app/config.py:37-67 | loading what was saved gives the template back |
| ConfigManager.MissingKeysDefault | app/config.py:60-64 | a file without id and threshold loads as `main` with 80.0 |
| ConfigManager.ConfigManager.LoadTemplate | app/config.py:49-73 | a template is returned iff the file exists, is readable and holds the required keys |
| ConfigManager.ConfigManager.LoadTemplateById | app/config.py:97-99 | the id plays no part: the answer is the single template's |
| ConfigManager.ConfigManager.ListCompanies | app/config.py:87-90 | [] or [company_id], the latter iff a template loads |
| ConfigManager.ConfigManager.ListCompanyTemplates | app/config.py:92-95 | [] or [template], the latter iff a template loads |
| ConfigManager.ConfigManager.SaveTemplate | app/config.py:34-47 | true iff written; a written file loads back as exactly the saved template, replacing any previous one |
| ConfigManager.ConfigManager.DeleteTemplate | app/config.py:75-84 | true iff a file existed and was removed; afterwards nothing loads; otherwise the file is unchanged |
| ConfigManager.LoadByIdIgnoresId | app/config.py:97-99 | any two ids load the same template |
| Routes.ValidateUpload | app/routes.py:108-122 | 413 iff the size is known, non-zero and over the limit (checked first); otherwise 400 iff the name is missing or does not end in `.pdf` in any case; otherwise accepted |
| Routes.LowerAppend | app/routes.py:116 | lower-casing distributes over concatenation |
| Routes.PickerAcceptedPasses | app/routes.py:108-122 | a dotted file name the client picker accepts for `.pdf` also passes the server check |
| Routes.DotlessNameDisagrees | app/routes.py:116 | the name `PDF` passes the client picker but the server refuses it with 400 |
| Routes.RateLimitDependency | app/routes.py:145-158 | 429 with the count and limit iff the count has reached the limit |
| Routes.Truncate | app/routes.py:273-276 | `int()` of a float truncates toward zero |
| Routes.CropTemplate | app/routes.py:272-286 | the saved template has the given id and name, an empty roster, threshold 80 and creation time now |
| Routes.SaveCropArea | app/routes.py:259-291 | 400 iff a field is missing or empty; a written template loads back as the crop template; a failed write is a 500, after which a file that failed to open is unchanged and a file truncated by a failed dump is unreadable, so no template loads |
| Routes.LineEntry | app/routes.py:311-316 | a kept line yields a non-empty stripped name and email |
| Routes.CsvLines | app/routes.py:307 | the stripped text splits into at least one line |
| Routes.RosterUpToKeys | app/routes.py:309-316 | the roster's keys are exactly the names of the data lines with a valid entry, with non-empty values |
| Routes.RosterUpToLastWins | app/routes.py:316 | a repeated name keeps the email of its last line |
| Routes.HeaderIgnored | app/routes.py:309 | the first line never affects the roster |
| Routes.HeaderIgnoredUpTo | app/routes.py:309 | the same for every prefix of the lines |
| Routes.NoEmailCheck | app/routes.py:311-316 | any unpadded name and email without commas are kept as given: there is no email-format check |
| Routes.ParseEmployeeEmails | app/routes.py:306-316 | the loop builds the roster map, whose keys are the names of the valid data lines |
| Routes.UploadEmployees | app/routes.py:293-334 | non-CSV is 400; an undecodable file or a missing template is re-raised as 500; a success replaces the template's roster wholesale and reports its size; after a failed save the file is unchanged if it failed to open and unreadable if the dump failed |
| Routes.MatchedUpTo | app/routes.py:451-452 | only `found_match` entries are sent |
| Routes.SentPerMatch | app/routes.py:451-476 | one email result per matched entry, in result order |
| Routes.MatchedUpToPrefix | app/routes.py:451-452 | the matched entries of a prefix come first among those of a longer prefix |
| Routes.SendLoop | app/routes.py:448-476 | every matched entry's page is extracted and then sent, in order; it completes iff every extraction succeeds, with one attempt per matched entry; otherwise it stops at the first failing extraction, after the attempts for the entries before it |
| Routes.ProcessingCache.Remove | app/routes.py:488-493 | exactly that process's cached files are removed |
| Routes.AfterInitSettles | app/routes.py:149 | a second day reset on the same day changes nothing |
| Routes.ProcessPayslipSend | app/routes.py:420-493 | the outcome is fixed by the guards in the source's order: 429 with the count and limit iff the count has reached the limit; otherwise 400 iff the process id is missing or empty; otherwise 404 `Company not found` iff there is no template; otherwise 404 iff the process is not cached; otherwise a 500 iff some page extraction fails, which still removes the cache entry and does not increment; otherwise success, with one result per match, the cache entry removed, and `email_sends` incremented once iff at least one email was sent |
| Hebrew.ContainsHebrewSpec | pdf_processor.py:60-63 | true iff some character lies in U+0590–U+05FF |
| Hebrew.DeleteSpec | pdf_processor.py:137-146 | each `re.sub` deletion keeps only characters outside its class, all from the input, and empties the word iff every character is in the class |
| Hebrew.StrippedSpec | pdf_processor.py:137-146 | after the four deletions no niqqud, punctuation, whitespace, digit, currency sign or OCR artifact remains |
| Hebrew.WordCharDeletedSomewhere | pdf_processor.py:137-146 | if the deletions empty a word, every character of it was deletable |
| Hebrew.KeptBy | pdf_processor.py:137-146 | a character outside a deletion's class survives it |
| Hebrew.ReplacePairChars | pdf_processor.py:150-153 | a pair replacement introduces only the replacement's characters |
| Hebrew.ReplacePairAbsent | pdf_processor.py:150-153 | a replacement whose first letter is absent changes nothing |
| Hebrew.CorrectedChars | pdf_processor.py:150-153 | the OCR corrections introduce only מ, ש, ו and ח |
| Hebrew.CleanHebrewWord | pdf_processor.py:132-165 | the cleaned word is never longer than the input |
| Hebrew.CleanTrimsAtMostOneEach | pdf_processor.py:156-159 | at most one leading prefix letter (ה ו ב כ ל מ) and one trailing י or ם are removed, and a leading prefix letter always is |
| Hebrew.CleanHasNoDeletable | pdf_processor.py:137-146 | the cleaned word has no deletable character |
| Hebrew.AllDeletableCleansToEmpty | pdf_processor.py:137-146 | a word made only of deletable symbols and digits cleans to "" |
| Hebrew.PlainWordUnchanged | pdf_processor.py:132-165 | a word with nothing to delete, correct or trim is unchanged |
| Hebrew.StrippedKeepsClean | pdf_processor.py:137-146 | a word with nothing deletable survives the deletions |
| Hebrew.DeleteNoneOf | pdf_processor.py:137-146 | a deletion with nothing to delete changes nothing |

## Where the code and its description differ

Each item below says which behaviour the model follows: the code as written, or, where the model also covers the evidently intended behaviour, which branch stands for which.

- **Missing store action.** Components call a store action `saveCompanyToStorage`, which the store (`frontend/src/store/index.ts:5-38`) does not declare. As written, each such call invokes `undefined` and throws a `TypeError`. The model represents the intended persist as `CompanyConfigService.saveConfig` behind a `writeOk` flag. The `writeOk = false` branches are the code as written, and the `writeOk = true` branches are the intended persist. In the sample upload (`frontend/src/components/CompanySetup/SampleUpload.tsx:52`) the throw lands in the `catch`: the fallback error is set and the wizard stays on the sample step. In `completeSetup` (`frontend/src/components/CompanySetup/TestTemplate.tsx:61-72`) the call sits outside any `try`, so the handler stops before `addCompany` and before the step becomes `complete`. The crop and roster steps (`frontend/src/components/CompanySetup/CropAreaSelector.tsx:150`, `frontend/src/components/CompanySetup/EmployeeUpload.tsx:107`) reach the call only when the response carries a template, which the server's replies never do.
- **`companyConfig` is always undefined.** The processing page passes two arguments where the API helpers take three, so `PreviewRequest` and `SendRequest` carry `None`. The preview form sends the field as the string `undefined`, which the server's preview route ignores. The send request's JSON body drops it.
- **Two setup calls lack a required field.** The client's `uploadEmployees` and `testTemplate` send only `file` and `company_config` (`frontend/src/services/api.ts:109-141`). The server routes declare `company_id` as a required form field (`app/routes.py:294`, `app/routes.py:337`). The framework therefore answers both with 422 before the handler body runs. `Routes.UploadEmployees` models the handler body for a request that does carry `company_id`, which this client never sends.
- **No template in the crop-save response.** The server's save-crop-area reply has no `template`. `SaveCropResponse.template` is optional. With it absent, saving the crop moves to the next step but the stored template keeps its old crop.
- **Literal company-id check.** The processing page rejects an id only when every character is outside `[A-Za-z0-9_-]`, or when the id is shorter than 3. An id such as `a!b` passes.
- **Duplicate companies.** `addCompany` appends without removing duplicates. Finishing the wizard twice for one id lists it twice, although storage holds it once.
- **Messages are not always exclusive.** `signOut` sets a success message without clearing a pending error (`AppStore.SignOutKeepsError`).
- **Summary counts can exceed the page count.** The test summary's three counts add up to the page count only when no matched page has an empty extracted name. Such a page is counted both as matched and as "no name" (`TestTemplate.SummaryCounts`).
- **Client and server PDF checks differ.** The client picker accepts a file named `PDF` because a name without a dot is its own extension. The server refuses that name (`Routes.DotlessNameDisagrees`).
- **A missing template is reported as 500.** In the server roster upload, the 404 for a missing template is raised inside the `try` and reaches the client as a 500.
- **Retrying a send fails.** Once the server's send loop has run, the cached process is removed. The client's "retry failed" re-sends the same process id, which is then answered with 404.
- **Retry is whole-batch.** Retry re-sends the entire matched batch, not only the failed entries. The selection made on the results page is ignored too.

## Left out

- AppStore.Store.SignOut: besides removing the stored `auth_token`, `authService.logout()` deletes the default `Authorization` header of the global HTTP client and signs out of the Google SDK. That client-library state is not part of the model.
- Roster.NameEmailMap: in the source's `reduce` into `{}`, a name equal to `__proto__` is an assignment to the object's prototype, which a string value leaves without effect, not a key. The model makes it an ordinary key.
- Sign-in and session start-up (`signIn` and `initializeAuth` in the store; the client auth service): these are Google SDK loading, `atob`/JSON token decoding and JWT handling, which are library code.
- JWT encoding and decoding, and Google token verification, on the server: library cryptography.
- PDF conversion, page splitting and extraction, image cropping, OCR, AI vision calls and fuzzy name matching: foreign libraries, file I/O and the network. The preview and test results these produce, and whether each page extraction in the send step succeeds, are inputs to the model.
- `extract_names_from_text` in the PDF processor: a wrapper over a fuzzy scorer that cannot be seen. Only `_contains_hebrew` and `_clean_hebrew_word` are modelled.
- Email delivery: each send is an opaque (sent, detail) outcome supplied as a parameter.
- The Blob/anchor download in `exportConfigs`: the model keeps only the exported map and the file name. The file name's date is a parameter.
- `getStorageInfo` and `formatFileSize`: floating-point display arithmetic.
- Canvas drawing and the CSS-to-canvas scaling in `getMousePos`: the crop handlers take canvas coordinates directly.
- Interleaving of asynchronous calls and updates after unmount: each handler is one atomic step whose remote result is an input.
- Logging and `console` output.
- The downloadable CSV template: a static file.
- ConfigStore.CompanyConfigService.GetConfig: the source looks the id up with `configs[companyId] || null`, which also finds inherited `Object.prototype` members. For an id such as `constructor` with nothing stored, the source returns that member instead of `null`. The model returns `None`, because its result holds templates only. `DeleteConfig` does model this case.
- ConfigStore.CompanyConfigService.DeleteConfig: in the source a stored falsy value fails the truthiness test and is never deleted. The model stores templates only, so it has no such value.
- ConfigStore.CompanyConfigService.ImportConfigs: imported values are typed as templates. An imported falsy value (`0`, `""`, `false`, `null`) would read as absent in `getConfig` and never be deleted by `deleteConfig`; the model has no such entries.
- ConfigStore.CompanyConfigService.GetCompanyIds: it does not fix the order of `Object.keys`. It states the set of ids, their count and that each appears once.
- ConfigStore.CompanyConfigService.GetCompanyList: it does not fix the order of `Object.values`. It states the count and the set of templates.
- CompanyList.CompanyListPage.LoadCompanies: the same unordered view of `Object.values`.
- The roster agreement between client and server (every name the client parser accepts is a key of the server's roster): not stated. The two trim with different whitespace classes, and the client trims each line before splitting on commas.
- Configurable limits, such as the server's maximum size in MB and the rate limits, are parameters. They are not read from the environment.
