/**
 * The back end's configuration: one company template kept in a single
 * JSON file, overwritten by each save and removed by delete. The file's
 * state is a field; what a failed write leaves behind is a parameter.
 */
module ConfigManager {
  import opened Wrappers
  import opened Types

  const DefaultCompanyId := "main"
  const DefaultThreshold: real := 80.0

  /**
   * The keys of the stored JSON object; `None` is a missing key (for the
   * two timestamps also a JSON `null`, which `.get` does not tell apart).
   */
  datatype StoredRecord = StoredRecord(
    companyId: Option<string>,
    companyName: Option<string>,
    nameCropArea: Option<CropArea>,
    employeeEmails: Option<map<string, string>>,
    ocrConfidenceThreshold: Option<real>,
    createdAt: Option<string>,
    updatedAt: Option<string>)

  /** The config file: absent, present but not a readable template object, or holding a record. */
  datatype ConfigFile = NoFile | Unreadable | Holds(record: StoredRecord)

  /** How a `save_template` ends: written, `open` refused (the file is untouched), or the dump broke off mid-file. */
  datatype WriteOutcome = Written | OpenFailed | DumpFailed

  /** `asdict(template)`: every key present. */
  function Dump(t: Template): StoredRecord {
    StoredRecord(Some(t.companyId), Some(t.companyName), Some(t.nameCropArea), Some(t.employeeEmails),
                 Some(t.ocrConfidenceThreshold), t.createdAt, t.updatedAt)
  }

  /**
   * The constructor call in `load_template`: the name, crop area and roster
   * are required; the id defaults to `main` and the threshold to 80.0.
   */
  function Parse(r: StoredRecord): (t: Option<Template>)
    ensures t.Some? <==> r.companyName.Some? && r.nameCropArea.Some? && r.employeeEmails.Some?
    ensures t.Some? ==>
      t.value.companyName == r.companyName.value && t.value.nameCropArea == r.nameCropArea.value
      && t.value.employeeEmails == r.employeeEmails.value
      && t.value.createdAt == r.createdAt && t.value.updatedAt == r.updatedAt
    ensures t.Some? ==> t.value.companyId == (if r.companyId.Some? then r.companyId.value else DefaultCompanyId)
    ensures t.Some? ==>
      t.value.ocrConfidenceThreshold == Pick(r.ocrConfidenceThreshold, DefaultThreshold)
  {
    if r.companyName.None? || r.nameCropArea.None? || r.employeeEmails.None? then None
    else Some(Template(
      Pick(r.companyId, DefaultCompanyId), r.companyName.value, r.nameCropArea.value,
      r.employeeEmails.value, Pick(r.ocrConfidenceThreshold, DefaultThreshold), r.createdAt, r.updatedAt))
  }

  /** What is saved is what loads back: every field of the template survives the file. */
  lemma {:induction false} ParseDump(t: Template)
    ensures Parse(Dump(t)) == Some(t)
  {
    var p := Parse(Dump(t));
    assert p.Some?;
    assert p.value.companyId == t.companyId;
    assert p.value.ocrConfidenceThreshold == t.ocrConfidenceThreshold;
  }

  /** A record without an id or a threshold loads with `main` and 80.0. */
  lemma MissingKeysDefault(r: StoredRecord)
    requires r.companyName.Some? && r.nameCropArea.Some? && r.employeeEmails.Some?
    requires r.companyId.None? && r.ocrConfidenceThreshold.None?
    ensures Parse(r).Some? && Parse(r).value.companyId == "main" && Parse(r).value.ocrConfidenceThreshold == 80.0
  {
  }

  class ConfigManager {
    var file: ConfigFile

    /** The manager over whatever the config directory already holds. */
    constructor (existing: ConfigFile)
      ensures file == existing
    {
      file := existing;
    }

    /** `load_template`: `None` when the file is absent, unreadable or lacks a required key. */
    function LoadTemplate(): (t: Option<Template>)
      reads this
      ensures t.Some? <==> file.Holds? && Parse(file.record).Some?
      ensures file.Holds? ==> t == Parse(file.record)
    {
      if file.Holds? then Parse(file.record) else None
    }

    /** `load_template_by_id`: the id is ignored. */
    function LoadTemplateById(companyId: string): (t: Option<Template>)
      reads this
      ensures t.Some? <==> file.Holds? && Parse(file.record).Some?
    {
      LoadTemplate()
    }

    /** `list_companies`: the one template's id, or nothing. */
    function ListCompanies(): (ids: seq<string>)
      reads this
      ensures |ids| <= 1
      ensures ids == [] <==> LoadTemplate().None?
      ensures ids != [] ==> ids[0] == LoadTemplate().value.companyId
    {
      var t := LoadTemplate();
      if t.Some? then [t.value.companyId] else []
    }

    /** `list_company_templates`: the one template, or nothing. */
    function ListCompanyTemplates(): (ts: seq<Template>)
      reads this
      ensures |ts| <= 1
      ensures ts == [] <==> LoadTemplate().None?
      ensures ts != [] ==> Some(ts[0]) == LoadTemplate()
    {
      var t := LoadTemplate();
      if t.Some? then [t.value] else []
    }

    /**
     * `save_template`: the file is replaced by the template, whatever it
     * held, and a later load returns the template itself. A failure
     * reports `false`; a dump that broke off leaves an unreadable file.
     */
    method SaveTemplate(t: Template, outcome: WriteOutcome) returns (ok: bool)
      modifies this
      ensures ok <==> outcome == Written
      ensures outcome == Written ==> file == Holds(Dump(t)) && LoadTemplate() == Some(t)
      ensures outcome == OpenFailed ==> file == old(file)
      ensures outcome == DumpFailed ==> file == Unreadable && LoadTemplate() == None
    {
      match outcome {
        case Written =>
          file := Holds(Dump(t));
          ParseDump(t);
          ok := true;
        case OpenFailed =>
          ok := false;
        case DumpFailed =>
          file := Unreadable;
          ok := false;
      }
    }

    /** `delete_template`: `true` exactly when a file existed and was removed; then nothing loads. */
    method DeleteTemplate(unlinkOk: bool) returns (deleted: bool)
      modifies this
      ensures deleted <==> old(file) != NoFile && unlinkOk
      ensures deleted ==> file == NoFile && LoadTemplate() == None
      ensures !deleted ==> file == old(file)
    {
      if file != NoFile {
        if unlinkOk {
          file := NoFile;
          return true;
        }
        return false;
      }
      deleted := false;
    }
  }

  /** Loading by id gives the same answer for every id. */
  lemma LoadByIdIgnoresId(m: ConfigManager, a: string, b: string)
    ensures m.LoadTemplateById(a) == m.LoadTemplateById(b) == m.LoadTemplate()
  {
  }
}
