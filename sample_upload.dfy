/**
 * The wizard's first step: a company name and a sample payslip go to the
 * back end, and the answer opens the crop step with a fresh template.
 */
module SampleUpload {
  import opened Wrappers
  import opened Types
  import Strings
  import Slug
  import AppStore
  import ConfigStore

  /** What the sample upload sends: the file, the trimmed name and the id derived from it. */
  datatype SampleRequest = SampleRequest(file: File, companyName: string, companyId: string)

  datatype UploadSampleResponse = UploadSampleResponse(message: string, previewUrl: string, companyId: string)

  const DefaultCropArea := CropArea(0.0, 0.0, 300.0, 80.0)
  const DefaultThreshold: real := 80.0

  /** The request for a name: the name is sent trimmed, and the id is the slug of the trimmed name. */
  function RequestFor(file: File, companyName: string): (r: SampleRequest)
    ensures r.file == file && r.companyName == Strings.JsTrim(companyName)
    ensures Slug.IsCanonicalSlug(r.companyId)
  {
    Slug.SlugIsCanonical(Strings.JsTrim(companyName));
    SampleRequest(file, Strings.JsTrim(companyName), Slug.Slug(Strings.JsTrim(companyName)))
  }

  /**
   * The template a successful upload starts from: the id the server
   * answered with, the trimmed name, the default 300x80 area at the origin,
   * no employees, threshold 80 and the creation time.
   */
  function InitialTemplate(companyId: string, companyName: string, nowIso: string): Template {
    Template(companyId, companyName, DefaultCropArea, map[], DefaultThreshold, Some(nowIso), None)
  }

  class SampleForm {
    var companyName: string
    var selectedFile: Option<File>
    var isUploading: bool

    constructor ()
      ensures companyName == "" && selectedFile == None && !isUploading
    {
      companyName := "";
      selectedFile := None;
      isUploading := false;
    }

    /** The upload button is enabled when a name and a file are given and no upload is running. */
    predicate CanUpload()
      reads this
    {
      Strings.JsTrim(companyName) != "" && selectedFile.Some? && !isUploading
    }

    /**
     * The upload handler. Without a file or a non-blank name it only sets
     * an error and sends nothing. Otherwise it sends `RequestFor(file, name)`;
     * on success the store gets the preview, the sample id, the new template
     * as current company, the template is written to the browser store and
     * the wizard moves on to the crop step; a rejected call or a failed
     * write ends with an error and the step unchanged.
     */
    method HandleUpload(store: AppStore.Store, configs: ConfigStore.CompanyConfigService,
                        outcome: ApiOutcome<UploadSampleResponse>, nowIso: string, writeOk: bool)
      returns (sent: Option<SampleRequest>)
      modifies this, store, configs
      ensures companyName == old(companyName) && selectedFile == old(selectedFile)
      ensures sent.None? <==> old(selectedFile).None? || Strings.JsTrim(companyName) == ""
      ensures old(CanUpload()) ==> sent.Some?
      ensures sent.None? ==>
        store.View() == old(store.View()).(error := Some(MissingNameOrFile), successMessage := None)
        && configs.slot == old(configs.slot) && isUploading == old(isUploading)
      ensures sent.Some? ==> sent.value == RequestFor(selectedFile.value, companyName) && !isUploading
      ensures sent.Some? && outcome.Rejected? ==>
        store.View() == old(store.View()).(isLoading := false,
          error := Some(ErrorMessage(outcome.detail, SampleUploadFailed)), successMessage := None)
        && configs.slot == old(configs.slot)
      ensures sent.Some? && outcome.Resolved? ==>
        var t := InitialTemplate(outcome.response.companyId, sent.value.companyName, nowIso);
        if writeOk then
          store.View() == old(store.View()).(isLoading := false, previewUrl := Some(outcome.response.previewUrl),
            uploadedSampleId := Some(outcome.response.companyId), currentCompany := Some(t),
            error := None, successMessage := Some(SampleUploaded), setupStep := Crop)
          && configs.GetConfig(t.companyId) == Some(t)
        else
          store.View() == old(store.View()).(isLoading := false, previewUrl := Some(outcome.response.previewUrl),
            uploadedSampleId := Some(outcome.response.companyId), currentCompany := Some(t),
            error := Some(SampleUploadFailed), successMessage := None)
          && configs.slot == old(configs.slot)
    {
      if selectedFile.None? || Strings.JsTrim(companyName) == "" {
        store.SetError(Some(MissingNameOrFile));
        return None;
      }
      isUploading := true;
      store.SetLoading(true);
      store.SetError(None);
      var request := RequestFor(selectedFile.value, companyName);
      sent := Some(request);
      ApplyUploadResponse(store, configs, request.companyName, outcome, nowIso, writeOk);
      isUploading := false;
      store.SetLoading(false);
    }

    /**
     * What the handler does with the call's outcome: a rejection sets its
     * error; a response records the preview, the sample id and the new
     * template, writes the template to the browser store and, when that
     * write succeeds, moves on to the crop step.
     */
    method ApplyUploadResponse(store: AppStore.Store, configs: ConfigStore.CompanyConfigService, name: string,
                               outcome: ApiOutcome<UploadSampleResponse>, nowIso: string, writeOk: bool)
      modifies store, configs
      ensures outcome.Rejected? ==>
        store.View() == old(store.View()).(error := Some(ErrorMessage(outcome.detail, SampleUploadFailed)),
          successMessage := None)
        && configs.slot == old(configs.slot)
      ensures outcome.Resolved? ==>
        var t := InitialTemplate(outcome.response.companyId, name, nowIso);
        if writeOk then
          store.View() == old(store.View()).(previewUrl := Some(outcome.response.previewUrl),
            uploadedSampleId := Some(outcome.response.companyId), currentCompany := Some(t),
            error := None, successMessage := Some(SampleUploaded), setupStep := Crop)
          && configs.GetConfig(t.companyId) == Some(t)
        else
          store.View() == old(store.View()).(previewUrl := Some(outcome.response.previewUrl),
            uploadedSampleId := Some(outcome.response.companyId), currentCompany := Some(t),
            error := Some(SampleUploadFailed), successMessage := None)
          && configs.slot == old(configs.slot)
    {
      match outcome {
        case Rejected(detail) =>
          store.SetError(Some(ErrorMessage(detail, SampleUploadFailed)));
        case Resolved(response) =>
          var t := InitialTemplate(response.companyId, name, nowIso);
          store.SetPreviewUrl(Some(response.previewUrl));
          store.SetUploadedSampleId(Some(response.companyId));
          store.SetCurrentCompany(Some(t));
          var written := configs.SaveConfig(t, writeOk);
          if written.Err? {
            // the storage error carries no response detail
            store.SetError(Some(ErrorMessage(None, SampleUploadFailed)));
          } else {
            store.SetSuccessMessage(Some(SampleUploaded));
            store.SetSetupStep(Crop);
          }
      }
    }
  }
}
