/**
 * The name-area selector: a fixed 300x80 rectangle, centred when the sample
 * image loads, that the user drags over the canvas and then saves. Cursor
 * positions are given in canvas pixels; the canvas takes the image's size.
 */
module CropSelection {
  import opened Wrappers
  import opened Types
  import AppStore
  import ConfigStore

  const BoxWidth: real := 300.0
  const BoxHeight: real := 80.0

  function Max(a: real, b: real): real { if a >= b then a else b }
  function Min(a: real, b: real): real { if a <= b then a else b }

  /** `Math.max(0, Math.min(v, hi))`: kept in `[0, hi]` when that range is not empty, and 0 otherwise. */
  function Clamp(v: real, hi: real): (r: real)
    ensures r >= 0.0
    ensures hi >= 0.0 ==> r <= hi
    ensures 0.0 <= v <= hi ==> r == v
    ensures hi < 0.0 ==> r == 0.0
  {
    Max(0.0, Min(v, hi))
  }

  /** The rectangle placed on a freshly loaded image: centred on each axis the image is large enough for, at 0 otherwise. */
  function Centred(imageWidth: real, imageHeight: real): (r: CropArea)
    ensures r.width == BoxWidth && r.height == BoxHeight
    ensures r.x >= 0.0 && r.y >= 0.0
    ensures imageWidth >= BoxWidth ==> r.x + r.width / 2.0 == imageWidth / 2.0 && r.x + r.width <= imageWidth
    ensures imageHeight >= BoxHeight ==> r.y + r.height / 2.0 == imageHeight / 2.0 && r.y + r.height <= imageHeight
    ensures imageWidth < BoxWidth ==> r.x == 0.0
    ensures imageHeight < BoxHeight ==> r.y == 0.0
  {
    CropArea(Max(0.0, (imageWidth - BoxWidth) / 2.0), Max(0.0, (imageHeight - BoxHeight) / 2.0), BoxWidth, BoxHeight)
  }

  /** The mouse-down hit test; all four edges count as inside. */
  predicate Contains(area: CropArea, px: real, py: real) {
    area.x <= px <= area.x + area.width && area.y <= py <= area.y + area.height
  }

  /** The rectangle lies within a canvas, on each axis the canvas is large enough for. */
  predicate InBounds(area: CropArea, canvasWidth: real, canvasHeight: real) {
    area.x >= 0.0 && area.y >= 0.0
    && (canvasWidth >= area.width ==> area.x <= canvasWidth - area.width)
    && (canvasHeight >= area.height ==> area.y <= canvasHeight - area.height)
  }

  /**
   * Where a drag puts the rectangle: the cursor minus the press offset,
   * clamped to the canvas; the size never changes.
   */
  function Dragged(area: CropArea, offsetX: real, offsetY: real, px: real, py: real,
                   canvasWidth: real, canvasHeight: real): (r: CropArea)
    ensures r.width == area.width && r.height == area.height
    ensures InBounds(r, canvasWidth, canvasHeight)
  {
    area.(x := Clamp(px - offsetX, canvasWidth - area.width), y := Clamp(py - offsetY, canvasHeight - area.height))
  }

  /** Releasing the cursor where it was pressed leaves an in-bounds rectangle where it was. */
  lemma MoveBackToPress(area: CropArea, px: real, py: real, canvasWidth: real, canvasHeight: real)
    requires InBounds(area, canvasWidth, canvasHeight)
    requires canvasWidth >= area.width && canvasHeight >= area.height
    ensures Dragged(area, px - area.x, py - area.y, px, py, canvasWidth, canvasHeight) == area
  {
    assert px - (px - area.x) == area.x;
    assert py - (py - area.y) == area.y;
  }

  /** The crop-save response; the back end sends no template, so it is optional. */
  datatype SaveCropResponse = SaveCropResponse(message: string, template: Option<Template>)

  /** What `saveCropArea` posts: the company's id and name and the rectangle. */
  datatype SaveCropRequest = SaveCropRequest(companyId: string, companyName: string, cropArea: CropArea)

  /** The selector's component state. */
  class Selector {
    var imageLoaded: bool
    var cropArea: CropArea
    var isDragging: bool
    var dragX: real
    var dragY: real
    var isSaving: bool
    var canvasWidth: real
    var canvasHeight: real

    constructor ()
      ensures !imageLoaded && !isDragging && !isSaving
      ensures cropArea == CropArea(0.0, 0.0, BoxWidth, BoxHeight) && dragX == 0.0 && dragY == 0.0
    {
      imageLoaded := false;
      cropArea := CropArea(0.0, 0.0, BoxWidth, BoxHeight);
      isDragging := false;
      dragX, dragY := 0.0, 0.0;
      isSaving := false;
      canvasWidth, canvasHeight := 0.0, 0.0;
    }

    /** The image's load handler: the canvas takes the image's size and the rectangle is centred on it. */
    method OnImageLoad(imageWidth: nat, imageHeight: nat)
      modifies this
      ensures imageLoaded
      ensures canvasWidth == imageWidth as real && canvasHeight == imageHeight as real
      ensures cropArea == Centred(imageWidth as real, imageHeight as real)
      ensures InBounds(cropArea, canvasWidth, canvasHeight)
      ensures isDragging == old(isDragging) && dragX == old(dragX) && dragY == old(dragY) && isSaving == old(isSaving)
    {
      imageLoaded := true;
      canvasWidth, canvasHeight := imageWidth as real, imageHeight as real;
      cropArea := Centred(canvasWidth, canvasHeight);
    }

    /** A press inside the rectangle starts a drag and records where in the rectangle it was grabbed. */
    method MouseDown(px: real, py: real)
      modifies this
      ensures Contains(old(cropArea), px, py) ==>
        isDragging && dragX == px - cropArea.x && dragY == py - cropArea.y
        && 0.0 <= dragX <= cropArea.width && 0.0 <= dragY <= cropArea.height
      ensures !Contains(old(cropArea), px, py) ==> isDragging == old(isDragging) && dragX == old(dragX) && dragY == old(dragY)
      ensures cropArea == old(cropArea) && imageLoaded == old(imageLoaded) && isSaving == old(isSaving)
      ensures canvasWidth == old(canvasWidth) && canvasHeight == old(canvasHeight)
    {
      if Contains(cropArea, px, py) {
        isDragging := true;
        dragX, dragY := px - cropArea.x, py - cropArea.y;
      }
    }

    /** While dragging over the canvas the rectangle follows the cursor; otherwise nothing changes. */
    method MouseMove(px: real, py: real)
      modifies this
      ensures isDragging && imageLoaded ==>
        cropArea == Dragged(old(cropArea), dragX, dragY, px, py, canvasWidth, canvasHeight)
      ensures !(isDragging && imageLoaded) ==> cropArea == old(cropArea)
      ensures cropArea.width == old(cropArea.width) && cropArea.height == old(cropArea.height)
      ensures isDragging == old(isDragging) && dragX == old(dragX) && dragY == old(dragY)
      ensures imageLoaded == old(imageLoaded) && isSaving == old(isSaving)
      ensures canvasWidth == old(canvasWidth) && canvasHeight == old(canvasHeight)
    {
      if !isDragging {
        return;
      }
      if !imageLoaded {
        return;
      }
      cropArea := Dragged(cropArea, dragX, dragY, px, py, canvasWidth, canvasHeight);
    }

    /** Mouse-up and mouse-leave both end the drag. */
    method MouseUp()
      modifies this
      ensures !isDragging
      ensures cropArea == old(cropArea) && dragX == old(dragX) && dragY == old(dragY)
      ensures imageLoaded == old(imageLoaded) && isSaving == old(isSaving)
      ensures canvasWidth == old(canvasWidth) && canvasHeight == old(canvasHeight)
    {
      isDragging := false;
    }

    /**
     * Saves the rectangle. Without a current company only an error is set;
     * otherwise the company's id and name and the rectangle are posted
     * (`sent`). When the call resolves, a returned template is written to the
     * browser store and the current company takes the rectangle, and the
     * wizard moves on to the roster; a rejected call or a failed write
     * leaves an error and the step where it was.
     */
    method HandleSave(store: AppStore.Store, configs: ConfigStore.CompanyConfigService,
                      outcome: ApiOutcome<SaveCropResponse>, writeOk: bool)
      returns (sent: Option<SaveCropRequest>)
      modifies this, store, configs
      ensures cropArea == old(cropArea) && isDragging == old(isDragging) && imageLoaded == old(imageLoaded)
      ensures old(store.currentCompany).None? ==> sent == None
      ensures old(store.currentCompany).Some? ==>
        sent == Some(SaveCropRequest(old(store.currentCompany).value.companyId,
                                     old(store.currentCompany).value.companyName, cropArea))
      ensures old(store.currentCompany).Some? ==> !isSaving
      ensures old(store.currentCompany).None? ==>
        store.View() == old(store.View()).(error := Some(NoCompanyData), successMessage := None)
        && configs.slot == old(configs.slot) && isSaving == old(isSaving)
      ensures old(store.currentCompany).Some? && outcome.Rejected? ==>
        store.View() == old(store.View()).(isLoading := false,
          error := Some(ErrorMessage(outcome.detail, CropSaveFailed)), successMessage := None)
        && configs.slot == old(configs.slot)
      ensures old(store.currentCompany).Some? && outcome.Resolved? && outcome.response.template.None? ==>
        store.View() == old(store.View()).(isLoading := false, error := None,
          successMessage := Some(CropSaved), setupStep := Employees)
        && configs.slot == old(configs.slot)
      ensures old(store.currentCompany).Some? && outcome.Resolved? && outcome.response.template.Some? && !writeOk ==>
        store.View() == old(store.View()).(isLoading := false, error := Some(CropSaveFailed), successMessage := None)
        && configs.slot == old(configs.slot)
      ensures old(store.currentCompany).Some? && outcome.Resolved? && outcome.response.template.Some? && writeOk ==>
        store.View() == old(store.View()).(isLoading := false, error := None,
          successMessage := Some(CropSaved), setupStep := Employees,
          companies := AppStore.UpdatedCompanies(old(store.companies), old(store.currentCompany).value.companyId,
            NoUpdate.(nameCropArea := Some(cropArea))),
          currentCompany := Some(ApplyUpdate(old(store.currentCompany).value, NoUpdate.(nameCropArea := Some(cropArea)))))
        && configs.GetConfig(outcome.response.template.value.companyId) == Some(outcome.response.template.value)
    {
      var current := store.currentCompany;
      if current.None? {
        store.SetError(Some(NoCompanyData));
        return None;
      }
      var company := current.value;
      isSaving := true;
      store.SetLoading(true);
      store.SetError(None);
      sent := Some(SaveCropRequest(company.companyId, company.companyName, cropArea));
      ApplySaveResponse(store, configs, company.companyId, outcome, writeOk);
      isSaving := false;
      store.SetLoading(false);
    }

    /**
     * What `handleSave` does with the call's outcome: a rejection sets its
     * error; a response stores its template, if any, and records the crop
     * area on the company before announcing success.
     */
    method ApplySaveResponse(store: AppStore.Store, configs: ConfigStore.CompanyConfigService, companyId: string,
                             outcome: ApiOutcome<SaveCropResponse>, writeOk: bool)
      modifies store, configs
      ensures outcome.Rejected? ==>
        store.View() == old(store.View()).(error := Some(ErrorMessage(outcome.detail, CropSaveFailed)), successMessage := None)
        && configs.slot == old(configs.slot)
      ensures outcome.Resolved? && outcome.response.template.None? ==>
        store.View() == old(store.View()).(error := None, successMessage := Some(CropSaved), setupStep := Employees)
        && configs.slot == old(configs.slot)
      ensures outcome.Resolved? && outcome.response.template.Some? && !writeOk ==>
        store.View() == old(store.View()).(error := Some(CropSaveFailed), successMessage := None)
        && configs.slot == old(configs.slot)
      ensures outcome.Resolved? && outcome.response.template.Some? && writeOk ==>
        var update := NoUpdate.(nameCropArea := Some(cropArea));
        store.View() == old(store.View()).(error := None, successMessage := Some(CropSaved), setupStep := Employees,
          companies := AppStore.UpdatedCompanies(old(store.companies), companyId, update),
          currentCompany := AppStore.UpdatedCurrent(old(store.currentCompany), companyId, update))
        && configs.GetConfig(outcome.response.template.value.companyId) == Some(outcome.response.template.value)
    {
      match outcome {
        case Rejected(detail) =>
          store.SetError(Some(ErrorMessage(detail, CropSaveFailed)));
        case Resolved(response) =>
          var saved := true;
          if response.template.Some? {
            var written := configs.SaveConfig(response.template.value, writeOk);
            if written.Err? {
              // the storage error carries no response detail
              store.SetError(Some(ErrorMessage(None, CropSaveFailed)));
              saved := false;
            } else {
              store.UpdateCompany(companyId, NoUpdate.(nameCropArea := Some(cropArea)));
            }
          }
          if saved {
            store.SetSuccessMessage(Some(CropSaved));
            store.SetSetupStep(Employees);
          }
      }
    }

    /** Back to the sample upload. */
    method GoBack(store: AppStore.Store)
      modifies store
      ensures store.View() == old(store.View()).(setupStep := Upload)
    {
      store.SetSetupStep(Upload);
    }
  }
}
