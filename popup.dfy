/**
 * The parameter settings panel: a working copy of the committed parameters,
 * one error flag per field, and the edit, cancel and submit handlers. The
 * callbacks it receives are the host's `HandlePopupSubmit` and `Close`.
 */
module Popup {
  import opened ParamRules
  import opened FileUpload

  class PopupModal {
    const host: ParameterHost
    var formData: seq<Param>
    var errors: seq<bool>

    /** One error flag per working field, one working field per committed parameter. */
    ghost predicate Valid()
      reads this, host
    {
      |formData| == |errors| == |host.parameters|
    }

    /** Mounting the panel, followed by the first run of its initialising effect. */
    constructor (host: ParameterHost)
      ensures this.host == host
      ensures formData == WorkingCopy(host.parameters) && errors == NoErrors(|host.parameters|)
      ensures Valid()
    {
      this.host := host;
      formData := WorkingCopy(host.parameters);
      errors := NoErrors(|host.parameters|);
    }

    /**
     * The effect that runs whenever the committed parameters change: a fresh
     * working copy (a zero value replaced by the default) and no errors.
     */
    method SyncFromParameters()
      modifies this
      ensures host.parameters == old(host.parameters)
      ensures formData == WorkingCopy(host.parameters) && errors == NoErrors(|host.parameters|)
      ensures Valid()
    {
      formData := WorkingCopy(host.parameters);
      errors := NoErrors(|host.parameters|);
    }

    /**
     * Editing field `index` stores the new value and sets that field's flag
     * to "out of its range"; every other value and flag stays as it was.
     * Right after the edit the flag says exactly whether a submit would
     * reject the field.
     */
    method HandleInputChange(index: nat, value: int)
      requires Valid() && index < |formData|
      modifies this
      ensures host.parameters == old(host.parameters)
      ensures formData == old(formData)[index := old(formData)[index].(value := value)]
      ensures errors == old(errors)[index := !InRange(value, EditRange(old(formData)[index].range))]
      ensures errors[index] <==> !FieldValid(formData[index])
      ensures Valid()
    {
      var range := formData[index].range;
      var bounds := EditRange(range);
      formData := formData[index := formData[index].(value := value)];
      errors := errors[index := !IsValidNumber(value, bounds.min, bounds.max)];
      EditAgreesWithSubmit(range);
    }

    /**
     * Cancel resets every working value to its default, leaves the flags
     * alone, closes the panel and commits nothing.
     */
    method HandleCancel()
      requires Valid()
      modifies this, host
      ensures host.parameters == old(host.parameters) && !host.popupOpen
      ensures formData == ResetToDefaults(host.parameters) && errors == old(errors)
      ensures Valid()
    {
      formData := ResetToDefaults(host.parameters);
      host.Close();
    }

    /**
     * Submit is all or nothing: when some field fails its range nothing is
     * committed and the panel stays as it is; otherwise the whole working
     * copy is committed and then the panel closes.
     */
    method HandleSubmit() returns (committed: bool)
      requires Valid()
      modifies host
      ensures committed <==> !AnyInvalid(formData)
      ensures committed ==> host.parameters == formData && !host.popupOpen
      ensures !committed ==>
        host.parameters == old(host.parameters) && host.popupOpen == old(host.popupOpen)
      ensures Valid()
    {
      if AnyInvalid(formData) {
        committed := false;
        return;
      }
      host.HandlePopupSubmit(formData);
      host.Close();
      committed := true;
    }
  }

  /**
   * Opening the panel, editing nothing and cancelling leaves the committed
   * parameters exactly as they were.
   */
  method OpenThenCancel() returns (host: ParameterHost, panel: PopupModal)
    ensures panel.host == host
    ensures host.parameters == InitialParameters() && !host.popupOpen
    ensures panel.formData == ResetToDefaults(InitialParameters())
  {
    host := new ParameterHost();
    panel := new PopupModal(host);
    host.HandleProcess();
    panel.HandleCancel();
  }
}
