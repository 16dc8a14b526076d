/**
 * The multi-step form controller: the current step, the collected form data
 * and the submitting flag, and the handlers that move between steps, collect
 * the page's inputs and submit.
 */
module Form {
  import opened JsValues
  import Config
  import Validation
  import opened FormView

  /** What showing a step puts on the page: buttons, progress dots and, on the review step, the review texts. */
  datatype Page = Page(step: int, buttons: Buttons, dots: seq<DotStatus>, review: Option<Review>)

  function PageFor(step: int, data: map<string, Value>): Page
  {
    Page(step, ButtonsFor(step), ProgressDots(step),
         if step == Config.ReviewSubmit then Some(ReviewOf(data)) else None)
  }

  /** How the synchronous part of `submitForm` ends: errors shown, or a request sent with this payload. */
  datatype SubmitStart = Rejected(errors: seq<string>) | Sent(payload: map<string, Value>)

  /** The settled result of the submission request. */
  datatype ApiResult = Succeeded(message: string) | Failed(error: string)

  /** What the page shows once the request settles. */
  datatype Notice = ShowSuccess(message: string) | ShowErrors(errors: seq<string>)

  /** What a press of the next button (or a form submit) did. */
  datatype NextOutcome = Ignored | Blocked(errors: seq<string>) | Advanced(page: Page) | Submitting(start: SubmitStart)

  /** What a change event toggled. */
  datatype Toggled = NothingToggled | SectionsToggled(sections: Visibility) | PreferredAreaToggled(shown: bool)

  /**
   * The final check before the request: the whole-form validation's messages
   * if there are any, otherwise the data goes out as the payload.
   */
  function SubmitStartFor(data: map<string, Value>): (r: SubmitStart)
    ensures r.Sent? <==> Validation.CollectErrors(Config.Required, data) == Validation.Errors([])
    ensures r.Sent? ==> r.payload == data
    ensures r.Rejected? ==> Validation.CollectErrors(Config.Required, data) == Validation.Errors(r.errors) && r.errors != []
  {
    Validation.RequiredAreUnconditional();
    Validation.CollectErrorsBounded(Config.Required, data);
    var messages := Validation.CollectErrors(Config.Required, data).messages;
    if messages == [] then Sent(data) else Rejected(messages)
  }

  /**
   * Going back to a step and pressing next again with the page unchanged
   * leaves the form data as it was after the first press: for a step that
   * only collects its own controls, for the whole-form collection, and for
   * the press on the last data step, which collects the step and then, on
   * entering the review step, the whole form.
   */
  lemma RevisitKeepsData(data: map<string, Value>, dom: Dom, step: int)
    ensures StepCollect(StepCollect(data, dom, step), dom, step) == StepCollect(data, dom, step)
    ensures CollectForm(CollectForm(data, dom.inputs), dom.inputs) == CollectForm(data, dom.inputs)
    ensures CollectForm(StepCollect(CollectForm(StepCollect(data, dom, step), dom.inputs), dom, step), dom.inputs)
            == CollectForm(StepCollect(data, dom, step), dom.inputs)
  {
    if step in dom.stepElements {
      CollectInputsIdempotent(data, StepInputs(dom.inputs, step, false));
    }
    CollectFormIdempotent(data, dom.inputs);
    var once := CollectForm(StepCollect(data, dom, step), dom.inputs);
    StepCollectIsOverride(data, dom, step);
    CollectFormIsOverride(StepCollect(data, dom, step), dom.inputs);
    StepCollectIsOverride(once, dom, step);
    CollectFormIsOverride(StepCollect(once, dom, step), dom.inputs);
    OverrideTwice(data, StepWrites(dom, step), FormWrites(dom.inputs));
  }

  class IntakeFormController {
    var currentStep: int
    var formData: map<string, Value>
    var isSubmitting: bool

    /** The current step is one of the five. */
    ghost predicate Valid()
      reads this
    {
      1 <= currentStep <= Config.Total
    }

    /** A fresh controller is on the first step, with no data and not submitting. */
    constructor (dom: Dom)
      ensures Valid()
      ensures currentStep == 1 && formData == map[] && !isSubmitting
    {
      currentStep := 1;
      formData := map[];
      isSubmitting := false;
      new;
      var _ := ShowStep(1, dom);
    }

    /** `validateCurrentStep`: the required check over the current step's container. */
    method ValidateCurrentStep(dom: Dom) returns (errors: seq<string>)
      ensures errors == StepErrors(dom, currentStep)
    {
      if currentStep !in dom.stepElements {
        return [];
      }
      var fields := StepInputs(dom.inputs, currentStep, true);
      errors := [];
      var i := 0;
      while i < |fields|
        invariant 0 <= i <= |fields|
        invariant errors == MissingErrors(fields[..i])
      {
        var field := fields[i];
        MissingErrorsStep(fields, i);
        TrimEmptyIffBlank(field.value);
        if Trim(field.value) == "" {
          errors := errors + [DisplayName(field) + " is required"];
        }
        i := i + 1;
      }
      assert fields[..i] == fields;
    }

    /** `collectCurrentStepData`: the current step's controls written into the form data. */
    method CollectCurrentStepData(dom: Dom)
      modifies this
      ensures formData == StepCollect(old(formData), dom, currentStep)
      ensures currentStep == old(currentStep) && isSubmitting == old(isSubmitting)
    {
      if currentStep !in dom.stepElements {
        return;
      }
      var inputs := StepInputs(dom.inputs, currentStep, false);
      var i := 0;
      while i < |inputs|
        invariant 0 <= i <= |inputs|
        invariant formData == Apply(old(formData), inputs[..i], StepPass)
        invariant currentStep == old(currentStep) && isSubmitting == old(isSubmitting)
      {
        var input := inputs[i];
        if input.kind == Radio {
          if input.checked {
            formData := formData[input.name := Str(input.value)];
          }
        } else if input.kind == Checkbox {
          formData := formData[input.name := Bool(input.checked)];
        } else {
          formData := formData[input.name := Str(input.value)];
        }
        assert inputs[..i + 1][..i] == inputs[..i];
        i := i + 1;
      }
      assert inputs[..i] == inputs;
    }

    /** `collectAllFormData`: the form's `FormData` entries, then every checkbox's state. */
    method CollectAllFormData(dom: Dom) returns (data: map<string, Value>)
      modifies this
      ensures formData == CollectForm(old(formData), dom.inputs) && data == formData
      ensures currentStep == old(currentStep) && isSubmitting == old(isSubmitting)
    {
      var inputs := dom.inputs;
      var i := 0;
      while i < |inputs|
        invariant 0 <= i <= |inputs|
        invariant formData == Apply(old(formData), inputs[..i], EntriesPass)
        invariant currentStep == old(currentStep) && isSubmitting == old(isSubmitting)
      {
        var input := inputs[i];
        if input.name != "" {
          if input.kind == Field {
            formData := formData[input.name := Str(input.value)];
          } else if input.checked {
            formData := formData[input.name := Str(input.value)];
          }
        }
        assert inputs[..i + 1][..i] == inputs[..i];
        i := i + 1;
      }
      assert inputs[..i] == inputs;
      ghost var entries := formData;
      i := 0;
      while i < |inputs|
        invariant 0 <= i <= |inputs|
        invariant formData == Apply(entries, inputs[..i], CheckboxPass)
        invariant currentStep == old(currentStep) && isSubmitting == old(isSubmitting)
      {
        var input := inputs[i];
        if input.kind == Checkbox {
          formData := formData[input.name := Bool(input.checked)];
        }
        assert inputs[..i + 1][..i] == inputs[..i];
        i := i + 1;
      }
      assert inputs[..i] == inputs;
      data := formData;
    }

    /** `showStep`: the review step first collects the whole form; then the step becomes current. */
    method ShowStep(stepNumber: int, dom: Dom) returns (page: Page)
      modifies this
      ensures currentStep == stepNumber && isSubmitting == old(isSubmitting)
      ensures formData == if stepNumber == Config.ReviewSubmit then CollectForm(old(formData), dom.inputs) else old(formData)
      ensures page == PageFor(stepNumber, formData)
    {
      var review: Option<Review> := None;
      if stepNumber == Config.ReviewSubmit {
        var data := CollectAllFormData(dom);
        review := Some(ReviewOf(data));
      }
      var buttons := ButtonsFor(stepNumber);
      currentStep := stepNumber;
      page := Page(stepNumber, buttons, ProgressDots(currentStep), review);
    }

    /**
     * `handleNext`: ignored while submitting; blocked, with nothing changed,
     * when the current step's required check reports; otherwise the step's
     * data is collected and the next step shown, or, on the last step, the
     * form is submitted.
     */
    method HandleNext(dom: Dom) returns (outcome: NextOutcome)
      requires Valid()
      modifies this
      ensures Valid()
      ensures old(isSubmitting) ==>
                outcome == Ignored && isSubmitting
                && currentStep == old(currentStep) && formData == old(formData)
      ensures !old(isSubmitting) && StepErrors(dom, old(currentStep)) != [] ==>
                outcome == Blocked(StepErrors(dom, old(currentStep))) && !isSubmitting
                && currentStep == old(currentStep) && formData == old(formData)
      ensures !old(isSubmitting) && StepErrors(dom, old(currentStep)) == [] && old(currentStep) < Config.Total ==>
                var collected := StepCollect(old(formData), dom, old(currentStep));
                currentStep == old(currentStep) + 1 && !isSubmitting
                && formData == (if currentStep == Config.ReviewSubmit then CollectForm(collected, dom.inputs) else collected)
                && outcome == Advanced(PageFor(currentStep, formData))
      ensures !old(isSubmitting) && StepErrors(dom, old(currentStep)) == [] && old(currentStep) == Config.Total ==>
                currentStep == old(currentStep)
                && formData == CollectForm(StepCollect(old(formData), dom, old(currentStep)), dom.inputs)
                && outcome == Submitting(SubmitStartFor(formData))
                && isSubmitting == outcome.start.Sent?
    {
      if isSubmitting {
        return Ignored;
      }
      var errors := ValidateCurrentStep(dom);
      if |errors| > 0 {
        return Blocked(errors);
      }
      CollectCurrentStepData(dom);
      if currentStep < Config.Total {
        var page := ShowStep(currentStep + 1, dom);
        outcome := Advanced(page);
      } else {
        var start := BeginSubmit(dom);
        outcome := Submitting(start);
      }
    }

    /** `handleFormSubmit`: a submit event does what the next button does. */
    method HandleFormSubmit(dom: Dom) returns (outcome: NextOutcome)
      requires Valid()
      modifies this
      ensures Valid()
      ensures old(isSubmitting) ==>
                outcome == Ignored && isSubmitting
                && currentStep == old(currentStep) && formData == old(formData)
      ensures !old(isSubmitting) && StepErrors(dom, old(currentStep)) != [] ==>
                outcome == Blocked(StepErrors(dom, old(currentStep))) && !isSubmitting
                && currentStep == old(currentStep) && formData == old(formData)
      ensures !old(isSubmitting) && StepErrors(dom, old(currentStep)) == [] && old(currentStep) < Config.Total ==>
                var collected := StepCollect(old(formData), dom, old(currentStep));
                currentStep == old(currentStep) + 1 && !isSubmitting
                && formData == (if currentStep == Config.ReviewSubmit then CollectForm(collected, dom.inputs) else collected)
                && outcome == Advanced(PageFor(currentStep, formData))
      ensures !old(isSubmitting) && StepErrors(dom, old(currentStep)) == [] && old(currentStep) == Config.Total ==>
                currentStep == old(currentStep)
                && formData == CollectForm(StepCollect(old(formData), dom, old(currentStep)), dom.inputs)
                && outcome == Submitting(SubmitStartFor(formData))
                && isSubmitting == outcome.start.Sent?
    {
      outcome := HandleNext(dom);
    }

    /** `handleBack`: any step after the first goes back one, its data left as it is. */
    method HandleBack(dom: Dom) returns (page: Option<Page>)
      requires Valid()
      modifies this
      ensures Valid()
      ensures old(currentStep) > 1 ==> currentStep == old(currentStep) - 1 && page == Some(PageFor(currentStep, formData))
      ensures old(currentStep) == 1 ==> currentStep == 1 && page == None
      ensures formData == old(formData) && isSubmitting == old(isSubmitting)
    {
      page := None;
      if currentStep > 1 {
        var shown := ShowStep(currentStep - 1, dom);
        page := Some(shown);
      }
    }

    /**
     * The synchronous part of `submitForm`: the flag goes up, the whole form is
     * collected and validated; on errors the flag comes down again, otherwise
     * the request goes out with the collected data.
     */
    method BeginSubmit(dom: Dom) returns (start: SubmitStart)
      modifies this
      ensures formData == CollectForm(old(formData), dom.inputs) && currentStep == old(currentStep)
      ensures start == SubmitStartFor(formData)
      ensures isSubmitting <==> start.Sent?
    {
      isSubmitting := true;
      var allFormData := CollectAllFormData(dom);
      var errors := Validation.ValidateForm(allFormData);
      if |errors| > 0 {
        isSubmitting := false;
        return Rejected(errors);
      }
      return Sent(allFormData);
    }

    /** The rest of `submitForm` once the request settles: the result is shown and the flag comes down. */
    method CompleteSubmit(result: ApiResult) returns (notice: Notice)
      requires isSubmitting
      modifies this
      ensures !isSubmitting && currentStep == old(currentStep) && formData == old(formData)
      ensures result.Succeeded? ==> notice == ShowSuccess(result.message)
      ensures result.Failed? ==> notice == ShowErrors([result.error])
    {
      match result {
        case Succeeded(message) => notice := ShowSuccess(message);
        case Failed(error) => notice := ShowErrors([error]);
      }
      isSubmitting := false;
    }

    /**
     * The document's change listener: a land-status change records the chosen
     * value and re-derives the conditional sections; a change of the
     * help-finding checkbox records its state and re-derives the
     * preferred-area section. `helpChecked` is the state of the page's
     * help-finding checkbox.
     */
    method OnChange(target: Input, helpChecked: bool) returns (toggled: Toggled)
      modifies this
      ensures currentStep == old(currentStep) && isSubmitting == old(isSubmitting)
      ensures target.name == "land_status" ==>
                formData == old(formData)["land_status" := Str(target.value)]
                && toggled == SectionsToggled(ConditionalSections(Some(Str(target.value)), helpChecked))
      ensures target.name == "needs_help_finding_land" ==>
                formData == old(formData)["needs_help_finding_land" := Bool(target.checked)]
                && toggled == PreferredAreaToggled(PreferredAreaShown(helpChecked))
      ensures target.name !in {"land_status", "needs_help_finding_land"} ==>
                formData == old(formData) && toggled == NothingToggled
    {
      toggled := NothingToggled;
      if target.name == "land_status" {
        formData := formData["land_status" := Str(target.value)];
        toggled := SectionsToggled(ConditionalSections(Lookup(formData, "land_status"), helpChecked));
      }
      if target.name == "needs_help_finding_land" {
        formData := formData["needs_help_finding_land" := Bool(target.checked)];
        toggled := PreferredAreaToggled(PreferredAreaShown(helpChecked));
      }
    }
  }
}
