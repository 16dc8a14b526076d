# Lead-intake form: a verified model

A prospective home buyer fills in this five-step browser form. The steps are:

1. contact details;
2. project type;
3. land and location;
4. project details;
5. review and submit.

This project models the form's core in Dafny and proves properties of that model:

- **Configuration** (`js/config.js`): the option lists, the email and phone rules, the required-field list and the step numbers.
- **Validation service** (`js/validation.js`): per-field, per-step and whole-form validation, and human-readable field labels.
- **`IntakeFormController`** (`js/form.js`): the current step, the collected form data and the submitting flag; the handlers that move between steps, collect the page's inputs and submit; and the values the controller derives from its state for the page.

Files and modules:

- `js_values.dfy` (`JsValues`): the JavaScript semantics the code relies on.
  - Form values are strings or booleans.
  - Truthiness, `String(value)`, and `trim`.
  - White space is the ECMAScript WhiteSpace/LineTerminator set. Both `trim` and the regular-expression class `\s` use this set.
- `config.dfy` (`Config`): the configuration constants.
  - The two regular expressions are written out as string predicates. For email, the direct statement is proved equal to a literal reading of the pattern.
- `validation.dfy` (`Validation`): `validateField` as a pure function.
  - `validateStep` and `validateForm` are loops proved against an in-order concatenation of per-field results.
  - `true.trim()` throws in JavaScript, so a `true` value reaching a conditional check is a `TypeError` result. No field list the form checks can reach it.
- `form_view.dfy` (`FormView`): the page abstraction.
  - The page is a sequence of controls: step, kind, name, value, checked, required and label text.
  - The three collection loops are specification functions over that sequence.
  - Also here: the per-step required check, and the derived page state (progress dots, buttons, conditional sections, option labels, review texts).
- `form.dfy` (`Form`): the controller as a class.
  - Its fields are `currentStep`, `formData` and `isSubmitting`.
  - Every handler is a method whose postcondition gives the whole new state.
  - Submission has two phases: `BeginSubmit` runs up to the request, and `CompleteSubmit` receives the request's result.

Two things the code does are worth knowing before reading the model.

- **The lot-address and preferred-area checks never fire.** The check at `js/validation.js:45-48`, with its message "Lot address is required when you own land", is written to reject an empty lot address once the applicant owns land; `js/validation.js:51-57` does the same for the preferred area. The empty-value return at `js/validation.js:26-28` comes first and makes both checks unreachable for text values, so `validateField('lot_address', '', {land_status: 'own_land'})` returns no errors. The model proves this for every string value (`Validation.ConditionalMessagesUnreachable`, `Validation.EmptyLotAddressPasses`).
- **The controller's per-step check does not use the validation service.** It reads the required controls of the current step container and tests their `value`. A required radio group's controls carry their option values, so the per-step check never stops an applicant who has chosen no option (`FormView.RadioGroupNeverMissing`, `FormView.MissingErrorsIgnoreChecked`). Only the whole-form validation at submission reports an empty buyer category, financing plan or land status.

## Model

| member | source | states |
|---|---|---|
| JsValues.TrimStart | js/validation.js:19 | the result is the suffix after the longest all-white-space prefix, and does not start with white space |
| JsValues.TrimEnd | js/validation.js:19 | the result is the prefix before the longest all-white-space suffix, and does not end with white space |
| JsValues.Trim | js/validation.js:19 | the trimmed string neither starts nor ends with white space |
| JsValues.TrimEmptyIffBlank | js/validation.js:19 | `s.trim() === ''` holds exactly when every character of `s` is white space |
| Config.FieldOptions | js/config.js:17-47 | `FIELD_OPTIONS[key]` is defined exactly for the five option-list keys |
| Config.OptionValuesDistinct | js/config.js:17-47 | within every option list, no two options share a value |
| Config.OptionValuesNotBlank | js/config.js:17-47 | no option value is blank |
| Config.OptionLabelsNotEmpty | js/config.js:17-47 | every option has a non-empty label |
| Config.IsEmail | js/config.js:51 | no contract of its own; `Config.EmailMatchesPattern` states that it accepts exactly the strings matching the email pattern |
| Config.EmailMatchesPattern | js/config.js:51 | the email rule accepts exactly the strings with no white space, exactly one `@` with something before it, and after it a `.` that is neither first nor last; both directions are proved against a literal reading of the pattern |
| Config.EmailGivesPattern | js/config.js:51 | a string meeting the direct email rule splits into the three runs the pattern demands |
| Config.PatternGivesEmail | js/config.js:51 | a string the pattern matches meets the direct email rule |
| Config.RunOfEmailChars | js/config.js:51 | a slice avoiding the `@` position consists of `[^\s@]` characters |
| Config.IsPhone | js/config.js:52 | no contract of its own; `Validation.PhoneFieldChecked` states that a non-blank phone number is flagged exactly when it fails this rule |
| Config.RequiredListShape | js/config.js:53-55 | the required list has nine pairwise distinct names |
| Config.StepNumbering | js/config.js:59-66 | the steps are numbered 1 to 5 in order, and the total is the review-and-submit step |
| Validation.ValidateField | js/validation.js:14-60 | a field yields at most one message; it throws exactly for a `true` value in the lot-address check for owned land, or in the preferred-area check when help is wanted; any other field never throws |
| Validation.IsEmptyValue | js/validation.js:19 | no contract of its own; `Validation.EmptyValueIsJsCondition` states that it holds exactly when `!value` or the trimmed text is empty |
| Validation.EmptyValueIsJsCondition | js/validation.js:19 | the emptiness test `!value \|\| value.toString().trim() === ''` holds exactly for a missing value, `false`, or a string of white space only |
| Validation.EmptyStringIsJsCondition | js/validation.js:19 | for strings, the emptiness test means all white space |
| Validation.EmptyBoolIsJsCondition | js/validation.js:19 | for booleans, the emptiness test means `false` |
| Validation.RequiredEmptyField | js/validation.js:18-23 | a required field whose value is missing, `false` or blank yields exactly "<Label> is required" |
| Validation.OptionalEmptyField | js/validation.js:26-28 | a field outside the required list whose value is missing, `false` or blank yields no message |
| Validation.EmailFieldChecked | js/validation.js:30-35 | a non-blank email address yields the email message exactly when the email pattern does not match it |
| Validation.PhoneFieldChecked | js/validation.js:37-42 | a non-blank phone number yields the phone message exactly when the phone pattern rejects it |
| Validation.NonEmptyOtherFieldPasses | js/validation.js:26-59 | a non-empty value of any field other than the email address, the phone number and the two conditional fields reports nothing |
| Validation.ConditionalCheck | js/validation.js:46-48 | no contract of its own; `Validation.ConditionalMessagesUnreachable` and `Validation.EmptyLotAddressPasses` state that its message is never produced for a string value |
| Validation.ConditionalMessagesUnreachable | js/validation.js:44-57 | for a missing or string value, the field check never throws and never yields the lot-address or preferred-area message, and the lot address and preferred-area description report nothing at all: an empty value returns at line 26, a non-empty one passes the checks |
| Validation.StringValueMessages | js/validation.js:14-60 | for a missing or string value, the result is no message, the required message, the email message or the phone message |
| Validation.RequiredMessageIsNotConditional | js/validation.js:20 | no "<Label> is required" message equals either conditional message |
| Validation.EmptyLotAddressPasses | js/validation.js:26-28 | an empty lot address with owned land yields no message |
| Validation.EmailExampleRejected | js/validation.js:30-35 | "not-an-email" yields the email message |
| Validation.EmailExampleAccepted | js/validation.js:30-35 | "a@b.co" yields no message |
| Validation.GetStepFields | js/validation.js:80-97 | every step field is a required field; steps other than 1 to 4 have no fields |
| Validation.RequiredAreUnconditional | js/validation.js:80-97 | no required field is one of the two conditional fields |
| Validation.StepsPartitionRequired | js/validation.js:80-97 | the field lists of steps 1 to 4, concatenated in order, are the required list |
| Validation.ReplaceUnderscores | js/validation.js:118 | every `_` becomes a space and every other character is kept |
| Validation.CapitalizeWords | js/validation.js:118 | capitalising word starts keeps the length |
| Validation.CapitalizeWordsAt | js/validation.js:118 | a character is upper-cased exactly when it begins a word (`\b\w`) |
| Validation.CapitalizeAfter | js/validation.js:118 | the same, for a scan that starts after a word character or not |
| Validation.GetFieldLabel | js/validation.js:102-119 | no contract of its own; `Validation.FieldLabelShape` states it: the table entry for a known name, otherwise the name with underscores spaced and words capitalised |
| Validation.FieldLabelShape | js/validation.js:102-119 | a known name gets its table entry; any other name is spelled out with spaces for `_` and the first character of each word upper-cased |
| Validation.FieldLabelKnownExample | js/validation.js:107 | "company_name" is labelled "Company Name" |
| Validation.FieldLabelFallbackExample | js/validation.js:118 | "zone_3b" is labelled "Zone 3b" |
| Validation.CapitalizeZoneExample | js/validation.js:118 | "zone 3b" is capitalised to "Zone 3b": a word starting with a digit keeps its letters |
| Validation.JoinAll | js/validation.js:69-72 | concatenating per-field results throws exactly when some field throws; with at most one message per field, there are at most as many messages as fields |
| Validation.JoinAllAppend | js/validation.js:69-72 | concatenating results over two lists in turn is joining the two concatenations |
| Validation.JoinIsAssociative | js/validation.js:69-72 | helper of `Validation.JoinAllAppend` and `Validation.FormIsStepsInOrder`: joining does not depend on grouping |
| Validation.JoinAllEmptyIff | js/validation.js:69-72 | the concatenation is empty exactly when every result is empty |
| Validation.FieldResultsAppend | js/validation.js:69-72 | the per-field results of two lists in turn are those of each list, in order |
| Validation.CollectErrors | js/validation.js:65-75 | no contract of its own; `Validation.CollectErrorsEmptyIff` and `Validation.CollectErrorsBounded` state it: empty exactly when each field reports nothing, at most one message per field |
| Validation.CollectErrorsBounded | js/validation.js:65-75 | a field list without conditional fields never throws and yields at most one message per field |
| Validation.CollectErrorsEmptyIff | js/validation.js:65-75 | a field list yields nothing exactly when each of its fields yields nothing |
| Validation.CollectErrorsStep | js/validation.js:69-72 | one loop round appends the next field's messages |
| Validation.ValidateStep | js/validation.js:65-75 | the loop returns the in-order concatenation of the step's field results, with at most one message per step field |
| Validation.ValidateForm | js/validation.js:124-133 | the loop returns the in-order concatenation over the required list, with at most nine messages |
| Validation.FormIsStepsInOrder | js/validation.js:124-133 | the whole-form errors are the errors of steps 1, 2, 3 and 4, in that order |
| Validation.FormIsJoinOfSteps | js/validation.js:124-133 | the whole-form result is the join of the four step results |
| Validation.JoinOfFourLists | js/validation.js:124-133 | helper of `Validation.FormIsStepsInOrder`: joining four message lists concatenates them in order |
| Validation.StepFieldsUnconditional | js/validation.js:80-97 | no step checks the lot-address or preferred-area field, so no step check can throw |
| FormView.StepInputs | js/form.js:204 | the controls selected within a step container are exactly that step's controls (only the required ones when asked), and no more |
| FormView.StepInputsAppend | js/form.js:204 | the selection keeps document order: selecting from two runs of controls is selecting from each in turn |
| FormView.RemoveFirstAsterisk | js/form.js:210 | `replace('*', '')` drops exactly one character when the text has an asterisk, and nothing otherwise |
| FormView.RemoveFirstAsteriskAt | js/form.js:210 | exactly the first asterisk is removed and every other character stays in place |
| FormView.DisplayName | js/form.js:209-210 | no contract of its own; `FormView.RemoveFirstAsteriskAt` states the asterisk removal, and `FormView.MissingErrorsMeaning` that each blank field is reported under this name |
| FormView.MissingErrors | js/form.js:207-213 | there are never more messages than fields |
| FormView.MissingErrorsStep | js/form.js:207-213 | one loop round appends the next field's message, if it is blank |
| FormView.StepErrors | js/form.js:200-216 | no contract of its own; `FormView.MissingErrorsMeaning` states the check of the required controls, and `Form.IntakeFormController.ValidateCurrentStep` that an absent container gives no errors |
| FormView.MissingErrorsMeaning | js/form.js:200-216 | the required check reports nothing exactly when no required field is blank; every message names a blank field, and every blank field gets its "<name> is required" message |
| FormView.MissingErrorsIgnoreChecked | js/form.js:207-213 | the required check depends only on values, labels and names, not on whether a control is checked |
| FormView.RadioGroupNeverMissing | js/form.js:64-88 | controls that carry option values are never reported missing, whether or not one is checked |
| FormView.WriteOf | js/form.js:227-235 | no contract of its own; `FormView.ApplyLastWriter`, `FormView.UncheckedRadiosKeepEntry` and `FormView.CollectFormCheckbox` state what each control writes |
| FormView.Apply | js/form.js:226-236 | no contract of its own; `FormView.ApplyIsOverride`, `FormView.ApplyKeys`, `FormView.ApplyLastWriter` and `FormView.ApplyUntouched` state the in-order fold |
| FormView.ApplyIsOverride | js/form.js:226-236 | a collection pass overrides the old data with what it writes, whatever the old data was |
| FormView.ApplyKeys | js/form.js:226-236 | the keys a pass writes are exactly the names of the controls that write something |
| FormView.ApplyLastWriter | js/form.js:226-236 | a written key holds what its last writer in document order wrote |
| FormView.ApplyUntouched | js/form.js:226-236 | a key no control writes keeps its presence and value |
| FormView.UncheckedRadiosKeepEntry | js/form.js:227-230 | a key carried only by unchecked radio buttons keeps its presence and value |
| FormView.CollectInputsIdempotent | js/form.js:221-237 | collecting the same step twice gives the same data as collecting it once |
| FormView.CollectFormIdempotent | js/form.js:388-403 | collecting the whole form twice gives the same data as collecting it once |
| FormView.CollectFormCheckbox | js/form.js:397-400 | after the whole-form collection, every checkbox name holds the boolean state of the last checkbox with that name |
| FormView.StepCollect | js/form.js:221-237 | no contract of its own; `FormView.StepCollectIsOverride` and `FormView.CollectInputsIdempotent` state it |
| FormView.StepCollectIsOverride | js/form.js:221-237 | collecting a step overrides the data with the step's writes, or leaves it as it is when the step container is absent |
| FormView.CollectForm | js/form.js:388-403 | no contract of its own; `FormView.CollectFormIsOverride`, `FormView.CollectFormCheckbox` and `FormView.CollectFormIdempotent` state it |
| FormView.CollectFormIsOverride | js/form.js:388-403 | the whole-form collection overrides the data with the entries, themselves overridden by the checkbox states |
| FormView.OverrideTwice | js/form.js:177-186 | helper of `Form.RevisitKeepsData`: overriding with the same two sets of writes a second time changes nothing |
| FormView.ProgressDots | js/form.js:320-332 | there is one status per step |
| FormView.DotStatusOf | js/form.js:320-332 | no contract of its own; `FormView.ProgressHasOneActiveDot` states that exactly the current dot is active and exactly the dots before it are completed |
| FormView.ProgressHasOneActiveDot | js/form.js:320-332 | on a step in range, exactly one dot is active (the current one), and the completed dots are exactly those before it |
| FormView.ButtonsFor | js/form.js:289-315 | no contract of its own; `FormView.ButtonsMatchHandlers` states it |
| FormView.ButtonsMatchHandlers | js/form.js:289-315 | the next button reads "Submit Application" exactly on the step where it submits; the back button shows exactly where going back moves |
| FormView.ConditionalSections | js/form.js:131-162 | no contract of its own; `FormView.ConditionalSectionsRule` states it |
| FormView.PreferredAreaShown | js/form.js:155-162 | no contract of its own; `FormView.ConditionalSectionsRule` states that the preferred area shows exactly when land is needed and the help box is checked |
| FormView.ConditionalSectionsRule | js/form.js:131-162 | owned land shows only the lot address; land to buy shows the help question, plus the preferred area exactly when the help box is checked; any other status shows none; lot address and help question never show together |
| FormView.LocationText | js/form.js:365-375 | the review location line is never empty |
| FormView.LocationCases | js/form.js:365-375 | owned land with a lot address shows the address, and with a missing or empty one shows "Not specified"; land to buy with help and an area shows "Help needed finding land in: <area>"; land to buy otherwise shows "Will find land independently"; any other status shows "Not specified" |
| FormView.FindOption | js/form.js:345 | `find` returns the first option whose value equals the looked-up value, or nothing when none does |
| FormView.GetOptionLabel | js/form.js:342-349 | no contract of its own; `FormView.OptionLabelLookup` states it: a configured value shows its label, any other value shows itself |
| FormView.OptionLabelLookup | js/form.js:342-349 | each configured option's value shows as that option's own label, and a value no option has shows as itself |
| FormView.OptionText | js/form.js:357-380 | no contract of its own; `FormView.OptionTextShowsLabel` states that a chosen option shows its label |
| FormView.OptionTextShowsLabel | js/form.js:357-380 | a review line for an option field shows the chosen option's label |
| FormView.ReviewOf | js/form.js:337-383 | the review shows the location line, and "Not specified" for a missing or empty company |
| FormView.ReviewShowsBudgetLabel | js/form.js:377-378 | a chosen budget shows as its label on the review page |
| Form.PageFor | js/form.js:263-284 | no contract of its own; `FormView.ButtonsMatchHandlers`, `FormView.ProgressHasOneActiveDot` and `Form.IntakeFormController.ShowStep` state what showing a step puts on the page |
| Form.SubmitStartFor | js/form.js:413-425 | the request goes out, with the collected data, exactly when whole-form validation reports nothing; otherwise exactly its messages are shown |
| Form.RevisitKeepsData | js/form.js:177-195 | going back and pressing next again on an unchanged page reproduces the same form data: for a step collection, for the whole-form collection, and for the step-then-whole-form collection of the press that enters the review step |
| Form.IntakeFormController.constructor | js/form.js:7-13 | a new controller is on step 1, with no data, not submitting |
| Form.IntakeFormController.ValidateCurrentStep | js/form.js:200-216 | the loop reports exactly the required check of the current step container, or nothing when the container is absent |
| Form.IntakeFormController.CollectCurrentStepData | js/form.js:221-237 | the form data becomes the step collection over the current container; step and flag are unchanged |
| Form.IntakeFormController.CollectAllFormData | js/form.js:388-403 | the form data becomes the `FormData` entries and then the checkbox states, written over the old data; step and flag are unchanged |
| Form.IntakeFormController.ShowStep | js/form.js:263-284 | the step becomes current; entering the review step first collects the whole form; the page shows that step's buttons, dots and review |
| Form.IntakeFormController.HandleNext | js/form.js:167-186 | changes nothing while submitting; changes nothing but reports the step's errors when its check fails; otherwise collects and advances one step, or on the last step submits; the step stays in range |
| Form.IntakeFormController.HandleFormSubmit | js/form.js:440-443 | a form submit event does what the next button does, with the same full new state in each of the four cases |
| Form.IntakeFormController.HandleBack | js/form.js:191-195 | goes back one step from any step after the first, does nothing on the first, leaves the data and the flag alone; the step stays in range |
| Form.IntakeFormController.BeginSubmit | js/form.js:408-425 | collects the whole form and validates it; the flag stays up exactly when the request goes out |
| Form.IntakeFormController.CompleteSubmit | js/form.js:427-434 | whatever the result, the flag comes down, and the step and data are unchanged; success shows its message, failure shows its error |
| Form.IntakeFormController.OnChange | js/form.js:115-125 | a land-status change records the value and re-derives the sections; a help-checkbox change records the box's state and re-derives the preferred area; any other change does nothing |

## Left out

- `js/api.js` is not part of this model. The request's result is a parameter of `CompleteSubmit`: a success with a message, or a failure with an error.
- The pause at `await` is the boundary between `BeginSubmit` and `CompleteSubmit`. No interleaving of other events during the request is modelled, apart from what the `isSubmitting` guard of `HandleNext` states.
- Building the page is left out: `createRadioOptions`, `populateSelectOptions`, `init`, event binding, `showErrors`, `showLoading`, `showSuccess`, `style.display` writes and class changes. The model keeps the values these write: errors, notices, buttons, dots, section visibility and review texts.
  - The controls are given as the `Dom` value: each control's step, kind, name, value, checked state, required flag and label text.
  - Disabled controls, file inputs, multiple-choice selects and `<input>` controls of type `submit`, `reset`, `button` or `image` are not distinguished: `FormData` leaves these out or treats them specially, the scripts create none of them, and the model assumes the page's markup has none either.
- `handleFieldChange` (`js/form.js:94-108`) is never bound to an event, so it is not modelled.
- `Form.IntakeFormController.HandleBack`: the back button is disabled while a request is out (`showLoading`). The handler has no guard of its own, and the model states the handler as written.
- The success screen replaces the form's markup. The model stops at the `ShowSuccess` notice and does not model the form after it.
- `FormView.ReviewOf`: its own contract covers only the location line and the company fallback. The option lines are covered by `FormView.OptionTextShowsLabel` and `FormView.ReviewShowsBudgetLabel`. The name, email, phone and description lines show the stored value or an empty string, and no lemma states this.
- `FormView.ProgressDots`: the page has one progress dot per step, so the model derives five statuses. It does not take the dot count from the page.
- `FormView.ConditionalSections`, `FormView.PreferredAreaShown`: the section elements and the help checkbox are taken to be present. When one is missing, the source skips that write.
- Key lookups model `formData` and the label table as plain dictionaries. Inherited object properties (`formData['constructor']`, say) are not modelled.
- Characters are Unicode code points, while JavaScript strings are UTF-16 units. The white-space set lies in the basic plane, so trimming and the two patterns agree.
- `CONFIG.API` and `CONFIG.UI` carry no logic and are not modelled.
