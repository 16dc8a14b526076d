/**
 * The pure side of the form controller: the page's inputs as values, what
 * collecting them writes into the form data, the per-step required check, and
 * the values the controller derives from its state for the page (progress
 * dots, buttons, conditional sections, review texts).
 */
module FormView {
  import opened JsValues
  import Config

  // ---------------------------------------------------------------------
  // The page
  // ---------------------------------------------------------------------

  /** Radio buttons, checkboxes, and every other control (text-like inputs, selects, textareas). */
  datatype Kind = Radio | Checkbox | Field

  /**
   * One form control, in document order: the step container it sits in, its
   * type, `name`, `value`, `checked` and `required`, and the text of the
   * `label[for=id]` element in its step if there is one.
   */
  datatype Input = Input(step: int, kind: Kind, name: string, value: string, checked: bool,
                         required: bool, labelText: Option<string>)

  /** The controls of the form and the step numbers N whose `step-N` container exists. */
  datatype Dom = Dom(inputs: seq<Input>, stepElements: set<int>)

  /**
   * `querySelectorAll` inside the `step-N` container: its controls in document
   * order, only the `required` ones when `requiredOnly` is set.
   */
  function StepInputs(inputs: seq<Input>, step: int, requiredOnly: bool): (r: seq<Input>)
    ensures |r| <= |inputs|
    ensures forall x :: x in r <==> x in inputs && x.step == step && (requiredOnly ==> x.required)
  {
    if inputs == [] then []
    else
      var last := inputs[|inputs| - 1];
      StepInputs(inputs[..|inputs| - 1], step, requiredOnly)
      + (if last.step == step && (requiredOnly ==> last.required) then [last] else [])
  }

  /** The selection keeps document order: selecting from two runs of controls is selecting from each in turn. */
  lemma {:induction false} StepInputsAppend(a: seq<Input>, b: seq<Input>, step: int, requiredOnly: bool)
    ensures StepInputs(a + b, step, requiredOnly) == StepInputs(a, step, requiredOnly) + StepInputs(b, step, requiredOnly)
  {
    if b != [] {
      var b' := b[..|b| - 1];
      StepInputsAppend(a, b', step, requiredOnly);
      assert (a + b)[..|a + b| - 1] == a + b';
      assert (a + b)[|a + b| - 1] == b[|b| - 1];
    } else {
      assert a + b == a;
    }
  }

  // ---------------------------------------------------------------------
  // The per-step required check (validateCurrentStep)
  // ---------------------------------------------------------------------

  /** `str.replace('*', '')`: only the first asterisk goes. */
  function RemoveFirstAsterisk(s: string): (r: string)
    ensures '*' in s ==> |r| == |s| - 1
    ensures '*' !in s ==> r == s
  {
    if s == [] then []
    else if s[0] == '*' then s[1..]
    else [s[0]] + RemoveFirstAsterisk(s[1..])
  }

  /** Exactly the first asterisk goes; every other character stays in place. */
  lemma {:induction false} RemoveFirstAsteriskAt(s: string, k: int)
    requires 0 <= k < |s| && s[k] == '*'
    requires forall j :: 0 <= j < k ==> s[j] != '*'
    ensures RemoveFirstAsterisk(s) == s[..k] + s[k + 1..]
  {
    if k > 0 {
      RemoveFirstAsteriskAt(s[1..], k - 1);
      assert s[1..][..k - 1] == s[1..k];
      assert s[1..][k..] == s[k + 1..];
      assert [s[0]] + s[1..k] == s[..k];
    }
  }

  /** The name a missing-field message uses: the label's text without its asterisk, else the input's name. */
  function DisplayName(field: Input): string
  {
    match field.labelText
    case Some(t) => Trim(RemoveFirstAsterisk(t))
    case None => field.name
  }

  /**
   * One "<name> is required" per field whose value is blank (`!value.trim()`,
   * a string trimming to `''` exactly when it is blank), in field order.
   */
  function MissingErrors(fields: seq<Input>): (r: seq<string>)
    ensures |r| <= |fields|
  {
    if fields == [] then []
    else
      var last := fields[|fields| - 1];
      MissingErrors(fields[..|fields| - 1])
      + (if IsBlank(last.value) then [DisplayName(last) + " is required"] else [])
  }

  /** Extending the checked fields by one adds that field's message, if any. */
  lemma MissingErrorsStep(fields: seq<Input>, i: int)
    requires 0 <= i < |fields|
    ensures MissingErrors(fields[..i + 1])
            == MissingErrors(fields[..i]) + (if IsBlank(fields[i].value) then [DisplayName(fields[i]) + " is required"] else [])
  {
    assert fields[..i + 1][..i] == fields[..i];
  }

  /**
   * The required check reports nothing exactly when no field is blank, every
   * message it reports names a blank field, and every blank field is reported.
   */
  lemma {:induction false} MissingErrorsMeaning(fields: seq<Input>)
    ensures MissingErrors(fields) == [] <==> forall i :: 0 <= i < |fields| ==> !IsBlank(fields[i].value)
    ensures forall m :: m in MissingErrors(fields) ==>
              exists i :: 0 <= i < |fields| && IsBlank(fields[i].value) && m == DisplayName(fields[i]) + " is required"
    ensures forall i :: 0 <= i < |fields| && IsBlank(fields[i].value) ==>
              DisplayName(fields[i]) + " is required" in MissingErrors(fields)
  {
    if fields != [] {
      var init := fields[..|fields| - 1];
      MissingErrorsMeaning(init);
      assert forall i :: 0 <= i < |init| ==> init[i] == fields[i];
    }
  }

  /**
   * The check reads only values and labels: whether a radio button or a
   * checkbox is checked does not matter, so a required radio group with no
   * option chosen (its values are the fixed option values) is never reported.
   */
  lemma {:induction false} MissingErrorsIgnoreChecked(fields: seq<Input>, others: seq<Input>)
    requires |others| == |fields|
    requires forall i :: 0 <= i < |fields| ==>
               others[i].value == fields[i].value && others[i].labelText == fields[i].labelText
               && others[i].name == fields[i].name
    ensures MissingErrors(others) == MissingErrors(fields)
  {
    if fields != [] {
      MissingErrorsIgnoreChecked(fields[..|fields| - 1], others[..|others| - 1]);
    }
  }

  /**
   * The radio buttons of a step are built from an option list, each carrying
   * one option's value and `required`: the required check never reports them,
   * checked or not.
   */
  lemma RadioGroupNeverMissing(key: string, fields: seq<Input>)
    requires Config.FieldOptions(key).Some?
    requires forall i :: 0 <= i < |fields| ==>
               exists k :: 0 <= k < |Config.FieldOptions(key).value| && fields[i].value == Config.FieldOptions(key).value[k].value
    ensures MissingErrors(fields) == []
  {
    Config.OptionValuesNotBlank(key);
    MissingErrorsMeaning(fields);
  }

  /** What `validateCurrentStep` reports for step `step`: nothing when the step has no container. */
  function StepErrors(dom: Dom, step: int): seq<string>
  {
    if step in dom.stepElements then MissingErrors(StepInputs(dom.inputs, step, true)) else []
  }

  // ---------------------------------------------------------------------
  // Collecting inputs into the form data
  // ---------------------------------------------------------------------

  /**
   * The three collection loops: `collectCurrentStepData`, then the two loops
   * of `collectAllFormData` (the `FormData` entries, then every checkbox).
   */
  datatype Pass = StepPass | EntriesPass | CheckboxPass

  /** What one input writes under its name in a pass, if anything. */
  function WriteOf(pass: Pass, x: Input): Option<Value>
  {
    match pass
    case StepPass =>
      (match x.kind
       case Radio => if x.checked then Some(Str(x.value)) else None
       case Checkbox => Some(Bool(x.checked))
       case Field => Some(Str(x.value)))
    case EntriesPass =>
      if x.name == "" then None
      else
        (match x.kind
         case Field => Some(Str(x.value))
         case _ => if x.checked then Some(Str(x.value)) else None)
    case CheckboxPass =>
      if x.kind == Checkbox then Some(Bool(x.checked)) else None
  }

  predicate Writes(pass: Pass, x: Input, key: string)
  {
    x.name == key && WriteOf(pass, x).Some?
  }

  /** The form data after a pass over `inputs`, each write replacing the entry under the input's name. */
  function Apply(data: map<string, Value>, inputs: seq<Input>, pass: Pass): map<string, Value>
  {
    if inputs == [] then data
    else
      var prev := Apply(data, inputs[..|inputs| - 1], pass);
      var last := inputs[|inputs| - 1];
      match WriteOf(pass, last)
      case None => prev
      case Some(v) => prev[last.name := v]
  }

  /** A pass overrides the old data with what it writes, whatever the old data was. */
  lemma {:induction false} ApplyIsOverride(data: map<string, Value>, inputs: seq<Input>, pass: Pass)
    ensures Apply(data, inputs, pass) == data + Apply(map[], inputs, pass)
  {
    if inputs != [] {
      ApplyIsOverride(data, inputs[..|inputs| - 1], pass);
    }
  }

  /** The keys a pass writes are the names of the inputs that write something. */
  lemma {:induction false} ApplyKeys(inputs: seq<Input>, pass: Pass, key: string)
    ensures key in Apply(map[], inputs, pass) <==> exists i :: 0 <= i < |inputs| && Writes(pass, inputs[i], key)
  {
    if inputs != [] {
      var init := inputs[..|inputs| - 1];
      ApplyKeys(init, pass, key);
      if exists i :: 0 <= i < |init| && Writes(pass, init[i], key) {
        var i :| 0 <= i < |init| && Writes(pass, init[i], key);
        assert Writes(pass, inputs[i], key);
      }
    }
  }

  /** The entry under a written key is what its last writer wrote. */
  lemma {:induction false} ApplyLastWriter(data: map<string, Value>, inputs: seq<Input>, pass: Pass, j: int)
    requires 0 <= j < |inputs| && WriteOf(pass, inputs[j]).Some?
    requires forall i :: j < i < |inputs| ==> !Writes(pass, inputs[i], inputs[j].name)
    ensures inputs[j].name in Apply(data, inputs, pass)
    ensures Apply(data, inputs, pass)[inputs[j].name] == WriteOf(pass, inputs[j]).value
  {
    if j < |inputs| - 1 {
      var init := inputs[..|inputs| - 1];
      ApplyLastWriter(data, init, pass, j);
    }
  }

  /** An entry no input writes keeps its presence and its value. */
  lemma ApplyUntouched(data: map<string, Value>, inputs: seq<Input>, pass: Pass, key: string)
    requires forall i :: 0 <= i < |inputs| ==> !Writes(pass, inputs[i], key)
    ensures key in Apply(data, inputs, pass) <==> key in data
    ensures key in data ==> Apply(data, inputs, pass)[key] == data[key]
  {
    ApplyIsOverride(data, inputs, pass);
    ApplyKeys(inputs, pass, key);
  }

  /** `collectCurrentStepData` over the step's controls. */
  function CollectInputs(data: map<string, Value>, inputs: seq<Input>): map<string, Value>
  {
    Apply(data, inputs, StepPass)
  }

  /**
   * Collecting a step keeps an entry whose name only unchecked radio buttons
   * of the step carry (or no control at all): unchecked radios write nothing.
   */
  lemma UncheckedRadiosKeepEntry(data: map<string, Value>, inputs: seq<Input>, key: string)
    requires forall i :: 0 <= i < |inputs| && inputs[i].name == key ==> inputs[i].kind == Radio && !inputs[i].checked
    ensures key in CollectInputs(data, inputs) <==> key in data
    ensures key in data ==> CollectInputs(data, inputs)[key] == data[key]
  {
    ApplyUntouched(data, inputs, StepPass, key);
  }

  /** `collectAllFormData`: the `FormData` entries, then every checkbox's `checked`. */
  function CollectForm(data: map<string, Value>, inputs: seq<Input>): map<string, Value>
  {
    Apply(Apply(data, inputs, EntriesPass), inputs, CheckboxPass)
  }

  /** Collecting the same controls twice gives what collecting them once gave. */
  lemma CollectInputsIdempotent(data: map<string, Value>, inputs: seq<Input>)
    ensures CollectInputs(CollectInputs(data, inputs), inputs) == CollectInputs(data, inputs)
  {
    var w := Apply(map[], inputs, StepPass);
    ApplyIsOverride(data, inputs, StepPass);
    ApplyIsOverride(data + w, inputs, StepPass);
    assert data + w + w == data + w;
  }

  lemma CollectFormIdempotent(data: map<string, Value>, inputs: seq<Input>)
    ensures CollectForm(CollectForm(data, inputs), inputs) == CollectForm(data, inputs)
  {
    var e := Apply(map[], inputs, EntriesPass);
    var c := Apply(map[], inputs, CheckboxPass);
    var once := CollectForm(data, inputs);
    ApplyIsOverride(data, inputs, EntriesPass);
    ApplyIsOverride(data + e, inputs, CheckboxPass);
    assert once == data + e + c;
    ApplyIsOverride(once, inputs, EntriesPass);
    ApplyIsOverride(once + e, inputs, CheckboxPass);
    assert data + e + c + e + c == data + e + c;
  }

  /** What collecting step `step` writes. */
  function StepWrites(dom: Dom, step: int): map<string, Value>
  {
    if step in dom.stepElements then Apply(map[], StepInputs(dom.inputs, step, false), StepPass) else map[]
  }

  /** What the whole-form collection writes: the entries, overridden by the checkbox states. */
  function FormWrites(inputs: seq<Input>): map<string, Value>
  {
    Apply(map[], inputs, EntriesPass) + Apply(map[], inputs, CheckboxPass)
  }

  lemma StepCollectIsOverride(data: map<string, Value>, dom: Dom, step: int)
    ensures StepCollect(data, dom, step) == data + StepWrites(dom, step)
  {
    if step in dom.stepElements {
      ApplyIsOverride(data, StepInputs(dom.inputs, step, false), StepPass);
    } else {
      assert data + map[] == data;
    }
  }

  lemma CollectFormIsOverride(data: map<string, Value>, inputs: seq<Input>)
    ensures CollectForm(data, inputs) == data + FormWrites(inputs)
  {
    var e := Apply(map[], inputs, EntriesPass);
    var c := Apply(map[], inputs, CheckboxPass);
    ApplyIsOverride(data, inputs, EntriesPass);
    ApplyIsOverride(data + e, inputs, CheckboxPass);
    assert data + e + c == data + (e + c);
  }

  /** Overriding with the same two write sets a second time changes nothing. */
  lemma OverrideTwice(x: map<string, Value>, s: map<string, Value>, f: map<string, Value>)
    ensures x + s + f + s + f == x + s + f
  {
    var lhs := x + s + f + s + f;
    var rhs := x + s + f;
    assert lhs.Keys == rhs.Keys;
    forall k | k in lhs
      ensures lhs[k] == rhs[k]
    {
    }
  }

  /** After the whole-form collection every checkbox's name holds a boolean: the last such checkbox's state. */
  lemma CollectFormCheckbox(data: map<string, Value>, inputs: seq<Input>, j: int)
    requires 0 <= j < |inputs| && inputs[j].kind == Checkbox
    requires forall i :: j < i < |inputs| ==> !(inputs[i].kind == Checkbox && inputs[i].name == inputs[j].name)
    ensures inputs[j].name in CollectForm(data, inputs)
    ensures CollectForm(data, inputs)[inputs[j].name] == Bool(inputs[j].checked)
  {
    ApplyLastWriter(Apply(data, inputs, EntriesPass), inputs, CheckboxPass, j);
  }

  /** What `collectCurrentStepData` leaves in the form data for step `step`. */
  function StepCollect(data: map<string, Value>, dom: Dom, step: int): map<string, Value>
  {
    if step in dom.stepElements then CollectInputs(data, StepInputs(dom.inputs, step, false)) else data
  }

  // ---------------------------------------------------------------------
  // Derived page state
  // ---------------------------------------------------------------------

  datatype DotStatus = Completed | Active | Pending

  /** `updateProgressIndicator`: the class of the progress dot for step `dot`. */
  function DotStatusOf(dot: int, current: int): DotStatus
  {
    if dot < current then Completed else if dot == current then Active else Pending
  }

  /** The statuses of the five progress dots, first dot first. */
  function ProgressDots(current: int): (r: seq<DotStatus>)
    ensures |r| == Config.Total
  {
    seq(Config.Total, i => DotStatusOf(i + 1, current))
  }

  /**
   * On any step in range exactly one dot is active, the current one, and the
   * dots before it are exactly the completed ones.
   */
  lemma ProgressHasOneActiveDot(current: int)
    requires 1 <= current <= Config.Total
    ensures forall i :: 0 <= i < Config.Total ==> (ProgressDots(current)[i] == Active <==> i == current - 1)
    ensures forall i :: 0 <= i < Config.Total ==> (ProgressDots(current)[i] == Completed <==> i < current - 1)
    ensures |set i | 0 <= i < Config.Total && ProgressDots(current)[i] == Active| == 1
  {
    var dots := ProgressDots(current);
    assert (set i | 0 <= i < Config.Total && dots[i] == Active) == {current - 1};
  }

  /** The next button's text and class and whether the back button shows. */
  datatype Buttons = Buttons(nextText: string, nextClass: string, backShown: bool)

  /** `updateButtonStates(stepNumber)`. */
  function ButtonsFor(step: int): Buttons
  {
    Buttons(
      if step == Config.Total then "Submit Application" else "Next",
      if step == Config.Total then "btn btn-submit" else "btn btn-primary",
      step != 1)
  }

  /**
   * On a step in range the next button reads "Submit Application" exactly
   * where it submits instead of advancing, and the back button shows exactly
   * where going back moves.
   */
  lemma ButtonsMatchHandlers(step: int)
    requires 1 <= step <= Config.Total
    ensures ButtonsFor(step).nextText == "Submit Application" <==> !(step < Config.Total)
    ensures ButtonsFor(step).backShown <==> step > 1
  {
  }

  /** Whether the lot-address, help-finding and preferred-area sections show. */
  datatype Visibility = Visibility(lotAddress: bool, helpFinding: bool, preferredArea: bool)

  /** `togglePreferredAreaField`: the section follows the help checkbox on the page. */
  function PreferredAreaShown(helpChecked: bool): bool
  {
    helpChecked
  }

  /** `toggleConditionalFields`, given the page's help checkbox state. */
  function ConditionalSections(landStatus: Option<Value>, helpChecked: bool): (r: Visibility)
  {
    if landStatus == Some(Str("own_land")) then Visibility(true, false, false)
    else if landStatus == Some(Str("need_land")) then Visibility(false, true, PreferredAreaShown(helpChecked))
    else Visibility(false, false, false)
  }

  /**
   * The sections follow the declared rule: the lot address shows for owned
   * land, the help question for land still to buy, and the preferred area
   * only when help is also wanted; the lot address and the help question
   * never show together.
   */
  lemma ConditionalSectionsRule(landStatus: Option<Value>, helpChecked: bool)
    ensures ConditionalSections(landStatus, helpChecked).lotAddress <==> landStatus == Some(Str("own_land"))
    ensures ConditionalSections(landStatus, helpChecked).helpFinding <==> landStatus == Some(Str("need_land"))
    ensures ConditionalSections(landStatus, helpChecked).preferredArea
            <==> landStatus == Some(Str("need_land")) && helpChecked
    ensures !(ConditionalSections(landStatus, helpChecked).lotAddress
              && ConditionalSections(landStatus, helpChecked).helpFinding)
  {
    assert "own_land" != "need_land" by { assert "own_land"[0] != "need_land"[0]; }
  }

  /** `String(value)` where the value is truthy, `fallback` otherwise: the `x || fallback` idiom. */
  function OrElse(v: Option<Value>, fallback: string): string
  {
    if Truthy(v) then ToJsString(v.value) else fallback
  }

  /** The review page's location line (`locationDetails || 'Not specified'`). */
  function LocationText(data: map<string, Value>): (r: string)
    ensures r != ""
  {
    var land := Lookup(data, "land_status");
    var lot := Lookup(data, "lot_address");
    var details :=
      if land == Some(Str("own_land")) && Truthy(lot) then ToJsString(lot.value)
      else if land == Some(Str("need_land")) then
        (var help := Lookup(data, "needs_help_finding_land");
         var area := Lookup(data, "preferred_area_description");
         if Truthy(help) && Truthy(area) then "Help needed finding land in: " + ToJsString(area.value)
         else "Will find land independently")
      else "";
    if details != "" then details else "Not specified"
  }

  /** The four cases of the location line, for string-valued fields. */
  lemma LocationCases(data: map<string, Value>)
    ensures Lookup(data, "land_status") == Some(Str("own_land"))
            && Lookup(data, "lot_address").Some? && Lookup(data, "lot_address").value.Str?
            && Lookup(data, "lot_address").value.s != ""
            ==> LocationText(data) == data["lot_address"].s
    ensures Lookup(data, "land_status") == Some(Str("need_land"))
            && Lookup(data, "needs_help_finding_land") == Some(Bool(true))
            && Lookup(data, "preferred_area_description").Some?
            && Lookup(data, "preferred_area_description").value.Str?
            && Lookup(data, "preferred_area_description").value.s != ""
            ==> LocationText(data) == "Help needed finding land in: " + data["preferred_area_description"].s
    ensures Lookup(data, "land_status") == Some(Str("need_land"))
            && !(Truthy(Lookup(data, "needs_help_finding_land")) && Truthy(Lookup(data, "preferred_area_description")))
            ==> LocationText(data) == "Will find land independently"
    ensures Lookup(data, "land_status") !in {Some(Str("own_land")), Some(Str("need_land"))}
            ==> LocationText(data) == "Not specified"
    ensures Lookup(data, "land_status") == Some(Str("own_land")) && !Truthy(Lookup(data, "lot_address"))
            ==> LocationText(data) == "Not specified"
  {
    assert "own_land" != "need_land" by { assert "own_land"[0] != "need_land"[0]; }
  }

  /** Index of the first option whose value is `v`, as `Array.prototype.find` scans. */
  function FindOption(options: seq<Config.FieldOption>, v: Option<Value>): (r: Option<nat>)
    ensures r.Some? ==> r.value < |options| && v == Some(Str(options[r.value].value))
    ensures r.Some? ==> forall i :: 0 <= i < r.value ==> v != Some(Str(options[i].value))
    ensures r.None? ==> forall i :: 0 <= i < |options| ==> v != Some(Str(options[i].value))
  {
    if options == [] then None
    else if v == Some(Str(options[0].value)) then Some(0)
    else match FindOption(options[1..], v)
      case None => None
      case Some(k) => Some(k + 1)
  }

  /** `getOptionLabel(fieldName, value)`: the matching option's label, else the value itself. */
  function GetOptionLabel(key: string, v: Option<Value>): Option<Value>
  {
    match Config.FieldOptions(key)
    case None => v
    case Some(options) =>
      match FindOption(options, v)
      case Some(i) => Some(Str(options[i].text))
      case None => v
  }

  /**
   * Each configured option's value shows as that option's own label (the
   * values of a list are distinct, so the first match is the option), and a
   * value no option has shows as itself.
   */
  lemma OptionLabelLookup(key: string, i: int, v: Option<Value>)
    requires Config.FieldOptions(key).Some? && 0 <= i < |Config.FieldOptions(key).value|
    ensures GetOptionLabel(key, Some(Str(Config.FieldOptions(key).value[i].value)))
            == Some(Str(Config.FieldOptions(key).value[i].text))
    ensures (forall j :: 0 <= j < |Config.FieldOptions(key).value| ==> v != Some(Str(Config.FieldOptions(key).value[j].value)))
            ==> GetOptionLabel(key, v) == v
  {
    var options := Config.FieldOptions(key).value;
    Config.OptionValuesDistinct(key);
    var found := FindOption(options, Some(Str(options[i].value)));
    assert found.Some?;
  }

  /** The texts of the review page. */
  datatype Review = Review(
    name: string, email: string, phone: string, company: string,
    buyerCategory: string, financing: string, landStatus: string, location: string,
    budget: string, timeline: string, description: string)

  /** `populateReviewSection`, after its whole-form collection. */
  function ReviewOf(data: map<string, Value>): (r: Review)
    ensures r.location == LocationText(data)
    ensures !Truthy(Lookup(data, "company_name")) ==> r.company == "Not specified"
  {
    Review(
      OrElse(Lookup(data, "full_name"), ""),
      OrElse(Lookup(data, "email_address"), ""),
      OrElse(Lookup(data, "phone_number"), ""),
      OrElse(Lookup(data, "company_name"), "Not specified"),
      OptionText("buyerCategories", Lookup(data, "buyer_category")),
      OptionText("financingPlans", Lookup(data, "financing_plan")),
      OptionText("landStatuses", Lookup(data, "land_status")),
      LocationText(data),
      OptionText("buildBudgets", Lookup(data, "build_budget")),
      OptionText("constructionTimelines", Lookup(data, "construction_timeline")),
      OrElse(Lookup(data, "project_description"), ""))
  }

  /** `getOptionLabel(key, value) || ''`: the text a review line shows for an option field. */
  function OptionText(key: string, v: Option<Value>): string
  {
    OrElse(GetOptionLabel(key, v), "")
  }

  /** A chosen option shows as its label on the review page. */
  lemma OptionTextShowsLabel(key: string, i: int)
    requires Config.FieldOptions(key).Some? && 0 <= i < |Config.FieldOptions(key).value|
    ensures OptionText(key, Some(Str(Config.FieldOptions(key).value[i].value))) == Config.FieldOptions(key).value[i].text
  {
    OptionLabelLookup(key, i, None);
    Config.OptionLabelsNotEmpty(key);
  }

  /** A chosen budget shows as its label on the review page. */
  lemma ReviewShowsBudgetLabel(data: map<string, Value>, i: int)
    requires 0 <= i < |Config.BuildBudgets|
    requires Lookup(data, "build_budget") == Some(Str(Config.BuildBudgets[i].value))
    ensures ReviewOf(data).budget == Config.BuildBudgets[i].text
  {
    OptionTextShowsLabel("buildBudgets", i);
  }
}
