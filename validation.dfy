/**
 * The validation service: per-field rules, the per-step and whole-form error
 * lists, the step field lists and the human-readable field labels.
 */
module Validation {
  import opened JsValues
  import Config

  const EmailMessage: string := "Please enter a valid email address"
  const PhoneMessage: string := "Please enter a valid phone number"
  const LotAddressMessage: string := "Lot address is required when you own land"
  const PreferredAreaMessage: string := "Preferred area description is required when you need help finding land"

  /**
   * What a validation call yields: the list of error messages, or the
   * TypeError that calling `trim` on the boolean `true` raises.
   */
  datatype Checked = Errors(messages: seq<string>) | TypeError

  /** The two fields whose extra checks run on `value.trim()` without `toString()`. */
  predicate IsConditionalField(name: string)
  {
    name == "lot_address" || name == "preferred_area_description"
  }

  /**
   * `!value || value.toString().trim() === ''`, by kind of value: `undefined`
   * and `false` are falsy, `String(true)` is `"true"`, which `trim` keeps, and
   * a string trims to `''` exactly when it is blank.
   */
  predicate IsEmptyValue(v: Option<Value>)
  {
    match v
    case None => true
    case Some(Bool(b)) => !b
    case Some(Str(s)) => IsBlank(s)
  }

  /** The case split above is the JavaScript condition. */
  lemma EmptyValueIsJsCondition(v: Option<Value>)
    ensures IsEmptyValue(v) <==> !Truthy(v) || Trim(ToJsString(v.value)) == ""
  {
    match v
    case None =>
    case Some(Str(s)) =>
      EmptyStringIsJsCondition(s);
    case Some(Bool(b)) =>
      EmptyBoolIsJsCondition(b);
  }

  lemma EmptyStringIsJsCondition(s: string)
    ensures IsBlank(s) <==> s == "" || Trim(s) == ""
  {
    TrimEmptyIffBlank(s);
  }

  lemma EmptyBoolIsJsCondition(b: bool)
    ensures !b <==> !b || Trim(if b then "true" else "false") == ""
  {
    if b {
      assert !IsWhitespace('t') && !IsWhitespace('e');
      assert Trim("true") == "true";
    }
  }

  /** Whether the form data's `land_status` is the given option value. */
  predicate LandStatusIs(formData: map<string, Value>, status: string)
  {
    Lookup(formData, "land_status") == Some(Str(status))
  }

  /** `formData.needs_help_finding_land === true` */
  predicate NeedsHelpFindingLand(formData: map<string, Value>)
  {
    Lookup(formData, "needs_help_finding_land") == Some(Bool(true))
  }

  /**
   * The body of a conditional check: `if (!value || value.trim() === '')`
   * pushes `message` (a string trims to `''` exactly when it is blank); `trim` is not a method of booleans, so a `true` value
   * raises a TypeError.
   */
  function ConditionalCheck(value: Option<Value>, errors: seq<string>, message: string): Checked
  {
    if !Truthy(value) then Errors(errors + [message])
    else match value.value
      case Str(s) => if IsBlank(s) then Errors(errors + [message]) else Errors(errors)
      case Bool(_) => TypeError
  }

  /** `validateField(fieldName, value, formData)`. */
  function ValidateField(name: string, value: Option<Value>, formData: map<string, Value>): (r: Checked)
    ensures r.Errors? ==> |r.messages| <= 1
    ensures r == TypeError <==>
      && value == Some(Bool(true))
      && ((name == "lot_address" && LandStatusIs(formData, "own_land"))
          || (name == "preferred_area_description" && LandStatusIs(formData, "need_land")
              && NeedsHelpFindingLand(formData)))
    ensures !IsConditionalField(name) ==> r.Errors?
  {
    if name in Config.Required && IsEmptyValue(value) then
      Errors([GetFieldLabel(name) + " is required"])
    else if IsEmptyValue(value) then
      Errors([])
    else
      var text := ToJsString(value.value);
      var errors :=
        if name == "email_address" && !Config.IsEmail(text) then [EmailMessage]
        else if name == "phone_number" && !Config.IsPhone(text) then [PhoneMessage]
        else [];
      if name == "lot_address" && LandStatusIs(formData, "own_land") then
        ConditionalCheck(value, errors, LotAddressMessage)
      else if name == "preferred_area_description" && LandStatusIs(formData, "need_land")
              && NeedsHelpFindingLand(formData) then
        ConditionalCheck(value, errors, PreferredAreaMessage)
      else
        Errors(errors)
  }

  /** A required field with an empty value reports exactly "<Label> is required". */
  lemma RequiredEmptyField(name: string, value: Option<Value>, formData: map<string, Value>)
    requires name in Config.Required
    requires value == None || value == Some(Bool(false)) || (value.Some? && value.value.Str? && IsBlank(value.value.s))
    ensures ValidateField(name, value, formData) == Errors([GetFieldLabel(name) + " is required"])
  {
  }

  /** An optional field with an empty value reports nothing. */
  lemma OptionalEmptyField(name: string, value: Option<Value>, formData: map<string, Value>)
    requires name !in Config.Required
    requires value == None || value == Some(Bool(false)) || (value.Some? && value.value.Str? && IsBlank(value.value.s))
    ensures ValidateField(name, value, formData) == Errors([])
  {
  }

  /**
   * A non-empty value of any field without a format or conditional rule
   * falls through every check and reports nothing.
   */
  lemma NonEmptyOtherFieldPasses(name: string, value: Option<Value>, formData: map<string, Value>)
    requires name != "email_address" && name != "phone_number" && !IsConditionalField(name)
    requires !IsEmptyValue(value)
    ensures ValidateField(name, value, formData) == Errors([])
  {
  }

  /** A non-empty email address is flagged exactly when the email pattern rejects it. */
  lemma EmailFieldChecked(s: string, formData: map<string, Value>)
    requires !IsBlank(s)
    ensures ValidateField("email_address", Some(Str(s)), formData)
         == Errors(if Config.MatchesEmailPattern(s) then [] else [EmailMessage])
  {
    Config.EmailMatchesPattern(s);
  }

  /** A non-empty phone number is flagged exactly when the phone pattern rejects it. */
  lemma PhoneFieldChecked(s: string, formData: map<string, Value>)
    requires !IsBlank(s)
    ensures ValidateField("phone_number", Some(Str(s)), formData)
         == Errors(if Config.IsPhone(s) then [] else [PhoneMessage])
  {
  }

  /**
   * The lot-address and preferred-area messages are never produced for a
   * string (or missing) value: an empty value has already returned before
   * the conditional checks, and a non-empty one passes them, so those two
   * fields report nothing at all.
   */
  lemma ConditionalMessagesUnreachable(name: string, value: Option<Value>, formData: map<string, Value>)
    requires value.None? || value.value.Str?
    ensures ValidateField(name, value, formData).Errors?
    ensures LotAddressMessage !in ValidateField(name, value, formData).messages
    ensures PreferredAreaMessage !in ValidateField(name, value, formData).messages
    ensures IsConditionalField(name) ==> ValidateField(name, value, formData) == Errors([])
  {
    StringValueMessages(name, value, formData);
    RequiredMessageIsNotConditional(GetFieldLabel(name));
    assert LotAddressMessage[0] == 'L';
    assert |EmailMessage| != |PreferredAreaMessage| && |PhoneMessage| != |PreferredAreaMessage|;
  }

  /** For a string or missing value the only possible messages are the required and format ones. */
  lemma StringValueMessages(name: string, value: Option<Value>, formData: map<string, Value>)
    requires value.None? || value.value.Str?
    ensures ValidateField(name, value, formData)
            in {Errors([]), Errors([GetFieldLabel(name) + " is required"]), Errors([EmailMessage]), Errors([PhoneMessage])}
  {
  }

  /** A "<Label> is required" message is neither of the two conditional messages. */
  lemma RequiredMessageIsNotConditional(fieldLabel: string)
    ensures fieldLabel + " is required" != LotAddressMessage
    ensures fieldLabel + " is required" != PreferredAreaMessage
  {
    var m := fieldLabel + " is required";
    assert m[|m| - 2] == 'e';
    assert LotAddressMessage[|LotAddressMessage| - 2] == 'n';
    assert PreferredAreaMessage[|PreferredAreaMessage| - 2] == 'n';
  }

  /** Example: an empty lot address passes even when the applicant owns land. */
  lemma EmptyLotAddressPasses()
    ensures ValidateField("lot_address", Some(Str("")), map["land_status" := Str("own_land")]) == Errors([])
  {
    ConditionalMessagesUnreachable("lot_address", Some(Str("")), map["land_status" := Str("own_land")]);
  }

  /** Examples for the email rule: a string without `@` is flagged ... */
  lemma EmailExampleRejected()
    ensures ValidateField("email_address", Some(Str("not-an-email")), map[]) == Errors([EmailMessage])
  {
    var s := "not-an-email";
    assert !IsWhitespace(s[0]);
    assert forall i :: 0 <= i < |s| ==> s[i] != '@';
    Config.EmailMatchesPattern(s);
    EmailFieldChecked(s, map[]);
  }

  /** ... and a minimal local@domain.tld address passes. */
  lemma EmailExampleAccepted()
    ensures ValidateField("email_address", Some(Str("a@b.co")), map[]) == Errors([])
  {
    var s := "a@b.co";
    assert !IsWhitespace(s[0]);
    assert s[..1] == "a" && s[2..3] == "b" && s[4..] == "co";
    assert s[1] == '@' && s[3] == '.';
    assert Config.MatchesEmailPattern(s);
    EmailFieldChecked(s, map[]);
  }

  // ---------------------------------------------------------------------
  // Steps and labels
  // ---------------------------------------------------------------------

  /** `getStepFields(stepNumber)`: the fields checked on each step. */
  function GetStepFields(step: int): (r: seq<string>)
    ensures forall i :: 0 <= i < |r| ==> r[i] in Config.Required
    ensures step !in {Config.Contact, Config.ProjectType, Config.LandLocation, Config.ProjectDetails} ==> r == []
  {
    if step == Config.Contact then ["full_name", "email_address", "phone_number"]
    else if step == Config.ProjectType then ["buyer_category", "financing_plan"]
    else if step == Config.LandLocation then ["land_status"]
    else if step == Config.ProjectDetails then ["build_budget", "construction_timeline", "project_description"]
    else []
  }

  /** No required field is one of the two conditional fields. */
  lemma RequiredAreUnconditional()
    ensures forall i :: 0 <= i < |Config.Required| ==> !IsConditionalField(Config.Required[i])
  {
    forall i | 0 <= i < |Config.Required|
      ensures !IsConditionalField(Config.Required[i])
    {
      var f := Config.Required[i];
      assert |f| != |"lot_address"| || f[1] != 'o';
      assert |f| != |"preferred_area_description"|;
    }
  }

  /** The step lists, in step order, are the required list. */
  lemma StepsPartitionRequired()
    ensures GetStepFields(1) + GetStepFields(2) + GetStepFields(3) + GetStepFields(4) == Config.Required
  {
  }

  /** The fixed label table of `getFieldLabel`. */
  const Labels: map<string, string> := map[
    "full_name" := "Full Name",
    "email_address" := "Email Address",
    "phone_number" := "Phone Number",
    "company_name" := "Company Name",
    "buyer_category" := "Buyer Category",
    "financing_plan" := "Financing Plan",
    "land_status" := "Land Status",
    "lot_address" := "Lot Address",
    "preferred_area_description" := "Preferred Area",
    "build_budget" := "Build Budget",
    "construction_timeline" := "Construction Timeline",
    "project_description" := "Project Description"
  ]

  /** A character of the regular-expression class `\w`. */
  predicate IsWordChar(c: char)
  {
    ('a' <= c <= 'z') || ('A' <= c <= 'Z') || ('0' <= c <= '9') || c == '_'
  }

  /** `toUpperCase` on a character of `\w`. */
  function ToUpper(c: char): char
  {
    if 'a' <= c <= 'z' then (c as int - 'a' as int + 'A' as int) as char else c
  }

  /** `replace(/_/g, ' ')` */
  function ReplaceUnderscores(s: string): (r: string)
    ensures |r| == |s|
    ensures forall i :: 0 <= i < |s| ==> r[i] == (if s[i] == '_' then ' ' else s[i])
  {
    if s == [] then [] else [if s[0] == '_' then ' ' else s[0]] + ReplaceUnderscores(s[1..])
  }

  /**
   * `replace(/\b\w/g, l => l.toUpperCase())`, scanning left to right;
   * `afterWord` says whether the character before `s` is a word character.
   */
  function CapitalizeWords(s: string, afterWord: bool): (r: string)
    ensures |r| == |s|
  {
    if s == [] then []
    else
      [if !afterWord && IsWordChar(s[0]) then ToUpper(s[0]) else s[0]]
      + CapitalizeWords(s[1..], IsWordChar(s[0]))
  }

  /** A word character sits right after a word boundary. */
  predicate StartsWord(s: string, i: int)
    requires 0 <= i < |s|
  {
    IsWordChar(s[i]) && (i == 0 || !IsWordChar(s[i - 1]))
  }

  /**
   * The scan upper-cases exactly the characters that `\b\w` matches: word
   * characters at the start or after a non-word character.
   */
  lemma {:induction false} CapitalizeWordsAt(s: string, i: int)
    requires 0 <= i < |s|
    ensures CapitalizeWords(s, false)[i] == if StartsWord(s, i) then ToUpper(s[i]) else s[i]
  {
    CapitalizeAfter(s, false, i);
  }

  lemma {:induction false} CapitalizeAfter(s: string, afterWord: bool, i: int)
    requires 0 <= i < |s|
    ensures CapitalizeWords(s, afterWord)[i]
         == if IsWordChar(s[i]) && (if i == 0 then !afterWord else !IsWordChar(s[i - 1]))
            then ToUpper(s[i]) else s[i]
  {
    if i > 0 {
      CapitalizeAfter(s[1..], IsWordChar(s[0]), i - 1);
      assert s[1..][i - 1] == s[i];
      if i > 1 {
        assert s[1..][i - 2] == s[i - 1];
      }
    }
  }

  /** `getFieldLabel(fieldName)`. */
  function GetFieldLabel(name: string): (r: string)
  {
    if name in Labels then Labels[name] else CapitalizeWords(ReplaceUnderscores(name), false)
  }

  /**
   * A known name gets its table entry; any other name comes back with each
   * `_` turned into a space and the first letter of each word in upper case,
   * every other character kept.
   */
  lemma FieldLabelShape(name: string)
    ensures name in Labels ==> GetFieldLabel(name) == Labels[name]
    ensures name !in Labels ==>
      && |GetFieldLabel(name)| == |name|
      && forall i :: 0 <= i < |name| ==>
           GetFieldLabel(name)[i]
           == (if name[i] == '_' then ' '
               else if StartsWord(ReplaceUnderscores(name), i) then ToUpper(name[i])
               else name[i])
  {
    if name !in Labels {
      var spaced := ReplaceUnderscores(name);
      forall i | 0 <= i < |name|
        ensures GetFieldLabel(name)[i]
             == (if name[i] == '_' then ' '
                 else if StartsWord(spaced, i) then ToUpper(name[i])
                 else name[i])
      {
        CapitalizeWordsAt(spaced, i);
      }
    }
  }

  /** A known name reads its table entry. */
  lemma FieldLabelKnownExample()
    ensures GetFieldLabel("company_name") == "Company Name"
  {
  }

  /** An unknown name falls back to the spaced, word-capitalised name. */
  lemma FieldLabelFallbackExample()
    ensures GetFieldLabel("zone_3b") == "Zone 3b"
  {
    assert "zone_3b" !in Labels by {
      assert forall k :: k in Labels ==> |k| != 7;
    }
    assert ReplaceUnderscores("zone_3b") == "zone 3b";
    CapitalizeZoneExample();
  }

  /** The scan capitalises the first word and leaves the word that starts with a digit as it is. */
  lemma CapitalizeZoneExample()
    ensures CapitalizeWords("zone 3b", false) == "Zone 3b"
  {
    assert CapitalizeWords("b", true) == "b";
    assert CapitalizeWords("3b", false) == "3b";
    assert CapitalizeWords(" 3b", true) == " 3b";
    assert CapitalizeWords("e 3b", true) == "e 3b";
    assert CapitalizeWords("ne 3b", true) == "ne 3b";
    assert CapitalizeWords("one 3b", true) == "one 3b";
  }

  // ---------------------------------------------------------------------
  // Steps and the whole form
  // ---------------------------------------------------------------------

  /** Error lists of consecutive field lists join; a TypeError on either side wins. */
  function Join(a: Checked, b: Checked): Checked
  {
    if a.Errors? && b.Errors? then Errors(a.messages + b.messages) else TypeError
  }

  /**
   * The in-order concatenation of a list of per-field results (what the
   * `forEach` + `push(...fieldErrors)` loops build); the first TypeError
   * propagates, as a thrown exception leaves the loop.
   */
  function JoinAll(results: seq<Checked>): (r: Checked)
    ensures (forall i :: 0 <= i < |results| ==> results[i].Errors?) <==> r.Errors?
    ensures (forall i :: 0 <= i < |results| ==> results[i].Errors? && |results[i].messages| <= 1)
            ==> r.Errors? && |r.messages| <= |results|
  {
    if results == [] then Errors([])
    else Join(JoinAll(results[..|results| - 1]), results[|results| - 1])
  }

  lemma {:induction false} JoinAllAppend(a: seq<Checked>, b: seq<Checked>)
    ensures JoinAll(a + b) == Join(JoinAll(a), JoinAll(b))
  {
    if b == [] {
      assert a + b == a;
    } else {
      var b' := b[..|b| - 1];
      var last := b[|b| - 1];
      JoinAllAppend(a, b');
      assert (a + b)[..|a + b| - 1] == a + b';
      assert (a + b)[|a + b| - 1] == last;
      assert JoinAll(a + b) == Join(JoinAll(a + b'), last);
      JoinIsAssociative(JoinAll(a), JoinAll(b'), last);
    }
  }

  lemma JoinIsAssociative(x: Checked, y: Checked, z: Checked)
    ensures Join(Join(x, y), z) == Join(x, Join(y, z))
  {
  }

  /** A joined list reports nothing exactly when each result reports nothing. */
  lemma {:induction false} JoinAllEmptyIff(results: seq<Checked>)
    ensures JoinAll(results) == Errors([]) <==> forall i :: 0 <= i < |results| ==> results[i] == Errors([])
  {
    if results != [] {
      var init := results[..|results| - 1];
      JoinAllEmptyIff(init);
      assert forall i :: 0 <= i < |init| ==> init[i] == results[i];
    }
  }

  /** The `validateField` result of each field of `fields`, looked up in `formData`. */
  function FieldResults(fields: seq<string>, formData: map<string, Value>): (r: seq<Checked>)
    ensures |r| == |fields|
    ensures forall i :: 0 <= i < |fields| ==> r[i] == ValidateField(fields[i], Lookup(formData, fields[i]), formData)
  {
    seq(|fields|, i requires 0 <= i < |fields| => ValidateField(fields[i], Lookup(formData, fields[i]), formData))
  }

  lemma FieldResultsAppend(a: seq<string>, b: seq<string>, formData: map<string, Value>)
    ensures FieldResults(a + b, formData) == FieldResults(a, formData) + FieldResults(b, formData)
  {
    var whole, parts := FieldResults(a + b, formData), FieldResults(a, formData) + FieldResults(b, formData);
    forall i | 0 <= i < |whole|
      ensures whole[i] == parts[i]
    {
      if i < |a| {
        assert (a + b)[i] == a[i];
      } else {
        assert (a + b)[i] == b[i - |a|];
      }
    }
  }

  /** The errors of a list of fields, in field order. */
  function CollectErrors(fields: seq<string>, formData: map<string, Value>): (r: Checked)
  {
    JoinAll(FieldResults(fields, formData))
  }

  /**
   * No field of a step, nor of the whole form, is one whose conditional check
   * can throw, and each contributes at most one message.
   */
  lemma CollectErrorsBounded(fields: seq<string>, formData: map<string, Value>)
    requires forall i :: 0 <= i < |fields| ==> !IsConditionalField(fields[i])
    ensures CollectErrors(fields, formData).Errors?
    ensures |CollectErrors(fields, formData).messages| <= |fields|
  {
    var rs := FieldResults(fields, formData);
    assert forall i :: 0 <= i < |rs| ==> rs[i].Errors? && |rs[i].messages| <= 1;
  }

  /** A field list reports nothing exactly when each of its fields reports nothing. */
  lemma CollectErrorsEmptyIff(fields: seq<string>, formData: map<string, Value>)
    ensures CollectErrors(fields, formData) == Errors([])
        <==> forall i :: 0 <= i < |fields| ==> ValidateField(fields[i], Lookup(formData, fields[i]), formData) == Errors([])
  {
    JoinAllEmptyIff(FieldResults(fields, formData));
  }

  /** One loop round: the error list grows by the next field's messages. */
  lemma CollectErrorsStep(fields: seq<string>, i: int, formData: map<string, Value>)
    requires 0 <= i < |fields|
    ensures CollectErrors(fields[..i + 1], formData)
         == Join(CollectErrors(fields[..i], formData), ValidateField(fields[i], Lookup(formData, fields[i]), formData))
  {
    assert fields[..i + 1] == fields[..i] + [fields[i]];
    FieldResultsAppend(fields[..i], [fields[i]], formData);
    JoinAllAppend(FieldResults(fields[..i], formData), FieldResults([fields[i]], formData));
  }

  /** `validateStep(stepNumber, formData)`: the loop over the step's field list. */
  method ValidateStep(step: int, formData: map<string, Value>) returns (errors: seq<string>)
    ensures CollectErrors(GetStepFields(step), formData) == Errors(errors)
    ensures |errors| <= |GetStepFields(step)|
  {
    var fields := GetStepFields(step);
    StepFieldsUnconditional(step);
    errors := [];
    var i := 0;
    while i < |fields|
      invariant 0 <= i <= |fields|
      invariant CollectErrors(fields[..i], formData) == Errors(errors)
      invariant |errors| <= i
    {
      var fieldErrors := ValidateField(fields[i], Lookup(formData, fields[i]), formData);
      CollectErrorsStep(fields, i, formData);
      errors := errors + fieldErrors.messages;
      i := i + 1;
    }
    assert fields[..i] == fields;
  }

  /** `validateForm(formData)`: the loop over the required list. */
  method ValidateForm(formData: map<string, Value>) returns (errors: seq<string>)
    ensures CollectErrors(Config.Required, formData) == Errors(errors)
    ensures |errors| <= 9
  {
    var fields := Config.Required;
    RequiredAreUnconditional();
    errors := [];
    var i := 0;
    while i < |fields|
      invariant 0 <= i <= |fields|
      invariant CollectErrors(fields[..i], formData) == Errors(errors)
      invariant |errors| <= i
    {
      var fieldErrors := ValidateField(fields[i], Lookup(formData, fields[i]), formData);
      CollectErrorsStep(fields, i, formData);
      errors := errors + fieldErrors.messages;
      i := i + 1;
    }
    assert fields[..i] == fields;
  }

  /**
   * The whole-form check reports the errors of steps 1 to 4, in step order
   * (step 5, and any other number, checks no field at all).
   */
  lemma FormIsStepsInOrder(formData: map<string, Value>)
    ensures CollectErrors(Config.Required, formData).Errors?
    ensures CollectErrors(Config.Required, formData).messages
         == CollectErrors(GetStepFields(1), formData).messages
          + CollectErrors(GetStepFields(2), formData).messages
          + CollectErrors(GetStepFields(3), formData).messages
          + CollectErrors(GetStepFields(4), formData).messages
  {
    FormIsJoinOfSteps(formData);
    StepFieldsUnconditional(1);
    StepFieldsUnconditional(2);
    StepFieldsUnconditional(3);
    StepFieldsUnconditional(4);
    CollectErrorsBounded(GetStepFields(1), formData);
    CollectErrorsBounded(GetStepFields(2), formData);
    CollectErrorsBounded(GetStepFields(3), formData);
    CollectErrorsBounded(GetStepFields(4), formData);
    JoinOfFourLists(CollectErrors(GetStepFields(1), formData), CollectErrors(GetStepFields(2), formData),
                    CollectErrors(GetStepFields(3), formData), CollectErrors(GetStepFields(4), formData));
  }

  /** Joining four error lists in turn concatenates them. */
  lemma JoinOfFourLists(a: Checked, b: Checked, c: Checked, d: Checked)
    requires a.Errors? && b.Errors? && c.Errors? && d.Errors?
    ensures Join(Join(Join(a, b), c), d) == Errors(a.messages + b.messages + c.messages + d.messages)
  {
  }

  /** No step checks a field whose conditional check can throw. */
  lemma StepFieldsUnconditional(step: int)
    ensures forall i :: 0 <= i < |GetStepFields(step)| ==> !IsConditionalField(GetStepFields(step)[i])
  {
    RequiredAreUnconditional();
    var fields := GetStepFields(step);
    forall i | 0 <= i < |fields|
      ensures !IsConditionalField(fields[i])
    {
      assert fields[i] in Config.Required;
    }
  }

  lemma FormIsJoinOfSteps(formData: map<string, Value>)
    ensures CollectErrors(Config.Required, formData)
         == Join(Join(Join(CollectErrors(GetStepFields(1), formData), CollectErrors(GetStepFields(2), formData)),
                      CollectErrors(GetStepFields(3), formData)),
                 CollectErrors(GetStepFields(4), formData))
  {
    var f1, f2, f3, f4 := GetStepFields(1), GetStepFields(2), GetStepFields(3), GetStepFields(4);
    var r1, r2, r3, r4 := FieldResults(f1, formData), FieldResults(f2, formData),
                          FieldResults(f3, formData), FieldResults(f4, formData);
    StepsPartitionRequired();
    FieldResultsAppend(f1, f2, formData);
    FieldResultsAppend(f1 + f2, f3, formData);
    FieldResultsAppend(f1 + f2 + f3, f4, formData);
    JoinAllAppend(r1, r2);
    JoinAllAppend(r1 + r2, r3);
    JoinAllAppend(r1 + r2 + r3, r4);
  }
}
