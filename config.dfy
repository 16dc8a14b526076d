/**
 * The static configuration of the intake form: option lists, the validation
 * rules (the two regular expressions, written out as string predicates, and
 * the required-field list) and the step numbers.
 */
module Config {
  import opened JsValues

  // ---------------------------------------------------------------------
  // Field options
  // ---------------------------------------------------------------------

  datatype FieldOption = FieldOption(value: string, text: string)

  const BuyerCategories: seq<FieldOption> := [
    FieldOption("homebuyer", "I am a homebuyer"),
    FieldOption("developer", "I am a developer")
  ]

  const FinancingPlans: seq<FieldOption> := [
    FieldOption("self_funding", "I will be self-funding the build"),
    FieldOption("finance_build", "I intend to finance the build")
  ]

  const LandStatuses: seq<FieldOption> := [
    FieldOption("own_land", "Yes, I own land"),
    FieldOption("need_land", "No, I need to purchase land")
  ]

  const BuildBudgets: seq<FieldOption> := [
    FieldOption("200k_250k", "$200,000 \U{2013} $250,000"),
    FieldOption("250k_350k", "$250,000 \U{2013} $350,000"),
    FieldOption("350k_400k", "$350,000 \U{2013} $400,000"),
    FieldOption("400k_500k", "$400,000 \U{2013} $500,000"),
    FieldOption("500k_plus", "$500,000+")
  ]

  const ConstructionTimelines: seq<FieldOption> := [
    FieldOption("less_than_3_months", "Less than 3 months"),
    FieldOption("3_to_6_months", "3 to 6 months"),
    FieldOption("6_to_12_months", "6 to 12 months"),
    FieldOption("more_than_12_months", "More than 12 months")
  ]

  /** `CONFIG.FIELD_OPTIONS[key]`: `None` stands for `undefined`. */
  function FieldOptions(key: string): (r: Option<seq<FieldOption>>)
    ensures r.Some? <==> key in {"buyerCategories", "financingPlans", "landStatuses",
                                 "buildBudgets", "constructionTimelines"}
  {
    match key
    case "buyerCategories" => Some(BuyerCategories)
    case "financingPlans" => Some(FinancingPlans)
    case "landStatuses" => Some(LandStatuses)
    case "buildBudgets" => Some(BuildBudgets)
    case "constructionTimelines" => Some(ConstructionTimelines)
    case _ => None
  }

  /** No two options of a list share a value. */
  predicate DistinctValues(options: seq<FieldOption>)
  {
    forall i, j :: 0 <= i < j < |options| ==> options[i].value != options[j].value
  }

  /** Every configured option list is keyed by distinct values. */
  lemma OptionValuesDistinct(key: string)
    requires FieldOptions(key).Some?
    ensures DistinctValues(FieldOptions(key).value)
  {
  }

  /**
   * Every option value has a non-blank first character, so a control whose
   * value is an option value never reads as blank.
   */
  lemma OptionValuesNotBlank(key: string)
    requires FieldOptions(key).Some?
    ensures forall i :: 0 <= i < |FieldOptions(key).value| ==> !IsBlank(FieldOptions(key).value[i].value)
  {
    var options := FieldOptions(key).value;
    forall i | 0 <= i < |options|
      ensures !IsBlank(options[i].value)
    {
      assert !IsWhitespace(options[i].value[0]);
    }
  }

  /** Every option has a label to show. */
  lemma OptionLabelsNotEmpty(key: string)
    requires FieldOptions(key).Some?
    ensures forall i :: 0 <= i < |FieldOptions(key).value| ==> FieldOptions(key).value[i].text != ""
  {
  }

  // ---------------------------------------------------------------------
  // Validation rules
  // ---------------------------------------------------------------------

  /** A character of the class `[^\s@]`. */
  predicate IsEmailChar(c: char)
  {
    !IsWhitespace(c) && c != '@'
  }

  predicate AllEmailChars(s: string)
  {
    forall i :: 0 <= i < |s| ==> IsEmailChar(s[i])
  }

  /**
   * The regular expression `^[^\s@]+@[^\s@]+\.[^\s@]+$` read literally: the
   * string splits into three non-empty runs of `[^\s@]`, the first two joined
   * by `@` and the last two by `.`.
   */
  ghost predicate MatchesEmailPattern(s: string)
  {
    exists at, dot :: 0 < at && at + 1 < dot && dot + 1 < |s|
      && s[at] == '@' && s[dot] == '.'
      && AllEmailChars(s[..at]) && AllEmailChars(s[at + 1..dot]) && AllEmailChars(s[dot + 1..])
  }

  /**
   * `VALIDATION.email.test(s)`, stated directly: no white space, exactly one
   * `@` with something before it, and after it a `.` that is neither the
   * first nor the last character.
   */
  predicate IsEmail(s: string)
  {
    && (forall i :: 0 <= i < |s| ==> !IsWhitespace(s[i]))
    && exists at :: 0 < at < |s| && s[at] == '@'
         && (forall j :: 0 <= j < |s| && j != at ==> s[j] != '@')
         && exists dot :: at + 1 < dot < |s| - 1 && s[dot] == '.'
  }

  /** The direct statement of the email rule accepts exactly what the pattern matches. */
  lemma EmailMatchesPattern(s: string)
    ensures IsEmail(s) <==> MatchesEmailPattern(s)
  {
    if IsEmail(s) {
      EmailGivesPattern(s);
    }
    if MatchesEmailPattern(s) {
      PatternGivesEmail(s);
    }
  }

  lemma EmailGivesPattern(s: string)
    requires IsEmail(s)
    ensures MatchesEmailPattern(s)
  {
    var at :| 0 < at < |s| && s[at] == '@'
      && (forall j :: 0 <= j < |s| && j != at ==> s[j] != '@')
      && exists dot :: at + 1 < dot < |s| - 1 && s[dot] == '.';
    var dot :| at + 1 < dot < |s| - 1 && s[dot] == '.';
    forall i | 0 <= i < |s| && i != at
      ensures IsEmailChar(s[i])
    {
    }
    RunOfEmailChars(s, 0, at, at);
    RunOfEmailChars(s, at + 1, dot, at);
    RunOfEmailChars(s, dot + 1, |s|, at);
  }

  /** A slice of `s` that avoids position `at` is a run of `[^\s@]` when every other position is. */
  lemma RunOfEmailChars(s: string, lo: int, hi: int, at: int)
    requires 0 <= lo <= hi <= |s|
    requires !(lo <= at < hi)
    requires forall i :: 0 <= i < |s| && i != at ==> IsEmailChar(s[i])
    ensures AllEmailChars(s[lo..hi])
  {
    forall i | 0 <= i < hi - lo
      ensures IsEmailChar(s[lo..hi][i])
    {
      assert s[lo..hi][i] == s[lo + i];
    }
  }

  lemma PatternGivesEmail(s: string)
    requires MatchesEmailPattern(s)
    ensures IsEmail(s)
  {
    var at, dot :| 0 < at && at + 1 < dot && dot + 1 < |s|
      && s[at] == '@' && s[dot] == '.'
      && AllEmailChars(s[..at]) && AllEmailChars(s[at + 1..dot]) && AllEmailChars(s[dot + 1..]);
    forall i | 0 <= i < |s| && i != at
      ensures IsEmailChar(s[i])
    {
      if i < at {
        assert s[i] == s[..at][i];
      } else if i < dot {
        assert s[i] == s[at + 1..dot][i - at - 1];
      } else if i > dot {
        assert s[i] == s[dot + 1..][i - dot - 1];
      }
    }
    assert at + 1 < dot < |s| - 1 && s[dot] == '.';
  }

  /** A character of the class `[\d\s\-\(\)\+\.]`. */
  predicate IsPhoneChar(c: char)
  {
    ('0' <= c <= '9') || IsWhitespace(c) || c == '-' || c == '(' || c == ')' || c == '+' || c == '.'
  }

  /** `VALIDATION.phone.test(s)`, the pattern `^[\d\s\-\(\)\+\.]{10,}$`. */
  predicate IsPhone(s: string)
  {
    |s| >= 10 && forall i :: 0 <= i < |s| ==> IsPhoneChar(s[i])
  }

  /** `VALIDATION.required`, in declared order. */
  const Required: seq<string> := [
    "full_name", "email_address", "phone_number", "buyer_category",
    "financing_plan", "land_status", "build_budget", "construction_timeline",
    "project_description"
  ]

  lemma RequiredListShape()
    ensures |Required| == 9
    ensures forall i, j :: 0 <= i < j < |Required| ==> Required[i] != Required[j]
  {
  }

  // ---------------------------------------------------------------------
  // Steps
  // ---------------------------------------------------------------------

  const Contact: int := 1
  const ProjectType: int := 2
  const LandLocation: int := 3
  const ProjectDetails: int := 4
  const ReviewSubmit: int := 5
  const Total: int := 5

  lemma StepNumbering()
    ensures [Contact, ProjectType, LandLocation, ProjectDetails, ReviewSubmit] == [1, 2, 3, 4, 5]
    ensures Total == ReviewSubmit
  {
  }
}
