/** The form's validation schema: one rule per field, then one cross-field
    rule on `place_of_living` that may also rewrite `home_address`.

    Validation follows the schema library's object semantics: keys the
    schema does not declare are stripped; a missing required field or an
    enum value outside the offered options ABORTS the object (the
    cross-field rule then does not run); a length violation only records an
    issue, and the cross-field rule still runs and may add its own.  The
    draft is accepted exactly when no issue was recorded. */
module Schema {
  import opened Wrappers
  import opened Text
  import opened Fields

  /** A per-field rule with the message the form shows when it fails. */
  datatype Check =
    | Length(n: nat, message: string)                      // exactly n characters
    | MinLength(n: nat, message: string)                   // at least n characters
    | OneOf(options: seq<string>, requiredError: string)   // enumeration

  datatype FieldSpec = FieldSpec(key: string, check: Check, optional: bool)

  /** A validation message attached to the field it is shown under. */
  datatype Issue = Issue(path: string, message: string)

  /** The outcome of one field's rule. */
  datatype FieldOutcome = Valid | Dirty(issue: Issue) | Aborted(issue: Issue)

  /** The message of the library's own "missing value" issue. */
  const RequiredMessage := "Required"

  /** The cross-field rule's message, reported under `student_code`. */
  const CrossFieldMessage := "All relevant fields must be filled"

  /** The object shape, in declaration order (which is also the order in
      which issues are reported). */
  const Shape: seq<FieldSpec> := [
    FieldSpec(StudentCode, Length(3, "Must be exactly 3 characters long."), false),
    FieldSpec(Name, MinLength(2, "Name must be atleast 2 characters long."), false),
    FieldSpec(Mobile, Length(10, "Mobile number must be exactly 10 characters long."), false),
    FieldSpec(PlaceOfLiving, OneOf([PgValue, HomeValue], "You need to select yout residental details."), false),
    FieldSpec(HomeAddress, MinLength(2, "Address must be atleast 2 characters long."), true),
    FieldSpec(HomePs, MinLength(2, "Police station must be atleast 2 characters long."), true),
    FieldSpec(HomePin, Length(6, "PIN must be exactly 6 characters long."), true),
    FieldSpec(HomeState, MinLength(2, "State must be atleast 2 characters long."), true),
    FieldSpec(HomeDistrict, MinLength(2, "District must be atleast 2 characters long."), true),
    FieldSpec(PgAddress, MinLength(2, "Address must be atleast 2 characters long."), true),
    FieldSpec(PgName, MinLength(2, "Name must be atleast 2 characters long."), true),
    FieldSpec(PgLandmark, MinLength(2, "Landmark must be atleast 2 characters long."), true),
    FieldSpec(PgOwnerMobile, Length(10, "Mobile number must be exactly 10 characters long."), true),
    FieldSpec(PgOwnerName, MinLength(2, "Name must be atleast 2 characters long."), true)
  ]

  /** `'a' | 'b' | …`, the way the library lists enumeration options. */
  function QuotedOptions(options: seq<string>): string
  {
    if |options| == 0 then ""
    else if |options| == 1 then "'" + options[0] + "'"
    else "'" + options[0] + "' | " + QuotedOptions(options[1..])
  }

  /** The library's message for an enumeration value that is not offered. */
  function InvalidEnumMessage(options: seq<string>, received: string): string
  {
    "Invalid enum value. Expected " + QuotedOptions(options) + ", received '" + received + "'"
  }

  /** One field's rule applied to its (possibly missing) value. */
  function CheckField(spec: FieldSpec, v: Option<string>): (o: FieldOutcome)
    ensures o.Valid? <==>
      match v
      case None => spec.optional
      case Some(s) =>
        match spec.check
        case Length(n, _) => |s| == n
        case MinLength(n, _) => |s| >= n
        case OneOf(options, _) => s in options
    ensures !o.Valid? ==> o.issue.path == spec.key
    ensures o.Aborted? <==> (v.None? && !spec.optional) || (v.Some? && spec.check.OneOf? && !o.Valid?)
  {
    match v
    case None =>
      if spec.optional then Valid
      else if spec.check.OneOf? then Aborted(Issue(spec.key, spec.check.requiredError))
      else Aborted(Issue(spec.key, RequiredMessage))
    case Some(s) =>
      match spec.check
      case Length(n, message) => if |s| == n then Valid else Dirty(Issue(spec.key, message))
      case MinLength(n, message) => if |s| >= n then Valid else Dirty(Issue(spec.key, message))
      case OneOf(options, _) =>
        if s in options then Valid else Aborted(Issue(spec.key, InvalidEnumMessage(options, s)))
  }

  function OutcomeOf(spec: FieldSpec, draft: map<string, string>): FieldOutcome
  {
    CheckField(spec, Lookup(draft, spec.key))
  }

  function IssuesOf(o: FieldOutcome): seq<Issue>
  {
    if o.Valid? then [] else [o.issue]
  }

  /** The issues of every field of `shape`, in shape order. */
  function ShapeIssues(shape: seq<FieldSpec>, draft: map<string, string>): seq<Issue>
  {
    if |shape| == 0 then []
    else IssuesOf(OutcomeOf(shape[0], draft)) + ShapeIssues(shape[1..], draft)
  }

  /** Some field of `shape` aborts the object. */
  predicate ShapeAborts(shape: seq<FieldSpec>, draft: map<string, string>)
  {
    |shape| > 0 && (OutcomeOf(shape[0], draft).Aborted? || ShapeAborts(shape[1..], draft))
  }

  /** The object value the shape produces: the declared keys only. */
  function Strip(draft: map<string, string>): (data: map<string, string>)
    ensures data.Keys == draft.Keys * FormFields
    ensures forall k :: k in data ==> data[k] == draft[k]
  {
    map k | k in draft && k in FormFields :: draft[k]
  }

  /** The home branch's composed address.  A missing part is rendered as
      the text "undefined", as string concatenation does with a missing
      value. */
  function ComposeHomeAddress(data: map<string, string>): (address: string)
    ensures StartsWith(address, "Address: ") && |address| > 0
  {
    "Address: " + Stringify(Lookup(data, HomeAddress))
    + ", PS: " + Stringify(Lookup(data, HomePs))
    + ", PIN: " + Stringify(Lookup(data, HomePin))
    + ", State: " + Stringify(Lookup(data, HomeState))
    + ", District: " + Stringify(Lookup(data, HomeDistrict))
  }

  /** The truthiness of an optional string: present and non-empty. */
  predicate Truthy(v: Option<string>)
  {
    v.Some? && |v.value| > 0
  }

  datatype Refined = Refined(passed: bool, data: map<string, string>)

  /** The cross-field rule.  In the home branch it overwrites `home_address`
      with the composed string and passes iff that string is non-empty; in
      the pg branch it passes iff all five pg fields are truthy; otherwise
      it passes. */
  function CrossField(data: map<string, string>): (r: Refined)
    ensures BranchOf(Lookup(data, PlaceOfLiving)) == Home ==>
      r.passed && r.data == data[HomeAddress := ComposeHomeAddress(data)]
    ensures BranchOf(Lookup(data, PlaceOfLiving)) != Home ==> r.data == data
    ensures BranchOf(Lookup(data, PlaceOfLiving)) == Pg ==>
      (r.passed <==> forall k :: k in PgFields ==> k in data && |data[k]| > 0)
  {
    match BranchOf(Lookup(data, PlaceOfLiving))
    case Home =>
      var composed := ComposeHomeAddress(data);
      Refined(|composed| > 0, data[HomeAddress := composed])
    case Pg =>
      var ok := Truthy(Lookup(data, PgAddress)) && Truthy(Lookup(data, PgName))
        && Truthy(Lookup(data, PgLandmark)) && Truthy(Lookup(data, PgOwnerMobile))
        && Truthy(Lookup(data, PgOwnerName));
      Refined(ok, data)
    case Unset =>
      Refined(true, data)
  }

  /** Validates a draft: the accepted value (with `home_address` composed in
      the home branch) or the issues in reporting order. */
  function Validate(draft: map<string, string>): (r: Result<map<string, string>, seq<Issue>>)
    ensures r.Failure? ==> |r.error| > 0
    ensures r.Success? ==> r.value.Keys <= FormFields
    ensures r.Success? ==> forall k :: k in draft && k in FormFields ==> k in r.value
    ensures r.Success? ==> forall k :: k in r.value && k != HomeAddress ==> k in draft && r.value[k] == draft[k]
    ensures r.Success? && Lookup(draft, PlaceOfLiving) == Some(HomeValue) ==>
      HomeAddress in r.value && r.value[HomeAddress] == ComposeHomeAddress(draft)
    ensures r.Success? && Lookup(draft, PlaceOfLiving) != Some(HomeValue) ==>
      Lookup(r.value, HomeAddress) == Lookup(draft, HomeAddress)
  {
    var issues := ShapeIssues(Shape, draft);
    if ShapeAborts(Shape, draft) then
      AbortHasIssue(Shape, draft);
      Failure(issues)
    else
      var refined := CrossField(Strip(draft));
      RefinedData(draft);
      var all := issues + (if refined.passed then [] else [Issue(StudentCode, CrossFieldMessage)]);
      if all == [] then Success(refined.data) else Failure(all)
  }

  /** The object the cross-field rule hands back: the draft's declared keys
      with their values, except for the composed `home_address` of the home
      branch. */
  lemma RefinedData(draft: map<string, string>)
    ensures CrossField(Strip(draft)).data.Keys <= FormFields
    ensures forall k :: k in draft && k in FormFields ==> k in CrossField(Strip(draft)).data
    ensures forall k :: k in CrossField(Strip(draft)).data && k != HomeAddress ==>
      k in draft && CrossField(Strip(draft)).data[k] == draft[k]
    ensures Lookup(draft, PlaceOfLiving) == Some(HomeValue) ==>
      HomeAddress in CrossField(Strip(draft)).data
      && CrossField(Strip(draft)).data[HomeAddress] == ComposeHomeAddress(draft)
    ensures Lookup(draft, PlaceOfLiving) != Some(HomeValue) ==>
      Lookup(CrossField(Strip(draft)).data, HomeAddress) == Lookup(draft, HomeAddress)
  {
    var data := Strip(draft);
    assert Lookup(data, PlaceOfLiving) == Lookup(draft, PlaceOfLiving);
    assert ComposeHomeAddress(data) == ComposeHomeAddress(draft) by {
      assert Lookup(data, HomeAddress) == Lookup(draft, HomeAddress);
      assert Lookup(data, HomePs) == Lookup(draft, HomePs);
      assert Lookup(data, HomePin) == Lookup(draft, HomePin);
      assert Lookup(data, HomeState) == Lookup(draft, HomeState);
      assert Lookup(data, HomeDistrict) == Lookup(draft, HomeDistrict);
    }
  }

  /** An aborting field always leaves an issue behind. */
  lemma {:induction false} AbortHasIssue(shape: seq<FieldSpec>, draft: map<string, string>)
    requires ShapeAborts(shape, draft)
    ensures |ShapeIssues(shape, draft)| > 0
  {
    if !OutcomeOf(shape[0], draft).Aborted? {
      AbortHasIssue(shape[1..], draft);
    }
  }

  /** Every field of `shape` passes its rule exactly when `shape` reports no issue. */
  lemma {:induction false} ShapeIssuesEmpty(shape: seq<FieldSpec>, draft: map<string, string>)
    ensures ShapeIssues(shape, draft) == [] <==>
      forall i :: 0 <= i < |shape| ==> OutcomeOf(shape[i], draft).Valid?
  {
    if |shape| > 0 {
      ShapeIssuesEmpty(shape[1..], draft);
      assert forall i :: 1 <= i < |shape| ==> shape[i] == shape[1..][i - 1];
    }
  }

  /** A field that fails its rule has its issue among the reported ones. */
  lemma {:induction false} ShapeIssueReported(shape: seq<FieldSpec>, draft: map<string, string>, i: int)
    requires 0 <= i < |shape| && !OutcomeOf(shape[i], draft).Valid?
    ensures OutcomeOf(shape[i], draft).issue in ShapeIssues(shape, draft)
  {
    if i > 0 {
      assert shape[i] == shape[1..][i - 1];
      ShapeIssueReported(shape[1..], draft, i - 1);
    }
  }

  /** A draft whose every field passes its rule does not abort. */
  lemma {:induction false} ValidShapeDoesNotAbort(shape: seq<FieldSpec>, draft: map<string, string>)
    requires forall i :: 0 <= i < |shape| ==> OutcomeOf(shape[i], draft).Valid?
    ensures !ShapeAborts(shape, draft)
  {
    if |shape| > 0 {
      assert OutcomeOf(shape[0], draft).Valid?;
      assert forall i :: 0 <= i < |shape[1..]| ==> shape[1..][i] == shape[i + 1];
      ValidShapeDoesNotAbort(shape[1..], draft);
    }
  }

  predicate LengthIs(d: map<string, string>, key: string, n: nat)
  {
    key in d && |d[key]| == n
  }

  predicate AtLeast(d: map<string, string>, key: string, n: nat)
  {
    key in d && |d[key]| >= n
  }

  /** The per-field rules, written out field by field: the required fields
      and their lengths, the two residence values, and the length of each
      optional field that is present. */
  predicate FieldRulesHold(d: map<string, string>)
  {
    && LengthIs(d, StudentCode, 3)
    && AtLeast(d, Name, 2)
    && LengthIs(d, Mobile, 10)
    && PlaceOfLiving in d && (d[PlaceOfLiving] == HomeValue || d[PlaceOfLiving] == PgValue)
    && (HomeAddress in d ==> AtLeast(d, HomeAddress, 2))
    && (HomePs in d ==> AtLeast(d, HomePs, 2))
    && (HomePin in d ==> LengthIs(d, HomePin, 6))
    && (HomeState in d ==> AtLeast(d, HomeState, 2))
    && (HomeDistrict in d ==> AtLeast(d, HomeDistrict, 2))
    && (PgAddress in d ==> AtLeast(d, PgAddress, 2))
    && (PgName in d ==> AtLeast(d, PgName, 2))
    && (PgLandmark in d ==> AtLeast(d, PgLandmark, 2))
    && (PgOwnerMobile in d ==> LengthIs(d, PgOwnerMobile, 10))
    && (PgOwnerName in d ==> AtLeast(d, PgOwnerName, 2))
  }

  /** The cross-field requirement: a pg draft carries all five pg fields.
      (A home draft is not required to carry any home field.) */
  predicate CrossFieldHolds(d: map<string, string>)
  {
    Lookup(d, PlaceOfLiving) == Some(PgValue) ==> PgFields <= d.Keys
  }

  /** The drafts the form accepts. */
  predicate Acceptable(d: map<string, string>)
  {
    FieldRulesHold(d) && CrossFieldHolds(d)
  }

  /** The schema's field list, read rule by rule, is `FieldRulesHold`. */
  lemma ShapeRules(d: map<string, string>)
    ensures (forall i :: 0 <= i < |Shape| ==> OutcomeOf(Shape[i], d).Valid?) <==> FieldRulesHold(d)
  {
    if forall i :: 0 <= i < |Shape| ==> OutcomeOf(Shape[i], d).Valid? {
      ValidFieldsMeetRules(d);
    }
    if FieldRulesHold(d) {
      RulesMakeFieldsValid(d);
    }
  }

  lemma ValidFieldsMeetRules(d: map<string, string>)
    requires forall i :: 0 <= i < |Shape| ==> OutcomeOf(Shape[i], d).Valid?
    ensures FieldRulesHold(d)
  {
    assert Shape[3].check.options == [PgValue, HomeValue];
    assert OutcomeOf(Shape[0], d).Valid? && OutcomeOf(Shape[1], d).Valid?;
    assert OutcomeOf(Shape[2], d).Valid? && OutcomeOf(Shape[3], d).Valid?;
    assert OutcomeOf(Shape[4], d).Valid? && OutcomeOf(Shape[5], d).Valid?;
    assert OutcomeOf(Shape[6], d).Valid? && OutcomeOf(Shape[7], d).Valid?;
    assert OutcomeOf(Shape[8], d).Valid? && OutcomeOf(Shape[9], d).Valid?;
    assert OutcomeOf(Shape[10], d).Valid? && OutcomeOf(Shape[11], d).Valid?;
    assert OutcomeOf(Shape[12], d).Valid? && OutcomeOf(Shape[13], d).Valid?;
  }

  lemma RulesMakeFieldsValid(d: map<string, string>)
    requires FieldRulesHold(d)
    ensures forall i :: 0 <= i < |Shape| ==> OutcomeOf(Shape[i], d).Valid?
  {
    assert Shape[3].check.options == [PgValue, HomeValue];
    forall i | 0 <= i < |Shape|
      ensures OutcomeOf(Shape[i], d).Valid?
    {
    }
  }

  /** The schema accepts a draft exactly when it meets every per-field rule
      and the cross-field requirement. */
  lemma ValidateAcceptsExactly(draft: map<string, string>)
    ensures Validate(draft).Success? <==> Acceptable(draft)
  {
    if FieldRulesHold(draft) {
      RulesHoldThenCrossFieldDecides(draft);
    } else {
      RuleBrokenRejected(draft);
    }
  }

  /** Once every field rule holds, the cross-field requirement alone decides. */
  lemma RulesHoldThenCrossFieldDecides(draft: map<string, string>)
    requires FieldRulesHold(draft)
    ensures Validate(draft).Success? <==> CrossFieldHolds(draft)
  {
    ShapeIssuesEmpty(Shape, draft);
    ShapeRules(draft);
    ValidShapeDoesNotAbort(Shape, draft);
    var data := Strip(draft);
    assert PlaceOfLiving in data && PgFields <= FormFields;
    if Lookup(draft, PlaceOfLiving) == Some(PgValue) {
      assert CrossField(data).passed <==> PgFields <= draft.Keys;
    }
  }

  /** A broken field rule always rejects the draft. */
  lemma RuleBrokenRejected(draft: map<string, string>)
    requires !FieldRulesHold(draft)
    ensures Validate(draft).Failure?
  {
    ShapeRules(draft);
    var i :| 0 <= i < |Shape| && !OutcomeOf(Shape[i], draft).Valid?;
    FieldFailureReported(draft, i);
  }

  /** Every field that fails its rule gets its own message in the rejection. */
  lemma FieldFailureReported(draft: map<string, string>, i: int)
    requires 0 <= i < |Shape| && !OutcomeOf(Shape[i], draft).Valid?
    ensures Validate(draft).Failure?
    ensures OutcomeOf(Shape[i], draft).issue in Validate(draft).error
  {
    ShapeIssueReported(Shape, draft, i);
  }

  /** A field list none of whose fields aborts does not abort. */
  lemma {:induction false} NoAbortingField(shape: seq<FieldSpec>, draft: map<string, string>)
    requires forall i :: 0 <= i < |shape| ==> !OutcomeOf(shape[i], draft).Aborted?
    ensures !ShapeAborts(shape, draft)
  {
    if |shape| > 0 {
      assert !OutcomeOf(shape[0], draft).Aborted?;
      assert forall i :: 0 <= i < |shape[1..]| ==> shape[1..][i] == shape[i + 1];
      NoAbortingField(shape[1..], draft);
    }
  }

  /** With `student_code`, `name` and `mobile` present and `place_of_living`
      an offered value, no field aborts the object: length failures only
      record issues. */
  lemma RequiredPresentDoesNotAbort(draft: map<string, string>)
    requires StudentCode in draft && Name in draft && Mobile in draft
    requires Lookup(draft, PlaceOfLiving) == Some(PgValue) || Lookup(draft, PlaceOfLiving) == Some(HomeValue)
    ensures !ShapeAborts(Shape, draft)
  {
    assert Shape[3].check.options == [PgValue, HomeValue];
    forall i | 0 <= i < |Shape|
      ensures !OutcomeOf(Shape[i], draft).Aborted?
    {
    }
    NoAbortingField(Shape, draft);
  }

  /** The cross-field rule runs even when field rules fail: a pg draft whose
      required fields are present but which lacks a truthy pg field is
      rejected, and its last issue is the cross-field message under
      `student_code`, after whatever length issues the fields raised. */
  lemma PgCrossFieldDespiteFieldFailures(draft: map<string, string>)
    requires StudentCode in draft && Name in draft && Mobile in draft
    requires Lookup(draft, PlaceOfLiving) == Some(PgValue)
    requires !(forall k :: k in PgFields ==> k in draft && |draft[k]| > 0)
    ensures Validate(draft).Failure?
    ensures Validate(draft).error[|Validate(draft).error| - 1] == Issue(StudentCode, CrossFieldMessage)
  {
    RequiredPresentDoesNotAbort(draft);
    var data := Strip(draft);
    assert Lookup(data, PlaceOfLiving) == Some(PgValue);
    assert PgFields <= FormFields;
    assert !CrossField(data).passed;
  }

  /** A pg draft with a one-letter name and an empty `pg_address` is
      rejected with the name's length issue and, after it, the cross-field
      issue. */
  lemma ShortNameEmptyPgAddressExample()
    ensures Validate(ShortNamePgDraft).Failure?
    ensures Issue(Name, "Name must be atleast 2 characters long.") in Validate(ShortNamePgDraft).error
    ensures Issue(StudentCode, CrossFieldMessage) in Validate(ShortNamePgDraft).error
  {
    PgCrossFieldDespiteFieldFailures(ShortNamePgDraft);
    assert !OutcomeOf(Shape[1], ShortNamePgDraft).Valid?;
    FieldFailureReported(ShortNamePgDraft, 1);
  }

  const ShortNamePgDraft: map<string, string> := map[
    StudentCode := "406", Name := "J", Mobile := "9876543210", PlaceOfLiving := "pg", PgAddress := ""]

  /** A pg draft that passes every per-field rule but lacks a pg field is
      rejected with the single cross-field message, under `student_code`. */
  lemma PgMissingFieldReported(draft: map<string, string>)
    requires FieldRulesHold(draft)
    requires Lookup(draft, PlaceOfLiving) == Some(PgValue)
    requires !(PgFields <= draft.Keys)
    ensures Validate(draft) == Failure([Issue(StudentCode, CrossFieldMessage)])
  {
    ShapeRules(draft);
    ShapeIssuesEmpty(Shape, draft);
    ValidShapeDoesNotAbort(Shape, draft);
    assert ShapeIssues(Shape, draft) == [];
    assert PgFields <= FormFields;
    assert !CrossField(Strip(draft)).passed;
    assert [] + [Issue(StudentCode, CrossFieldMessage)] == [Issue(StudentCode, CrossFieldMessage)];
  }

  /** In the home branch the cross-field rule never rejects: a home draft
      that passes the per-field rules is accepted even without any home
      field, and `home_address` then records each missing part as
      "undefined". */
  lemma HomeBranchNeverFails(draft: map<string, string>)
    requires FieldRulesHold(draft)
    requires Lookup(draft, PlaceOfLiving) == Some(HomeValue)
    ensures Validate(draft).Success?
    ensures Validate(draft).value[HomeAddress] == ComposeHomeAddress(draft)
    ensures HomeFields !! draft.Keys ==>
      Validate(draft).value[HomeAddress]
      == "Address: undefined, PS: undefined, PIN: undefined, State: undefined, District: undefined"
  {
    ValidateAcceptsExactly(draft);
    if HomeFields !! draft.Keys {
      MissingPartsComposed(draft);
    }
  }

  lemma MissingPartsComposed(data: map<string, string>)
    requires HomeFields !! data.Keys
    ensures ComposeHomeAddress(data)
      == "Address: undefined, PS: undefined, PIN: undefined, State: undefined, District: undefined"
  {
    assert Lookup(data, HomeAddress) == None && Lookup(data, HomePs) == None;
    assert Lookup(data, HomePin) == None && Lookup(data, HomeState) == None;
    assert Lookup(data, HomeDistrict) == None;
    UndefinedAddressText();
  }

  /** The all-"undefined" address, joined one literal step at a time (each
      step in its own lemma keeps the string reasoning small). */
  lemma UndefinedAddressText()
    ensures "Address: " + "undefined" + ", PS: " + "undefined" + ", PIN: " + "undefined"
      + ", State: " + "undefined" + ", District: " + "undefined"
      == "Address: undefined, PS: undefined, PIN: undefined, State: undefined, District: undefined"
  {
    UndefinedAddressHead();
    UndefinedAddressState();
    UndefinedAddressDistrict();
  }

  lemma UndefinedAddressHead()
    ensures "Address: " + "undefined" + ", PS: " + "undefined" + ", PIN: " + "undefined"
      == "Address: undefined, PS: undefined, PIN: undefined"
  {
    assert "Address: " + "undefined" + ", PS: " + "undefined" == "Address: undefined, PS: undefined";
  }

  lemma UndefinedAddressState()
    ensures "Address: undefined, PS: undefined, PIN: undefined" + ", State: " + "undefined"
      == "Address: undefined, PS: undefined, PIN: undefined, State: undefined"
  {
  }

  lemma UndefinedAddressDistrict()
    ensures "Address: undefined, PS: undefined, PIN: undefined, State: undefined" + ", District: " + "undefined"
      == "Address: undefined, PS: undefined, PIN: undefined, State: undefined, District: undefined"
  {
  }

  /** With every home part present, the composed address carries exactly
      the entered values. */
  lemma HomeAddressComposed(draft: map<string, string>)
    requires Acceptable(draft)
    requires Lookup(draft, PlaceOfLiving) == Some(HomeValue)
    requires HomeFields <= draft.Keys
    ensures Validate(draft).Success?
    ensures Validate(draft).value[HomeAddress]
      == "Address: " + draft[HomeAddress] + ", PS: " + draft[HomePs] + ", PIN: " + draft[HomePin]
         + ", State: " + draft[HomeState] + ", District: " + draft[HomeDistrict]
  {
    ValidateAcceptsExactly(draft);
  }

  /** The empty form the page starts from and resets to. */
  const EmptyForm: map<string, string> := map[StudentCode := "", Name := "", Mobile := ""]

  /** The empty form is rejected with one message for each of the four
      required fields, in field order. */
  lemma EmptyFormRejected()
    ensures Validate(EmptyForm) == Failure([
      Issue(StudentCode, "Must be exactly 3 characters long."),
      Issue(Name, "Name must be atleast 2 characters long."),
      Issue(Mobile, "Mobile number must be exactly 10 characters long."),
      Issue(PlaceOfLiving, "You need to select yout residental details.")])
  {
    EmptyFormIssues();
    assert OutcomeOf(Shape[3], EmptyForm).Aborted?;
    AbortingFieldAborts(Shape, EmptyForm, 3);
  }

  lemma EmptyFormIssues()
    ensures ShapeIssues(Shape, EmptyForm) == [
      Issue(StudentCode, "Must be exactly 3 characters long."),
      Issue(Name, "Name must be atleast 2 characters long."),
      Issue(Mobile, "Mobile number must be exactly 10 characters long."),
      Issue(PlaceOfLiving, "You need to select yout residental details.")]
  {
    assert Shape == Shape[..4] + Shape[4..];
    ShapeIssuesAppend(Shape[..4], Shape[4..], EmptyForm);
    EmptyFormHeadIssues();
    EmptyFormTailIssues();
  }

  lemma EmptyFormHeadIssues()
    ensures ShapeIssues(Shape[..4], EmptyForm) == [
      Issue(StudentCode, "Must be exactly 3 characters long."),
      Issue(Name, "Name must be atleast 2 characters long."),
      Issue(Mobile, "Mobile number must be exactly 10 characters long."),
      Issue(PlaceOfLiving, "You need to select yout residental details.")]
  {
    var d := EmptyForm;
    assert Shape[..4] == [Shape[0]] + [Shape[1]] + [Shape[2]] + [Shape[3]];
    ShapeIssuesAppend([Shape[0]] + [Shape[1]] + [Shape[2]], [Shape[3]], d);
    ShapeIssuesAppend([Shape[0]] + [Shape[1]], [Shape[2]], d);
    ShapeIssuesAppend([Shape[0]], [Shape[1]], d);
    assert ShapeIssues([Shape[0]], d) == [Issue(StudentCode, "Must be exactly 3 characters long.")];
    assert ShapeIssues([Shape[1]], d) == [Issue(Name, "Name must be atleast 2 characters long.")];
    assert ShapeIssues([Shape[2]], d) == [Issue(Mobile, "Mobile number must be exactly 10 characters long.")];
    assert ShapeIssues([Shape[3]], d) == [Issue(PlaceOfLiving, "You need to select yout residental details.")];
  }

  lemma EmptyFormTailIssues()
    ensures ShapeIssues(Shape[4..], EmptyForm) == []
  {
    var tail := Shape[4..];
    forall i | 0 <= i < |tail|
      ensures OutcomeOf(tail[i], EmptyForm).Valid?
    {
      assert tail[i] == Shape[i + 4];
    }
    ShapeIssuesEmpty(tail, EmptyForm);
  }

  lemma {:induction false} ShapeIssuesAppend(a: seq<FieldSpec>, b: seq<FieldSpec>, draft: map<string, string>)
    ensures ShapeIssues(a + b, draft) == ShapeIssues(a, draft) + ShapeIssues(b, draft)
  {
    if |a| == 1 {
      assert (a + b)[1..] == b;
      assert ShapeIssues(a, draft) == IssuesOf(OutcomeOf(a[0], draft)) + ShapeIssues([], draft);
    } else if |a| > 0 {
      assert (a + b)[1..] == a[1..] + b;
      ShapeIssuesAppend(a[1..], b, draft);
    } else {
      assert a + b == b;
    }
  }

  lemma {:induction false} AbortingFieldAborts(shape: seq<FieldSpec>, draft: map<string, string>, i: int)
    requires 0 <= i < |shape| && OutcomeOf(shape[i], draft).Aborted?
    ensures ShapeAborts(shape, draft)
  {
    if i > 0 {
      assert shape[i] == shape[1..][i - 1];
      AbortingFieldAborts(shape[1..], draft, i - 1);
    }
  }
}
