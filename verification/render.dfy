/** Which form inputs are on screen for the current `place_of_living`
    value (`None` before the radio group has been touched). */
module Render {
  import opened Wrappers
  import opened Text
  import opened Fields

  /** Whether the input named `itemName` is on screen.  Only a name that
      mentions a branch can ever be hidden. */
  function ShouldRender(placeOfLiving: Option<string>, itemName: string): (shown: bool)
    ensures !Contains(itemName, HomeValue) && !Contains(itemName, PgValue) ==> shown
  {
    StartsWithContains(itemName, HomeValue);
    StartsWithContains(itemName, PgValue);
    if placeOfLiving == Some(HomeValue) && Contains(itemName, PgValue) then false
    else if placeOfLiving == Some(PgValue) && Contains(itemName, HomeValue) then false
    else if placeOfLiving.None? && (StartsWith(itemName, HomeValue) || StartsWith(itemName, PgValue)) then false
    else true
  }

  /** The form inputs shown for a `place_of_living` value. */
  function VisibleFields(placeOfLiving: Option<string>): set<string>
  {
    set n | n in FormFields && ShouldRender(placeOfLiving, n)
  }

  /** A `home…` name that does not mention "pg" is on screen exactly when
      a branch has been chosen and it is not pg. */
  lemma HomeNameShownUnlessPg(placeOfLiving: Option<string>, itemName: string)
    requires StartsWith(itemName, HomeValue) && !Contains(itemName, PgValue)
    ensures ShouldRender(placeOfLiving, itemName) <==> placeOfLiving.Some? && placeOfLiving.value != PgValue
  {
    StartsWithContains(itemName, HomeValue);
  }

  /** A `pg…` name that does not mention "home" is on screen exactly when
      a branch has been chosen and it is not home. */
  lemma PgNameShownUnlessHome(placeOfLiving: Option<string>, itemName: string)
    requires StartsWith(itemName, PgValue) && !Contains(itemName, HomeValue)
    ensures ShouldRender(placeOfLiving, itemName) <==> placeOfLiving.Some? && placeOfLiving.value != HomeValue
  {
    StartsWithContains(itemName, PgValue);
  }

  /** No core field name mentions either branch. */
  lemma CoreNameFacts()
    ensures forall n :: n in CoreFields ==>
      !Contains(n, HomeValue) && !Contains(n, PgValue) && !StartsWith(n, HomeValue) && !StartsWith(n, PgValue)
  {
    forall n | n in CoreFields
      ensures !Contains(n, HomeValue) && !Contains(n, PgValue)
      ensures !StartsWith(n, HomeValue) && !StartsWith(n, PgValue)
    {
      NotContainsByPair(n, HomeValue);
      NotContainsByPair(n, PgValue);
      StartsWithContains(n, HomeValue);
      StartsWithContains(n, PgValue);
    }
  }

  /** Every home field name starts with "home" and does not mention "pg". */
  lemma HomeNameFacts()
    ensures forall n :: n in HomeFields ==>
      StartsWith(n, HomeValue) && Contains(n, HomeValue) && !Contains(n, PgValue) && !StartsWith(n, PgValue)
  {
    forall n | n in HomeFields
      ensures StartsWith(n, HomeValue) && Contains(n, HomeValue)
      ensures !Contains(n, PgValue) && !StartsWith(n, PgValue)
    {
      NotContainsByPair(n, PgValue);
      StartsWithContains(n, HomeValue);
      StartsWithContains(n, PgValue);
    }
  }

  /** Every pg field name starts with "pg" and does not mention "home". */
  lemma PgNameFacts()
    ensures forall n :: n in PgFields ==>
      StartsWith(n, PgValue) && Contains(n, PgValue) && !Contains(n, HomeValue) && !StartsWith(n, HomeValue)
  {
    forall n | n in PgFields
      ensures StartsWith(n, PgValue) && Contains(n, PgValue)
      ensures !Contains(n, HomeValue) && !StartsWith(n, HomeValue)
    {
      NotContainsByPair(n, HomeValue);
      StartsWithContains(n, PgValue);
      StartsWithContains(n, HomeValue);
    }
  }

  /** `student_code`, `name`, `mobile` and `place_of_living` are shown
      whatever `place_of_living` holds. */
  lemma CoreFieldsAlwaysShown(placeOfLiving: Option<string>, itemName: string)
    requires itemName in CoreFields
    ensures ShouldRender(placeOfLiving, itemName)
  {
    CoreNameFacts();
  }

  /** The form shows the four core inputs before a choice, and adds exactly
      the chosen branch's five inputs once a branch is chosen. */
  lemma VisibleFieldsByBranch()
    ensures VisibleFields(None) == CoreFields
    ensures VisibleFields(Some(HomeValue)) == CoreFields + HomeFields
    ensures VisibleFields(Some(PgValue)) == CoreFields + PgFields
  {
    CoreNameFacts();
    HomeNameFacts();
    PgNameFacts();
  }
}
