/** The field names of the data-collection form, the residence branch that
    `place_of_living` selects, and the field sets the rest of the model
    refers to. */
module Fields {
  import opened Wrappers

  const StudentCode := "student_code"
  const Name := "name"
  const Mobile := "mobile"
  const PlaceOfLiving := "place_of_living"
  const HomeAddress := "home_address"
  const HomePs := "home_ps"
  const HomePin := "home_pin"
  const HomeState := "home_state"
  const HomeDistrict := "home_district"
  const PgAddress := "pg_address"
  const PgName := "pg_name"
  const PgLandmark := "pg_landmark"
  const PgOwnerMobile := "pg_owner_mobile"
  const PgOwnerName := "pg_owner_name"

  /** The two values the `place_of_living` radio group offers. */
  const HomeValue := "home"
  const PgValue := "pg"

  /** Which residence branch a record is in; `Unset` when `place_of_living`
      is missing or holds neither offered value. */
  datatype Branch = Home | Pg | Unset

  function BranchOf(placeOfLiving: Option<string>): (b: Branch)
    ensures b == Home <==> placeOfLiving == Some(HomeValue)
    ensures b == Pg <==> placeOfLiving == Some(PgValue)
  {
    match placeOfLiving
    case Some(v) => if v == HomeValue then Home else if v == PgValue then Pg else Unset
    case None => Unset
  }

  /** Fields every branch has. */
  const CoreFields: set<string> := {StudentCode, Name, Mobile, PlaceOfLiving}

  /** The five home-branch inputs of the form. */
  const HomeFields: set<string> := {HomeAddress, HomePs, HomePin, HomeState, HomeDistrict}

  /** The home inputs that validation folds into `home_address`. */
  const HomeParts: set<string> := {HomePs, HomePin, HomeState, HomeDistrict}

  /** The five pg-branch inputs of the form. */
  const PgFields: set<string> := {PgAddress, PgName, PgLandmark, PgOwnerMobile, PgOwnerName}

  /** Every field the form shows and the validation schema knows. */
  const FormFields: set<string> := CoreFields + HomeFields + PgFields

  /** The fields of the persisted record's declaration. */
  const StoredFields: set<string> := CoreFields + {HomeAddress} + PgFields

  /** The persisted fields declared `required: true`. */
  const RequiredStoredFields: set<string> := CoreFields
}
