/** The persisted record: the fields of the stored document, written as a
    tagged union over the two residence branches, and its conversion to and
    from the flat document the database stores. */
module Records {
  import opened Wrappers
  import opened Fields

  datatype Residence =
    | AtHome(address: string)
    | AtPg(address: string, pgName: string, landmark: string, ownerMobile: string, ownerName: string)

  datatype StoredRecord = StoredRecord(studentCode: string, name: string, mobile: string, residence: Residence)

  /** The document matches the declared record: the required fields are
      there and nothing undeclared is. */
  predicate ConformsToStoredShape(doc: map<string, string>)
  {
    RequiredStoredFields <= doc.Keys <= StoredFields
  }

  /** Exactly one residence branch is present, with all of its fields, and
      none of the other branch's. */
  predicate OneBranch(doc: map<string, string>)
  {
    || (HomeAddress in doc && PgFields !! doc.Keys)
    || (HomeAddress !in doc && PgFields <= doc.Keys)
  }

  /** `place_of_living` names the branch the document holds: "home" exactly
      when `home_address` is present, and "pg" otherwise. */
  predicate NamesItsBranch(doc: map<string, string>)
    requires PlaceOfLiving in doc
  {
    && (doc[PlaceOfLiving] == HomeValue <==> HomeAddress in doc)
    && (doc[PlaceOfLiving] == HomeValue || doc[PlaceOfLiving] == PgValue)
  }

  /** The flat document of a record. */
  function Document(rec: StoredRecord): (doc: map<string, string>)
    ensures ConformsToStoredShape(doc) && OneBranch(doc) && NamesItsBranch(doc)
    ensures doc[StudentCode] == rec.studentCode && doc[Name] == rec.name && doc[Mobile] == rec.mobile
    ensures rec.residence.AtHome? <==> doc[PlaceOfLiving] == HomeValue
    ensures rec.residence.AtPg? <==> doc[PlaceOfLiving] == PgValue
    ensures rec.residence.AtHome? ==>
      doc.Keys == CoreFields + {HomeAddress} && doc[HomeAddress] == rec.residence.address
    ensures rec.residence.AtPg? ==>
      && doc.Keys == CoreFields + PgFields
      && doc[PgAddress] == rec.residence.address && doc[PgName] == rec.residence.pgName
      && doc[PgLandmark] == rec.residence.landmark && doc[PgOwnerMobile] == rec.residence.ownerMobile
      && doc[PgOwnerName] == rec.residence.ownerName
  {
    var core := map[StudentCode := rec.studentCode, Name := rec.name, Mobile := rec.mobile];
    match rec.residence
    case AtHome(address) =>
      core[PlaceOfLiving := HomeValue][HomeAddress := address]
    case AtPg(address, pgName, landmark, ownerMobile, ownerName) =>
      core[PlaceOfLiving := PgValue][PgAddress := address][PgName := pgName][PgLandmark := landmark]
        [PgOwnerMobile := ownerMobile][PgOwnerName := ownerName]
  }

  /** Reads a record back from a flat document; `None` when a field its
      branch needs is missing. */
  function RecordOf(doc: map<string, string>): (r: Option<StoredRecord>)
    ensures r.Some? ==> RequiredStoredFields <= doc.Keys
  {
    if !(RequiredStoredFields <= doc.Keys) then None
    else if doc[PlaceOfLiving] == HomeValue && HomeAddress in doc then
      Some(StoredRecord(doc[StudentCode], doc[Name], doc[Mobile], AtHome(doc[HomeAddress])))
    else if doc[PlaceOfLiving] == PgValue && PgFields <= doc.Keys then
      Some(StoredRecord(doc[StudentCode], doc[Name], doc[Mobile],
        AtPg(doc[PgAddress], doc[PgName], doc[PgLandmark], doc[PgOwnerMobile], doc[PgOwnerName])))
    else None
  }

  /** A stored document reads back as the record it was written from. */
  lemma DocumentRoundTrip(rec: StoredRecord)
    ensures RecordOf(Document(rec)) == Some(rec)
  {
  }

  /** A conforming one-branch document whose `place_of_living` names its
      branch is the document of the record it reads back as. */
  lemma RecordOfRoundTrip(doc: map<string, string>)
    requires ConformsToStoredShape(doc) && OneBranch(doc) && NamesItsBranch(doc)
    ensures RecordOf(doc).Some? && Document(RecordOf(doc).value) == doc
  {
    var d := Document(RecordOf(doc).value);
    assert d.Keys == doc.Keys;
  }
}
