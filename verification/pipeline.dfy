/** The submit path (validate, then normalise, then post the payload) and
    the student-code existence check, which must ask about the same
    canonical code that a submit would store. */
module Pipeline {
  import opened Wrappers
  import opened Text
  import opened Fields
  import opened Schema
  import opened Filter
  import opened Records
  import opened Render

  /** The payload a submit posts for a draft, or the issues that keep the
      submit from happening. */
  function SubmitPayload(draft: map<string, string>): (r: Result<map<string, string>, seq<Issue>>)
    ensures r.Success? <==> Acceptable(draft)
    ensures r.Failure? ==> |r.error| > 0
  {
    ValidateAcceptsExactly(draft);
    match Validate(draft)
    case Success(data) => Success(FilterData(data))
    case Failure(issues) => Failure(issues)
  }

  /** The draft carries the fields its record is built from. */
  predicate HasRecordFields(draft: map<string, string>)
  {
    CoreFields <= draft.Keys && (draft[PlaceOfLiving] == HomeValue || PgFields <= draft.Keys)
  }

  /** The record an accepted draft should be stored as, built directly per
      branch: the prefixed code, name and mobile, and either the composed
      home address or the five pg fields. */
  function PersistedRecord(draft: map<string, string>): StoredRecord
    requires HasRecordFields(draft)
  {
    var residence :=
      if draft[PlaceOfLiving] == HomeValue then AtHome(ComposeHomeAddress(draft))
      else AtPg(draft[PgAddress], draft[PgName], draft[PgLandmark], draft[PgOwnerMobile], draft[PgOwnerName]);
    StoredRecord(CodePrefix + draft[StudentCode], draft[Name], draft[Mobile], residence)
  }

  /** Validating and filtering an accepted draft yields exactly the stored
      document of its per-branch record. */
  lemma SubmitBuildsRecord(draft: map<string, string>)
    requires Acceptable(draft)
    ensures SubmitPayload(draft) == Success(Document(PersistedRecord(draft)))
  {
    if draft[PlaceOfLiving] == HomeValue {
      HomeSubmitBuildsRecord(draft);
    } else {
      PgSubmitBuildsRecord(draft);
    }
  }

  lemma HomeSubmitBuildsRecord(draft: map<string, string>)
    requires Acceptable(draft) && draft[PlaceOfLiving] == HomeValue
    ensures SubmitPayload(draft) == Success(Document(PersistedRecord(draft)))
  {
    ValidateAcceptsExactly(draft);
    var data := Validate(draft).value;
    ValidatedHomeData(draft);
    HomeFilterMatchesRecord(draft, data);
  }

  /** What validation leaves for an accepted home draft. */
  lemma ValidatedHomeData(draft: map<string, string>)
    requires Acceptable(draft) && draft[PlaceOfLiving] == HomeValue
    ensures Validate(draft).Success?
    ensures CoreFields + {HomeAddress} <= Validate(draft).value.Keys <= FormFields
    ensures forall k :: k in Validate(draft).value && k != HomeAddress ==>
      k in draft && Validate(draft).value[k] == draft[k]
    ensures Validate(draft).value[HomeAddress] == ComposeHomeAddress(draft)
  {
    ValidateAcceptsExactly(draft);
    AcceptedKeys(draft);
    KeptFields(draft, Validate(draft).value, CoreFields);
  }

  lemma PgSubmitBuildsRecord(draft: map<string, string>)
    requires Acceptable(draft) && draft[PlaceOfLiving] == PgValue
    ensures SubmitPayload(draft) == Success(Document(PersistedRecord(draft)))
  {
    ValidateAcceptsExactly(draft);
    var data := Validate(draft).value;
    ValidatedPgData(draft);
    PgFilterMatchesRecord(draft, data);
  }

  /** What validation leaves for an accepted pg draft. */
  lemma ValidatedPgData(draft: map<string, string>)
    requires Acceptable(draft) && draft[PlaceOfLiving] == PgValue
    ensures Validate(draft).Success?
    ensures CoreFields + PgFields <= Validate(draft).value.Keys <= FormFields
    ensures forall k :: k in Validate(draft).value && k != HomeAddress ==>
      k in draft && Validate(draft).value[k] == draft[k]
  {
    ValidateAcceptsExactly(draft);
    AcceptedKeys(draft);
    KeptFields(draft, Validate(draft).value, CoreFields + PgFields);
  }

  /** An acceptable draft carries the core fields, and the pg fields too
      when it chose pg. */
  lemma AcceptedKeys(draft: map<string, string>)
    requires Acceptable(draft)
    ensures CoreFields <= draft.Keys
    ensures draft[PlaceOfLiving] == PgValue ==> PgFields <= draft.Keys
  {
  }

  /** Declared fields of the draft survive into data that keeps them all. */
  lemma KeptFields(draft: map<string, string>, data: map<string, string>, s: set<string>)
    requires s <= draft.Keys && s <= FormFields
    requires forall k :: k in draft && k in FormFields ==> k in data
    ensures s <= data.Keys
  {
  }

  /** Filtering the validated home data gives the home record's document. */
  lemma HomeFilterMatchesRecord(draft: map<string, string>, data: map<string, string>)
    requires HasRecordFields(draft) && draft[PlaceOfLiving] == HomeValue
    requires CoreFields + {HomeAddress} <= data.Keys <= FormFields
    requires forall k :: k in data && k != HomeAddress ==> k in draft && data[k] == draft[k]
    requires data[HomeAddress] == ComposeHomeAddress(draft)
    ensures FilterData(data) == Document(PersistedRecord(draft))
  {
    var rec := PersistedRecord(draft);
    assert rec.residence == AtHome(data[HomeAddress]);
    assert data[StudentCode] == draft[StudentCode] && data[Name] == draft[Name] && data[Mobile] == draft[Mobile];
    assert data[PlaceOfLiving] == draft[PlaceOfLiving];
    HomeFilterIsDocument(data, rec);
  }

  /** Filtering home data gives the document of the home record holding the
      same values. */
  lemma HomeFilterIsDocument(data: map<string, string>, rec: StoredRecord)
    requires Lookup(data, PlaceOfLiving) == Some(HomeValue)
    requires CoreFields + {HomeAddress} <= data.Keys <= FormFields
    requires rec.studentCode == CodePrefix + data[StudentCode] && rec.name == data[Name] && rec.mobile == data[Mobile]
    requires rec.residence == AtHome(data[HomeAddress])
    ensures FilterData(data) == Document(rec)
  {
    FilterKeepsHomeFields(data);
    HomeDocumentValues(data, rec);
    HomeMapsAgree(FilterData(data), Document(rec));
  }

  /** Two maps over the home document's keys that agree on each key are equal. */
  lemma HomeMapsAgree(a: map<string, string>, b: map<string, string>)
    requires a.Keys == CoreFields + {HomeAddress} && b.Keys == CoreFields + {HomeAddress}
    requires a[StudentCode] == b[StudentCode]
    requires a[Name] == b[Name]
    requires a[Mobile] == b[Mobile]
    requires a[PlaceOfLiving] == b[PlaceOfLiving]
    requires a[HomeAddress] == b[HomeAddress]
    ensures a == b
  {
    forall k | k in a
      ensures a[k] == b[k]
    {
      assert k in CoreFields || k == HomeAddress;
    }
  }

  lemma HomeDocumentValues(data: map<string, string>, rec: StoredRecord)
    requires Lookup(data, PlaceOfLiving) == Some(HomeValue)
    requires FilterData(data).Keys == CoreFields + {HomeAddress}
    requires CoreFields + {HomeAddress} <= data.Keys
    requires rec.studentCode == CodePrefix + data[StudentCode] && rec.name == data[Name] && rec.mobile == data[Mobile]
    requires rec.residence == AtHome(data[HomeAddress])
    ensures FilterData(data)[StudentCode] == Document(rec)[StudentCode]
    ensures FilterData(data)[Name] == Document(rec)[Name]
    ensures FilterData(data)[Mobile] == Document(rec)[Mobile]
    ensures FilterData(data)[PlaceOfLiving] == Document(rec)[PlaceOfLiving]
    ensures FilterData(data)[HomeAddress] == Document(rec)[HomeAddress]
  {
  }

  /** Filtering the validated pg data gives the pg record's document. */
  lemma PgFilterMatchesRecord(draft: map<string, string>, data: map<string, string>)
    requires HasRecordFields(draft) && draft[PlaceOfLiving] == PgValue
    requires CoreFields + PgFields <= data.Keys <= FormFields
    requires forall k :: k in data && k != HomeAddress ==> k in draft && data[k] == draft[k]
    ensures FilterData(data) == Document(PersistedRecord(draft))
  {
    var rec := PersistedRecord(draft);
    assert rec.residence == AtPg(draft[PgAddress], draft[PgName], draft[PgLandmark], draft[PgOwnerMobile], draft[PgOwnerName]);
    assert data[StudentCode] == draft[StudentCode] && data[Name] == draft[Name] && data[Mobile] == draft[Mobile];
    assert data[PlaceOfLiving] == draft[PlaceOfLiving];
    assert data[PgAddress] == draft[PgAddress] && data[PgName] == draft[PgName] && data[PgLandmark] == draft[PgLandmark];
    assert data[PgOwnerMobile] == draft[PgOwnerMobile] && data[PgOwnerName] == draft[PgOwnerName];
    PgFilterIsDocument(data, rec);
  }

  /** Filtering pg data gives the document of the pg record holding the
      same values. */
  lemma PgFilterIsDocument(data: map<string, string>, rec: StoredRecord)
    requires Lookup(data, PlaceOfLiving) == Some(PgValue)
    requires CoreFields + PgFields <= data.Keys <= FormFields
    requires rec.studentCode == CodePrefix + data[StudentCode] && rec.name == data[Name] && rec.mobile == data[Mobile]
    requires rec.residence == AtPg(data[PgAddress], data[PgName], data[PgLandmark], data[PgOwnerMobile], data[PgOwnerName])
    ensures FilterData(data) == Document(rec)
  {
    FilterKeepsPgFields(data);
    PgCoreValues(data, rec);
    PgResidenceValues(data, rec);
    PgMapsAgree(FilterData(data), Document(rec));
  }

  /** Two maps over the pg document's keys that agree on each key are equal. */
  lemma PgMapsAgree(a: map<string, string>, b: map<string, string>)
    requires a.Keys == CoreFields + PgFields && b.Keys == CoreFields + PgFields
    requires a[StudentCode] == b[StudentCode]
    requires a[Name] == b[Name]
    requires a[Mobile] == b[Mobile]
    requires a[PlaceOfLiving] == b[PlaceOfLiving]
    requires a[PgAddress] == b[PgAddress]
    requires a[PgName] == b[PgName]
    requires a[PgLandmark] == b[PgLandmark]
    requires a[PgOwnerMobile] == b[PgOwnerMobile]
    requires a[PgOwnerName] == b[PgOwnerName]
    ensures a == b
  {
    forall k | k in a
      ensures a[k] == b[k]
    {
      assert k in CoreFields || k in PgFields;
    }
  }

  lemma PgCoreValues(data: map<string, string>, rec: StoredRecord)
    requires Lookup(data, PlaceOfLiving) == Some(PgValue)
    requires FilterData(data).Keys == CoreFields + PgFields
    requires CoreFields <= data.Keys
    requires rec.studentCode == CodePrefix + data[StudentCode] && rec.name == data[Name] && rec.mobile == data[Mobile]
    requires rec.residence.AtPg?
    ensures FilterData(data)[StudentCode] == Document(rec)[StudentCode]
    ensures FilterData(data)[Name] == Document(rec)[Name]
    ensures FilterData(data)[Mobile] == Document(rec)[Mobile]
    ensures FilterData(data)[PlaceOfLiving] == Document(rec)[PlaceOfLiving]
  {
  }

  lemma PgResidenceValues(data: map<string, string>, rec: StoredRecord)
    requires Lookup(data, PlaceOfLiving) == Some(PgValue)
    requires FilterData(data).Keys == CoreFields + PgFields
    requires PgFields <= data.Keys
    requires rec.residence == AtPg(data[PgAddress], data[PgName], data[PgLandmark], data[PgOwnerMobile], data[PgOwnerName])
    ensures FilterData(data)[PgAddress] == Document(rec)[PgAddress]
    ensures FilterData(data)[PgName] == Document(rec)[PgName]
    ensures FilterData(data)[PgLandmark] == Document(rec)[PgLandmark]
    ensures FilterData(data)[PgOwnerMobile] == Document(rec)[PgOwnerMobile]
    ensures FilterData(data)[PgOwnerName] == Document(rec)[PgOwnerName]
  {
  }

  /** Filtering home-branch data over the form's fields keeps the core
      fields and `home_address`, and nothing else. */
  lemma FilterKeepsHomeFields(data: map<string, string>)
    requires Lookup(data, PlaceOfLiving) == Some(HomeValue)
    requires CoreFields + {HomeAddress} <= data.Keys <= FormFields
    ensures FilterData(data).Keys == CoreFields + {HomeAddress}
  {
    var r := FilterData(data);
    CoreNameFacts();
    HomeNameFacts();
    PgNameFacts();
    forall k | k in r
      ensures k in CoreFields + {HomeAddress}
    {
      assert k in CoreFields || k in HomeFields || k in PgFields;
    }
    forall k | k in CoreFields + {HomeAddress}
      ensures k in r
    {
    }
  }

  /** Filtering pg-branch data over the form's fields keeps the core fields
      and the five pg fields, and nothing else. */
  lemma FilterKeepsPgFields(data: map<string, string>)
    requires Lookup(data, PlaceOfLiving) == Some(PgValue)
    requires CoreFields + PgFields <= data.Keys <= FormFields
    ensures FilterData(data).Keys == CoreFields + PgFields
  {
    var r := FilterData(data);
    CoreNameFacts();
    HomeNameFacts();
    PgNameFacts();
    forall k | k in r
      ensures k in CoreFields + PgFields
    {
      assert k in CoreFields || k in HomeFields || k in PgFields;
    }
    forall k | k in CoreFields + PgFields
      ensures k in r
    {
    }
  }

  /** Every accepted payload is a stored document with one residence branch
      that reads back as the draft's record. */
  lemma SubmitConforms(draft: map<string, string>)
    requires Acceptable(draft)
    ensures SubmitPayload(draft).Success? && HasRecordFields(draft)
    ensures ConformsToStoredShape(SubmitPayload(draft).value) && OneBranch(SubmitPayload(draft).value)
    ensures RecordOf(SubmitPayload(draft).value) == Some(PersistedRecord(draft))
  {
    AcceptedKeys(draft);
    SubmitBuildsRecord(draft);
    DocumentRoundTrip(PersistedRecord(draft));
  }

  /** The home payload: the core fields and the composed `home_address`,
      with no `pg…` key and none of the four folded home parts. */
  lemma HomePayload(draft: map<string, string>)
    requires Acceptable(draft) && draft[PlaceOfLiving] == HomeValue
    ensures SubmitPayload(draft).value.Keys == CoreFields + {HomeAddress}
    ensures forall k :: k in SubmitPayload(draft).value ==> !StartsWith(k, PgValue) && k !in HomeParts
    ensures SubmitPayload(draft).value[HomeAddress] == ComposeHomeAddress(draft)
    ensures forall k :: k in {Name, Mobile, PlaceOfLiving} ==> SubmitPayload(draft).value[k] == draft[k]
  {
    HomeSubmitBuildsRecord(draft);
    HomeDocumentShape(draft, SubmitPayload(draft).value);
  }

  /** The home record's document, key by key. */
  lemma HomeDocumentShape(draft: map<string, string>, doc: map<string, string>)
    requires HasRecordFields(draft) && draft[PlaceOfLiving] == HomeValue
    requires doc == Document(PersistedRecord(draft))
    ensures doc.Keys == CoreFields + {HomeAddress}
    ensures forall k :: k in doc ==> !StartsWith(k, PgValue) && k !in HomeParts
    ensures doc[HomeAddress] == ComposeHomeAddress(draft)
    ensures forall k :: k in {Name, Mobile, PlaceOfLiving} ==> doc[k] == draft[k]
  {
    CoreNameFacts();
    HomeNameFacts();
    var rec := PersistedRecord(draft);
    assert rec.residence == AtHome(ComposeHomeAddress(draft));
    assert forall k :: k in doc ==> k in CoreFields || k == HomeAddress;
  }

  /** The pg payload: the core fields and all five pg fields unchanged, with
      no `home…` key. */
  lemma PgPayload(draft: map<string, string>)
    requires Acceptable(draft) && draft[PlaceOfLiving] == PgValue
    ensures SubmitPayload(draft).value.Keys == CoreFields + PgFields
    ensures forall k :: k in SubmitPayload(draft).value ==> !StartsWith(k, HomeValue)
    ensures forall k :: k in PgFields + {Name, Mobile, PlaceOfLiving} ==> SubmitPayload(draft).value[k] == draft[k]
  {
    PgSubmitBuildsRecord(draft);
    PgDocumentShape(draft, SubmitPayload(draft).value);
  }

  /** The pg record's document, key by key. */
  lemma PgDocumentShape(draft: map<string, string>, doc: map<string, string>)
    requires HasRecordFields(draft) && draft[PlaceOfLiving] == PgValue
    requires doc == Document(PersistedRecord(draft))
    ensures doc.Keys == CoreFields + PgFields
    ensures forall k :: k in doc ==> !StartsWith(k, HomeValue)
    ensures forall k :: k in PgFields + {Name, Mobile, PlaceOfLiving} ==> doc[k] == draft[k]
  {
    PgDocumentKeys(draft, doc);
    PgDocumentValues(draft, doc);
    PgValuesAgree(draft, doc);
  }

  lemma PgDocumentKeys(draft: map<string, string>, doc: map<string, string>)
    requires HasRecordFields(draft) && draft[PlaceOfLiving] == PgValue
    requires doc == Document(PersistedRecord(draft))
    ensures doc.Keys == CoreFields + PgFields
    ensures forall k :: k in doc ==> !StartsWith(k, HomeValue)
  {
    CoreNameFacts();
    PgNameFacts();
    assert PersistedRecord(draft).residence.AtPg?;
    assert forall k :: k in doc ==> k in CoreFields || k in PgFields;
  }

  lemma PgDocumentValues(draft: map<string, string>, doc: map<string, string>)
    requires HasRecordFields(draft) && draft[PlaceOfLiving] == PgValue
    requires doc == Document(PersistedRecord(draft))
    ensures CoreFields + PgFields <= doc.Keys
    ensures doc[PgAddress] == draft[PgAddress]
    ensures doc[PgName] == draft[PgName]
    ensures doc[PgLandmark] == draft[PgLandmark]
    ensures doc[PgOwnerMobile] == draft[PgOwnerMobile]
    ensures doc[PgOwnerName] == draft[PgOwnerName]
    ensures doc[Name] == draft[Name]
    ensures doc[Mobile] == draft[Mobile]
    ensures doc[PlaceOfLiving] == draft[PlaceOfLiving]
  {
    var rec := PersistedRecord(draft);
    assert rec.residence == AtPg(draft[PgAddress], draft[PgName], draft[PgLandmark], draft[PgOwnerMobile], draft[PgOwnerName]);
  }

  /** Key-by-key agreement on the pg fields, name, mobile and residence
      choice, gathered into one statement. */
  lemma PgValuesAgree(draft: map<string, string>, doc: map<string, string>)
    requires PgFields + {Name, Mobile, PlaceOfLiving} <= draft.Keys
    requires PgFields + {Name, Mobile, PlaceOfLiving} <= doc.Keys
    requires doc[PgAddress] == draft[PgAddress]
    requires doc[PgName] == draft[PgName]
    requires doc[PgLandmark] == draft[PgLandmark]
    requires doc[PgOwnerMobile] == draft[PgOwnerMobile]
    requires doc[PgOwnerName] == draft[PgOwnerName]
    requires doc[Name] == draft[Name]
    requires doc[Mobile] == draft[Mobile]
    requires doc[PlaceOfLiving] == draft[PlaceOfLiving]
    ensures forall k :: k in PgFields + {Name, Mobile, PlaceOfLiving} ==> doc[k] == draft[k]
  {
    forall k | k in PgFields + {Name, Mobile, PlaceOfLiving}
      ensures doc[k] == draft[k]
    {
      assert k in PgFields || k in {Name, Mobile, PlaceOfLiving};
    }
  }

  /** The existence check spells the programme prefix out on its own. */
  const VerifyCodePrefix := "BWU/BCA/23/"

  /** The body of the existence-check request for the code in the input. */
  function VerifyRequestBody(studentCode: Option<string>): (body: map<string, string>)
    ensures body.Keys == {StudentCode}
    ensures StartsWith(body[StudentCode], VerifyCodePrefix)
    ensures body[StudentCode][|VerifyCodePrefix|..] == Stringify(studentCode)
  {
    map[StudentCode := VerifyCodePrefix + Stringify(studentCode)]
  }

  /** The existence check asks about the canonical code, whatever was typed. */
  lemma VerifyUsesCanonicalCode(studentCode: Option<string>)
    ensures VerifyRequestBody(studentCode)[StudentCode] == CanonicalCode(studentCode)
  {
  }

  /** For an accepted draft, the existence check asks about exactly the code
      the submit stores. */
  lemma VerifyMatchesSubmit(draft: map<string, string>)
    requires Acceptable(draft)
    ensures VerifyRequestBody(Lookup(draft, StudentCode))[StudentCode] == SubmitPayload(draft).value[StudentCode]
  {
  }

  /** Every field a submit stores was on screen for the chosen branch. */
  lemma PersistedFieldsWereShown(draft: map<string, string>)
    requires Acceptable(draft)
    ensures SubmitPayload(draft).value.Keys <= VisibleFields(Lookup(draft, PlaceOfLiving))
  {
    SubmitBuildsRecord(draft);
    VisibleFieldsByBranch();
  }

  const PgExampleDraft: map<string, string> := map[
    StudentCode := "406", Name := "Jane Doe", Mobile := "9876543210", PlaceOfLiving := "pg",
    PgAddress := "12 Lane", PgName := "Green PG", PgLandmark := "Near Mall",
    PgOwnerMobile := "9123456780", PgOwnerName := "Mr Owner"]

  /** A pg submission as a worked example: the stored record carries the
      canonical code and the five pg values as entered. */
  lemma PgSubmissionExample()
    ensures SubmitPayload(PgExampleDraft) == Success(Document(StoredRecord(
      "BWU/BCA/23/406", "Jane Doe", "9876543210",
      AtPg("12 Lane", "Green PG", "Near Mall", "9123456780", "Mr Owner"))))
  {
    PgExampleRecord();
    SubmitBuildsRecord(PgExampleDraft);
  }

  lemma PgExampleRecord()
    ensures Acceptable(PgExampleDraft)
    ensures PersistedRecord(PgExampleDraft) == StoredRecord(
      "BWU/BCA/23/406", "Jane Doe", "9876543210",
      AtPg("12 Lane", "Green PG", "Near Mall", "9123456780", "Mr Owner"))
  {
    var d := PgExampleDraft;
    assert d[StudentCode] == "406" && d[Name] == "Jane Doe" && d[Mobile] == "9876543210";
    assert d[PlaceOfLiving] == "pg" && d[PgAddress] == "12 Lane" && d[PgName] == "Green PG";
    assert d[PgLandmark] == "Near Mall" && d[PgOwnerMobile] == "9123456780" && d[PgOwnerName] == "Mr Owner";
    assert CodePrefix + "406" == "BWU/BCA/23/406";
  }

  const HomeExampleDraft: map<string, string> := map[
    StudentCode := "406", Name := "Jane Doe", Mobile := "9876543210", PlaceOfLiving := "home",
    HomeAddress := "12 St", HomePs := "Central", HomePin := "700001",
    HomeState := "WB", HomeDistrict := "Kolkata"]

  /** A home submission as a worked example: the stored address is composed
      from the five home inputs. */
  lemma HomeSubmissionExample()
    ensures SubmitPayload(HomeExampleDraft) == Success(Document(StoredRecord(
      "BWU/BCA/23/406", "Jane Doe", "9876543210",
      AtHome("Address: 12 St, PS: Central, PIN: 700001, State: WB, District: Kolkata"))))
  {
    HomeExampleRecord();
    SubmitBuildsRecord(HomeExampleDraft);
  }

  lemma HomeExampleRecord()
    ensures Acceptable(HomeExampleDraft)
    ensures PersistedRecord(HomeExampleDraft) == StoredRecord(
      "BWU/BCA/23/406", "Jane Doe", "9876543210",
      AtHome("Address: 12 St, PS: Central, PIN: 700001, State: WB, District: Kolkata"))
  {
    var d := HomeExampleDraft;
    HomeExampleAcceptable();
    assert d[StudentCode] == "406" && d[Name] == "Jane Doe" && d[Mobile] == "9876543210";
    assert d[PlaceOfLiving] == "home";
    assert CodePrefix + "406" == "BWU/BCA/23/406";
    ExampleAddress();
  }

  lemma HomeExampleAcceptable()
    ensures Acceptable(HomeExampleDraft)
  {
  }

  /** The example's address, joined one literal step at a time. */
  lemma ExampleAddress()
    ensures ComposeHomeAddress(HomeExampleDraft)
      == "Address: 12 St, PS: Central, PIN: 700001, State: WB, District: Kolkata"
  {
    var d := HomeExampleDraft;
    assert Lookup(d, HomeAddress) == Some("12 St") && Lookup(d, HomePs) == Some("Central");
    assert Lookup(d, HomePin) == Some("700001") && Lookup(d, HomeState) == Some("WB");
    assert Lookup(d, HomeDistrict) == Some("Kolkata");
    ExampleAddressHead();
    ExampleAddressTail();
  }

  lemma ExampleAddressHead()
    ensures "Address: " + "12 St" + ", PS: " + "Central" + ", PIN: " + "700001"
      == "Address: 12 St, PS: Central, PIN: 700001"
  {
    assert "Address: " + "12 St" + ", PS: " + "Central" == "Address: 12 St, PS: Central";
  }

  lemma ExampleAddressTail()
    ensures "Address: 12 St, PS: Central, PIN: 700001" + ", State: " + "WB" + ", District: " + "Kolkata"
      == "Address: 12 St, PS: Central, PIN: 700001, State: WB, District: Kolkata"
  {
    assert "Address: 12 St, PS: Central, PIN: 700001" + ", State: " + "WB"
      == "Address: 12 St, PS: Central, PIN: 700001, State: WB";
  }
}
