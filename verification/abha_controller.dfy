/** The ABHA endpoints: checking that an ABHA id is well formed and belongs to a registered
    user, assembling a patient's own records into a FHIR-shaped bundle, and attaching fetched
    hospital data to a user. */
module AbhaController {
  import opened Common
  import opened JsText
  import opened Entities
  import RiskAnalysis

  // ---------------------------------------------------------------------------------------
  // Verifying an ABHA id

  datatype VerifyReply = VerifyReply(status: int, valid: bool, registered: bool, userName: Option<string>)

  /** A malformed id is refused with 400 without any lookup; a well-formed one is answered 200,
      valid and registered exactly when some user has it as ABHA id or e-mail, and then with
      the first such user's name. */
  function VerifyAbhaId(users: seq<User>, abhaId: string): (r: VerifyReply)
    ensures r.status == 400 <==> !IsUserAtDomain(abhaId)
    ensures r.status == 400 ==> !r.valid && !r.registered
    ensures r.status == 200 <==> IsUserAtDomain(abhaId)
    ensures r.status == 200 ==>
              (r.valid <==> exists j :: 0 <= j < |users| && (users[j].abhaId == Some(abhaId) || users[j].email == abhaId))
              && r.registered == r.valid
              && (r.valid ==> r.userName == Some(users[FindByAbhaOrEmail(users, abhaId).value].name))
  {
    AbhaFormatMeaning(abhaId);
    if !IsAbhaFormat(abhaId) then VerifyReply(400, false, false, None)
    else match FindByAbhaOrEmail(users, abhaId)
      case Some(k) => VerifyReply(200, true, true, Some(users[k].name))
      case None => VerifyReply(200, false, false, None)
  }

  // ---------------------------------------------------------------------------------------
  // The patient entry

  /** `user.name || 'Unknown Patient'`. */
  function PatientName(name: string): string {
    if name == "" then "Unknown Patient" else name
  }

  /** The first ' '-separated token, or the whole name when that token is empty. */
  function FirstName(name: string): string {
    var parts := Split(name, ' ');
    if parts[0] != "" then parts[0] else name
  }

  /** The last ' '-separated token when there are several, otherwise the whole name. */
  function LastName(name: string): string {
    var parts := Split(name, ' ');
    if |parts| > 1 then parts[|parts| - 1] else name
  }

  /** A name without spaces is both first and last name; otherwise the first name is the text
      before the first space (the whole name when it starts with one) and the last name the
      text after the last space, which is empty when the name ends with a space. */
  lemma NameSplit(name: string)
    ensures IndexOf(name, ' ').None? ==> FirstName(name) == name && LastName(name) == name
    ensures IndexOf(name, ' ').Some? ==>
              var i := IndexOf(name, ' ').value;
              FirstName(name) == (if i > 0 then name[..i] else name)
              && LastName(name) == name[LastIndexOf(name, ' ').value + 1..]
  {
    SplitFirst(name, ' ');
    SplitLast(name, ' ');
    if IndexOf(name, ' ').Some? {
      var i := IndexOf(name, ' ').value;
      assert name[i] == ' ';
      assert LastIndexOf(name, ' ').Some?;
    }
  }

  /** `demographics.age || 45`: a missing, null or zero age reads as 45. */
  function AgeOf(demographics: map<string, Json>): (a: real)
    ensures !Truthy(Field(demographics, "age")) ==> a == 45.0
    ensures Field(demographics, "age").Some? && demographics["age"].JNum? && demographics["age"].n != 0.0 ==>
              a == demographics["age"].n
  {
    NumberOr(demographics, "age", 45.0)
  }

  /** `demographics.gender?.toLowerCase() || "unknown"`. */
  function GenderOf(demographics: map<string, Json>): (g: string)
    ensures g != ""
    ensures "gender" in demographics && demographics["gender"].JStr? && demographics["gender"].s != "" ==>
              g == ToLowerAscii(demographics["gender"].s)
    ensures !("gender" in demographics && demographics["gender"].JStr? && demographics["gender"].s != "") ==>
              g == "unknown"
  {
    if "gender" in demographics && demographics["gender"].JStr? && demographics["gender"].s != "" then
      ToLowerAscii(demographics["gender"].s)
    else "unknown"
  }

  /** `isSmoker ? (smokingDuration || 'Smoker') : 'Non-Smoker'`. */
  function SmokingStatus(questionnaire: map<string, Json>): (s: string)
    ensures s != ""
    ensures !Truthy(Field(questionnaire, "isSmoker")) ==> s == "Non-Smoker"
    ensures Truthy(Field(questionnaire, "isSmoker")) ==>
              s == (if Truthy(Field(questionnaire, "smokingDuration")) && questionnaire["smokingDuration"].JStr?
                    then questionnaire["smokingDuration"].s else "Smoker")
  {
    if !Truthy(Field(questionnaire, "isSmoker")) then "Non-Smoker"
    else if "smokingDuration" in questionnaire && questionnaire["smokingDuration"].JStr?
            && questionnaire["smokingDuration"].s != "" then questionnaire["smokingDuration"].s
    else "Smoker"
  }

  /** The Patient entry: named from the account name, aged `AgeOf(demographics)` and born that
      many years before the current year. */
  function PatientEntry(user: User, demographics: map<string, Json>, currentYear: int): (p: Resource)
    ensures p.Patient? && p.id == user.email && p.gender == GenderOf(demographics)
    ensures p.age == AgeOf(demographics) && p.birthYear == currentYear as real - p.age
    ensures "age" !in demographics ==> p.age == 45.0 && p.birthYear == currentYear as real - 45.0
  {
    var name := PatientName(user.name);
    var age := AgeOf(demographics);
    Patient(user.email, LastName(name), FirstName(name), GenderOf(demographics), currentYear as real - age, age)
  }

  // ---------------------------------------------------------------------------------------
  // Documents to resources

  /** The hemoglobin value a report carries: the first truthy of `hemoglobin`, `Hemoglobin`
      and `hb` in its structured data. */
  function HemoglobinField(d: Document): Option<Json> {
    if d.structured.None? then None
    else FirstTruthy(d.structured.value, ["hemoglobin", "Hemoglobin", "hb"])
  }

  predicate IsReport(d: Document) {
    d.docType == "report" || d.category == Some("Lab Report")
  }

  predicate IsImagingDoc(d: Document) {
    d.docType == "imaging" || d.category == Some("X-Ray") || d.category == Some("Radiology")
  }

  /** What one document contributes: a Hemoglobin observation for a report with a hemoglobin
      value (read with `parseFloat`, `None` for NaN), an imaging study for an imaging document
      that is not a report, and nothing otherwise. */
  function DocumentRecord(d: Document, parseFloat: Json -> Option<real>): (r: Option<Resource>)
    ensures IsReport(d) ==> (r.Some? <==> HemoglobinField(d).Some?)
    ensures IsReport(d) && r.Some? ==> r.value == Observation("Hemoglobin", parseFloat(HemoglobinField(d).value), None)
    ensures !IsReport(d) ==> (r.Some? <==> IsImagingDoc(d))
    ensures !IsReport(d) && r.Some? ==> r.value.ImagingStudy? && r.value.description == d.filename
  {
    if IsReport(d) then
      match HemoglobinField(d)
      case None => None
      case Some(hb) => Some(Observation("Hemoglobin", parseFloat(hb), None))
    else if IsImagingDoc(d) then
      var procedure := if d.category.Some? && d.category.value != "" then d.category.value else "Imaging";
      var note := if d.summary.Some? && d.summary.value != "" then d.summary.value else "No summary available";
      Some(ImagingStudy(d.filename, procedure, note))
    else None
  }

  /** The records of the documents, in document order. */
  function MedicalRecords(docs: seq<Document>, parseFloat: Json -> Option<real>): (rs: seq<Resource>)
    ensures |rs| <= |docs|
  {
    if docs == [] then []
    else
      var last := DocumentRecord(docs[|docs| - 1], parseFloat);
      MedicalRecords(docs[..|docs| - 1], parseFloat) + (if last.Some? then [last.value] else [])
  }

  /** The records are taken document by document, in order: the records of two runs of
      documents are those of the first followed by those of the second. */
  lemma {:induction false} MedicalRecordsAppend(a: seq<Document>, b: seq<Document>, parseFloat: Json -> Option<real>)
    ensures MedicalRecords(a + b, parseFloat) == MedicalRecords(a, parseFloat) + MedicalRecords(b, parseFloat)
    decreases |b|
  {
    if b == [] {
      assert a + b == a;
    } else {
      var init, ab := b[..|b| - 1], a + b;
      var last := DocumentRecord(b[|b| - 1], parseFloat);
      var tail := if last.Some? then [last.value] else [];
      assert ab[..|ab| - 1] == a + init;
      assert ab[|ab| - 1] == b[|b| - 1];
      assert MedicalRecords(ab, parseFloat) == MedicalRecords(a + init, parseFloat) + tail;
      assert MedicalRecords(b, parseFloat) == MedicalRecords(init, parseFloat) + tail;
      MedicalRecordsAppend(a, init, parseFloat);
      assert MedicalRecords(a, parseFloat) + MedicalRecords(init, parseFloat) + tail
          == MedicalRecords(a, parseFloat) + (MedicalRecords(init, parseFloat) + tail);
    }
  }

  /** A single document contributes its record, if it has one. */
  lemma MedicalRecordsOne(d: Document, parseFloat: Json -> Option<real>)
    ensures MedicalRecords([d], parseFloat) ==
              if DocumentRecord(d, parseFloat).Some? then [DocumentRecord(d, parseFloat).value] else []
  {
    assert [d][..0] == [];
  }

  /** Every record comes from a document, and every document that yields a record contributes
      it; each record is a Hemoglobin observation or an imaging study. */
  lemma {:induction false} MedicalRecordsFromDocuments(docs: seq<Document>, parseFloat: Json -> Option<real>)
    ensures forall r :: r in MedicalRecords(docs, parseFloat) <==>
              exists d :: d in docs && DocumentRecord(d, parseFloat) == Some(r)
    ensures forall r :: r in MedicalRecords(docs, parseFloat) ==>
              r.ImagingStudy? || (r.Observation? && r.codeText == "Hemoglobin" && r.concept.None?)
  {
    if docs != [] {
      var init := docs[..|docs| - 1];
      MedicalRecordsFromDocuments(init, parseFloat);
      assert docs == init + [docs[|docs| - 1]];
      forall r | r in MedicalRecords(docs, parseFloat)
        ensures r.ImagingStudy? || (r.Observation? && r.codeText == "Hemoglobin" && r.concept.None?)
      {
        if r !in MedicalRecords(init, parseFloat) {
          var d := docs[|docs| - 1];
          assert DocumentRecord(d, parseFloat) == Some(r);
        }
      }
    }
  }

  /** `documents.forEach(doc => { ... medicalRecords.push(...) })`. */
  method MapDocuments(docs: seq<Document>, parseFloat: Json -> Option<real>) returns (records: seq<Resource>)
    ensures records == MedicalRecords(docs, parseFloat)
  {
    records := [];
    for i := 0 to |docs|
      invariant records == MedicalRecords(docs[..i], parseFloat)
    {
      assert docs[..i + 1][..i] == docs[..i];
      var r := DocumentRecord(docs[i], parseFloat);
      if r.Some? {
        records := records + [r.value];
      }
    }
    assert docs[..|docs|] == docs;
  }

  /** `trends.hemoglobin.current`: the value of the first Hemoglobin record, with a missing or
      zero value (and NaN) giving 0. */
  function CurrentHemoglobin(records: seq<Resource>): (v: real)
    ensures v != 0.0 ==> exists i :: 0 <= i < |records| && records[i].Observation? && records[i].quantity == Some(v)
    ensures (forall i :: 0 <= i < |records| ==> CodeText(records[i]) != Some("Hemoglobin")) ==> v == 0.0
  {
    if records == [] then 0.0
    else if CodeText(records[0]) == Some("Hemoglobin") then
      (if records[0].Observation? && records[0].quantity.Some? then records[0].quantity.value else 0.0)
    else CurrentHemoglobin(records[1..])
  }

  /** The current value is read from the first record coded "Hemoglobin": its quantity, or 0
      when it has none. */
  lemma {:induction false} CurrentHemoglobinAt(records: seq<Resource>, k: nat)
    requires k < |records| && CodeText(records[k]) == Some("Hemoglobin")
    requires forall j :: 0 <= j < k ==> CodeText(records[j]) != Some("Hemoglobin")
    ensures CurrentHemoglobin(records) ==
              if records[k].Observation? && records[k].quantity.Some? then records[k].quantity.value else 0.0
  {
    if k > 0 {
      assert CodeText(records[0]) != Some("Hemoglobin");
      assert records[1..][k - 1] == records[k];
      CurrentHemoglobinAt(records[1..], k - 1);
    }
  }

  // ---------------------------------------------------------------------------------------
  // The bundle

  function SmokingEntry(questionnaire: map<string, Json>): Resource {
    Observation("Smoking Status", None, Some(SmokingStatus(questionnaire)))
  }

  /** The patient's bundle: the Patient entry, then the document records, then the smoking
      status, with a stable hemoglobin trend. */
  function PatientBundle(user: User, demographics: map<string, Json>, questionnaire: map<string, Json>,
                         docs: seq<Document>, currentYear: int, parseFloat: Json -> Option<real>): (b: Bundle)
    ensures |b.entry| == |MedicalRecords(docs, parseFloat)| + 2
    ensures b.entry[0].Patient? && b.entry[0].id == user.email
    ensures b.entry[1..|b.entry| - 1] == MedicalRecords(docs, parseFloat)
    ensures b.entry[|b.entry| - 1] == SmokingEntry(questionnaire)
    ensures b.hemoglobin == Some(HemoglobinTrend(CurrentHemoglobin(MedicalRecords(docs, parseFloat)), "stable"))
  {
    var records := MedicalRecords(docs, parseFloat);
    var entry := [PatientEntry(user, demographics, currentYear)] + records + [SmokingEntry(questionnaire)];
    assert entry[1..|entry| - 1] == records;
    Bundle(entry, Some(HemoglobinTrend(CurrentHemoglobin(records), "stable")))
  }

  datatype MockDataReply = MockDataReply(status: int, bundle: Option<Bundle>)

  /** Unknown ids give 404; otherwise the bundle of the first user with that ABHA id or
      e-mail, built from that user's profile sections and documents. */
  function GetMockData(users: seq<User>, abhaId: string, demographics: map<string, Json>,
                       questionnaire: map<string, Json>, docs: seq<Document>, currentYear: int,
                       parseFloat: Json -> Option<real>): (r: MockDataReply)
    ensures r.status == 404 <==> FindByAbhaOrEmail(users, abhaId).None?
    ensures r.status == 404 ==> r.bundle.None?
    ensures r.status != 404 ==>
              r.status == 200
              && r.bundle == Some(PatientBundle(users[FindByAbhaOrEmail(users, abhaId).value], demographics,
                                                questionnaire, docs, currentYear, parseFloat))
  {
    match FindByAbhaOrEmail(users, abhaId)
    case None => MockDataReply(404, None)
    case Some(k) => MockDataReply(200, Some(PatientBundle(users[k], demographics, questionnaire, docs, currentYear, parseFloat)))
  }

  /** A bundle assembled from a patient's own records can never trigger the neutrophil or the
      declining-hemoglobin rule of the risk analysis: it has no Neutrophils observation and its
      hemoglobin trend is always stable. */
  lemma OwnRecordsTriggerNoLabRule(user: User, demographics: map<string, Json>, questionnaire: map<string, Json>,
                                   docs: seq<Document>, currentYear: int, parseFloat: Json -> Option<real>)
    ensures var b := PatientBundle(user, demographics, questionnaire, docs, currentYear, parseFloat);
            !RiskAnalysis.HasHighNeutrophils([b]) && !RiskAnalysis.HasHemoglobinDrop([b])
  {
    var b := PatientBundle(user, demographics, questionnaire, docs, currentYear, parseFloat);
    var records := MedicalRecords(docs, parseFloat);
    MedicalRecordsFromDocuments(docs, parseFloat);
    forall e | e in b.entry
      ensures CodeText(e) != Some("Neutrophils")
    {
      var i :| 0 <= i < |b.entry| && b.entry[i] == e;
      if 0 < i < |b.entry| - 1 {
        assert e == records[i - 1];
        assert e in records;
      }
    }
  }

  // ---------------------------------------------------------------------------------------
  // Connecting an ABHA id

  /** A missing or empty id gives 400 and an unknown user 404, changing nothing; otherwise the
      user takes the ABHA id and the fetched bundle is appended to the connected hospital data,
      every earlier bundle kept. */
  function ConnectAbha(users: seq<User>, userId: string, abhaId: Option<string>, fetched: Bundle): (r: (int, seq<User>))
    ensures r.0 == 400 <==> abhaId.None? || abhaId.value == ""
    ensures r.0 != 200 ==> r.1 == users
    ensures r.0 == 404 <==> abhaId.Some? && abhaId.value != "" && FindById(users, userId).None?
    ensures r.0 == 200 ==>
              var k := FindById(users, userId).value;
              |r.1| == |users|
              && r.1[k].abhaId == abhaId
              && r.1[k].connectedHospitalData == users[k].connectedHospitalData + [fetched]
              && r.1[k] == users[k].(abhaId := abhaId, connectedHospitalData := users[k].connectedHospitalData + [fetched])
              && (forall j :: 0 <= j < |users| && j != k ==> r.1[j] == users[j])
  {
    if abhaId.None? || abhaId.value == "" then (400, users)
    else match FindById(users, userId)
      case None => (404, users)
      case Some(k) =>
        (200, users[k := users[k].(abhaId := abhaId,
                                   connectedHospitalData := users[k].connectedHospitalData + [fetched])])
  }

  /** Connecting twice keeps both bundles, in order. */
  lemma ConnectTwiceKeepsBoth(users: seq<User>, userId: string, abhaId: string, first: Bundle, second: Bundle)
    requires abhaId != "" && FindById(users, userId).Some?
    ensures var once := ConnectAbha(users, userId, Some(abhaId), first).1;
            var k := FindById(users, userId).value;
            var twice := ConnectAbha(once, userId, Some(abhaId), second);
            twice.0 == 200
            && twice.1[k].connectedHospitalData == users[k].connectedHospitalData + [first, second]
  {
    var once := ConnectAbha(users, userId, Some(abhaId), first).1;
    var k := FindById(users, userId).value;
    assert FindById(once, userId) == Some(k) by {
      assert forall j :: 0 <= j < |once| ==> once[j].id == users[j].id;
      FindByIdSameIds(once, users, userId);
    }
  }

  /** The search for an id sees only the ids. */
  lemma {:induction false} FindByIdSameIds(a: seq<User>, b: seq<User>, uid: string)
    requires |a| == |b| && forall j :: 0 <= j < |a| ==> a[j].id == b[j].id
    ensures FindById(a, uid) == FindById(b, uid)
    decreases |a|
  {
    if a != [] {
      FindByIdSameIds(a[1..], b[1..], uid);
    }
  }
}
