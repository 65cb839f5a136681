/** The doctor's 360° patient page: it fetches the patient's FHIR-shaped bundle for an ABHA id
    and picks out the patient, the hemoglobin observations and the first imaging study. The
    fetch is a parameter: the bundle, or `None` when it failed or is still loading. */
module DataAggregation {
  import opened Common
  import opened Entities
  import AbhaController

  /** What the page does when it mounts. */
  datatype Mount = RedirectToSearch | FetchBundle(abhaId: string)

  /** Without an ABHA id in the navigation state the page leaves for the search page and
      fetches nothing; otherwise it fetches that id's bundle. */
  function OnMount(abhaId: Option<string>): (m: Mount)
    ensures m == RedirectToSearch <==> abhaId.None? || abhaId.value == ""
    ensures m.FetchBundle? ==> m.abhaId == abhaId.value
  {
    if abhaId.None? || abhaId.value == "" then RedirectToSearch else FetchBundle(abhaId.value)
  }

  /** `entry.find(e => e.resource.resourceType === t)?.resource`. */
  function FirstOfType(entries: seq<Resource>, t: string): (r: Option<Resource>)
    ensures r.None? <==> forall e :: e in entries ==> ResourceType(e) != t
    ensures r.Some? ==> r.value in entries && ResourceType(r.value) == t
  {
    if entries == [] then None
    else if ResourceType(entries[0]) == t then Some(entries[0])
    else FirstOfType(entries[1..], t)
  }

  /** The entry found is the first of its type: one at position `k` with none of the type
      before it. */
  lemma {:induction false} FirstOfTypeAt(entries: seq<Resource>, t: string, k: nat)
    requires k < |entries| && ResourceType(entries[k]) == t
    requires forall j :: 0 <= j < k ==> ResourceType(entries[j]) != t
    ensures FirstOfType(entries, t) == Some(entries[k])
  {
    if k > 0 {
      assert ResourceType(entries[0]) != t;
      assert entries[1..][k - 1] == entries[k];
      FirstOfTypeAt(entries[1..], t, k - 1);
    }
  }

  /** An observation coded exactly "Hemoglobin"; labels such as "Hemoglobin (3 months ago)" do
      not match. */
  predicate IsHemoglobinObs(r: Resource) {
    ResourceType(r) == "Observation" && CodeText(r) == Some("Hemoglobin")
  }

  /** The hemoglobin observations, in bundle order. */
  function HemoglobinObs(entries: seq<Resource>): (rs: seq<Resource>)
    ensures |rs| <= |entries|
    ensures forall r :: r in rs <==> r in entries && IsHemoglobinObs(r)
  {
    if entries == [] then []
    else (if IsHemoglobinObs(entries[0]) then [entries[0]] else []) + HemoglobinObs(entries[1..])
  }

  lemma {:induction false} FirstOfTypeAppend(a: seq<Resource>, b: seq<Resource>, t: string)
    ensures FirstOfType(a + b, t) == if FirstOfType(a, t).Some? then FirstOfType(a, t) else FirstOfType(b, t)
  {
    if a == [] {
      assert a + b == b;
    } else {
      assert (a + b)[1..] == a[1..] + b;
      FirstOfTypeAppend(a[1..], b, t);
    }
  }

  lemma {:induction false} HemoglobinObsAppend(a: seq<Resource>, b: seq<Resource>)
    ensures HemoglobinObs(a + b) == HemoglobinObs(a) + HemoglobinObs(b)
  {
    if a == [] {
      assert a + b == b;
    } else {
      assert (a + b)[1..] == a[1..] + b;
      HemoglobinObsAppend(a[1..], b);
    }
  }

  /** What the page shows from the bundle; all three are undefined while there is none. */
  datatype Extracted = Extracted(patient: Option<Resource>, hemoglobinObs: Option<seq<Resource>>,
                                 xrayStudy: Option<Resource>)

  function Extract(fhirData: Option<Bundle>): (x: Extracted)
    ensures fhirData.None? ==> x == Extracted(None, None, None)
    ensures fhirData.Some? ==>
              && x.patient == FirstOfType(fhirData.value.entry, "Patient")
              && x.hemoglobinObs == Some(HemoglobinObs(fhirData.value.entry))
              && x.xrayStudy == FirstOfType(fhirData.value.entry, "ImagingStudy")
  {
    match fhirData
    case None => Extracted(None, None, None)
    case Some(b) => Extracted(FirstOfType(b.entry, "Patient"), Some(HemoglobinObs(b.entry)),
                              FirstOfType(b.entry, "ImagingStudy"))
  }

  /** The heading's name: the patient's family name, or the ABHA id when there is none. */
  function DisplayName(patient: Option<Resource>, abhaId: string): (n: string)
    ensures patient.Some? && patient.value.Patient? && patient.value.family != "" ==> n == patient.value.family
    ensures n != abhaId ==> patient.Some? && patient.value.Patient? && n == patient.value.family
  {
    if patient.Some? && patient.value.Patient? && patient.value.family != "" then patient.value.family else abhaId
  }

  /** The patient found in a bundle framed as the backend frames it (a patient first, then the
      records, then one more entry) is the first entry. */
  lemma FramedPatient(p: Resource, records: seq<Resource>, last: Resource)
    requires p.Patient?
    ensures FirstOfType([p] + records + [last], "Patient") == Some(p)
  {
    FirstOfTypeAppend([p] + records, [last], "Patient");
    FirstOfTypeAppend([p], records, "Patient");
  }

  /** The hemoglobin readings of such a bundle are those among the records. */
  lemma FramedReadings(p: Resource, records: seq<Resource>, last: Resource)
    requires p.Patient? && !IsHemoglobinObs(last)
    ensures HemoglobinObs([p] + records + [last]) == HemoglobinObs(records)
  {
    HemoglobinObsAppend([p] + records, [last]);
    HemoglobinObsAppend([p], records);
    assert HemoglobinObs([last]) == [];
    assert HemoglobinObs([p]) == [];
    assert HemoglobinObs(records) + [] == HemoglobinObs(records);
  }

  /** The imaging study of such a bundle is the first among the records. */
  lemma FramedStudy(p: Resource, records: seq<Resource>, last: Resource)
    requires p.Patient? && ResourceType(last) != "ImagingStudy"
    ensures FirstOfType([p] + records + [last], "ImagingStudy") == FirstOfType(records, "ImagingStudy")
  {
    assert ResourceType(p)[0] != "ImagingStudy"[0];
    assert FirstOfType([p], "ImagingStudy") == None;
    assert FirstOfType([last], "ImagingStudy") == None;
    FirstOfTypeAppend([p] + records, [last], "ImagingStudy");
    FirstOfTypeAppend([p], records, "ImagingStudy");
  }

  /** On a bundle the backend builds for a patient, the page shows that patient, exactly the
      hemoglobin readings among the patient's document records in document order (the
      smoking-status entry never counts), and the first imaging study among them. */
  lemma ReadsBackendBundle(user: User, demographics: map<string, Json>, questionnaire: map<string, Json>,
                           docs: seq<Document>, currentYear: int, parseFloat: Json -> Option<real>)
    ensures var b := AbhaController.PatientBundle(user, demographics, questionnaire, docs, currentYear, parseFloat);
            var records := AbhaController.MedicalRecords(docs, parseFloat);
            Extract(Some(b)) == Extracted(Some(AbhaController.PatientEntry(user, demographics, currentYear)),
                                          Some(HemoglobinObs(records)), FirstOfType(records, "ImagingStudy"))
  {
    var b := AbhaController.PatientBundle(user, demographics, questionnaire, docs, currentYear, parseFloat);
    var records := AbhaController.MedicalRecords(docs, parseFloat);
    var p := AbhaController.PatientEntry(user, demographics, currentYear);
    var s := AbhaController.SmokingEntry(questionnaire);
    assert b.entry == [p] + records + [s];
    assert ResourceType(s)[0] != "ImagingStudy"[0];
    FramedPatient(p, records, s);
    FramedReadings(p, records, s);
    FramedStudy(p, records, s);
  }

  /** Every hemoglobin reading the page shows for such a bundle comes from one of the patient's
      uploaded reports. */
  lemma ReadingsComeFromReports(docs: seq<Document>, parseFloat: Json -> Option<real>)
    ensures forall r :: r in HemoglobinObs(AbhaController.MedicalRecords(docs, parseFloat)) ==>
              exists d :: d in docs && AbhaController.IsReport(d) && AbhaController.DocumentRecord(d, parseFloat) == Some(r)
  {
    AbhaController.MedicalRecordsFromDocuments(docs, parseFloat);
    forall r | r in HemoglobinObs(AbhaController.MedicalRecords(docs, parseFloat))
      ensures exists d :: d in docs && AbhaController.IsReport(d) && AbhaController.DocumentRecord(d, parseFloat) == Some(r)
    {
      var d :| d in docs && AbhaController.DocumentRecord(d, parseFloat) == Some(r);
      assert r.Observation?;
    }
  }

  /** Only the exact code matches: a reading labelled "Hemoglobin (3 months ago)" is left out. */
  lemma ExactCodeOnly(old3: Option<real>, now: Option<real>)
    ensures HemoglobinObs([Observation("Hemoglobin (3 months ago)", old3, None), Observation("Hemoglobin", now, None)])
            == [Observation("Hemoglobin", now, None)]
  {
    var a := Observation("Hemoglobin (3 months ago)", old3, None);
    assert !IsHemoglobinObs(a);
    assert [a, Observation("Hemoglobin", now, None)][1..] == [Observation("Hemoglobin", now, None)];
  }
}
