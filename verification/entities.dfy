/** The records the Node.js backend and the React views share: users with their pending consent,
    uploaded medical documents, and the resources of the FHIR-shaped bundles the ABHA endpoints
    assemble. Only the fields that some modelled decision reads are kept. */
module Entities {
  import opened Common
  import opened JsText

  /** `pendingConsent.status` of a user, and the status of a consent record. */
  datatype ConsentStatus = Pending | Approved | Rejected | Expired

  function StatusName(s: ConsentStatus): (t: string)
    ensures t in {"pending", "approved", "rejected", "expired"}
  {
    match s
    case Pending => "pending"
    case Approved => "approved"
    case Rejected => "rejected"
    case Expired => "expired"
  }

  /** Distinct statuses have distinct names, so a status can be read back from its name. */
  lemma StatusNameInjective(s: ConsentStatus, t: ConsentStatus)
    ensures StatusName(s) == StatusName(t) ==> s == t
  {
  }

  datatype PendingConsent = PendingConsent(consentId: string, requestedBy: string, requestedAt: int,
                                           status: ConsentStatus)

  datatype Role = PatientRole | DoctorRole | HospitalRole | AdminRole

  /** An uploaded document: `docType` is one of 'imaging', 'report', 'prescription' or 'other';
      `structured` is the `extractedData.structuredData` object the text extraction produced. */
  datatype Document = Document(id: string, docType: string, category: Option<string>,
                               filename: string, mimeType: Option<string>,
                               structured: Option<map<string, Json>>, summary: Option<string>,
                               createdDay: string)

  /** `doc.mimeType && doc.mimeType.startsWith('image/')`. */
  predicate IsImage(d: Document) {
    d.mimeType.Some? && StartsWith(d.mimeType.value, "image/")
  }

  datatype Direction = Increase | Decrease

  /** The risk contributors the rule-based analysis can name. */
  datatype FactorName = AgeFactor | SmokingHistory | HighNeutrophils | DecliningHemoglobin | Hemoptysis

  /** The name as stored and displayed. */
  function FactorLabel(n: FactorName): string {
    match n
    case AgeFactor => "Age"
    case SmokingHistory => "Smoking History"
    case HighNeutrophils => "High Neutrophils"
    case DecliningHemoglobin => "Declining Hemoglobin"
    case Hemoptysis => "Hemoptysis (Coughing Blood)"
  }

  /** One contributor to a risk score, as an analysis stores it and the chart draws it. */
  datatype ShapFactor = ShapFactor(name: FactorName, impact: real, direction: Direction)

  /** A resource of a bundle entry. An observation's numeric value is `None` when it has no
      `valueQuantity` or the value is not a number (NaN); its coded text value is `concept`. */
  datatype Resource =
    | Patient(id: string, family: string, given: string, gender: string, birthYear: real, age: real)
    | Observation(codeText: string, quantity: Option<real>, concept: Option<string>)
    | ImagingStudy(description: string, procedure: string, note: string)
    | OtherResource(resourceType: string, otherCode: Option<string>)

  function ResourceType(r: Resource): string {
    match r
    case Patient(_, _, _, _, _, _) => "Patient"
    case Observation(_, _, _) => "Observation"
    case ImagingStudy(_, _, _) => "ImagingStudy"
    case OtherResource(t, _) => t
  }

  /** `resource.code?.text`. */
  function CodeText(r: Resource): Option<string> {
    match r
    case Observation(t, _, _) => Some(t)
    case OtherResource(_, t) => t
    case _ => None
  }

  datatype HemoglobinTrend = HemoglobinTrend(current: real, trend: string)

  /** A bundle: its entries' resources in order and its `trends.hemoglobin` block. */
  datatype Bundle = Bundle(entry: seq<Resource>, hemoglobin: Option<HemoglobinTrend>)

  datatype User = User(id: string, name: string, email: string, role: Role, abhaId: Option<string>,
                       pendingConsent: Option<PendingConsent>, connectedHospitalData: seq<Bundle>)

  /** The user found by `findOne({$or: [{abhaId: id}, {email: id}]})`: the first, in store
      order, whose ABHA id or e-mail equals `id`. */
  function FindByAbhaOrEmail(users: seq<User>, id: string): (r: Option<nat>)
    ensures r.Some? ==> r.value < |users| && (users[r.value].abhaId == Some(id) || users[r.value].email == id)
    ensures r.Some? ==> forall j :: 0 <= j < r.value ==> users[j].abhaId != Some(id) && users[j].email != id
    ensures r.None? ==> forall j :: 0 <= j < |users| ==> users[j].abhaId != Some(id) && users[j].email != id
  {
    if users == [] then None
    else if users[0].abhaId == Some(id) || users[0].email == id then Some(0)
    else match FindByAbhaOrEmail(users[1..], id)
      case None => None
      case Some(k) => Some(k + 1)
  }

  /** `User.findById`: the first user with this id. */
  function FindById(users: seq<User>, uid: string): (r: Option<nat>)
    ensures r.Some? ==> r.value < |users| && users[r.value].id == uid
    ensures r.Some? ==> forall j :: 0 <= j < r.value ==> users[j].id != uid
    ensures r.None? ==> forall j :: 0 <= j < |users| ==> users[j].id != uid
  {
    if users == [] then None
    else if users[0].id == uid then Some(0)
    else match FindById(users[1..], uid)
      case None => None
      case Some(k) => Some(k + 1)
  }
}
