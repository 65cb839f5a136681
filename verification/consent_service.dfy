/** The consent life cycle: a doctor's request creates a pending consent for a patient, which
    the patient approves or rejects, or which expires an hour after it was requested. Consents
    live in an in-memory store keyed by consent id; the user records stand in for the database
    and carry each patient's most recent pending consent. Each operation is first stated as a
    step on the store and the users, and `ConsentStore` performs the steps in place. */
module ConsentService {
  import opened Common
  import opened Entities

  /** One hour in milliseconds: how long a request stays valid. */
  const OneHour: int := 60 * 60 * 1000

  const FullScope: seq<string> := ["Health Records", "Blood Reports", "X-Rays", "Prescriptions"]

  /** A consent as the store keeps it. Records rebuilt from a user's `pendingConsent` lack
      some fields (`None`). */
  datatype ConsentRecord = ConsentRecord(
    consentId: string, abhaId: Option<string>, patientUserId: Option<string>,
    requestedBy: Option<string>, status: ConsentStatus, scope: seq<string>,
    validFor: Option<string>, requestedAt: Option<int>, expiresAt: Option<int>,
    approvedAt: Option<int>, rejectedAt: Option<int>)

  /** The result of an operation together with the store and the users after it. */
  datatype Step<T> = Step(out: T, store: map<string, ConsentRecord>, users: seq<User>)

  /** The first user whose `pendingConsent.consentId` is `id`. */
  function FindByPendingConsent(users: seq<User>, id: string): (r: Option<nat>)
    ensures r.Some? ==> r.value < |users| && users[r.value].pendingConsent.Some?
                        && users[r.value].pendingConsent.value.consentId == id
    ensures r.None? ==> forall j :: 0 <= j < |users| ==>
                          users[j].pendingConsent.None? || users[j].pendingConsent.value.consentId != id
  {
    if users == [] then None
    else if users[0].pendingConsent.Some? && users[0].pendingConsent.value.consentId == id then Some(0)
    else match FindByPendingConsent(users[1..], id)
      case None => None
      case Some(k) => Some(k + 1)
  }

  // ---------------------------------------------------------------------------------------
  // Initiating a request

  /** A fresh request: pending, with the full scope, valid for one hour from `now`. */
  function NewRequest(consentId: string, abhaId: string, patient: User, requestedBy: string, now: int): ConsentRecord {
    ConsentRecord(consentId, Some(abhaId), Some(patient.id), Some(requestedBy), Pending, FullScope,
                  Some("1 hour"), Some(now), Some(now + OneHour), None, None)
  }

  /** Finds the patient by e-mail or ABHA id, stores a new pending request under the fresh id
      and records it as the patient's pending consent; with no such patient nothing changes. */
  function InitiateStep(store: map<string, ConsentRecord>, users: seq<User>, abhaId: string,
                        requestedBy: string, consentId: string, now: int): (s: Step<Result<ConsentRecord, string>>)
    ensures s.out.Failure? <==> FindByAbhaOrEmail(users, abhaId).None?
    ensures s.out.Failure? ==> s.out.error == "Patient not found" && s.store == store && s.users == users
    ensures s.out.Success? ==>
              var k := FindByAbhaOrEmail(users, abhaId).value;
              var rec := s.out.value;
              rec.consentId == consentId && rec.status == Pending && rec.patientUserId == Some(users[k].id)
              && rec.requestedAt == Some(now) && rec.expiresAt == Some(now + OneHour)
              && s.store == store[consentId := rec]
              && |s.users| == |users|
              && s.users[k] == users[k].(pendingConsent := Some(PendingConsent(consentId, requestedBy, now, Pending)))
              && (forall j :: 0 <= j < |users| && j != k ==> s.users[j] == users[j])
  {
    match FindByAbhaOrEmail(users, abhaId)
    case None => Step(Failure("Patient not found"), store, users)
    case Some(k) =>
      var rec := NewRequest(consentId, abhaId, users[k], requestedBy, now);
      Step(Success(rec), store[consentId := rec],
           users[k := users[k].(pendingConsent := Some(PendingConsent(consentId, requestedBy, now, Pending)))])
  }

  // ---------------------------------------------------------------------------------------
  // Reading the status

  /** The consent as the status check finds it: from the store, or rebuilt from the user
      whose pending consent has this id, with an expiry one hour after the request. */
  function StatusRecord(store: map<string, ConsentRecord>, users: seq<User>, id: string): Option<ConsentRecord> {
    if id in store then Some(store[id])
    else match FindByPendingConsent(users, id)
      case None => None
      case Some(k) =>
        var pc := users[k].pendingConsent.value;
        Some(ConsentRecord(pc.consentId, Some(users[k].email), None, None, pc.status, ["Health Records"],
                           None, Some(pc.requestedAt), Some(pc.requestedAt + OneHour), None, None))
  }

  /** A pending consent whose expiry lies strictly before `now`. */
  predicate DueToExpire(rec: ConsentRecord, now: int) {
    rec.status == Pending && rec.expiresAt.Some? && now > rec.expiresAt.value
  }

  /** Returns the consent, first turning a pending one that is past its expiry into an
      expired one and storing that; the users are never changed. */
  function StatusStep(store: map<string, ConsentRecord>, users: seq<User>, id: string, now: int): (s: Step<Option<ConsentRecord>>)
    ensures s.users == users
    ensures s.out.None? <==> StatusRecord(store, users, id).None?
    ensures s.out.Some? ==>
              var rec := StatusRecord(store, users, id).value;
              (DueToExpire(rec, now) ==> s.out.value == rec.(status := Expired) && s.store == store[id := s.out.value])
              && (!DueToExpire(rec, now) ==> s.out.value == rec && s.store == store)
    ensures s.out.None? ==> s.store == store
  {
    match StatusRecord(store, users, id)
    case None => Step(None, store, users)
    case Some(rec) =>
      if DueToExpire(rec, now) then
        var expired := rec.(status := Expired);
        Step(Some(expired), store[id := expired], users)
      else Step(Some(rec), store, users)
  }

  // ---------------------------------------------------------------------------------------
  // Approving and rejecting

  datatype Decision = Approve | Reject

  function DecidedStatus(d: Decision): ConsentStatus {
    match d
    case Approve => Approved
    case Reject => Rejected
  }

  /** `null`, `{error: ...}`, or the updated consent. */
  datatype DecideOutcome = NotFound | AlreadyDecided(error: string) | Decided(consent: ConsentRecord)

  /** The consent as approval and rejection find it: from the store, or a minimal record
      rebuilt from the user whose pending consent has this id. */
  function DecisionRecord(store: map<string, ConsentRecord>, users: seq<User>, id: string): Option<ConsentRecord> {
    if id in store then Some(store[id])
    else match FindByPendingConsent(users, id)
      case None => None
      case Some(k) =>
        Some(ConsentRecord(users[k].pendingConsent.value.consentId, None, Some(users[k].id), None,
                           users[k].pendingConsent.value.status, [], None, None, None, None, None))
  }

  /** The patient's `pendingConsent.status` follows the decision only when the patient's
      pending consent is still the one decided. */
  function UpdatePatient(users: seq<User>, patientUserId: Option<string>, id: string, status: ConsentStatus): (us: seq<User>)
    ensures |us| == |users|
    ensures forall j :: 0 <= j < |users| ==>
              us[j] == users[j]
              || (users[j].pendingConsent.Some? && users[j].pendingConsent.value.consentId == id
                  && us[j] == users[j].(pendingConsent := Some(users[j].pendingConsent.value.(status := status))))
    ensures patientUserId.None? || FindById(users, patientUserId.value).None? ==> us == users
    ensures patientUserId.Some? && FindById(users, patientUserId.value).Some? ==>
              var k := FindById(users, patientUserId.value).value;
              var p := users[k].pendingConsent;
              && users[k].id == patientUserId.value
              && (p.Some? && p.value.consentId == id ==>
                    us == users[k := users[k].(pendingConsent := Some(p.value.(status := status)))])
              && (p.None? || p.value.consentId != id ==> us == users)
  {
    if patientUserId.None? then users
    else match FindById(users, patientUserId.value)
      case None => users
      case Some(k) =>
        if users[k].pendingConsent.Some? && users[k].pendingConsent.value.consentId == id then
          users[k := users[k].(pendingConsent := Some(users[k].pendingConsent.value.(status := status)))]
        else users
  }

  /** Approval or rejection: unknown ids give `NotFound`; a consent that is no longer pending
      gives the error "Consent already <status>" and changes nothing; a pending one, whatever
      its expiry, takes the decided status and time and is stored. */
  function DecideStep(store: map<string, ConsentRecord>, users: seq<User>, id: string, now: int, d: Decision): (s: Step<DecideOutcome>)
    ensures s.out.NotFound? <==> DecisionRecord(store, users, id).None?
    ensures !s.out.Decided? ==> s.store == store && s.users == users
    ensures s.out.AlreadyDecided? <==> DecisionRecord(store, users, id).Some? && DecisionRecord(store, users, id).value.status != Pending
    ensures s.out.AlreadyDecided? ==> s.out.error == "Consent already " + StatusName(DecisionRecord(store, users, id).value.status)
    ensures s.out.Decided? ==>
              var rec := DecisionRecord(store, users, id).value;
              s.out.consent.status == DecidedStatus(d)
              && s.out.consent == (if d == Approve then rec.(status := Approved, approvedAt := Some(now))
                                   else rec.(status := Rejected, rejectedAt := Some(now)))
              && s.store == store[id := s.out.consent]
              && s.users == UpdatePatient(users, rec.patientUserId, id, DecidedStatus(d))
  {
    match DecisionRecord(store, users, id)
    case None => Step(NotFound, store, users)
    case Some(rec) =>
      if rec.status != Pending then Step(AlreadyDecided("Consent already " + StatusName(rec.status)), store, users)
      else
        var decided := if d == Approve then rec.(status := Approved, approvedAt := Some(now))
                       else rec.(status := Rejected, rejectedAt := Some(now));
        Step(Decided(decided), store[id := decided], UpdatePatient(users, rec.patientUserId, id, DecidedStatus(d)))
  }

  /** A decision reaches the patient: the user the consent names, whose pending consent is
      still this one, sees the decided status, and every other user is left as they were. */
  lemma DecisionReachesPatient(store: map<string, ConsentRecord>, users: seq<User>, id: string, now: int,
                               d: Decision, k: nat)
    requires DecideStep(store, users, id, now, d).out.Decided?
    requires DecisionRecord(store, users, id).value.patientUserId.Some?
    requires FindById(users, DecisionRecord(store, users, id).value.patientUserId.value) == Some(k)
    requires users[k].pendingConsent.Some? && users[k].pendingConsent.value.consentId == id
    ensures var s := DecideStep(store, users, id, now, d);
            && |s.users| == |users|
            && s.users[k] == users[k].(pendingConsent := Some(users[k].pendingConsent.value.(status := DecidedStatus(d))))
            && forall j :: 0 <= j < |users| && j != k ==> s.users[j] == users[j]
  {
  }

  // ---------------------------------------------------------------------------------------
  // The life cycle

  /** Approved, rejected and expired are final: once the stored consent is in one of them, a
      later approval or rejection reports "Consent already <status>" and changes nothing, and
      a status check returns it unchanged. */
  lemma DecidedIsFinal(store: map<string, ConsentRecord>, users: seq<User>, id: string, now: int, d: Decision)
    requires id in store && store[id].status != Pending
    ensures DecideStep(store, users, id, now, d) ==
              Step(AlreadyDecided("Consent already " + StatusName(store[id].status)), store, users)
    ensures StatusStep(store, users, id, now) == Step(Some(store[id]), store, users)
  {
  }

  /** After a successful approval or rejection, every further decision on the same consent is
      refused with the decided status in the message; deciding twice is never possible. */
  lemma NoSecondDecision(store: map<string, ConsentRecord>, users: seq<User>, id: string, now: int, d: Decision,
                         later: int, d2: Decision)
    requires DecideStep(store, users, id, now, d).out.Decided?
    ensures var s := DecideStep(store, users, id, now, d);
            DecideStep(s.store, s.users, id, later, d2) ==
              Step(AlreadyDecided("Consent already " + StatusName(DecidedStatus(d))), s.store, s.users)
  {
    var s := DecideStep(store, users, id, now, d);
    assert id in s.store && s.store[id].status == DecidedStatus(d);
    DecidedIsFinal(s.store, s.users, id, later, d2);
  }

  /** The status check turns a pending consent past its expiry into an expired one, and from
      then on it can be neither approved nor rejected. */
  lemma ExpiryBlocksDecision(store: map<string, ConsentRecord>, users: seq<User>, id: string, now: int,
                             later: int, d: Decision)
    requires id in store && DueToExpire(store[id], now)
    ensures var s := StatusStep(store, users, id, now);
            s.out == Some(store[id].(status := Expired))
            && DecideStep(s.store, s.users, id, later, d).out == AlreadyDecided("Consent already expired")
  {
    var s := StatusStep(store, users, id, now);
    DecidedIsFinal(s.store, s.users, id, later, d);
  }

  /** Approval looks only at the status: a pending consent already past its expiry, which no
      status check has yet marked expired, is still approved. */
  lemma ApprovalIgnoresExpiry(store: map<string, ConsentRecord>, users: seq<User>, id: string, now: int)
    requires id in store && DueToExpire(store[id], now)
    ensures DecideStep(store, users, id, now, Approve).out.Decided?
    ensures DecideStep(store, users, id, now, Approve).out.consent.status == Approved
  {
  }

  /** A request just initiated is pending for a full hour: a status check at any time up to
      and including its expiry returns it pending and changes nothing, and one after that
      reports it expired. */
  lemma FreshRequestLifetime(store: map<string, ConsentRecord>, users: seq<User>, abhaId: string,
                             requestedBy: string, consentId: string, now: int, later: int)
    requires FindByAbhaOrEmail(users, abhaId).Some?
    ensures var s := InitiateStep(store, users, abhaId, requestedBy, consentId, now);
            var t := StatusStep(s.store, s.users, consentId, later);
            t.out.Some?
            && (later <= now + OneHour ==> t.out.value.status == Pending && t.store == s.store)
            && (later > now + OneHour ==> t.out.value.status == Expired)
  {
  }

  // ---------------------------------------------------------------------------------------
  // The notification

  datatype Sms = Sms(to: Option<string>, english: string, actionButtons: seq<string>, timestamp: Option<int>)

  /** The text message announcing a request: to the patient's ABHA id, quoting the validity,
      offering exactly the buttons ALLOW and DENY, stamped with the request time. */
  function SmsNotification(rec: ConsentRecord): (sms: Sms)
    ensures sms.to == rec.abhaId && sms.timestamp == rec.requestedAt
    ensures sms.actionButtons == ["ALLOW", "DENY"]
    ensures sms.english == SmsLead + (if rec.validFor.Some? then rec.validFor.value else "undefined") + SmsTail
  {
    var validFor := if rec.validFor.Some? then rec.validFor.value else "undefined";
    Sms(rec.abhaId, SmsLead + validFor + SmsTail, ["ALLOW", "DENY"], rec.requestedAt)
  }

  /** The English text around the validity. */
  const SmsLead := "CureSight AI requests access to your Health History (Blood Reports, X-Rays) for Cancer Screening. Valid for "
  const SmsTail := ". Reply YES to allow."

  /** The notification for a new request goes to the ABHA id it was made for and says the
      request is valid for one hour. */
  lemma SmsForNewRequest(consentId: string, abhaId: string, patient: User, requestedBy: string, now: int)
    ensures var sms := SmsNotification(NewRequest(consentId, abhaId, patient, requestedBy, now));
            sms.to == Some(abhaId) && sms.timestamp == Some(now)
            && sms.english == SmsLead + "1 hour" + SmsTail
  {
  }

  // ---------------------------------------------------------------------------------------
  // The store

  /** The in-memory consent store together with the user records it updates. */
  class ConsentStore {
    var store: map<string, ConsentRecord>
    var users: seq<User>

    /** Every stored consent is filed under its own id. */
    ghost predicate Valid()
      reads this
    {
      forall k :: k in store ==> store[k].consentId == k
    }

    constructor (users0: seq<User>)
      ensures store == map[] && users == users0 && Valid()
    {
      store := map[];
      users := users0;
    }

    method InitiateConsentRequest(abhaId: string, requestedBy: string, consentId: string, now: int)
      returns (r: Result<ConsentRecord, string>)
      requires Valid()
      modifies this
      ensures Valid()
      ensures var s := InitiateStep(old(store), old(users), abhaId, requestedBy, consentId, now);
              r == s.out && store == s.store && users == s.users
    {
      var k := FindByAbhaOrEmail(users, abhaId);
      if k.None? {
        return Failure("Patient not found");
      }
      var rec := NewRequest(consentId, abhaId, users[k.value], requestedBy, now);
      store := store[consentId := rec];
      users := users[k.value := users[k.value].(pendingConsent := Some(PendingConsent(consentId, requestedBy, now, Pending)))];
      return Success(rec);
    }

    method GetConsentStatus(id: string, now: int) returns (r: Option<ConsentRecord>)
      requires Valid()
      modifies this
      ensures Valid()
      ensures var s := StatusStep(old(store), old(users), id, now);
              r == s.out && store == s.store && users == s.users
    {
      var consent := StatusRecord(store, users, id);
      if consent.None? {
        return None;
      }
      var rec := consent.value;
      if now > (if rec.expiresAt.Some? then rec.expiresAt.value else now) && rec.status == Pending {
        rec := rec.(status := Expired);
        store := store[id := rec];
      }
      return Some(rec);
    }

    method Decide(id: string, now: int, d: Decision) returns (r: DecideOutcome)
      requires Valid()
      modifies this
      ensures Valid()
      ensures var s := DecideStep(old(store), old(users), id, now, d);
              r == s.out && store == s.store && users == s.users
    {
      var consent := DecisionRecord(store, users, id);
      if consent.None? {
        return NotFound;
      }
      var rec := consent.value;
      if rec.status != Pending {
        return AlreadyDecided("Consent already " + StatusName(rec.status));
      }
      if d == Approve {
        rec := rec.(status := Approved, approvedAt := Some(now));
      } else {
        rec := rec.(status := Rejected, rejectedAt := Some(now));
      }
      store := store[id := rec];
      users := UpdatePatient(users, rec.patientUserId, id, DecidedStatus(d));
      return Decided(rec);
    }

    method ApproveConsent(id: string, now: int) returns (r: DecideOutcome)
      requires Valid()
      modifies this
      ensures Valid()
      ensures var s := DecideStep(old(store), old(users), id, now, Approve);
              r == s.out && store == s.store && users == s.users
    {
      r := Decide(id, now, Approve);
    }

    method RejectConsent(id: string, now: int) returns (r: DecideOutcome)
      requires Valid()
      modifies this
      ensures Valid()
      ensures var s := DecideStep(old(store), old(users), id, now, Reject);
              r == s.out && store == s.store && users == s.users
    {
      r := Decide(id, now, Reject);
    }
  }
}
