/** The HTTP layer over the consent service: an ABHA-id format gate in front of a new request,
    and a fixed mapping from the service's results to status codes. */
module ConsentController {
  import opened Common
  import opened JsText
  import opened Entities
  import opened ConsentService

  /** The status code, the message, and the consent and notification the body carries. */
  datatype Reply = Reply(status: int, message: string, consent: Option<ConsentRecord>, notification: Option<Sms>)

  /** `abhaId` is present and of the form `user@domain`, with no whitespace and exactly one '@'. */
  predicate WellFormedAbha(abhaId: Option<string>) {
    abhaId.Some? && IsAbhaFormat(abhaId.value)
  }

  /** The service call behind a well-formed request: its failure becomes 500 with its
      message, its success 200 with the new consent and its notification. */
  function InitiateReply(store: map<string, ConsentRecord>, users: seq<User>, abhaId: string,
                         requestedBy: string, consentId: string, now: int): (s: Step<Reply>)
    ensures var i := InitiateStep(store, users, abhaId, requestedBy, consentId, now);
            s.store == i.store && s.users == i.users
            && (s.out.status == 500 <==> i.out.Failure?)
            && (s.out.status == 500 ==> s.out.message == i.out.error)
            && (s.out.status != 500 ==> s.out.status == 200 && s.out.consent == Some(i.out.value)
                                        && s.out.notification == Some(SmsNotification(i.out.value)))
  {
    var i := InitiateStep(store, users, abhaId, requestedBy, consentId, now);
    match i.out
    case Failure(e) => Step(Reply(500, e, None, None), i.store, i.users)
    case Success(rec) =>
      Step(Reply(200, "Consent request initiated successfully", Some(rec), Some(SmsNotification(rec))), i.store, i.users)
  }

  /** Requesting consent: a missing or malformed ABHA id is refused with 400 before the store
      or the users are touched; otherwise the reply and the new state are the service call's. */
  function RequestConsent(store: map<string, ConsentRecord>, users: seq<User>, abhaId: Option<string>,
                          requestedBy: string, consentId: string, now: int): (s: Step<Reply>)
    ensures s.out.status == 400 <==> !WellFormedAbha(abhaId)
    ensures s.out.status == 400 ==> s.store == store && s.users == users
    ensures s.out.status != 400 ==> s == InitiateReply(store, users, abhaId.value, requestedBy, consentId, now)
  {
    if !WellFormedAbha(abhaId) then
      Step(Reply(400, "Invalid ABHA ID format. Expected format: user@abha or user@domain.com", None, None), store, users)
    else InitiateReply(store, users, abhaId.value, requestedBy, consentId, now)
  }

  /** The gate in words: a request is refused with 400, leaving everything as it was, exactly
      when the ABHA id is missing or is not one non-empty part, an '@', and another non-empty
      part, with no whitespace and no further '@'. */
  lemma RequestGate(store: map<string, ConsentRecord>, users: seq<User>, abhaId: Option<string>,
                    requestedBy: string, consentId: string, now: int)
    ensures var s := RequestConsent(store, users, abhaId, requestedBy, consentId, now);
            (s.out.status == 400 <==> abhaId.None? || !IsUserAtDomain(abhaId.value))
            && (s.out.status == 400 ==> s.store == store && s.users == users)
  {
    if abhaId.Some? { AbhaFormatMeaning(abhaId.value); }
  }

  /** The status endpoint: 404 when the service finds nothing, else 200 with the consent. */
  function StatusReply(out: Option<ConsentRecord>): (r: Reply)
    ensures r.status == 404 <==> out.None?
    ensures r.status == 200 <==> out.Some?
    ensures out.Some? ==> r.consent == out
  {
    match out
    case None => Reply(404, "Consent request not found", None, None)
    case Some(c) => Reply(200, "", Some(c), None)
  }

  /** Approval and rejection: 404 for no consent, 400 carrying the service's error, and 200
      echoing the decided consent otherwise. */
  function DecisionReply(out: DecideOutcome, d: Decision): (r: Reply)
    ensures r.status == 404 <==> out.NotFound?
    ensures r.status == 400 <==> out.AlreadyDecided?
    ensures r.status == 200 <==> out.Decided?
    ensures out.AlreadyDecided? ==> r.message == out.error
    ensures out.Decided? ==> r.consent == Some(out.consent)
  {
    match out
    case NotFound => Reply(404, "Consent request not found", None, None)
    case AlreadyDecided(e) => Reply(400, e, None, None)
    case Decided(c) =>
      Reply(200, if d == Approve then "Consent approved successfully" else "Consent rejected", Some(c), None)
  }

  /** Approving a consent that was just approved or rejected is answered 400 with the status it
      already has; the second call changes nothing. */
  lemma SecondDecisionIs400(store: map<string, ConsentRecord>, users: seq<User>, id: string,
                            now: int, d: Decision, later: int, d2: Decision)
    requires DecideStep(store, users, id, now, d).out.Decided?
    ensures var s := DecideStep(store, users, id, now, d);
            var t := DecideStep(s.store, s.users, id, later, d2);
            DecisionReply(s.out, d).status == 200
            && DecisionReply(t.out, d2) ==
                 Reply(400, "Consent already " + StatusName(DecidedStatus(d)), None, None)
            && t.store == s.store && t.users == s.users
  {
    NoSecondDecision(store, users, id, now, d, later, d2);
  }

  /** A consent the status check has marked expired is answered 400 "Consent already expired"
      by both approval and rejection. */
  lemma ExpiredDecisionIs400(store: map<string, ConsentRecord>, users: seq<User>, id: string,
                             now: int, later: int, d: Decision)
    requires id in store && DueToExpire(store[id], now)
    ensures var s := StatusStep(store, users, id, now);
            StatusReply(s.out).status == 200 && StatusReply(s.out).consent.value.status == Expired
            && DecisionReply(DecideStep(s.store, s.users, id, later, d).out, d).status == 400
  {
    ExpiryBlocksDecision(store, users, id, now, later, d);
  }
}
