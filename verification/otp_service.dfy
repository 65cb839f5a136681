/** One-time passwords for e-mail login: a six-digit code is issued at most once every thirty
    seconds per address, only its hash is kept, it expires after five minutes, and it is
    consumed by the first successful check. The store holds at most one record per address. */
module OtpService {
  import opened Common
  import opened JsText

  const FiveMinutes: int := 5 * 60 * 1000
  const ResendWait: int := 30 * 1000

  /** `Math.floor(100000 + r * 900000)` written in decimal, for a draw `r` from [0, 1). */
  function GenerateOtp(r: real): (code: string)
    requires 0.0 <= r < 1.0
    ensures |code| == 6 && AllDigits(code) && code[0] != '0'
    ensures 100000 <= DigitsValue(code) <= 999999
  {
    var n := (100000.0 + r * 900000.0).Floor;
    assert 100000 <= n < 1000000 by {
      assert 100000.0 <= 100000.0 + r * 900000.0 < 1000000.0;
    }
    assert Pow10(5) == 100000 && Pow10(6) == 1000000;
    DecimalLength(n, 6);
    DecimalRoundTrip(n);
    DecimalString(n)
  }

  /** The stored record: the code's hash and the two instants that govern it. */
  datatype OtpRecord = OtpRecord(otpHash: string, expiresAt: int, resendAllowedAt: int)

  /** The result of an operation together with the records after it. */
  datatype Step = Step(out: Result<bool, string>, records: map<string, OtpRecord>)

  /** Issuing a code: refused while the address's resend time lies in the future, leaving its
      record as it was; otherwise the address's record (created if absent) is replaced by the
      new code's hash, expiring in five minutes and open to a resend in thirty seconds. */
  function SendStep(records: map<string, OtpRecord>, email: string, code: string, now: int,
                    hash: string -> string): (s: Step)
    ensures s.out.Failure? <==> email in records && records[email].resendAllowedAt > now
    ensures s.out.Failure? ==> s.out.error == "Please wait before requesting another OTP" && s.records == records
    ensures s.out.Success? ==>
              s.out.value && s.records == records[email := OtpRecord(hash(code), now + FiveMinutes, now + ResendWait)]
  {
    if email in records && records[email].resendAllowedAt > now then
      Step(Failure("Please wait before requesting another OTP"), records)
    else
      Step(Success(true), records[email := OtpRecord(hash(code), now + FiveMinutes, now + ResendWait)])
  }

  /** Checking a code, in the source's order: no record, then a wrong code, then expiry (strictly
      after `expiresAt`); each failure leaves the records as they were, and success deletes the
      address's record. */
  function VerifyStep(records: map<string, OtpRecord>, email: string, otp: string, now: int,
                      hash: string -> string): (s: Step)
    ensures email !in records ==> s == Step(Failure("OTP not found or expired"), records)
    ensures email in records && hash(otp) != records[email].otpHash ==> s == Step(Failure("Invalid OTP"), records)
    ensures email in records && hash(otp) == records[email].otpHash && records[email].expiresAt < now ==>
              s == Step(Failure("OTP expired"), records)
    ensures s.out.Success? <==> email in records && hash(otp) == records[email].otpHash && now <= records[email].expiresAt
    ensures s.out.Success? ==> s.out.value && s.records == records - {email}
  {
    if email !in records then Step(Failure("OTP not found or expired"), records)
    else if records[email].otpHash != hash(otp) then Step(Failure("Invalid OTP"), records)
    else if records[email].expiresAt < now then Step(Failure("OTP expired"), records)
    else Step(Success(true), records - {email})
  }

  /** A code just issued verifies at any moment up to and including its expiry, and only for the
      address it was sent to; the record is then gone. */
  lemma SendThenVerify(records: map<string, OtpRecord>, email: string, code: string, now: int, later: int,
                       hash: string -> string)
    requires SendStep(records, email, code, now, hash).out.Success?
    requires later <= now + FiveMinutes
    ensures var s := SendStep(records, email, code, now, hash);
            var v := VerifyStep(s.records, email, code, later, hash);
            v.out == Success(true) && v.records == records - {email}
  {
    var s := SendStep(records, email, code, now, hash);
    assert s.records - {email} == records - {email};
  }

  /** A verified code cannot be used again: the next check reports that there is no code. */
  lemma NoSecondVerify(records: map<string, OtpRecord>, email: string, otp: string, now: int,
                       otp2: string, later: int, hash: string -> string)
    requires VerifyStep(records, email, otp, now, hash).out.Success?
    ensures var v := VerifyStep(records, email, otp, now, hash);
            VerifyStep(v.records, email, otp2, later, hash).out == Failure("OTP not found or expired")
  {
  }

  /** With an injective hash, any code other than the one issued is refused as invalid, even
      after expiry, and the issued record survives the attempt. */
  lemma WrongCodeIsInvalid(records: map<string, OtpRecord>, email: string, code: string, guess: string,
                           now: int, later: int, hash: string -> string)
    requires forall a, b :: hash(a) == hash(b) ==> a == b
    requires SendStep(records, email, code, now, hash).out.Success?
    requires guess != code
    ensures var s := SendStep(records, email, code, now, hash);
            VerifyStep(s.records, email, guess, later, hash) == Step(Failure("Invalid OTP"), s.records)
  {
  }

  /** The right code presented after the five minutes is refused as expired, and the record
      stays. */
  lemma LateCodeExpired(records: map<string, OtpRecord>, email: string, code: string, now: int, later: int,
                        hash: string -> string)
    requires SendStep(records, email, code, now, hash).out.Success?
    requires later > now + FiveMinutes
    ensures var s := SendStep(records, email, code, now, hash);
            VerifyStep(s.records, email, code, later, hash) == Step(Failure("OTP expired"), s.records)
  {
  }

  /** A second request for the same address is refused for thirty seconds after a successful
      one and allowed from then on; refusals never change the records. */
  lemma ResendWindow(records: map<string, OtpRecord>, email: string, code: string, now: int,
                     code2: string, later: int, hash: string -> string)
    requires SendStep(records, email, code, now, hash).out.Success?
    ensures var s := SendStep(records, email, code, now, hash);
            var t := SendStep(s.records, email, code2, later, hash);
            (t.out.Failure? <==> later < now + ResendWait)
            && (t.out.Failure? ==> t.records == s.records)
  {
  }

  /** The per-address code store. */
  class OtpStore {
    var records: map<string, OtpRecord>

    constructor ()
      ensures records == map[]
    {
      records := map[];
    }

    /** Issues a code drawn from `r` for `email`; the e-mail carrying it is left out. */
    method SendOtp(email: string, r: real, now: int, hash: string -> string) returns (out: Result<bool, string>)
      requires 0.0 <= r < 1.0
      modifies this
      ensures var s := SendStep(old(records), email, GenerateOtp(r), now, hash);
              out == s.out && records == s.records
    {
      if email in records && records[email].resendAllowedAt > now {
        return Failure("Please wait before requesting another OTP");
      }
      var otp := GenerateOtp(r);
      records := records[email := OtpRecord(hash(otp), now + FiveMinutes, now + ResendWait)];
      return Success(true);
    }

    method VerifyOtp(email: string, otp: string, now: int, hash: string -> string) returns (out: Result<bool, string>)
      modifies this
      ensures var s := VerifyStep(old(records), email, otp, now, hash);
              out == s.out && records == s.records
    {
      if email !in records {
        return Failure("OTP not found or expired");
      }
      var rec := records[email];
      if rec.otpHash != hash(otp) {
        return Failure("Invalid OTP");
      }
      if rec.expiresAt < now {
        return Failure("OTP expired");
      }
      records := records - {email};
      return Success(true);
    }
  }
}
