/** The one-time-password service (otp_service.py): an in-memory store from
    e-mail address to a six-digit code and its expiry instant, with
    overwrite-on-send, single-use verification and removal of expired codes.
    The clock is an integer count of microseconds, as `datetime` resolves it;
    the random digits are a parameter. */
module OtpService {
  import opened Text

  const OtpDigits: nat := 6

  /** Five minutes, in microseconds. */
  const ExpiryMicros: int := 5 * 60 * 1000000

  const NoOtpMessage: string := "No OTP found for this email"
  const ExpiredMessage: string := "OTP has expired"
  const InvalidMessage: string := "Invalid OTP"
  const VerifiedMessage: string := "OTP verified successfully"

  datatype Entry = Entry(otp: string, expires: int)

  /** The `{'success': ..., 'message': ...}` dictionary a call returns. */
  datatype Outcome = Outcome(success: bool, message: string)

  /** Six draws from `string.digits`, each an index below ten. */
  predicate ValidDraws(draws: seq<nat>) {
    |draws| == OtpDigits && forall i :: 0 <= i < |draws| ==> draws[i] < 10
  }

  /** `generate_otp`: the drawn digits joined into one string. */
  function GenerateOtp(draws: seq<nat>): (otp: string)
    requires ValidDraws(draws)
    ensures |otp| == OtpDigits && IsDigits(otp)
    ensures forall i :: 0 <= i < OtpDigits ==> DigitValue(otp[i]) == draws[i]
  {
    seq(OtpDigits, i requires 0 <= i < OtpDigits => DigitChar(draws[i]))
  }

  /** Every six-digit code, leading zeros included, is a possible draw. */
  lemma EveryCodeCanBeDrawn(code: string)
    requires |code| == OtpDigits && IsDigits(code)
    ensures exists draws :: ValidDraws(draws) && GenerateOtp(draws) == code
  {
    var draws := seq(OtpDigits, i requires 0 <= i < OtpDigits => DigitValue(code[i]));
    assert ValidDraws(draws);
    assert GenerateOtp(draws) == code;
  }

  /** The entries `cleanup_expired` keeps: those whose expiry is not before `now`. */
  function Unexpired(m: map<string, Entry>, now: int): (r: map<string, Entry>)
    ensures forall e :: e in r <==> e in m && now <= m[e].expires
    ensures forall e :: e in r ==> r[e] == m[e]
  {
    map e | e in m && !(now > m[e].expires) :: m[e]
  }

  /** Cleaning twice at the same instant removes nothing more. */
  lemma UnexpiredIdempotent(m: map<string, Entry>, now: int)
    ensures Unexpired(Unexpired(m, now), now) == Unexpired(m, now)
  {
  }

  /** A later cleanup keeps no more than an earlier one. */
  lemma UnexpiredMonotone(m: map<string, Entry>, t1: int, t2: int)
    requires t1 <= t2
    ensures Unexpired(Unexpired(m, t1), t2) == Unexpired(m, t2)
  {
  }

  class OtpStore {
    var store: map<string, Entry>

    /** Every stored code has six digits. */
    ghost predicate Valid()
      reads this
    {
      forall e :: e in store ==> |store[e].otp| == OtpDigits && IsDigits(store[e].otp)
    }

    constructor ()
      ensures Valid() && store == map[]
    {
      store := map[];
    }

    /** `send_otp`: a fresh code for `email` replaces any earlier one and
        expires five minutes after `now`; other addresses keep theirs. The
        code is also returned, as `otp_demo`. */
    method SendOtp(email: string, draws: seq<nat>, now: int)
      returns (success: bool, message: string, otpDemo: string)
      requires Valid() && ValidDraws(draws)
      modifies this
      ensures Valid()
      ensures otpDemo == GenerateOtp(draws)
      ensures store == old(store)[email := Entry(otpDemo, now + ExpiryMicros)]
      ensures success && message == "OTP sent to " + email
    {
      otpDemo := GenerateOtp(draws);
      store := store[email := Entry(otpDemo, now + ExpiryMicros)];
      success, message := true, "OTP sent to " + email;
    }

    /** `verify_otp`. An unknown address fails and changes nothing. A code
        whose expiry lies before `now` is removed and fails; a code expiring
        exactly at `now` still counts. A wrong code fails and stays stored. The
        right code succeeds and is removed, so it works once. */
    method VerifyOtp(email: string, otp: string, now: int) returns (r: Outcome)
      requires Valid()
      modifies this
      ensures Valid()
      ensures r.success <==> email in old(store) && now <= old(store)[email].expires && old(store)[email].otp == otp
      ensures email !in old(store) ==> r == Outcome(false, NoOtpMessage) && store == old(store)
      ensures email in old(store) && now > old(store)[email].expires ==>
        r == Outcome(false, ExpiredMessage) && store == old(store) - {email}
      ensures email in old(store) && now <= old(store)[email].expires && old(store)[email].otp != otp ==>
        r == Outcome(false, InvalidMessage) && store == old(store)
      ensures email in old(store) && now <= old(store)[email].expires && old(store)[email].otp == otp ==>
        r == Outcome(true, VerifiedMessage) && store == old(store) - {email}
    {
      if email !in store {
        return Outcome(false, NoOtpMessage);
      }
      var stored := store[email];
      if now > stored.expires {
        store := store - {email};
        return Outcome(false, ExpiredMessage);
      }
      if stored.otp != otp {
        return Outcome(false, InvalidMessage);
      }
      store := store - {email};
      return Outcome(true, VerifiedMessage);
    }

    /** `cleanup_expired`: collect the addresses whose code expired before
        `now`, then delete them one by one. Exactly the unexpired entries
        remain, unchanged. */
    method CleanupExpired(now: int)
      requires Valid()
      modifies this
      ensures Valid()
      ensures store == Unexpired(old(store), now)
    {
      var expired := set e | e in store && now > store[e].expires;
      ghost var all := expired;
      while expired != {}
        invariant expired <= all
        invariant store == old(store) - (all - expired)
        invariant all == set e | e in old(store) && now > old(store)[e].expires
        decreases |expired|
      {
        var e :| e in expired;
        store := store - {e};
        expired := expired - {e};
      }
      assert store == old(store) - all;
    }
  }

  // ---------------------------------------------------------------------------
  // Sessions

  /** A code verifies once; a second attempt finds nothing. */
  method OneTimeUse(email: string, draws: seq<nat>, now: int, delay: nat)
    returns (code: string, first: Outcome, second: Outcome)
    requires ValidDraws(draws) && delay <= ExpiryMicros
    ensures first == Outcome(true, VerifiedMessage)
    ensures second == Outcome(false, NoOtpMessage)
  {
    var s := new OtpStore();
    var _, _, c := s.SendOtp(email, draws, now);
    code := c;
    first := s.VerifyOtp(email, code, now + delay);
    second := s.VerifyOtp(email, code, now + delay);
  }

  /** A wrong code is refused but keeps the entry, so the right code still works. */
  method WrongThenRight(email: string, draws: seq<nat>, wrong: string, now: int)
    returns (first: Outcome, second: Outcome)
    requires ValidDraws(draws) && wrong != GenerateOtp(draws)
    ensures first == Outcome(false, InvalidMessage)
    ensures second == Outcome(true, VerifiedMessage)
  {
    var s := new OtpStore();
    var _, _, code := s.SendOtp(email, draws, now);
    first := s.VerifyOtp(email, wrong, now);
    second := s.VerifyOtp(email, code, now);
  }

  /** A code is good up to and including its expiry instant. One microsecond
      later it is refused as expired and removed. */
  method ExpiryBoundary(email: string, draws: seq<nat>, now: int)
    returns (atExpiry: Outcome, late: Outcome, afterLate: Outcome)
    requires ValidDraws(draws)
    ensures atExpiry == Outcome(true, VerifiedMessage)
    ensures late == Outcome(false, ExpiredMessage)
    ensures afterLate == Outcome(false, NoOtpMessage)
  {
    var s := new OtpStore();
    var _, _, code := s.SendOtp(email, draws, now);
    atExpiry := s.VerifyOtp(email, code, now + ExpiryMicros);
    var _, _, code2 := s.SendOtp(email, draws, now);
    late := s.VerifyOtp(email, code2, now + ExpiryMicros + 1);
    afterLate := s.VerifyOtp(email, code2, now + ExpiryMicros + 1);
  }

  /** Sending again replaces the code: only the newer one is accepted. */
  method ResendReplaces(email: string, d1: seq<nat>, d2: seq<nat>, now: int)
    returns (old1: Outcome, new2: Outcome)
    requires ValidDraws(d1) && ValidDraws(d2) && GenerateOtp(d1) != GenerateOtp(d2)
    ensures old1 == Outcome(false, InvalidMessage)
    ensures new2 == Outcome(true, VerifiedMessage)
  {
    var s := new OtpStore();
    var _, _, c1 := s.SendOtp(email, d1, now);
    var _, _, c2 := s.SendOtp(email, d2, now + 1);
    old1 := s.VerifyOtp(email, c1, now + 1);
    new2 := s.VerifyOtp(email, c2, now + 1);
  }

  /** Cleanup keeps a code that has not yet expired and drops one that has. */
  method CleanupKeepsFresh(a: string, b: string, da: seq<nat>, db: seq<nat>, now: int)
    returns (keptA: bool, keptB: bool)
    requires ValidDraws(da) && ValidDraws(db) && a != b
    ensures !keptA && keptB
  {
    var s := new OtpStore();
    var _, _, _ := s.SendOtp(a, da, now);
    var _, _, _ := s.SendOtp(b, db, now + ExpiryMicros);
    s.CleanupExpired(now + ExpiryMicros + 1);
    keptA, keptB := a in s.store, b in s.store;
  }
}
