/** The enrollment page (frontend/src/pages/Signup.jsx): ten voice samples
    collected slot by slot behind a clamped cursor, live validation of the
    username and e-mail address, and a fail-fast submission. */
module Signup {
  import opened Text
  import opened AudioRecorder

  const RequiredSamples: nat := 10
  const LastStep: nat := RequiredSamples - 1

  const MissingSamplesError: string := "Please record all samples."
  const InvalidEmailError: string := "Please enter a valid email address."
  const SignupFailedError: string := "Signup failed. Please try again."

  // ---------------------------------------------------------------------------
  // The e-mail pattern /^[^\s@]+@[^\s@]+\.[^\s@]+$/

  /** A character of the class `[^\s@]`. */
  predicate IsAddressChar(c: char) {
    !IsJsSpace(c) && c != '@'
  }

  predicate AllAddressChars(s: string) {
    forall k :: 0 <= k < |s| ==> IsAddressChar(s[k])
  }

  /** `s` splits at `@` position `i` and `.` position `j` into three non-empty
      runs of `[^\s@]`, which is what the anchored pattern asks. */
  predicate EmailSplit(s: string, i: int, j: int) {
    && 0 < i && i + 1 < j && j + 1 < |s|
    && s[i] == '@' && s[j] == '.'
    && AllAddressChars(s[..i]) && AllAddressChars(s[i + 1..j]) && AllAddressChars(s[j + 1..])
  }

  /** The pattern, stated as the regular-expression engine reads it. */
  ghost predicate MatchesEmailPattern(s: string) {
    exists i, j :: EmailSplit(s, i, j)
  }

  /** The domain after the `@`: no space or `@`, and a dot that is neither its
      first nor its last character. */
  predicate DomainValid(d: string) {
    |d| >= 3 && AllAddressChars(d) && '.' in d[1..|d| - 1]
  }

  /** `emailRegex.test(email)`, computed by splitting at the first `@`: a
      valid address has exactly one `@`, and not in front. */
  function EmailValid(s: string): (ok: bool)
    ensures ok ==> |s| > 0 && s[0] != '@'
    ensures ok ==> exists k :: 0 <= k < |s| && s[k] == '@' && forall j :: 0 <= j < |s| && j != k ==> s[j] != '@'
  {
    var at := Find(s, '@');
    var valid := 0 < at < |s| && AllAddressChars(s[..at]) && DomainValid(s[at + 1..]);
    assert valid ==> forall j :: at < j < |s| ==> s[j] == s[at + 1..][j - at - 1];
    valid
  }

  /** The one-pass computation decides exactly the regular expression. */
  lemma EmailValidIff(s: string)
    ensures EmailValid(s) <==> MatchesEmailPattern(s)
  {
    if EmailValid(s) {
      EmailValidMatches(s);
    }
    if MatchesEmailPattern(s) {
      var i, j :| EmailSplit(s, i, j);
      SplitIsValid(s, i, j);
    }
  }

  lemma EmailValidMatches(s: string)
    requires EmailValid(s)
    ensures MatchesEmailPattern(s)
  {
    var at := Find(s, '@');
    var d := s[at + 1..];
    var k :| 0 <= k < |d| - 2 && d[1..|d| - 1][k] == '.';
    var j := at + 2 + k;
    assert s[j] == '.';
    assert s[at + 1..j] == d[..k + 1];
    assert s[j + 1..] == d[k + 2..];
    assert EmailSplit(s, at, j);
  }

  lemma SplitIsValid(s: string, i: int, j: int)
    requires EmailSplit(s, i, j)
    ensures EmailValid(s)
  {
    assert Find(s, '@') == i by {
      assert forall k :: 0 <= k < i ==> s[k] == s[..i][k];
    }
    var d := s[i + 1..];
    assert AllAddressChars(d) by {
      forall k | 0 <= k < |d| ensures IsAddressChar(d[k]) {
        if k < j - i - 1 {
          assert d[k] == s[i + 1..j][k];
        } else if k > j - i - 1 {
          assert d[k] == s[j + 1..][k - (j - i)];
        }
      }
    }
    assert d[1..|d| - 1][j - i - 2] == '.';
  }

  /** What the pattern refuses: an address with no `@`, with two `@`, with a
      space anywhere, or starting with `@`. */
  lemma EmailRefusals(s: string)
    ensures (forall k :: 0 <= k < |s| ==> s[k] != '@') ==> !EmailValid(s)
    ensures (exists k1, k2 :: 0 <= k1 < k2 < |s| && s[k1] == '@' && s[k2] == '@') ==> !EmailValid(s)
    ensures (exists k :: 0 <= k < |s| && IsJsSpace(s[k])) ==> !EmailValid(s)
    ensures |s| > 0 && s[0] == '@' ==> !EmailValid(s)
  {
    var at := Find(s, '@');
    if EmailValid(s) {
      var d := s[at + 1..];
      assert forall k :: 0 <= k < |s| && k != at ==> IsAddressChar(s[k]) by {
        forall k | 0 <= k < |s| && k != at ensures IsAddressChar(s[k]) {
          if k < at {
            assert s[k] == s[..at][k];
          } else {
            assert s[k] == d[k - at - 1];
          }
        }
      }
    }
  }

  /** `validateCredentials`: the trimmed username is non-empty and the e-mail
      matches the pattern. */
  function CredentialsValid(username: string, email: string): (ok: bool)
    ensures ok <==> (exists k :: 0 <= k < |username| && !IsJsSpace(username[k])) && MatchesEmailPattern(email)
  {
    TrimEmptyIff(username);
    EmailValidIff(email);
    JsTrim(username) != "" && EmailValid(email)
  }

  // ---------------------------------------------------------------------------
  // Filled slots and progress

  function FilledCount(s: seq<Option<Blob>>): (n: nat)
    ensures n <= |s|
    ensures n == |s| <==> forall k :: 0 <= k < |s| ==> s[k].Some?
    ensures n == 0 <==> forall k :: 0 <= k < |s| ==> s[k].None?
    decreases |s|
  {
    if s == [] then 0
    else
      var n := FilledCount(s[..|s| - 1]) + (if s[|s| - 1].Some? then 1 else 0);
      assert forall k :: 0 <= k < |s| - 1 ==> s[k] == s[..|s| - 1][k];
      n
  }

  predicate AllFilled(s: seq<Option<Blob>>) {
    forall k :: 0 <= k < |s| ==> s[k].Some?
  }

  /** `progress`: the percentage of slots that hold a sample. */
  function Progress(s: seq<Option<Blob>>): (p: real)
    requires |s| == RequiredSamples
    ensures 0.0 <= p <= 100.0
    ensures p == 100.0 <==> AllFilled(s)
    ensures p == 0.0 <==> forall k :: 0 <= k < |s| ==> s[k].None?
  {
    FilledCount(s) as real / RequiredSamples as real * 100.0
  }

  /** The "Complete Enrollment" button exists only at the last step, inside the
      section shown for valid credentials, and is enabled only when every slot
      is filled, nothing is in flight, and both fields are non-empty. */
  function SubmitEnabled(s: seq<Option<Blob>>, step: nat, loading: bool, valid: bool, user: string, email: string): (b: bool)
    ensures b ==> FilledCount(s) == |s|
    ensures b && |s| == RequiredSamples ==> Progress(s) == 100.0
  {
    valid && step == LastStep && AllFilled(s) && !loading && user != "" && email != ""
  }

  /** A submission the page offers always passes both of `handleSubmit`'s
      checks, so it reaches the server. */
  lemma EnabledSubmitPassesChecks(s: seq<Option<Blob>>, step: nat, loading: bool, username: string, email: string)
    requires SubmitEnabled(s, step, loading, CredentialsValid(username, email), username, email)
    ensures AllFilled(s) && EmailValid(email)
  {
  }

  // ---------------------------------------------------------------------------
  // The page

  /** What `signup(username, samples, email)` was called with. */
  datatype SignupRequest = SignupRequest(username: string, samples: seq<Option<Blob>>, email: string)

  /** The server's answer to the enrollment request: success, or a failure
      carrying `err.response?.data?.error`. */
  datatype SignupOutcome = SignupOk | SignupError(error: Option<string>)

  datatype SubmitResult = MissingSamples | InvalidEmail | Enrolled | EnrollFailed

  class Enrollment {
    const samples: array<Option<Blob>>
    var currentStep: nat
    var username: string
    var email: string
    var loading: bool
    var error: string
    var isCredentialsValid: bool
    /** Every call made to `signup`, oldest first. */
    var requests: seq<SignupRequest>
    var navigatedToLogin: bool

    ghost predicate Valid()
      reads this
    {
      samples.Length == RequiredSamples && currentStep < RequiredSamples
    }

    /** The page starts with ten empty slots at step 0. */
    constructor ()
      ensures Valid() && fresh(samples)
      ensures forall k :: 0 <= k < samples.Length ==> samples[k] == None
      ensures currentStep == 0 && username == "" && email == "" && error == ""
      ensures !loading && !isCredentialsValid && requests == [] && !navigatedToLogin
    {
      samples := new Option<Blob>[RequiredSamples](_ => None);
      currentStep := 0;
      username, email, error := "", "", "";
      loading, isCredentialsValid := false, false;
      requests, navigatedToLogin := [], false;
    }

    /** `validateCredentials`, run by the effect on every username or e-mail change. */
    method ValidateCredentials() returns (ok: bool)
      modifies this`isCredentialsValid
      ensures ok == CredentialsValid(username, email) && isCredentialsValid == ok
    {
      ok := JsTrim(username) != "" && EmailValid(email);
      isCredentialsValid := ok;
    }

    method SetUsername(u: string)
      modifies this`username, this`isCredentialsValid
      ensures username == u && isCredentialsValid == CredentialsValid(u, email)
    {
      username := u;
      var _ := ValidateCredentials();
    }

    method SetEmail(e: string)
      modifies this`email, this`isCredentialsValid
      ensures email == e && isCredentialsValid == CredentialsValid(username, e)
    {
      email := e;
      var _ := ValidateCredentials();
    }

    /** `handleRecordingComplete`: the recorder's blob (or `null` after "Record
        Again") goes into the slot under the cursor and nowhere else. */
    method RecordingComplete(blob: Option<Blob>)
      requires Valid()
      modifies samples
      ensures samples[..] == old(samples[..])[currentStep := blob]
    {
      samples[currentStep] := blob;
    }

    /** `handleNext`: advance, clamped at the last slot, only past a filled slot. */
    method Next()
      requires Valid()
      modifies this`currentStep
      ensures Valid()
      ensures samples[old(currentStep)].Some? ==> currentStep == if old(currentStep) < LastStep then old(currentStep) + 1 else LastStep
      ensures samples[old(currentStep)].None? ==> currentStep == old(currentStep)
    {
      if samples[currentStep].Some? {
        currentStep := if currentStep + 1 < LastStep then currentStep + 1 else LastStep;
      }
    }

    /** `handlePrev`: step back, clamped at the first slot. */
    method Prev()
      requires Valid()
      modifies this`currentStep
      ensures Valid()
      ensures currentStep == if old(currentStep) > 0 then old(currentStep) - 1 else 0
    {
      currentStep := if currentStep > 0 then currentStep - 1 else 0;
    }

    /** `handleSubmit`. It refuses, without calling the server, when a slot is
        empty (checked first) or when the e-mail does not match the pattern;
        otherwise it calls `signup` once and goes to the login page on success. */
    method Submit(outcome: SignupOutcome) returns (result: SubmitResult)
      requires Valid()
      modifies this`loading, this`error, this`requests, this`navigatedToLogin
      ensures !AllFilled(old(samples[..])) ==>
        result == MissingSamples && error == MissingSamplesError
        && requests == old(requests) && loading == old(loading) && navigatedToLogin == old(navigatedToLogin)
      ensures AllFilled(old(samples[..])) && !EmailValid(email) ==>
        result == InvalidEmail && error == InvalidEmailError
        && requests == old(requests) && loading == old(loading) && navigatedToLogin == old(navigatedToLogin)
      ensures AllFilled(old(samples[..])) && EmailValid(email) ==>
        && requests == old(requests) + [SignupRequest(username, samples[..], email)]
        && !loading
        && (outcome.SignupOk? ==> result == Enrolled && error == "" && navigatedToLogin)
        && (outcome.SignupError? ==>
              result == EnrollFailed && error == OrDefault(outcome.error, SignupFailedError)
              && navigatedToLogin == old(navigatedToLogin))
    {
      if exists k :: 0 <= k < samples.Length && samples[k].None? {
        error := MissingSamplesError;
        return MissingSamples;
      }
      if !EmailValid(email) {
        error := InvalidEmailError;
        return InvalidEmail;
      }
      loading := true;
      error := "";
      requests := requests + [SignupRequest(username, samples[..], email)];
      match outcome {
        case SignupOk =>
          navigatedToLogin := true;
          result := Enrolled;
        case SignupError(e) =>
          error := OrDefault(e, SignupFailedError);
          result := EnrollFailed;
      }
      loading := false;
    }
  }

  /** Enrollment: ten samples recorded one per step, then submitted. With a
      valid e-mail the one request carries the ten samples in slot order and
      the page moves on to the login page on success; with an invalid one no
      request is made. The progress bar is full either way. */
  method EnrollTenSamples(username: string, email: string, blobs: seq<Blob>, outcome: SignupOutcome)
    returns (result: SubmitResult, requests: seq<SignupRequest>, progress: real)
    requires |blobs| == RequiredSamples
    ensures progress == 100.0
    ensures !EmailValid(email) ==> result == InvalidEmail && requests == []
    ensures EmailValid(email) ==>
      && |requests| == 1 && requests[0].username == username && requests[0].email == email
      && |requests[0].samples| == RequiredSamples
      && (forall i :: 0 <= i < RequiredSamples ==> requests[0].samples[i] == Some(blobs[i]))
      && (outcome.SignupOk? ==> result == Enrolled)
      && (outcome.SignupError? ==> result == EnrollFailed)
  {
    var page := new Enrollment();
    page.SetUsername(username);
    page.SetEmail(email);
    var k := 0;
    while k < RequiredSamples
      invariant 0 <= k <= RequiredSamples
      invariant page.Valid()
      invariant page.currentStep == if k < RequiredSamples then k else LastStep
      invariant forall i :: 0 <= i < k ==> page.samples[i] == Some(blobs[i])
      invariant page.username == username && page.email == email && page.requests == []
    {
      page.RecordingComplete(Some(blobs[k]));
      page.Next();
      k := k + 1;
    }
    progress := Progress(page.samples[..]);
    result := page.Submit(outcome);
    requests := page.requests;
  }

  /** Submitting with one slot still empty is refused before any server call. */
  method SubmitTooEarly(username: string, email: string, blob: Blob)
    returns (result: SubmitResult, calls: nat, message: string)
    ensures result == MissingSamples && calls == 0 && message == MissingSamplesError
  {
    var page := new Enrollment();
    page.SetUsername(username);
    page.SetEmail(email);
    page.RecordingComplete(Some(blob));
    assert page.samples[1] == None;
    result := page.Submit(SignupOk);
    calls := |page.requests|;
    message := page.error;
  }
}
