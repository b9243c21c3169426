/** The login page (frontend/src/pages/Login.jsx): a voice check, then an OTP
    dialog backed by send-otp and verify-otp, then a second voice check whose
    score travels with the navigation to the dashboard. */
module Login {
  import opened Text
  import opened AudioRecorder

  const OtpLength: nat := 6

  const MissingInputError: string := "Please provide username and record audio."
  const AuthFailedError: string := "Authentication failed."
  const LoginFailedError: string := "Login failed. Please try again."
  const InvalidOtpError: string := "Invalid OTP."

  // ---------------------------------------------------------------------------
  // The OTP field: value.replace(/\D/g, '').slice(0, 6)

  /** `s` with every character that is not an ASCII digit removed. */
  function KeepDigits(s: string): (r: string)
    ensures IsDigits(r) && |r| <= |s|
    decreases |s|
  {
    if s == [] then []
    else (if IsDigit(s[0]) then [s[0]] else []) + KeepDigits(s[1..])
  }

  /** Whatever is typed or pasted, the field keeps the first six digits. */
  function SanitizeOtp(s: string): (r: string)
    ensures IsDigits(r) && |r| <= OtpLength
    ensures |r| <= |KeepDigits(s)| && r == KeepDigits(s)[..|r|]
    ensures |r| == OtpLength || r == KeepDigits(s)
  {
    var d := KeepDigits(s);
    if |d| <= OtpLength then d else d[..OtpLength]
  }

  /** The sanitiser is idempotent. */
  lemma SanitizeIdempotent(s: string)
    ensures SanitizeOtp(SanitizeOtp(s)) == SanitizeOtp(s)
  {
    KeepDigitsOfDigits(SanitizeOtp(s));
  }

  /** The sanitiser leaves a value untouched exactly when it is at most six
      digits. */
  lemma SanitizeFixedIff(s: string)
    ensures SanitizeOtp(s) == s <==> IsDigits(s) && |s| <= OtpLength
  {
    if IsDigits(s) {
      KeepDigitsOfDigits(s);
    }
  }

  /** Digits alone are kept as they are. */
  lemma {:induction false} KeepDigitsOfDigits(s: string)
    requires IsDigits(s)
    ensures KeepDigits(s) == s
    decreases |s|
  {
    if s != [] {
      KeepDigitsOfDigits(s[1..]);
      assert [s[0]] + s[1..] == s;
    }
  }

  /** Keeping digits distributes over concatenation, so separators between
      digit groups disappear. */
  lemma {:induction false} KeepDigitsAppend(a: string, b: string)
    ensures KeepDigits(a + b) == KeepDigits(a) + KeepDigits(b)
    decreases |a|
  {
    if a == [] {
      assert a + b == b;
    } else {
      var head := if IsDigit(a[0]) then [a[0]] else [];
      assert (a + b)[0] == a[0];
      assert (a + b)[1..] == a[1..] + b;
      KeepDigitsAppend(a[1..], b);
      calc {
        KeepDigits(a + b);
        head + KeepDigits(a[1..] + b);
        head + (KeepDigits(a[1..]) + KeepDigits(b));
        (head + KeepDigits(a[1..])) + KeepDigits(b);
        KeepDigits(a) + KeepDigits(b);
      }
    }
  }

  /** The field's sanitising expression turns two digit groups with a
      non-digit between them, such as "482 913", into the six digits alone.
      The input's `maxLength` of 6 cuts such a paste to six characters before
      the expression sees it, so on the page the code does not arrive whole
      (see `SeparatedCodeDisablesSubmit`). */
  lemma SanitizeGroupedCode(a: string, sep: char, b: string)
    requires IsDigits(a) && IsDigits(b) && |a| + |b| == OtpLength && !IsDigit(sep)
    ensures SanitizeOtp(a + [sep] + b) == a + b
  {
    SeparatorDropped(a, sep, b);
  }

  lemma {:induction false} SeparatorDropped(a: string, sep: char, b: string)
    requires IsDigits(a) && IsDigits(b) && !IsDigit(sep)
    ensures KeepDigits(a + [sep] + b) == a + b
    decreases |a|
  {
    var s := a + [sep] + b;
    if a == [] {
      assert s[1..] == b;
      KeepDigitsOfDigits(b);
    } else {
      assert s[0] == a[0];
      assert s[1..] == a[1..] + [sep] + b;
      SeparatorDropped(a[1..], sep, b);
      assert [a[0]] + (a[1..] + b) == a + b;
    }
  }

  /** The "Complete Login" button: exactly six digits and nothing in flight. */
  function OtpSubmitEnabled(otp: string, otpLoading: bool): (b: bool)
    ensures otpLoading ==> !b
    ensures b && IsDigits(otp) ==> SanitizeOtp(otp) == otp
  {
    SanitizeFixedIff(otp);
    |otp| == OtpLength && !otpLoading
  }

  /** The sanitised field enables submission exactly when at least six digits
      were entered. */
  lemma OtpSubmitEnabledIff(s: string)
    ensures OtpSubmitEnabled(SanitizeOtp(s), false) <==> |KeepDigits(s)| >= OtpLength
  {
  }

  /** Dropping a non-digit shortens the text. */
  lemma {:induction false} KeepDigitsDropsNonDigit(s: string, k: nat)
    requires k < |s| && !IsDigit(s[k])
    ensures |KeepDigits(s)| < |s|
    decreases |s|
  {
    if k > 0 {
      assert s[1..][k - 1] == s[k];
      KeepDigitsDropsNonDigit(s[1..], k - 1);
    }
  }

  /** What the field can hold is at most six characters, so a value with a
      separator in it keeps fewer than six digits and cannot be submitted. */
  lemma SeparatedCodeDisablesSubmit(s: string, k: nat)
    requires |s| <= OtpLength && k < |s| && !IsDigit(s[k])
    ensures !OtpSubmitEnabled(SanitizeOtp(s), false)
  {
    KeepDigitsDropsNonDigit(s, k);
  }

  /** The "Authenticate" button: a non-empty username, a recording, not loading. */
  function LoginEnabled(username: string, audio: Option<Blob>, loading: bool): (b: bool)
    ensures b ==> !(username == "" || audio.None?)
    ensures loading ==> !b
  {
    username != "" && audio.Some? && !loading
  }

  // ---------------------------------------------------------------------------
  // Server replies and calls

  /** The outcome of `login(username, audioBlob)`: a 2xx body, or a thrown error
      with `err.response?.data?.message`. A failed voice match is answered with
      status 401 and so arrives as `VoiceError`. */
  datatype VoiceReply =
    | VoiceOk(success: bool, score: Option<real>, message: Option<string>)
    | VoiceError(message: Option<string>)

  /** The outcome of the send-otp request, whose body the page ignores. */
  datatype SendReply = Sent | SendError(message: Option<string>)

  /** The outcome of the verify-otp request. */
  datatype VerifyReply =
    | VerifyOk(success: bool, message: Option<string>)
    | VerifyError(message: Option<string>)

  datatype Call =
    | VoiceLogin(username: string, audio: Option<Blob>)
    | SendOtp(username: string)
    | VerifyOtp(username: string, otp: string)

  /** `navigate('/dashboard', { state: { username, score } })`. */
  datatype Navigation = Navigation(username: string, score: Option<real>)

  class LoginPage {
    var username: string
    var audio: Option<Blob>
    var loading: bool
    var error: string
    var showOtpModal: bool
    var otp: string
    var otpLoading: bool
    var navigation: Option<Navigation>
    /** Every request sent to the server, oldest first. */
    var calls: seq<Call>

    /** Between handlers both loading flags are off and the OTP field holds at
        most six digits. */
    ghost predicate Valid()
      reads this
    {
      !loading && !otpLoading && IsDigits(otp) && |otp| <= OtpLength
    }

    constructor ()
      ensures Valid()
      ensures username == "" && audio == None && error == "" && !showOtpModal && otp == ""
      ensures navigation == None && calls == []
    {
      username, audio, loading, error := "", None, false, "";
      showOtpModal, otp, otpLoading := false, "", false;
      navigation, calls := None, [];
    }

    method SetUsername(u: string)
      modifies this`username
      ensures username == u
    {
      username := u;
    }

    /** The recorder's `onRecordingComplete` is `setAudioBlob`. */
    method RecordingComplete(blob: Option<Blob>)
      modifies this`audio
      ensures audio == blob
    {
      audio := blob;
    }

    /** The OTP input's `onChange`. Its `maxLength` of 6 means the browser
        never hands it a longer value. */
    method TypeOtp(raw: string)
      requires Valid() && |raw| <= OtpLength
      modifies this`otp
      ensures Valid()
      ensures otp == SanitizeOtp(raw)
    {
      otp := SanitizeOtp(raw);
    }

    /** The dialog's "Cancel" button closes it and keeps everything else. */
    method CancelOtp()
      modifies this`showOtpModal
      ensures !showOtpModal
    {
      showOtpModal := false;
    }

    /** `handleLogin`. Without a username or a recording it only sets an error.
        Otherwise it asks for a voice check; a successful one opens the OTP
        dialog first and then requests the OTP, and a failure of that request
        is shown inside the open dialog. A refused or failed check leaves the
        dialog as it was and shows the server's message or a fallback. */
    method HandleLogin(voice: VoiceReply, send: SendReply)
      requires Valid()
      modifies this`loading, this`error, this`showOtpModal, this`calls
      ensures Valid()
      ensures old(username) == "" || old(audio).None? ==>
        error == MissingInputError && calls == old(calls) && showOtpModal == old(showOtpModal)
      ensures old(username) != "" && old(audio).Some? ==>
        match voice
        case VoiceOk(true, _, _) =>
          && showOtpModal
          && calls == old(calls) + [VoiceLogin(username, audio), SendOtp(username)]
          && error == (if send.Sent? then "" else OrDefault(send.message, LoginFailedError))
        case VoiceOk(false, _, m) =>
          && showOtpModal == old(showOtpModal)
          && calls == old(calls) + [VoiceLogin(username, audio)]
          && error == OrDefault(m, AuthFailedError)
        case VoiceError(m) =>
          && showOtpModal == old(showOtpModal)
          && calls == old(calls) + [VoiceLogin(username, audio)]
          && error == OrDefault(m, LoginFailedError)
    {
      if username == "" || audio.None? {
        error := MissingInputError;
        return;
      }
      loading := true;
      error := "";
      calls := calls + [VoiceLogin(username, audio)];
      match voice {
        case VoiceOk(success, _, m) =>
          if success {
            showOtpModal := true;
            calls := calls + [SendOtp(username)];
            if send.SendError? {
              error := OrDefault(send.message, LoginFailedError);
            }
          } else {
            error := OrDefault(m, AuthFailedError);
          }
        case VoiceError(m) =>
          error := OrDefault(m, LoginFailedError);
      }
      loading := false;
    }

    /** `handleOtpSubmit`. An accepted code triggers a second voice check, and
        its answer's score goes with the navigation whatever its `success`
        field says. A rejected code shows the message and keeps the dialog and
        the typed code, so the user can try again. */
    method HandleOtpSubmit(verify: VerifyReply, second: VoiceReply)
      requires Valid()
      modifies this`otpLoading, this`error, this`calls, this`navigation
      ensures Valid()
      ensures otp == old(otp) && showOtpModal == old(showOtpModal)
      ensures match verify
        case VerifyOk(true, _) =>
          && calls == old(calls) + [VerifyOtp(username, otp), VoiceLogin(username, audio)]
          && (second.VoiceOk? ==> navigation == Some(Navigation(username, second.score)) && error == "")
          && (second.VoiceError? ==>
                navigation == old(navigation) && error == OrDefault(second.message, LoginFailedError))
        case VerifyOk(false, m) =>
          && calls == old(calls) + [VerifyOtp(username, otp)]
          && navigation == old(navigation) && error == OrDefault(m, InvalidOtpError)
        case VerifyError(m) =>
          && calls == old(calls) + [VerifyOtp(username, otp)]
          && navigation == old(navigation) && error == OrDefault(m, LoginFailedError)
    {
      otpLoading := true;
      error := "";
      calls := calls + [VerifyOtp(username, otp)];
      match verify {
        case VerifyOk(success, m) =>
          if success {
            calls := calls + [VoiceLogin(username, audio)];
            match second {
              case VoiceOk(_, score, _) =>
                navigation := Some(Navigation(username, score));
              case VoiceError(m2) =>
                error := OrDefault(m2, LoginFailedError);
            }
          } else {
            error := OrDefault(m, InvalidOtpError);
          }
        case VerifyError(m) =>
          error := OrDefault(m, LoginFailedError);
      }
      otpLoading := false;
    }
  }

  // ---------------------------------------------------------------------------
  // Sessions

  /** The whole two-factor sequence: the voice check opens the dialog and
      requests the OTP, the typed code is accepted, and the page navigates with
      the score of the second voice check. The server sees the four requests
      in this order. */
  method TwoFactorLogin(user: string, sample: Blob, typed: string, score: real)
    returns (navigation: Option<Navigation>, calls: seq<Call>, credentialsSent: string)
    requires |typed| <= OtpLength
    ensures user != "" ==> navigation == Some(Navigation(user, Some(score)))
    ensures user != "" ==>
      calls == [VoiceLogin(user, Some(sample)), SendOtp(user),
                VerifyOtp(user, SanitizeOtp(typed)), VoiceLogin(user, Some(sample))]
    ensures credentialsSent == SanitizeOtp(typed)
  {
    var page := new LoginPage();
    page.SetUsername(user);
    page.RecordingComplete(Some(sample));
    page.HandleLogin(VoiceOk(true, Some(score), None), Sent);
    page.TypeOtp(typed);
    credentialsSent := page.otp;
    page.HandleOtpSubmit(VerifyOk(true, None), VoiceOk(true, Some(score), None));
    navigation := page.navigation;
    calls := page.calls;
  }

  /** A rejected code keeps the dialog open with the code still typed; the
      corrected code then completes the login. */
  method WrongCodeThenRetry(user: string, sample: Blob, wrong: string, right: string, score: real)
    returns (errorAfterWrong: string, modalAfterWrong: bool, otpAfterWrong: string,
             navAfterWrong: Option<Navigation>, navAfterRight: Option<Navigation>)
    requires user != "" && |wrong| <= OtpLength && |right| <= OtpLength
    ensures errorAfterWrong == "Invalid OTP" && modalAfterWrong
    ensures otpAfterWrong == SanitizeOtp(wrong) && navAfterWrong == None
    ensures navAfterRight == Some(Navigation(user, Some(score)))
  {
    var page := new LoginPage();
    page.SetUsername(user);
    page.RecordingComplete(Some(sample));
    page.HandleLogin(VoiceOk(true, Some(score), None), Sent);
    page.TypeOtp(wrong);
    page.HandleOtpSubmit(VerifyError(Some("Invalid OTP")), VoiceError(None));
    errorAfterWrong, modalAfterWrong, otpAfterWrong := page.error, page.showOtpModal, page.otp;
    navAfterWrong := page.navigation;
    page.TypeOtp(right);
    page.HandleOtpSubmit(VerifyOk(true, None), VoiceOk(true, Some(score), None));
    navAfterRight := page.navigation;
  }

  /** Without a recording the page asks for one and contacts nobody; a refused
      voice match keeps the dialog closed. */
  method MissingAudioThenRefused(user: string, sample: Blob)
    returns (firstError: string, firstCalls: nat, secondError: string, modal: bool)
    ensures firstError == MissingInputError && firstCalls == 0
    ensures user != "" ==> secondError == "Voice verification failed. Voice did not match." && !modal
  {
    var page := new LoginPage();
    page.SetUsername(user);
    page.HandleLogin(VoiceOk(true, None, None), Sent);
    firstError, firstCalls := page.error, |page.calls|;
    page.RecordingComplete(Some(sample));
    page.HandleLogin(VoiceError(Some("Voice verification failed. Voice did not match.")), Sent);
    secondError, modal := page.error, page.showOtpModal;
  }
}
