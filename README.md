# Voice banking assistant — a Dafny model

This project models the core of a voice-banking web application. A user
enrolls by recording ten voice samples, logs in with a voice check followed by
a one-time password sent by e-mail, and then talks to (or types at) an
assistant. The assistant recognises banking intents in four languages (English,
Spanish, Hindi, French) and answers from localised templates.

The model covers seven components, each in the form its source takes:

- **The recorder widget** (`AudioRecorder`). A class holding the
  recording flags, the chunk buffer and the playback URL. Its methods are the
  event handlers. A recording delivers exactly the non-empty chunks it heard,
  concatenated.
- **The enrollment page** (`Signup`). A class over a fixed array of ten sample
  slots with a clamped step cursor. It holds the e-mail pattern
  `^[^\s@]+@[^\s@]+\.[^\s@]+$`, written as a predicate and proved equal to the
  pattern's meaning. It also holds the progress bar and the fail-fast
  submission.
- **The login page** (`Login`). The voice check, the OTP dialog and its input
  sanitiser (`replace(/\D/g, '').slice(0, 6)`), and the second voice check whose
  score goes with the navigation.
- **The assistant widget** (`VoiceAssistant`). The message list, the
  "🎤 Audio Message..." placeholder that a later transcription overwrites
  (last occurrence only), speech output and the `onAction` callback.
- **The OTP service** (`OtpService`). A store from e-mail to code and expiry
  instant. It covers overwrite-on-send, single-use verification, an expiry
  check that counts a code as valid up to and including its expiry instant,
  and cleanup of expired codes.
- **The banking service** (`BankingService`). The mock account database with
  one seeded user, a welcome bonus for new users, and funds transfer with
  history entries on both sides.
- **The command interpreter** (`NlpIntents`, `NlpNumbers`, `NlpFormat`,
  `NlpResponses`, `NlpService`). Intent detection, where a priority word
  decides first and then the first matching row of the intent table. Amounts
  spoken as words ("ten thousand"). Template lookup with English and HELP
  fallbacks. Python's `format(v, ',.2f')` and `str(v)` substitution.

`Text` holds the shared string machinery:

- JavaScript and Python whitespace;
- ASCII digits;
- substring search;
- Python's `replace`, `strip` and `lower`;
- decimal rendering.

Server replies, random draws, microphone permission and the clock are
parameters of the operations that use them.

Behaviours of the code a reader may not expect:

- `handleSubmit` does not check the username. Only the submit button's
  `disabled` does (`Signup.EnabledSubmitPassesChecks`).
- On a transfer, a missing sender is created even when the transfer is then
  refused for insufficient funds (`BankingService.Transfer`).
- There is no sign check on the amount, so a negative amount moves money the
  other way (`BankingService.NegativeAmountReversesTransfer`).
- On login, the second voice check's `success` field is ignored. Only its
  score is forwarded (`Login.LoginPage.HandleOtpSubmit`).
- A failed voice check answered with an HTTP error reaches the `catch`
  branch, not the `else` branch (`Login.LoginPage.HandleLogin`).
- A typed message also overwrites a stale audio placeholder when the reply
  carries a transcription (`VoiceAssistant.TextSendOverwritesStalePlaceholder`).

## Model

| member | source | states |
|---|---|---|
| Text.OrDefault | frontend/src/pages/Login.jsx:34 | `m \|\| fallback`: a present, non-empty message is the result; otherwise the fallback is, so the result is never an empty message |
| Text.NatToString | nlp_service.py:198 | `str(n)` is a non-empty digit string with no leading zero unless n is 0 |
| Text.DecimalRoundTrip | nlp_service.py:198 | reading back the decimal rendering of n gives n |
| Text.Find | frontend/src/pages/Signup.jsx:43-44 | the first position of a character, or the length when it is absent |
| Text.Contains | nlp_service.py:165-166 | a pattern that occurs is no longer than the text, and the empty pattern occurs everywhere |
| Text.ContainsIff | nlp_service.py:165-166 | the literal pattern test holds exactly when the pattern occurs at some position |
| Text.IndexOf | nlp_service.py:116 | the first occurrence of the separator, so the prefix before it is `split(word)[0]` |
| Text.ContainsSuffix | nlp_service.py:165-166 | an occurrence in a suffix is an occurrence in the whole string |
| Text.OccurrenceChars | nlp_service.py:161-162 | every character of an occurring pattern occurs in the string |
| Text.AbsentChar | nlp_service.py:161-162 | a pattern with a character the string lacks does not occur |
| Text.ReplaceAbsent | nlp_service.py:198 | `str.replace` of an absent pattern leaves the string unchanged |
| Text.ReplaceByItself | nlp_service.py:198 | replacing a pattern by itself leaves the string unchanged |
| Text.ReplaceSkips | nlp_service.py:198 | a prefix without the pattern's first character is copied unchanged |
| Text.ReplaceHit | nlp_service.py:198 | an occurrence at the front is replaced and scanning resumes after it |
| Text.Replace | nlp_service.py:198 | `str.replace` introduces no character that is not in the text or the replacement, and a same-length replacement keeps the length |
| Text.TrimStart | frontend/src/pages/Signup.jsx:66 | removes exactly the leading spaces: the result is a suffix, every removed character is a space and the result does not start with one |
| Text.TrimEnd | frontend/src/pages/Signup.jsx:66 | removes exactly the trailing spaces, symmetrically |
| Text.TrimEmptyIff | frontend/src/pages/Signup.jsx:66 | `trim() !== ''` fails exactly when every character is whitespace |
| Text.Strip | nlp_service.py:117 | `strip()` gives a piece of the text that neither starts nor ends with Python whitespace, with only whitespace around it |
| Text.JsTrim | frontend/src/pages/Signup.jsx:66 | `trim()` gives a piece of the text that neither starts nor ends with JavaScript whitespace, with only whitespace around it |
| Text.Lower | nlp_service.py:155 | `lower()` keeps the length, and every character of the result is already lower case |
| Text.LowerEach | nlp_service.py:155 | `lower()` maps each character independently |
| Text.DigitChar | otp_service.py:18 | each drawn index becomes the digit of that value |
| NlpIntents.MatchFrom | nlp_service.py:164-167 | the first row from j on with a matching pattern; no earlier row matches |
| NlpIntents.Detect | nlp_service.py:158-168 | a priority word gives TRANSACTION_HISTORY; otherwise UNKNOWN exactly when no row matches, else the first matching row's intent |
| NlpNumbers.RunEnd | nlp_service.py:120 | the end of the maximal run of characters from i |
| NlpNumbers.SearchDigitsThenWord | nlp_service.py:120-122 | the first position where digits, spaces and the multiplier word follow each other, or -1 |
| NlpNumbers.DigitGroup | nlp_service.py:121 | the captured group is made of digits |
| NlpNumbers.DigitsBefore | nlp_service.py:120-122 | a value exactly when the digits-then-word pattern occurs |
| NlpNumbers.AmountFor | nlp_service.py:115-122 | a value only when the multiplier word occurs |
| NlpNumbers.FirstSomeFinds | nlp_service.py:113-124 | the scan yields None exactly when no multiplier yields, and otherwise one multiplier's yield |
| NlpNumbers.FirstSomeSkips | nlp_service.py:113-124 | the first multiplier that yields decides the result |
| NlpNumbers.Yields | nlp_service.py:113-122 | one candidate per multiplier, in table order |
| NlpNumbers.WordAmount | nlp_service.py:101-124 | an amount read from words is a whole number of units of a multiplier word the lower-cased text contains; a text without one has none |
| NlpNumbers.TextToDigits | nlp_service.py:101-124 | the loop over the multipliers returns the first multiplier's amount, or None |
| NlpNumbers.MultiplierAmount | nlp_service.py:114-122 | one loop iteration: a number word times the multiplier, else the digits before it, else nothing |
| NlpNumbers.ScanIsMultiple | nlp_service.py:113-124 | any amount found is a multiple of the value of a multiplier word the text contains |
| NlpNumbers.ScanNeedsMultiplier | nlp_service.py:113-124 | a text without any multiplier word yields None |
| NlpNumbers.NumberWordTimesMultiplier | nlp_service.py:116-118 | a number word before the first yielding multiplier gives word value times multiplier |
| NlpNumbers.AmountForNumberWord | nlp_service.py:116-118 | the stripped head, when a number word, gives its value times the multiplier |
| NlpNumbers.DigitsTimesMultiplier | nlp_service.py:120-122 | a head that is not a number word falls through to the digits before the word |
| NlpNumbers.TenThousand | nlp_service.py:101-124 | "Ten Thousand" reads as 10000 |
| NlpNumbers.ExtractedAmount | nlp_service.py:126-138 | the amount `extract_amount` returns: a non-zero word amount wins, as a float; otherwise the regex amount |
| NlpNumbers.ExtractAmount | nlp_service.py:126-138 | returns exactly `ExtractedAmount`: a non-zero word amount wins, as a float; otherwise the regex amount |
| NlpFormat.Placeholder | nlp_service.py:198 | `{key}` is the key in braces |
| NlpFormat.CentsText | nlp_service.py:196 | the cents part of `,.2f`: two digits that read back the cents |
| NlpFormat.IntText | nlp_service.py:198 | `str` of an int: a sign exactly for a negative value, then digits that read back its magnitude |
| NlpFormat.ShortDecimals | nlp_service.py:198 | the decimals `str` gives a float: one digit exactly when the hundredths are a multiple of ten, never a trailing zero after two, and they read back the hundredths |
| NlpFormat.FloatText | nlp_service.py:198 | `str` of a float: a sign exactly for a negative value, a whole part that reads back the magnitude's whole units, and the shortest of one or two decimals, which read back the hundredths |
| NlpFormat.StrText | nlp_service.py:198 | `str(v)`: a str as it is; an int with no decimal point, whose digits read back the value; a float with one, whose parts read back the value; a sign exactly for negatives |
| NlpFormat.Grouped | nlp_service.py:196 | the thousands grouping starts and ends with the digits' own first and last, and adds nothing but commas |
| NlpFormat.FixedText | nlp_service.py:196 | `,.2f`: a sign exactly for a negative value, a whole part that with its commas removed reads back the magnitude's whole units, a point, and exactly two decimals that read back the hundredths |
| NlpFormat.BalanceText | nlp_service.py:195-196 | a balance of any number renders in the `,.2f` layout and reads back its value (an int as that many units); a str raises, modelled as None |
| NlpFormat.Substituted | nlp_service.py:194-198 | substitution fails exactly when rendering one of the arguments raises |
| NlpFormat.RemoveCommasAppend | nlp_service.py:196 | removing commas distributes over concatenation |
| NlpFormat.GroupedRoundTrip | nlp_service.py:196 | the thousands grouping of `,.2f` only inserts commas: removing them gives the digits back |
| NlpFormat.GroupedLength | nlp_service.py:196 | one comma per full group of three digits after the first |
| NlpFormat.NoCommas | nlp_service.py:196 | a digit string has no commas to remove |
| NlpFormat.OneArg | nlp_service.py:194-198 | one argument replaces its placeholder by its rendering |
| NlpFormat.NoPlaceholderUnchanged | nlp_service.py:194-199 | a template without braces comes back unchanged, whatever the arguments |
| NlpFormat.OnePlaceholder | nlp_service.py:198 | a single placeholder occurrence is replaced in place |
| NlpFormat.FloatTextNoBrace | nlp_service.py:197-198 | a rendered float contains no brace |
| NlpFormat.NoBraceInFloat | nlp_service.py:198 | text that reads as a float holds only a sign, digits and a point, so no brace |
| NlpFormat.SeededBalanceText | nlp_service.py:195-196 | 5420.50 formats as "5,420.50" |
| NlpFormat.TwoPlaceholders | nlp_service.py:194-199 | two arguments fill two distinct placeholders, left to right |
| NlpFormat.TwoReplacements | nlp_service.py:198 | two successive replacements fill a two-placeholder template |
| NlpResponses.LanguageOf | nlp_service.py:190 | a supported language maps to itself; any other to en-US |
| NlpResponses.KeyOf | nlp_service.py:191 | a known key maps to itself and an unknown one to nothing |
| NlpResponses.Response | nlp_service.py:58-99 | the eight templates of each of the four languages, as the table gives them |
| NlpResponses.Template | nlp_service.py:188-191 | a known key's template in the resolved language; an unknown key gives HELP |
| NlpResponses.TemplateFallback | nlp_service.py:190 | an unsupported language answers as en-US |
| NlpResponses.GetResponseText | nlp_service.py:188-200 | the loop over the kwargs returns the template with every placeholder substituted |
| NlpResponses.BalanceAnswer | nlp_service.py:63 | the English BALANCE answer is the sentence followed by the grouped two-decimal balance |
| NlpResponses.BalancePieces | nlp_service.py:63 | the English BALANCE template is a sentence and one `{balance}` placeholder |
| NlpResponses.TransferConfirmAnswer | nlp_service.py:62 | the English TRANSFER_CONFIRM answer reads "I can help you transfer ₹<amount> to <name>. Please confirm." |
| NlpResponses.TransferPieces | nlp_service.py:62 | the English TRANSFER_CONFIRM template is three literals around `{amount}` and `{recipient}` |
| NlpResponses.EnglishTemplate | nlp_service.py:188-191 | with en-US, a known key's English template |
| NlpResponses.AmountNotInRest | nlp_service.py:62 | `{amount}` occurs only once in the transfer template |
| NlpService.Respond | nlp_service.py:153-186 | the priority word rule, the first matching intent, UNKNOWN with its message when nothing matches, and the missing-info rule for transfers |
| NlpService.ProcessCommand | nlp_service.py:153-186 | the result is `Respond` of the text with the extracted amount |
| NlpService.RespondLanguageFallback | nlp_service.py:170 | an unsupported language answers as en-US |
| NlpService.PriorityOverTransfer | nlp_service.py:158-162 | "send my transaction history" is TRANSACTION_HISTORY, not TRANSFER_FUNDS |
| NlpService.NoPriorityLetters | nlp_service.py:161-162 | every priority word holds an r, an i or an s, so a command without those letters has no priority word |
| NlpService.CheckBalanceExample | nlp_service.py:153-186 | "Check my balance" is CHECK_BALANCE with no message |
| NlpService.BalanceIsFirst | nlp_service.py:6-14 | CHECK_BALANCE is the first matching row |
| AudioRecorder.NonEmpty | frontend/src/components/AudioRecorder.jsx:16-20 | the kept chunks are non-empty chunks heard |
| AudioRecorder.ConcatAppend | frontend/src/components/AudioRecorder.jsx:23 | concatenation distributes over appending |
| AudioRecorder.NonEmptySnoc | frontend/src/components/AudioRecorder.jsx:16-20 | one data event keeps the chunk exactly when it is non-empty |
| AudioRecorder.ConcatSkipsEmpty | frontend/src/components/AudioRecorder.jsx:16-20 | an empty chunk contributes nothing |
| AudioRecorder.NonEmptyKeepsAudio | frontend/src/components/AudioRecorder.jsx:16-23 | dropping empty chunks loses no audio |
| AudioRecorder.Assemble | frontend/src/components/AudioRecorder.jsx:23 | the blob is WAV-typed and holds the non-empty chunks' audio, which is all the audio |
| AudioRecorder.Recorder.OffersStart | frontend/src/components/AudioRecorder.jsx:57 | Start is shown exactly when idle with no recording |
| AudioRecorder.Recorder.OffersStop | frontend/src/components/AudioRecorder.jsx:67 | Stop is shown exactly while recording |
| AudioRecorder.Recorder.OffersPlayback | frontend/src/components/AudioRecorder.jsx:77 | playback and Start are never offered together |
| AudioRecorder.Recorder.constructor | frontend/src/components/AudioRecorder.jsx:5-8 | idle, no recorder, no chunks |
| AudioRecorder.Recorder.StartRecording | frontend/src/components/AudioRecorder.jsx:10-38 | with the microphone granted, recording with an empty buffer; refused, nothing changes |
| AudioRecorder.Recorder.DataAvailable | frontend/src/components/AudioRecorder.jsx:16-20 | a non-empty chunk is appended; nothing else changes |
| AudioRecorder.Recorder.StopRecording | frontend/src/components/AudioRecorder.jsx:22-45 | an active recording stops, releases the microphone and reports the WAV blob of all heard audio; otherwise nothing happens |
| AudioRecorder.Recorder.ResetRecording | frontend/src/components/AudioRecorder.jsx:47-50 | the playback URL is cleared and null is reported |
| AudioRecorder.RecordSession | frontend/src/components/AudioRecorder.jsx:10-45 | start, two chunks and an empty one, stop: the blob is the two chunks' audio |
| AudioRecorder.DeniedMicrophone | frontend/src/components/AudioRecorder.jsx:34-37 | a refused microphone leaves the widget idle, delivering nothing |
| Signup.EmailValidIff | frontend/src/pages/Signup.jsx:43-44 | the predicate holds exactly when the address matches the pattern |
| Signup.EmailValidMatches | frontend/src/pages/Signup.jsx:43-44 | a valid address has a split matching the pattern |
| Signup.SplitIsValid | frontend/src/pages/Signup.jsx:43-44 | any split matching the pattern makes the address valid |
| Signup.EmailRefusals | frontend/src/pages/Signup.jsx:43-44 | no `@`, two `@`, any whitespace or a leading `@` are refused |
| Signup.EmailValid | frontend/src/pages/Signup.jsx:43-44 | a valid address has exactly one `@`, not in front |
| Signup.CredentialsValid | frontend/src/pages/Signup.jsx:64-69 | a username with a non-space character and a matching e-mail |
| Signup.FilledCount | frontend/src/pages/Signup.jsx:76 | counts recorded slots: all or none exactly at the extremes |
| Signup.Progress | frontend/src/pages/Signup.jsx:76 | between 0 and 100; 100 exactly when all slots are filled, 0 exactly when none are |
| Signup.SubmitEnabled | frontend/src/pages/Signup.jsx:185 | the Complete Enrollment button is enabled only with the progress bar full |
| Signup.EnabledSubmitPassesChecks | frontend/src/pages/Signup.jsx:185 | when the submit button is enabled, both submit checks pass |
| Signup.Enrollment.constructor | frontend/src/pages/Signup.jsx:10-17 | ten empty slots at step 0 |
| Signup.Enrollment.ValidateCredentials | frontend/src/pages/Signup.jsx:64-69 | records and returns whether the credentials are valid |
| Signup.Enrollment.SetUsername | frontend/src/pages/Signup.jsx:72-74 | an edit re-runs validation |
| Signup.Enrollment.SetEmail | frontend/src/pages/Signup.jsx:72-74 | an edit re-runs validation |
| Signup.Enrollment.RecordingComplete | frontend/src/pages/Signup.jsx:19-23 | only the current slot changes |
| Signup.Enrollment.Next | frontend/src/pages/Signup.jsx:25-29 | advances, clamped to the last slot, only when the current slot is recorded |
| Signup.Enrollment.Prev | frontend/src/pages/Signup.jsx:31-33 | steps back, clamped at 0 |
| Signup.Enrollment.Submit | frontend/src/pages/Signup.jsx:35-61 | a missing sample is refused first, then a bad e-mail, with no request; otherwise one request and login page or the server's error |
| Signup.EnrollTenSamples | frontend/src/pages/Signup.jsx:19-61 | ten recordings fill the bar; a valid e-mail sends them in slot order |
| Signup.SubmitTooEarly | frontend/src/pages/Signup.jsx:37-40 | submitting with an empty slot makes no call |
| Login.KeepDigits | frontend/src/pages/Login.jsx:158 | `replace(/\D/g, '')` keeps only digits |
| Login.SanitizeOtp | frontend/src/pages/Login.jsx:158 | at most six digits, a prefix of the digits typed |
| Login.SanitizeIdempotent | frontend/src/pages/Login.jsx:158 | sanitising twice equals sanitising once |
| Login.SanitizeFixedIff | frontend/src/pages/Login.jsx:158 | a value is left unchanged exactly when it is at most six digits |
| Login.KeepDigitsOfDigits | frontend/src/pages/Login.jsx:158 | digits are kept as they are |
| Login.KeepDigitsAppend | frontend/src/pages/Login.jsx:158 | filtering distributes over concatenation |
| Login.SanitizeGroupedCode | frontend/src/pages/Login.jsx:158 | the sanitising expression on its own turns "123 456" into "123456"; the field's `maxLength` cuts such a paste first |
| Login.SeparatorDropped | frontend/src/pages/Login.jsx:158 | a non-digit between digits is dropped |
| Login.KeepDigitsDropsNonDigit | frontend/src/pages/Login.jsx:158 | a non-digit in the value is lost, so fewer digits than characters remain |
| Login.SeparatedCodeDisablesSubmit | frontend/src/pages/Login.jsx:158-169 | a value of at most six characters that holds a separator cannot enable the Complete button |
| Login.OtpSubmitEnabled | frontend/src/pages/Login.jsx:169 | the Complete button is never enabled while a request is in flight, and a digit code that enables it is one the field leaves as it is |
| Login.OtpSubmitEnabledIff | frontend/src/pages/Login.jsx:169 | the Complete button is enabled exactly when six or more digits were typed |
| Login.LoginEnabled | frontend/src/pages/Login.jsx:109 | the Authenticate button is enabled only when `handleLogin`'s missing-input check passes |
| Login.LoginPage.constructor | frontend/src/pages/Login.jsx:9-16 | empty form, no dialog |
| Login.LoginPage.SetUsername | frontend/src/pages/Login.jsx:89 | sets the username |
| Login.LoginPage.RecordingComplete | frontend/src/pages/Login.jsx:10 | stores the sample |
| Login.LoginPage.TypeOtp | frontend/src/pages/Login.jsx:158-161 | the field holds the sanitised input; `maxLength` bounds what reaches it to six characters |
| Login.LoginPage.CancelOtp | frontend/src/pages/Login.jsx:177 | closes the dialog |
| Login.LoginPage.HandleLogin | frontend/src/pages/Login.jsx:18-42 | missing input makes no call; a passed voice check opens the dialog and requests an OTP; a refusal or error shows the message or its fallback |
| Login.LoginPage.HandleOtpSubmit | frontend/src/pages/Login.jsx:44-63 | an accepted code triggers a second voice check whose score goes to the dashboard; a rejected code keeps the dialog and the code |
| Login.TwoFactorLogin | frontend/src/pages/Login.jsx:18-63 | the full happy path reaches the dashboard with the score and verifies the sanitised code |
| Login.WrongCodeThenRetry | frontend/src/pages/Login.jsx:44-63 | a wrong code shows "Invalid OTP" and keeps the dialog; the right one then succeeds |
| Login.MissingAudioThenRefused | frontend/src/pages/Login.jsx:18-42 | no audio makes no call; a voice mismatch shows the server's message |
| VoiceAssistant.LastIndexOfText | frontend/src/components/VoiceAssistant.jsx:58 | `lastIndexOf`: the last index holding the text, or -1 |
| VoiceAssistant.Reconcile | frontend/src/components/VoiceAssistant.jsx:54-64 | only the last placeholder message changes, to the transcription; without a placeholder nothing changes |
| VoiceAssistant.GreetingIsNotPlaceholder | frontend/src/components/VoiceAssistant.jsx:9-11 | the greeting is never mistaken for a placeholder |
| VoiceAssistant.FallbackIsNotPlaceholder | frontend/src/components/VoiceAssistant.jsx:73-76 | the connection fallback is never mistaken for a placeholder |
| VoiceAssistant.BotText | frontend/src/components/VoiceAssistant.jsx:50-76 | the bot's text is the server's answer when there is one and the connection fallback otherwise; it is a placeholder only if the server answered with one |
| VoiceAssistant.Shown | frontend/src/components/VoiceAssistant.jsx:54-64 | reconciling keeps the length and changes only the last placeholder, and nothing without a transcription |
| VoiceAssistant.MessagesAfterSend | frontend/src/components/VoiceAssistant.jsx:36-77 | a falsy input changes nothing; otherwise one user and one bot message are added |
| VoiceAssistant.AudioSendKeepsHistory | frontend/src/components/VoiceAssistant.jsx:40-66 | an audio send keeps earlier history and shows the transcription in the new user message |
| VoiceAssistant.FailedSendAddsFallback | frontend/src/components/VoiceAssistant.jsx:73-76 | a failed request adds the user message and the fallback |
| VoiceAssistant.SendWithoutPlaceholderAppends | frontend/src/components/VoiceAssistant.jsx:40-66 | without a placeholder in the history, a typed send just appends |
| VoiceAssistant.TextSendOverwritesStalePlaceholder | frontend/src/components/VoiceAssistant.jsx:54-64 | a typed send with a transcription overwrites a stale placeholder |
| VoiceAssistant.SendEnabled | frontend/src/components/VoiceAssistant.jsx:209 | the Send button is enabled exactly when the box holds a character that is not whitespace |
| VoiceAssistant.WhitespaceBypassesButton | frontend/src/components/VoiceAssistant.jsx:202-209 | whitespace-only text disables the button, but Enter still sends it as its own message |
| VoiceAssistant.Assistant.constructor | frontend/src/components/VoiceAssistant.jsx:5-13 | the greeting alone, en-US, not listening |
| VoiceAssistant.Assistant.SetInputText | frontend/src/components/VoiceAssistant.jsx:202 | sets the typed text |
| VoiceAssistant.Assistant.SetLanguage | frontend/src/components/VoiceAssistant.jsx:153 | picks one of the four languages |
| VoiceAssistant.Assistant.HandleSendIn | frontend/src/components/VoiceAssistant.jsx:30-77 | a falsy input does nothing; otherwise the messages, the request in the render's language, the cleared text box, speech in that language and `onAction` as described |
| VoiceAssistant.Assistant.HandleSend | frontend/src/components/VoiceAssistant.jsx:36-77 | `handleSend` as Enter and Send call it: a falsy input does nothing; otherwise the messages, the request and the speech in the selected language, the cleared text box and `onAction` as described |
| VoiceAssistant.Assistant.ShowReply | frontend/src/components/VoiceAssistant.jsx:30-76 | reconciles, appends the bot text, speaks answers in the given language and runs `onAction` on known intents |
| VoiceAssistant.Assistant.StartListening | frontend/src/components/VoiceAssistant.jsx:82-113 | granted: listening with an empty buffer, and the selected language fixed for the recording; refused: nothing changes |
| VoiceAssistant.Assistant.ListeningData | frontend/src/components/VoiceAssistant.jsx:89-93 | a non-empty chunk is appended |
| VoiceAssistant.Assistant.StopListening | frontend/src/components/VoiceAssistant.jsx:95-119 | an active recording stops and its WAV blob is sent, and the answer spoken, in the language selected when listening started; otherwise nothing happens |
| VoiceAssistant.Assistant.ReleaseRecorder | frontend/src/components/VoiceAssistant.jsx:95-119 | stops, releases the microphone and assembles the heard audio |
| VoiceAssistant.SpeakOnce | frontend/src/components/VoiceAssistant.jsx:82-119 | one spoken turn adds its user and bot messages |
| VoiceAssistant.Listen | frontend/src/components/VoiceAssistant.jsx:82-93 | listening to one chunk records its audio |
| VoiceAssistant.SpokenQuestion | frontend/src/components/VoiceAssistant.jsx:36-119 | a spoken question shows its transcription and the answer, speaks it and runs one action |
| VoiceAssistant.FailedSpeechThenText | frontend/src/components/VoiceAssistant.jsx:36-119 | a failed audio send leaves the placeholder, which a later typed question's transcription overwrites |
| VoiceAssistant.StaleTextExample | frontend/src/components/VoiceAssistant.jsx:54-64 | the message list of that scenario after the typed send |
| VoiceAssistant.EmptyEnter | frontend/src/components/VoiceAssistant.jsx:202 | Enter on an empty box sends nothing |
| VoiceAssistant.LanguageSwitchWhileListening | frontend/src/components/VoiceAssistant.jsx:82-153 | switching language while listening changes the selection, but the recording goes out and is answered in the earlier language |
| VoiceAssistant.WhitespaceEnter | frontend/src/components/VoiceAssistant.jsx:202-209 | Enter on whitespace-only text sends it although the button is disabled |
| OtpService.GenerateOtp | otp_service.py:16-18 | six digits, digit i being draw i |
| OtpService.EveryCodeCanBeDrawn | otp_service.py:16-18 | every six-digit code, leading zeros included, can be generated |
| OtpService.Unexpired | otp_service.py:92-97 | keeps exactly the entries not expired at `now`, unchanged |
| OtpService.UnexpiredIdempotent | otp_service.py:92-97 | cleaning twice removes nothing more |
| OtpService.UnexpiredMonotone | otp_service.py:92-97 | a later cleanup subsumes an earlier one |
| OtpService.OtpStore.constructor | otp_service.py:11-14 | an empty store |
| OtpService.OtpStore.SendOtp | otp_service.py:20-70 | the new code replaces any earlier one for that address and expires five minutes later; other addresses keep theirs |
| OtpService.OtpStore.VerifyOtp | otp_service.py:72-90 | success exactly for a stored, unexpired, equal code; each failure's message; expired and used codes are removed, wrong ones kept |
| OtpService.OtpStore.CleanupExpired | otp_service.py:92-97 | the store becomes exactly its unexpired entries |
| OtpService.OneTimeUse | otp_service.py:72-90 | a code verifies once; a second attempt finds nothing |
| OtpService.WrongThenRight | otp_service.py:85-90 | a wrong code does not consume the right one |
| OtpService.ExpiryBoundary | otp_service.py:80-90 | a code is accepted at its expiry instant and refused and removed one microsecond later |
| OtpService.ResendReplaces | otp_service.py:20-90 | after a resend only the newer code is accepted |
| OtpService.CleanupKeepsFresh | otp_service.py:92-97 | cleanup drops an expired code and keeps a fresh one |
| BankingService.Upsert | banking_service.py:23-40 | the user is present afterwards and no other user changes |
| BankingService.SeedProfile | banking_service.py:5-21 | the seeded user: 5420.50, four transactions whose sign matches their kind, two loans |
| BankingService.NewProfile | banking_service.py:25-36 | a new profile's balance is its single credit, and its account number ends in the decimal digits of the ledger size plus 1000 |
| BankingService.NewUserGetsWelcomeBonus | banking_service.py:25-36 | a new user has the welcome bonus, a numbered account and one Welcome Bonus credit in the history |
| BankingService.ExistingUserKeepsData | banking_service.py:37-39 | an existing user changes only the e-mail |
| BankingService.WithUser | banking_service.py:42-47 | an unknown user is created with the default profile; known users are untouched |
| BankingService.Debited | banking_service.py:57-64 | one debit entry in front, numbered after the old history, whose amount is the change in balance |
| BankingService.Credited | banking_service.py:67-75 | one credit entry in front, numbered after the old history, whose amount is the change in balance |
| BankingService.Transfer | banking_service.py:49-81 | success exactly when the sender, created if missing, has enough; a refusal changes nothing else |
| BankingService.InsufficientChangesNothing | banking_service.py:53-54 | an insufficient balance leaves a known sender's database unchanged |
| BankingService.TransferDebitsSender | banking_service.py:57-64 | the sender loses the amount and gains one history entry |
| BankingService.TransferCreditsRecipient | banking_service.py:67-75 | a known recipient gains the amount; an unknown one is not created |
| BankingService.TransferTouchesOnlyBoth | banking_service.py:49-81 | accounts other than the two parties are unchanged |
| BankingService.TransferPreservesPairSum | banking_service.py:57-75 | the two balances keep their sum |
| BankingService.TransferBetweenKnown | banking_service.py:49-81 | between two known users with enough funds: debit, credit and the history entries |
| BankingService.SelfTransfer | banking_service.py:57-75 | a transfer to oneself keeps the balance and adds two history entries |
| BankingService.NegativeAmountReversesTransfer | banking_service.py:53-75 | a negative amount is accepted and credits the sender |
| BankingService.Ledger.constructor | banking_service.py:5-21 | the seeded database |
| BankingService.Ledger.CreateUser | banking_service.py:23-40 | the database after create or update |
| BankingService.Ledger.GetUserData | banking_service.py:42-47 | a known user's data unchanged; an unknown user created |
| BankingService.Ledger.TransferFunds | banking_service.py:49-81 | the state and answer of `Transfer` |
| BankingService.SeededTransfers | banking_service.py:5-81 | the seeded user sends 500 to an unknown name, leaving 4920.50, and is then refused 6000.00 |
| BankingService.TransferBetweenUsers | banking_service.py:23-81 | two new users: 250 moves from one to the other |

## Left out

- Floating point: extracted amounts are exact rationals (`real`); balances and transfer amounts are integer paise. Python float rounding, and the exponent form `str` uses from 1e16 on, are not modelled.
- Signup.Progress: `Math.round` of the displayed percentage is not modelled, only the exact value.
- Text.LowerChar: lower-casing covers ASCII and Latin-1 letters only, and `\d` is ASCII digits only, not all Unicode.
- Text.IsJsSpace and Text.IsPySpace: the whitespace tables follow the language definitions for the BMP code points listed, not the full Unicode database.
- NlpNumbers.ExtractAmount: the digit pattern `[₹$]?\s?(\d+(?:,\d{2,3})*(?:\.\d{2})?)` is a parameter (`regexAmount`), not modelled.
- NlpService.ProcessCommand: `extract_recipient` is a parameter (`recipient`), because its regular expressions are not modelled.
- NlpFormat.StrText: keyword arguments are limited to integers, floats and strings.
- E-mail delivery, logging, `print`, and the random module: the OTP digits are a parameter (`draws`) and the clock is a parameter (`now`).
- React's asynchronous interleaving and state batching: every handler runs to completion between events.
- Speech synthesis is recorded as a list of utterances, each with its language. Scrolling, the open/closed panel (`isOpen`) and all styling are presentation and left out.
- Malformed server responses (a reply without `data`) are not modelled. Replies are well-formed successes or errors carrying an optional message.
- Starting a new recording while one is running is not modelled.
- AudioRecorder.Recorder.StartRecording and VoiceAssistant.Assistant.StartListening: microphone access is one outcome, granted or refused. The case where `getUserMedia` succeeds and then `new MediaRecorder` or `start()` throws is not modelled; in the source it leaves the stream open, and in the recorder widget the recorder ref set while not recording.
- BankingService.Transfer: the reply's message is a datatype (`Transferred(amount, recipient)`), not the f-string text with the formatted amount.
- app.py, asr_service.py, frontend/src/services/api.js, the Dashboard and Home pages, the screenshot script and test_nlp.py are not part of this model.
