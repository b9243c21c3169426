/** The chat assistant (frontend/src/components/VoiceAssistant.jsx): a message
    list that only grows, except that the last user message still showing the
    audio placeholder takes the server's transcription; one bot message per
    send; an in-chat recorder that sends its recording on stop. */
module VoiceAssistant {
  import opened Text
  import opened AudioRecorder

  datatype Sender = User | Bot

  datatype Message = Message(sender: Sender, text: string)

  /** The text a spoken message shows until its transcription arrives. */
  const Placeholder: string := "🎤 Audio Message..."

  const Greeting: string := "Hello! I am your banking assistant. You can ask me to check your balance, transfer funds, or show transactions.\n\nनमस्ते! मैं आपका बैंकिंग सहायक हूं। आप मुझसे अपना बैलेंस चेक करने, पैसे ट्रांसफर करने या ट्रांजेक्शन देखने के लिए कह सकते हैं।"

  const ConnectionFallback: string := "Sorry, I'm having trouble connecting to the server.\n\nक्षमा करें, मुझे सर्वर से कनेक्ट करने में परेशानी हो रही है।"

  const Unknown: string := "UNKNOWN"

  /** The language choices of the menu. */
  const Languages: seq<string> := ["en-US", "es-ES", "hi-IN", "fr-FR"]

  /** What `handleSend` is given: typed text, or a recorded blob. */
  datatype Input = TextInput(text: string) | AudioInput(blob: Blob)

  /** `!input`: only the empty string is falsy; a blob never is. */
  predicate Falsy(input: Input) {
    input == TextInput("")
  }

  /** The outcome of `processVoiceCommand`: the 200 body, or a thrown error. */
  datatype Reply =
    | Answer(message: string, transcription: Option<string>, intent: string)
    | ConnectionError

  /** `processVoiceCommand(username, input, language)` as sent. */
  datatype Request = Request(username: string, input: Input, language: string)

  /** A text handed to speech synthesis, with the `utterance.lang` it is read in. */
  datatype Utterance = Utterance(text: string, lang: string)

  // ---------------------------------------------------------------------------
  // The message list

  /** `messages.map(m => m.text).lastIndexOf(t)`. */
  function LastIndexOfText(ms: seq<Message>, t: string): (r: int)
    ensures -1 <= r < |ms|
    ensures r >= 0 ==> ms[r].text == t
    ensures forall k :: r < k < |ms| ==> ms[k].text != t
    decreases |ms|
  {
    if ms == [] then -1
    else if ms[|ms| - 1].text == t then |ms| - 1
    else
      var r := LastIndexOfText(ms[..|ms| - 1], t);
      assert forall k :: r < k < |ms| - 1 ==> ms[k] == ms[..|ms| - 1][k];
      r
  }

  /** `ms[k]` is the last message showing the placeholder. */
  predicate LastPlaceholderAt(ms: seq<Message>, k: int) {
    0 <= k < |ms| && ms[k].text == Placeholder
    && forall j :: k < j < |ms| ==> ms[j].text != Placeholder
  }

  /** The transcription update: the last message showing the placeholder, if
      any, shows `t` instead; every other message, and every sender, stays. */
  function Reconcile(ms: seq<Message>, t: string): (r: seq<Message>)
    ensures |r| == |ms|
    ensures forall k :: 0 <= k < |ms| ==> r[k].sender == ms[k].sender
    ensures forall k :: 0 <= k < |ms| && r[k] != ms[k] ==> LastPlaceholderAt(ms, k)
    ensures forall k :: LastPlaceholderAt(ms, k) ==> r[k].text == t
    ensures (forall k :: 0 <= k < |ms| ==> ms[k].text != Placeholder) ==> r == ms
  {
    var i := LastIndexOfText(ms, Placeholder);
    if i == -1 then ms else ms[i := Message(ms[i].sender, t)]
  }

  /** The greeting never shows the placeholder, so no transcription replaces it. */
  lemma GreetingIsNotPlaceholder()
    ensures Greeting != Placeholder
  {
    assert |Greeting| != |Placeholder|;
  }

  lemma FallbackIsNotPlaceholder()
    ensures ConnectionFallback != Placeholder
  {
    assert |ConnectionFallback| != |Placeholder|;
  }

  /** The message a send adds for the user. */
  function UserEntry(input: Input): Message {
    match input
    case TextInput(t) => Message(User, t)
    case AudioInput(_) => Message(User, Placeholder)
  }

  /** `if (transcription)`: a present, non-empty transcription. */
  predicate HasTranscription(reply: Reply) {
    reply.Answer? && reply.transcription.Some? && reply.transcription.value != ""
  }

  /** The bot's answer, or the fixed fallback when the request failed. */
  function BotText(reply: Reply): (r: string)
    ensures reply.Answer? ==> r == reply.message
    ensures reply.ConnectionError? ==> r == ConnectionFallback
    ensures r == Placeholder ==> reply.Answer? && reply.message == Placeholder
  {
    FallbackIsNotPlaceholder();
    if reply.Answer? then reply.message else ConnectionFallback
  }

  /** The list once a reply's transcription, if any, is reconciled. */
  function Shown(ms: seq<Message>, reply: Reply): (r: seq<Message>)
    ensures |r| == |ms|
    ensures forall k :: 0 <= k < |ms| && r[k] != ms[k] ==> LastPlaceholderAt(ms, k)
    ensures !HasTranscription(reply) ==> r == ms
  {
    if HasTranscription(reply) then Reconcile(ms, reply.transcription.value) else ms
  }

  /** The list after one `handleSend`. A falsy input changes nothing; otherwise
      the user's entry is added, the transcription (if any) is reconciled, and
      exactly one bot message ends the list. */
  function MessagesAfterSend(ms: seq<Message>, input: Input, reply: Reply): (r: seq<Message>)
    ensures Falsy(input) ==> r == ms
    ensures !Falsy(input) ==> |r| == |ms| + 2 && r[|ms| + 1] == Message(Bot, BotText(reply))
    ensures !Falsy(input) ==> r[|ms|].sender == User
    ensures !Falsy(input) && !HasTranscription(reply) ==> r == ms + [UserEntry(input), Message(Bot, BotText(reply))]
  {
    if Falsy(input) then ms
    else
      Shown(ms + [UserEntry(input)], reply) + [Message(Bot, BotText(reply))]
  }

  /** A spoken message takes its own transcription and the earlier history is
      untouched, because its placeholder is the last one. */
  lemma AudioSendKeepsHistory(ms: seq<Message>, blob: Blob, reply: Reply)
    ensures MessagesAfterSend(ms, AudioInput(blob), reply)
         == ms + [Message(User, if HasTranscription(reply) then reply.transcription.value else Placeholder),
                  Message(Bot, BotText(reply))]
  {
    var withUser := ms + [Message(User, Placeholder)];
    assert LastPlaceholderAt(withUser, |ms|);
    var r := MessagesAfterSend(ms, AudioInput(blob), reply);
    assert forall k :: 0 <= k < |ms| ==> r[k] == withUser[k];
  }

  /** A failed request leaves the placeholder unreconciled and adds the fallback. */
  lemma FailedSendAddsFallback(ms: seq<Message>, input: Input)
    requires !Falsy(input)
    ensures MessagesAfterSend(ms, input, ConnectionError) == ms + [UserEntry(input), Message(Bot, ConnectionFallback)]
  {
  }

  /** In a history with no placeholder the list is append-only: a send keeps
      the history and adds the user's entry and the bot's answer. */
  lemma {:induction false} SendWithoutPlaceholderAppends(ms: seq<Message>, t: string, reply: Reply)
    requires t != "" && t != Placeholder
    requires forall k :: 0 <= k < |ms| ==> ms[k].text != Placeholder
    ensures MessagesAfterSend(ms, TextInput(t), reply) == ms + [Message(User, t), Message(Bot, BotText(reply))]
  {
    var withUser := ms + [Message(User, t)];
    assert forall k :: 0 <= k < |withUser| ==> withUser[k].text != Placeholder;
  }

  /** The server echoes typed text as its transcription, so a typed send that
      follows a failed spoken one overwrites that stale placeholder with the
      typed text, while the typed message itself stays as typed. */
  lemma TextSendOverwritesStalePlaceholder(ms: seq<Message>, t: string, message: string, intent: string)
    requires t != "" && t != Placeholder
    ensures var r := MessagesAfterSend(ms, TextInput(t), Answer(message, Some(t), intent));
      && r[|ms|] == Message(User, t)
      && forall k :: 0 <= k < |ms| ==>
           r[k] == (if LastPlaceholderAt(ms, k) then Message(ms[k].sender, t) else ms[k])
  {
    var withUser := ms + [Message(User, t)];
    var r := MessagesAfterSend(ms, TextInput(t), Answer(message, Some(t), intent));
    forall k | 0 <= k < |ms|
      ensures LastPlaceholderAt(withUser, k) <==> LastPlaceholderAt(ms, k)
    {
    }
    assert forall k :: 0 <= k <= |ms| ==> r[k] == Reconcile(withUser, t)[k];
  }

  /** The Send button's `disabled={!inputText.trim()}`: it is enabled exactly
      when the box holds a character that is not whitespace. */
  function SendEnabled(t: string): (b: bool)
    ensures b <==> exists k :: 0 <= k < |t| && !IsJsSpace(t[k])
  {
    TrimEmptyIff(t);
    JsTrim(t) != ""
  }

  /** Only the button trims: whitespace-only text is truthy, so Enter still
      sends it as a message of its own. */
  lemma WhitespaceBypassesButton(ms: seq<Message>, t: string, reply: Reply)
    requires t != "" && forall k :: 0 <= k < |t| ==> IsJsSpace(t[k])
    ensures !SendEnabled(t) && !Falsy(TextInput(t))
    ensures MessagesAfterSend(ms, TextInput(t), reply)[|ms|] == Message(User, t)
  {
    assert t != Placeholder by {
      assert !IsJsSpace(Placeholder[0]);
    }
    var withUser := ms + [Message(User, t)];
    assert !LastPlaceholderAt(withUser, |ms|);
  }

  // ---------------------------------------------------------------------------
  // The component

  class Assistant {
    const username: string
    /** Whether the parent passed an `onAction` callback. */
    const hasOnAction: bool
    var messages: seq<Message>
    var inputText: string
    var language: string
    /** The `language` of the render whose `startListening` set up the running
        recorder: its `onstop` closure sends and speaks in this one. */
    var recorderLanguage: string
    var isListening: bool
    var hasMediaRecorder: bool
    var chunks: seq<Chunk>
    var micHeld: bool
    /** How many times `onAction` was called. */
    var actions: nat
    /** Every utterance handed to speech synthesis, oldest first. */
    var spoken: seq<Utterance>
    var requests: seq<Request>
    ghost var heard: seq<Chunk>
    /** The first message of the list. */
    ghost const first: Message

    ghost predicate Valid()
      reads this
    {
      && chunks == NonEmpty(heard)
      && (isListening ==> hasMediaRecorder)
      && (micHeld <==> isListening)
      && |messages| >= 1 && messages[0] == first && first.text != Placeholder
    }

    /** The chat opens with the bilingual greeting, in English, not listening. */
    constructor (user: string, onAction: bool)
      ensures Valid() && first == Message(Bot, Greeting)
      ensures username == user && hasOnAction == onAction
      ensures messages == [Message(Bot, Greeting)] && inputText == "" && language == "en-US"
      ensures !isListening && !hasMediaRecorder && !micHeld && chunks == []
      ensures actions == 0 && spoken == [] && requests == []
    {
      username, hasOnAction := user, onAction;
      first := Message(Bot, Greeting);
      GreetingIsNotPlaceholder();
      messages := [Message(Bot, Greeting)];
      inputText, language, recorderLanguage := "", "en-US", "en-US";
      isListening, hasMediaRecorder, micHeld := false, false, false;
      chunks, heard := [], [];
      actions, spoken, requests := 0, [], [];
    }

    method SetInputText(t: string)
      modifies this`inputText
      ensures inputText == t
    {
      inputText := t;
    }

    /** A language button of the menu. */
    method SetLanguage(code: string)
      requires code in Languages
      modifies this`language
      ensures language == code
    {
      language := code;
    }

    /** `handleSend` from the render in which `lang` was the selected
        language. A falsy input does nothing at all. Otherwise the user's
        entry is shown (typed text clears the input box), the request is made
        in `lang`, and the list becomes `MessagesAfterSend`; a successful
        answer is also spoken in `lang`, and `onAction` runs exactly when it
        was given and the intent is not `UNKNOWN`. */
    method HandleSendIn(input: Input, reply: Reply, lang: string)
      requires Valid()
      modifies this`messages, this`inputText, this`requests, this`spoken, this`actions
      ensures Valid()
      ensures Falsy(input) ==> unchanged(this)
      ensures !Falsy(input) ==>
        && messages == MessagesAfterSend(old(messages), input, reply)
        && requests == old(requests) + [Request(username, input, lang)]
        && inputText == (if input.TextInput? then "" else old(inputText))
        && spoken == old(spoken) + (if reply.Answer? then [Utterance(reply.message, lang)] else [])
        && actions == old(actions) + (if reply.Answer? && hasOnAction && reply.intent != Unknown then 1 else 0)
    {
      if Falsy(input) {
        return;
      }
      ghost var before := messages;
      match input {
        case TextInput(t) =>
          messages := messages + [Message(User, t)];
          inputText := "";
        case AudioInput(_) =>
          messages := messages + [Message(User, Placeholder)];
      }
      assert messages == before + [UserEntry(input)];
      requests := requests + [Request(username, input, lang)];
      ShowReply(reply, lang);
      assert messages[0] == before[0] by {
        assert messages[0] == Shown(before + [UserEntry(input)], reply)[0];
      }
    }

    /** `handleSend` from the current render, as Enter and the Send button
        call it: the request and the speech use the selected language. */
    method HandleSend(input: Input, reply: Reply)
      requires Valid()
      modifies this`messages, this`inputText, this`requests, this`spoken, this`actions
      ensures Valid()
      ensures Falsy(input) ==> unchanged(this)
      ensures !Falsy(input) ==>
        && messages == MessagesAfterSend(old(messages), input, reply)
        && requests == old(requests) + [Request(username, input, language)]
        && inputText == (if input.TextInput? then "" else old(inputText))
        && spoken == old(spoken) + (if reply.Answer? then [Utterance(reply.message, language)] else [])
        && actions == old(actions) + (if reply.Answer? && hasOnAction && reply.intent != Unknown then 1 else 0)
    {
      HandleSendIn(input, reply, language);
    }

    /** The part of `handleSend` after the request: reconcile a truthy
        transcription, append the bot's message, speak it, and run `onAction`
        unless the intent is `UNKNOWN`; on an error append the fallback. */
    method ShowReply(reply: Reply, lang: string)
      modifies this`messages, this`spoken, this`actions
      ensures messages == Shown(old(messages), reply) + [Message(Bot, BotText(reply))]
      ensures spoken == old(spoken) + (if reply.Answer? then [Utterance(reply.message, lang)] else [])
      ensures actions == old(actions) + (if reply.Answer? && hasOnAction && reply.intent != Unknown then 1 else 0)
    {
      match reply {
        case Answer(botMessage, transcription, intent) =>
          if transcription.Some? && transcription.value != "" {
            messages := Reconcile(messages, transcription.value);
          }
          messages := messages + [Message(Bot, botMessage)];
          spoken := spoken + [Utterance(botMessage, lang)];
          if hasOnAction && intent != Unknown {
            actions := actions + 1;
          }
        case ConnectionError =>
          messages := messages + [Message(Bot, ConnectionFallback)];
      }
    }

    /** `startListening`: with microphone access it empties the chunk buffer,
        starts listening and fixes the language its `onstop` will use;
        otherwise only an alert is shown. */
    method StartListening(micGranted: bool)
      requires Valid()
      modifies this`hasMediaRecorder, this`chunks, this`heard, this`micHeld, this`isListening, this`recorderLanguage
      ensures Valid()
      ensures micGranted ==> isListening && hasMediaRecorder && micHeld && chunks == [] && heard == []
      ensures micGranted ==> recorderLanguage == language
      ensures !micGranted ==> unchanged(this)
    {
      if micGranted {
        recorderLanguage := language;
        hasMediaRecorder := true;
        chunks, heard := [], [];
        micHeld := true;
        isListening := true;
      }
    }

    /** The in-chat recorder's `ondataavailable`. */
    method ListeningData(c: Chunk)
      requires Valid()
      modifies this`chunks, this`heard
      ensures Valid()
      ensures chunks == old(chunks) + (if |c.data| > 0 then [c] else [])
      ensures heard == old(heard) + [c]
    {
      NonEmptySnoc(heard, c);
      if |c.data| > 0 {
        chunks := chunks + [c];
      }
      heard := heard + [c];
    }

    /** `stopListening` followed by `onstop`. It acts only while a recorder
        exists and listening is on: the buffered chunks go out as one WAV blob
        through the `handleSend` of the render that started listening, so in
        the language selected then, and the microphone is released. */
    method StopListening(reply: Reply) returns (sent: Option<Blob>)
      requires Valid()
      modifies this`isListening, this`micHeld, this`messages, this`inputText, this`requests, this`spoken, this`actions
      ensures Valid()
      ensures old(hasMediaRecorder && isListening) ==>
        && sent == Some(Assemble(chunks)) && sent.value.data == Concat(heard)
        && !isListening && !micHeld && inputText == old(inputText)
        && messages == MessagesAfterSend(old(messages), AudioInput(sent.value), reply)
        && requests == old(requests) + [Request(username, AudioInput(sent.value), recorderLanguage)]
        && spoken == old(spoken) + (if reply.Answer? then [Utterance(reply.message, recorderLanguage)] else [])
        && actions == old(actions) + (if reply.Answer? && hasOnAction && reply.intent != Unknown then 1 else 0)
      ensures !old(hasMediaRecorder && isListening) ==> sent == None && unchanged(this)
    {
      sent := ReleaseRecorder();
      if sent.Some? {
        HandleSendIn(AudioInput(sent.value), reply, recorderLanguage);
      }
    }

    /** The part of `stopListening` and `onstop` before the send: listening
        ends, the microphone is released and the buffered chunks become one
        WAV blob. */
    method ReleaseRecorder() returns (blob: Option<Blob>)
      requires Valid()
      modifies this`isListening, this`micHeld
      ensures Valid()
      ensures old(hasMediaRecorder && isListening) ==>
        blob == Some(Assemble(chunks)) && blob.value.data == Concat(heard) && !isListening
      ensures !old(hasMediaRecorder && isListening) ==> blob == None && isListening == old(isListening)
    {
      blob := None;
      if hasMediaRecorder && isListening {
        NonEmptyKeepsAudio(heard);
        blob := Some(Assemble(chunks));
        isListening := false;
        micHeld := false;
      }
    }
  }

  // ---------------------------------------------------------------------------
  // Conversations

  /** One spoken turn from an idle chat: start listening, one chunk of audio,
      stop. The chunk's bytes are sent, and the list gains the user's entry,
      showing the transcription if one came back, and the bot's message. */
  method SpeakOnce(a: Assistant, c: Chunk, reply: Reply) returns (sent: Blob)
    requires a.Valid() && !a.isListening
    modifies a
    ensures a.Valid() && !a.isListening
    ensures sent.data == c.data
    ensures a.messages == old(a.messages)
      + [Message(User, if HasTranscription(reply) then reply.transcription.value else Placeholder),
         Message(Bot, BotText(reply))]
    ensures a.spoken == old(a.spoken) + (if reply.Answer? then [Utterance(reply.message, a.language)] else [])
    ensures a.actions == old(a.actions) + (if reply.Answer? && a.hasOnAction && reply.intent != Unknown then 1 else 0)
    ensures a.inputText == old(a.inputText) && a.language == old(a.language)
  {
    Listen(a, c);
    var s := a.StopListening(reply);
    sent := s.value;
    AudioSendKeepsHistory(old(a.messages), sent, reply);
  }

  /** Start listening and hear one chunk: the recorder now holds exactly it. */
  method Listen(a: Assistant, c: Chunk)
    requires a.Valid()
    modifies a`hasMediaRecorder, a`chunks, a`heard, a`micHeld, a`isListening, a`recorderLanguage
    ensures a.Valid() && a.isListening && a.hasMediaRecorder && a.recorderLanguage == a.language
    ensures Concat(a.heard) == c.data
  {
    a.StartListening(true);
    a.ListeningData(c);
    assert a.heard == [c];
    assert [c][..0] == [];
  }

  /** A spoken question that is understood: the placeholder turns into the
      transcription, the answer follows and is spoken, and `onAction` runs. */
  method SpokenQuestion(c: Chunk, transcript: string, answer: string)
    returns (messages: seq<Message>, actions: nat, spoken: seq<Utterance>)
    requires transcript != ""
    ensures messages == [Message(Bot, Greeting), Message(User, transcript), Message(Bot, answer)]
    ensures actions == 1 && spoken == [Utterance(answer, "en-US")]
  {
    var a := new Assistant("alice", true);
    var _ := SpeakOnce(a, c, Answer(answer, Some(transcript), "CHECK_BALANCE"));
    messages, actions, spoken := a.messages, a.actions, a.spoken;
  }

  /** A spoken question whose request fails keeps its placeholder; the next
      typed question, echoed back as transcription, overwrites that stale
      placeholder, so the typed text then shows twice. No action runs for an
      unrecognised command. */
  method FailedSpeechThenText(c: Chunk, t: string, answer: string)
    returns (afterFailure: seq<Message>, afterText: seq<Message>, actions: nat)
    requires t != "" && t != Placeholder
    ensures afterFailure == [Message(Bot, Greeting), Message(User, Placeholder), Message(Bot, ConnectionFallback)]
    ensures afterText == [Message(Bot, Greeting), Message(User, t), Message(Bot, ConnectionFallback),
                          Message(User, t), Message(Bot, answer)]
    ensures actions == 0
  {
    var a := new Assistant("alice", true);
    var _ := SpeakOnce(a, c, ConnectionError);
    afterFailure := a.messages;
    assert afterFailure == [Message(Bot, Greeting), Message(User, Placeholder), Message(Bot, ConnectionFallback)];
    a.SetInputText(t);
    var reply := Answer(answer, Some(t), Unknown);
    a.HandleSend(TextInput(a.inputText), reply);
    afterText := a.messages;
    assert afterText == MessagesAfterSend(afterFailure, TextInput(t), reply);
    StaleTextExample(t, answer);
    actions := a.actions;
  }

  lemma StaleTextExample(t: string, answer: string)
    requires t != "" && t != Placeholder
    ensures MessagesAfterSend([Message(Bot, Greeting), Message(User, Placeholder), Message(Bot, ConnectionFallback)],
                              TextInput(t), Answer(answer, Some(t), Unknown))
         == [Message(Bot, Greeting), Message(User, t), Message(Bot, ConnectionFallback),
             Message(User, t), Message(Bot, answer)]
  {
    var ms := [Message(Bot, Greeting), Message(User, Placeholder), Message(Bot, ConnectionFallback)];
    TextSendOverwritesStalePlaceholder(ms, t, answer, Unknown);
    GreetingIsNotPlaceholder();
    FallbackIsNotPlaceholder();
    assert LastPlaceholderAt(ms, 1);
    assert !LastPlaceholderAt(ms, 0) && !LastPlaceholderAt(ms, 2);
  }

  /** Pressing Enter on an empty box sends nothing. */
  method EmptyEnter(reply: Reply) returns (unchangedList: bool, calls: nat)
    ensures unchangedList && calls == 0
  {
    var a := new Assistant("alice", true);
    a.HandleSend(TextInput(a.inputText), reply);
    unchangedList := a.messages == [Message(Bot, Greeting)];
    calls := |a.requests|;
  }

  /** The language picker stays usable while listening, but a recording goes
      out, and its answer is spoken, in the language selected when listening
      started. */
  method LanguageSwitchWhileListening(a: Assistant, c: Chunk, code: string, reply: Reply)
    returns (sent: Blob)
    requires a.Valid() && !a.isListening && code in Languages
    modifies a
    ensures a.language == code && sent.data == c.data
    ensures a.requests == old(a.requests) + [Request(a.username, AudioInput(sent), old(a.language))]
    ensures a.spoken == old(a.spoken) + (if reply.Answer? then [Utterance(reply.message, old(a.language))] else [])
  {
    Listen(a, c);
    a.SetLanguage(code);
    var s := a.StopListening(reply);
    sent := s.value;
  }

  /** Enter on a whitespace-only box sends it, although the Send button is
      disabled for it. */
  method WhitespaceEnter(a: Assistant, t: string, reply: Reply) returns (buttonEnabled: bool)
    requires a.Valid() && t != "" && forall k :: 0 <= k < |t| ==> IsJsSpace(t[k])
    modifies a
    ensures !buttonEnabled && a.messages == MessagesAfterSend(old(a.messages), TextInput(t), reply)
    ensures |a.messages| == |old(a.messages)| + 2 && a.messages[|old(a.messages)|] == Message(User, t)
    ensures a.requests == old(a.requests) + [Request(a.username, TextInput(t), a.language)]
  {
    a.SetInputText(t);
    buttonEnabled := SendEnabled(a.inputText);
    WhitespaceBypassesButton(a.messages, t, reply);
    a.HandleSend(TextInput(a.inputText), reply);
  }
}
