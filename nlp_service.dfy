/** `process_command` of the command interpreter (nlp_service.py): the
    detected intent, the language's answer for an unknown command, and the
    entities of a transfer with the missing-information answer. */
module NlpService {
  import opened Text
  import opened NlpIntents
  import opened NlpNumbers
  import opened NlpResponses

  /** The `entities` of a transfer command. */
  datatype Entities = Entities(amount: Option<real>, recipient: Option<string>)

  /** The dictionary `process_command` returns. `intent == None` stands for
      "UNKNOWN"; an absent `message` or `entities` key is `None` and an absent
      `missing_info` key is `false`. */
  datatype CommandResult =
    CommandResult(intent: Option<Intent>, message: Option<string>, entities: Option<Entities>, missingInfo: bool)

  /** Python truthiness of an extracted amount and of an extracted name. */
  predicate AmountTruthy(a: Option<real>) {
    a.Some? && a.value != 0.0
  }

  predicate RecipientTruthy(n: Option<string>) {
    n.Some? && n.value != ""
  }

  /** What `process_command` answers for `text` in `language`, given the
      amount and recipient its extractors find. */
  function Respond(text: string, language: string, amount: Option<real>, recipient: Option<string>): (r: CommandResult)
    ensures AnyOccurs(Lower(text), PriorityWords) ==> r == CommandResult(Some(TransactionHistory), None, None, false)
    ensures !AnyOccurs(Lower(text), PriorityWords) ==>
      forall j :: FirstMatching(Lower(text), j) ==> r.intent == Some(IntentTable[j].intent)
    ensures r.intent.None? <==>
      !AnyOccurs(Lower(text), PriorityWords)
      && forall j :: 0 <= j < |IntentTable| ==> !AnyOccurs(Lower(text), IntentTable[j].patterns)
    ensures r.intent.None? ==> r == CommandResult(None, Some(Response(LanguageOf(language), Unknown)), None, false)
    ensures r.intent == Some(TransferFunds) ==>
      && r.entities == Some(Entities(amount, recipient))
      && (r.missingInfo <==> !AmountTruthy(amount) || !RecipientTruthy(recipient))
      && r.message == (if r.missingInfo then Some(Response(LanguageOf(language), MissingInfo)) else None)
    ensures r.intent.Some? && r.intent != Some(TransferFunds) ==> r == CommandResult(r.intent, None, None, false)
  {
    var intent := Detect(Lower(text));
    var lang := LanguageOf(language);
    if intent.None? then CommandResult(None, Some(Response(lang, Unknown)), None, false)
    else if intent.value != TransferFunds then CommandResult(intent, None, None, false)
    else if !AmountTruthy(amount) || !RecipientTruthy(recipient) then
      CommandResult(intent, Some(Response(lang, MissingInfo)), Some(Entities(amount, recipient)), true)
    else CommandResult(intent, None, Some(Entities(amount, recipient)), false)
  }

  /** `process_command`. The recipient that `extract_recipient` finds is a
      parameter; the amount is extracted only for a transfer. */
  method ProcessCommand(text: string, language: string, regexAmount: Option<real>, recipient: Option<string>)
    returns (r: CommandResult)
    ensures r == Respond(text, language, ExtractedAmount(text, regexAmount), recipient)
  {
    var lower := Lower(text);
    var detected: Option<Intent> := None;
    if AnyOccurs(lower, PriorityWords) {
      detected := Some(TransactionHistory);
    } else {
      var j := 0;
      while j < |IntentTable|
        invariant 0 <= j <= |IntentTable|
        invariant detected == None
        invariant MatchFrom(lower, 0) == MatchFrom(lower, j)
      {
        if AnyOccurs(lower, IntentTable[j].patterns) {
          detected := Some(IntentTable[j].intent);
          break;
        }
        j := j + 1;
      }
    }
    assert detected == Detect(lower);
    var lang := LanguageOf(language);
    if detected.None? {
      return CommandResult(None, Some(Response(lang, Unknown)), None, false);
    }
    r := CommandResult(detected, None, None, false);
    if detected.value == TransferFunds {
      var amount := ExtractAmount(text, regexAmount);
      r := r.(entities := Some(Entities(amount, recipient)));
      if !AmountTruthy(amount) || !RecipientTruthy(recipient) {
        r := r.(missingInfo := true, message := Some(Response(lang, MissingInfo)));
      }
    }
  }

  /** An unsupported language is answered as English. */
  lemma RespondLanguageFallback(text: string, language: string, amount: Option<real>, recipient: Option<string>)
    requires !Supported(language)
    ensures Respond(text, language, amount, recipient) == Respond(text, "en-US", amount, recipient)
  {
    assert LanguageName(EnUs) == "en-US";
  }

  /** "send my transaction history" is a history request even though "send"
      is a transfer word. */
  lemma PriorityOverTransfer(text: string, language: string, amount: Option<real>, recipient: Option<string>)
    requires text == "send my transaction history"
    ensures Respond(text, language, amount, recipient) == CommandResult(Some(TransactionHistory), None, None, false)
  {
    LowerEach(text, text);
    assert AnyOccurs(text, PriorityWords) by {
      assert StartsWith(text[8..], PriorityWords[0]);
      ContainsSuffix(text, 8, PriorityWords[0]);
    }
  }

  /** "Check my balance" asks for the balance. */
  lemma CheckBalanceExample(text: string, language: string, amount: Option<real>, recipient: Option<string>)
    requires text == "Check my balance"
    ensures Respond(text, language, amount, recipient) == CommandResult(Some(CheckBalance), None, None, false)
  {
    LowerEach(text, "check my balance");
    var s := Lower(text);
    assert 'r' !in s && 'i' !in s && 's' !in s by {
      assert forall i :: 0 <= i < |s| ==> s[i] != 'r' && s[i] != 'i' && s[i] != 's';
    }
    NoPriorityLetters(s);
    BalanceIsFirst(s);
  }

  /** Every priority word holds an `r`, an `i` or an `s`, so a command with
      none of those letters has no priority word. */
  lemma NoPriorityLetters(s: string)
    requires 'r' !in s && 'i' !in s && 's' !in s
    ensures !AnyOccurs(s, PriorityWords)
  {
    assert !Contains(s, PriorityWords[0]) by { AbsentChar(s, PriorityWords[0], 'r'); }
    assert !Contains(s, PriorityWords[1]) by { AbsentChar(s, PriorityWords[1], 'i'); }
    assert !Contains(s, PriorityWords[2]) by { AbsentChar(s, PriorityWords[2], 's'); }
    assert !Contains(s, PriorityWords[3]) by { AbsentChar(s, PriorityWords[3], 's'); }
  }

  lemma BalanceIsFirst(s: string)
    requires s == "check my balance"
    ensures FirstMatching(s, 0)
  {
    assert s[9..] == "balance";
    assert StartsWith(s[9..], IntentTable[0].patterns[0]);
    ContainsSuffix(s, 9, IntentTable[0].patterns[0]);
  }
}
