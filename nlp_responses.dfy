/** The localized answers of the command interpreter (nlp_service.py): four
    languages of eight templates each, the English fallback, and
    `get_response_text`. */
module NlpResponses {
  import opened Text
  import opened NlpFormat

  /** The languages of `self.responses`. */
  datatype Lang = EnUs | EsEs | HiIn | FrFr

  /** The template keys every language defines. */
  datatype Key = Unknown | MissingInfo | TransferConfirm | Balance | History | Reminder | Loan | Help

  function LanguageName(l: Lang): string {
    match l
    case EnUs => "en-US"
    case EsEs => "es-ES"
    case HiIn => "hi-IN"
    case FrFr => "fr-FR"
  }

  function KeyName(k: Key): string {
    match k
    case Unknown => "UNKNOWN"
    case MissingInfo => "MISSING_INFO"
    case TransferConfirm => "TRANSFER_CONFIRM"
    case Balance => "BALANCE"
    case History => "HISTORY"
    case Reminder => "REMINDER"
    case Loan => "LOAN"
    case Help => "HELP"
  }

  /** A language tag that has its own templates. */
  predicate Supported(language: string) {
    exists l :: LanguageName(l) == language
  }

  /** `self.responses.get(language, self.responses['en-US'])`: the language a
      tag names, and English for a tag no language has. */
  function LanguageOf(language: string): (l: Lang)
    ensures forall m :: LanguageName(m) == language ==> l == m
    ensures !Supported(language) ==> l == EnUs
  {
    if language == "es-ES" then assert LanguageName(EsEs) == language; EsEs
    else if language == "hi-IN" then assert LanguageName(HiIn) == language; HiIn
    else if language == "fr-FR" then assert LanguageName(FrFr) == language; FrFr
    else EnUs
  }

  /** The template key a string names, if any. */
  function KeyOf(key: string): (r: Option<Key>)
    ensures r.Some? ==> KeyName(r.value) == key
    ensures forall k :: KeyName(k) == key ==> r == Some(k)
  {
    if key == "UNKNOWN" then Some(Unknown)
    else if key == "MISSING_INFO" then Some(MissingInfo)
    else if key == "TRANSFER_CONFIRM" then Some(TransferConfirm)
    else if key == "BALANCE" then Some(Balance)
    else if key == "HISTORY" then Some(History)
    else if key == "REMINDER" then Some(Reminder)
    else if key == "LOAN" then Some(Loan)
    else if key == "HELP" then Some(Help)
    else None
  }

  /** The template tables of `self.responses`. */
  function Response(l: Lang, k: Key): string {
    match l
    case EnUs => (
      match k
      case Unknown => "I didn't understand that command."
      case MissingInfo => "I need to know how much and who to send it to."
      case TransferConfirm => "I can help you transfer ₹" + "{amount}" + " to " + "{recipient}" + ". Please confirm."
      case Balance => "Your current balance is ₹" + "{balance}"
      case History => "Here are your last 3 transactions."
      case Reminder => "Reminder set for payment of ₹" + "{amount}" + "."
      case Loan => "You have " + "{count}" + " loan(s). Eligible for Personal Loan at 12.5% interest."
      case Help => "I'm not sure how to help with that.")
    case EsEs => (
      match k
      case Unknown => "No entendí ese comando."
      case MissingInfo => "Necesito saber cuánto y a quién enviarlo."
      case TransferConfirm => "Puedo ayudarte a transferir ₹" + "{amount}" + " a " + "{recipient}" + ". Por favor confirma."
      case Balance => "Tu saldo actual es ₹" + "{balance}"
      case History => "Aquí están tus últimas 3 transacciones."
      case Reminder => "Recordatorio establecido para pago de ₹" + "{amount}" + "."
      case Loan => "Tienes " + "{count}" + " préstamo(s). Elegible para préstamo personal al 12.5%."
      case Help => "No estoy seguro de cómo ayudar con eso.")
    case HiIn => (
      match k
      case Unknown => "Mujhe wo samajh nahi aaya."
      case MissingInfo => "Mujhe janana hai ki kitna aur kise bhejna hai."
      case TransferConfirm => "Main ₹" + "{amount}" + " " + "{recipient}" + " ko bhejne mein madad kar sakta hoon. Kripya confirm karein."
      case Balance => "Aapka current balance ₹" + "{balance}" + " hai"
      case History => "Ye rahe aapke pichle 3 transactions."
      case Reminder => "₹" + "{amount}" + " ka payment reminder set ho gaya hai."
      case Loan => "Aapke paas " + "{count}" + " loan hai. Personal loan ke liye eligible - 12.5% interest."
      case Help => "Mujhe nahi pata ki isme kaise madad karoon.")
    case FrFr => (
      match k
      case Unknown => "Je n'ai pas compris cette commande."
      case MissingInfo => "J'ai besoin de savoir combien et à qui l'envoyer."
      case TransferConfirm => "Je peux vous aider à transférer ₹" + "{amount}" + " à " + "{recipient}" + ". Veuillez confirmer."
      case Balance => "Votre solde actuel est de ₹" + "{balance}"
      case History => "Voici vos 3 dernières transactions."
      case Reminder => "Rappel défini pour le paiement de ₹" + "{amount}" + "."
      case Loan => "Vous avez " + "{count}" + " prêt(s). Éligible pour un prêt personnel à 12.5%."
      case Help => "Je ne suis pas sûr de savoir comment aider avec ça.")
  }

  /** `lang_responses.get(key, lang_responses['HELP'])`: a known key gets its
      template in the language, any other key the language's HELP answer. */
  function Template(key: string, language: string): (t: string)
    ensures forall k :: KeyName(k) == key ==> t == Response(LanguageOf(language), k)
    ensures KeyOf(key).None? ==> t == Response(LanguageOf(language), Help)
  {
    var k := KeyOf(key);
    Response(LanguageOf(language), if k.Some? then k.value else Help)
  }

  /** A tag without templates of its own is answered as English. */
  lemma TemplateFallback(key: string, language: string)
    requires !Supported(language)
    ensures Template(key, language) == Template(key, "en-US")
  {
    assert LanguageName(EnUs) == "en-US";
  }

  /** `get_response_text`: fetch the template, then replace the placeholder
      of each keyword argument in turn. `None` stands for the `ValueError` of
      formatting a str balance. */
  method GetResponseText(key: string, language: string, args: seq<Arg>) returns (r: Option<string>)
    ensures r == Substituted(Template(key, language), args)
  {
    var lang := LanguageOf(language);
    var k := KeyOf(key);
    var template := if k.Some? then Response(lang, k.value) else Response(lang, Help);
    var i := 0;
    while i < |args|
      invariant 0 <= i <= |args|
      invariant Substituted(template, args[i..]) == Substituted(Template(key, language), args)
    {
      assert args[i..][1..] == args[i + 1..];
      var name, v := args[i].key, args[i].value;
      if name == "balance" {
        var text := BalanceText(v);
        if text.None? {
          return None;
        }
        template := Replace(template, Placeholder(name), text.value);
      } else {
        template := Replace(template, Placeholder(name), StrText(v));
      }
      i := i + 1;
    }
    return Some(template);
  }

  /** The English balance answer shows the balance with separators and two
      decimals. */
  lemma BalanceAnswer(key: string, language: string, h: int)
    requires key == "BALANCE" && language == "en-US"
    ensures Substituted(Template(key, language), [Arg("balance", FloatValue(h))])
      == Some("Your current balance is ₹" + FixedText(h))
  {
    var a := "Your current balance is ₹";
    var p := Placeholder("balance");
    calc {
      Substituted(Template(key, language), [Arg("balance", FloatValue(h))]);
      { EnglishTemplate(key, language, Balance);
        BalancePieces(a); }
      Substituted(a + p + "", [Arg("balance", FloatValue(h))]);
      { OneArg(a + p + "", "balance", FloatValue(h)); }
      Some(Replace(a + p + "", p, FixedText(h)));
      { BalancePieces(a);
        OnePlaceholder(a, "balance", "", FixedText(h)); }
      Some(a + FixedText(h) + "");
      { assert a + FixedText(h) + "" == a + FixedText(h); }
      Some(a + FixedText(h));
    }
  }

  /** The English balance answer cut at its placeholder. */
  lemma BalancePieces(a: string)
    requires a == "Your current balance is ₹"
    ensures Response(EnUs, Balance) == a + Placeholder("balance") + ""
    ensures '{' !in a
  {
  }

  /** The English transfer confirmation names the amount and then the
      recipient, whatever characters the name holds. */
  lemma TransferConfirmAnswer(key: string, language: string, h: int, name: string)
    requires key == "TRANSFER_CONFIRM" && language == "en-US"
    ensures Substituted(Template(key, language), [Arg("amount", FloatValue(h)), Arg("recipient", TextValue(name))])
      == Some("I can help you transfer ₹" + FloatText(h) + " to " + name + ". Please confirm.")
  {
    EnglishTemplate(key, language, TransferConfirm);
    TransferPieces("I can help you transfer ₹", " to ", ". Please confirm.");
    AmountNotInRest(" to ", ". Please confirm.");
    FloatTextNoBrace(h);
    TwoPlaceholders("I can help you transfer ₹", "amount", " to ", "recipient", ". Please confirm.",
      FloatValue(h), TextValue(name));
  }

  /** The English transfer confirmation cut at its two placeholders. */
  lemma TransferPieces(a: string, m: string, b: string)
    requires a == "I can help you transfer ₹" && m == " to " && b == ". Please confirm."
    ensures Response(EnUs, TransferConfirm) == a + Placeholder("amount") + m + Placeholder("recipient") + b
    ensures '{' !in a && '{' !in m && '{' !in b
  {
  }

  /** A named key asked for in English gets the English template. */
  lemma EnglishTemplate(key: string, language: string, k: Key)
    requires key == KeyName(k) && language == "en-US"
    ensures Template(key, language) == Response(EnUs, k)
  {
    assert LanguageName(EnUs) == language;
  }

  lemma AmountNotInRest(m: string, b: string)
    requires m == " to " && b == ". Please confirm."
    ensures !Contains(m + Placeholder("recipient") + b, Placeholder("amount"))
  {
    var r := m + Placeholder("recipient") + b;
    assert forall i :: 0 <= i < |r| ==> r[i] != 'u';
    AbsentChar(r, Placeholder("amount"), 'u');
  }
}
