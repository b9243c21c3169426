/** Intent detection of the command interpreter (nlp_service.py): a priority
    rule for history words, then the first intent in declaration order with
    a pattern occurring in the lower-cased command. Every pattern is a plain
    string, so a regular-expression search for it is substring containment. */
module NlpIntents {
  import opened Text

  datatype Intent = CheckBalance | TransferFunds | TransactionHistory | LoanInfo | SetReminder

  datatype IntentPatterns = IntentPatterns(intent: Intent, patterns: seq<string>)

  // ---------------------------------------------------------------------------
  // Intent detection

  /** `self.intents`, in declaration order. The two French patterns written
      with an escaped quote match a plain quote. */
  const IntentTable: seq<IntentPatterns> := [
    IntentPatterns(CheckBalance,
      ["balance", "how much money", "account status", "what do i have",
       "saldo", "cuánto dinero", "estado de cuenta", "balance",
       "kitna paisa", "khata", "paise", "solde",
       "combien d'argent", "compte"]),
    IntentPatterns(TransferFunds,
      ["transfer", "send", "pay", "transferir",
       "enviar dinero", "pagar", "transfer", "bhejo",
       "dena", "pay", "transférer", "envoyer",
       "payer"]),
    IntentPatterns(TransactionHistory,
      ["transactions", "history", "last spent", "recent activity",
       "transacciones", "historial", "movimientos", "transaction",
       "history", "len den", "kharch", "transactions",
       "historique", "dépenses"]),
    IntentPatterns(LoanInfo,
      ["loan", "interest rate", "borrow", "credit limit",
       "préstamo", "tasa de interés", "crédito", "loan",
       "udhar", "byaj", "credit", "prêt",
       "taux d'intérêt", "crédit"]),
    IntentPatterns(SetReminder,
      ["remind", "reminder", "alert", "notify",
       "set alarm", "recordar", "recordatorio", "alerta",
       "yaad", "reminder", "yaad dilana", "alert",
       "rappel", "rappeler", "alerte"])
  ]

  /** The words that force TRANSACTION_HISTORY before any table lookup. */
  const PriorityWords: seq<string> := ["transaction", "history", "statement", "last spent"]

  /** `any(re.search(p, s) for p in ps)`. */
  predicate AnyOccurs(s: string, ps: seq<string>) {
    exists k :: 0 <= k < |ps| && Contains(s, ps[k])
  }

  /** Row `j` is the first row of the table with a pattern occurring in `s`. */
  predicate FirstMatching(s: string, j: int) {
    && 0 <= j < |IntentTable| && AnyOccurs(s, IntentTable[j].patterns)
    && forall i :: 0 <= i < j ==> !AnyOccurs(s, IntentTable[i].patterns)
  }

  /** The first row at or after `j` with an occurring pattern, or the table size. */
  function MatchFrom(s: string, j: nat): (r: nat)
    requires j <= |IntentTable|
    ensures j <= r <= |IntentTable|
    ensures r < |IntentTable| ==> AnyOccurs(s, IntentTable[r].patterns)
    ensures forall i :: j <= i < r ==> !AnyOccurs(s, IntentTable[i].patterns)
    decreases |IntentTable| - j
  {
    if j == |IntentTable| then j
    else if AnyOccurs(s, IntentTable[j].patterns) then j
    else MatchFrom(s, j + 1)
  }

  /** The intent of a lower-cased command, `None` standing for UNKNOWN: a
      priority word decides first, then the first row with a matching pattern. */
  function Detect(s: string): (r: Option<Intent>)
    ensures AnyOccurs(s, PriorityWords) ==> r == Some(TransactionHistory)
    ensures !AnyOccurs(s, PriorityWords) ==>
      (r.None? <==> forall j :: 0 <= j < |IntentTable| ==> !AnyOccurs(s, IntentTable[j].patterns))
    ensures !AnyOccurs(s, PriorityWords) ==>
      forall j :: FirstMatching(s, j) ==> r == Some(IntentTable[j].intent)
  {
    if AnyOccurs(s, PriorityWords) then Some(TransactionHistory)
    else
      var j := MatchFrom(s, 0);
      if j < |IntentTable| then Some(IntentTable[j].intent) else None
  }
}
