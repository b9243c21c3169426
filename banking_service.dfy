/** The mock ledger (banking_service.py): profiles keyed by username, created
    on demand, and a transfer that debits the sender and credits the recipient
    when the recipient has a profile. Money is counted in hundredths of the
    currency unit, so 5420.50 is 542050; the date is a parameter. */
module BankingService {
  import opened Text

  datatype TxKind = Debit | Credit

  datatype Transaction = Transaction(id: nat, date: string, desc: string, amount: int, kind: TxKind)

  datatype Loan = Loan(kind: string, amount: int, rate: string, status: string)

  datatype Profile = Profile(email: string, balance: int, accountNumber: string,
                             transactions: seq<Transaction>, loans: seq<Loan>)

  type Db = map<string, Profile>

  const WelcomeBonus: int := 100000
  const AccountPrefix: string := "XXXX-XXXX-XXXX-"

  /** The profile `mock_db` starts with. */
  function SeedProfile(): (p: Profile)
    ensures p.balance == 542050 && |p.transactions| == 4 && |p.loans| == 2
    ensures forall i :: 0 <= i < |p.transactions| ==>
      p.transactions[i].id == i + 1 && (p.transactions[i].amount < 0 <==> p.transactions[i].kind == Debit)
  {
    Profile("test@example.com", 542050, "XXXX-XXXX-XXXX-1234",
            [Transaction(1, "2023-10-25", "Grocery Store", -15000, Debit),
             Transaction(2, "2023-10-24", "Salary Deposit", 300000, Credit),
             Transaction(3, "2023-10-22", "Netflix Subscription", -1599, Debit),
             Transaction(4, "2023-10-20", "Electric Bill", -12050, Debit)],
            [Loan("Personal Loan", 1000000, "12.5%", "Active"),
             Loan("Home Loan", 25000000, "7.2%", "Eligible")])
  }

  /** The profile `create_user` builds when the ledger holds `count` profiles. */
  function NewProfile(email: string, count: nat, today: string): (p: Profile)
    ensures p.email == email && |p.transactions| == 1
    ensures p.transactions[0].kind == Credit && p.balance == p.transactions[0].amount
    ensures |AccountPrefix| < |p.accountNumber| && p.accountNumber[..|AccountPrefix|] == AccountPrefix
    ensures IsDigits(p.accountNumber[|AccountPrefix|..])
    ensures DecimalValue(p.accountNumber[|AccountPrefix|..]) == count + 1000
  {
    DecimalRoundTrip(count + 1000);
    assert (AccountPrefix + NatToString(count + 1000))[|AccountPrefix|..] == NatToString(count + 1000);
    Profile(email, WelcomeBonus, AccountPrefix + NatToString(count + 1000),
            [Transaction(1, today, "Welcome Bonus", WelcomeBonus, Credit)],
            [Loan("Personal Loan", 500000, "12.5%", "Eligible")])
  }

  /** The ledger after `create_user(username, email)`. */
  function Upsert(db: Db, username: string, email: string, today: string): (r: Db)
    ensures username in r && r.Keys == db.Keys + {username}
    ensures forall u :: u in db && u != username ==> r[u] == db[u]
  {
    if username !in db then db[username := NewProfile(email, |db|, today)]
    else db[username := db[username].(email := email)]
  }

  /** A new user starts with the welcome bonus as its balance and as its one
      credit transaction, and an account number carrying the ledger's size. */
  lemma NewUserGetsWelcomeBonus(db: Db, username: string, email: string, today: string)
    requires username !in db
    ensures var p := Upsert(db, username, email, today)[username];
      && p.email == email && p.balance == WelcomeBonus
      && p.transactions == [Transaction(1, today, "Welcome Bonus", WelcomeBonus, Credit)]
      && p.accountNumber == AccountPrefix + NatToString(|db| + 1000)
  {
  }

  /** Enrolling an existing user again changes only its e-mail address. */
  lemma ExistingUserKeepsData(db: Db, username: string, email: string, today: string)
    requires username in db
    ensures var p := Upsert(db, username, email, today)[username];
      && p.email == email && p.balance == db[username].balance
      && p.accountNumber == db[username].accountNumber
      && p.transactions == db[username].transactions && p.loans == db[username].loans
    ensures Upsert(db, username, db[username].email, today) == db
  {
  }

  /** The ledger after `get_user_data(username)`: unchanged for a known user,
      otherwise with a default profile at `username@example.com`. */
  function WithUser(db: Db, username: string, today: string): (r: Db)
    ensures username in r && r.Keys == db.Keys + {username}
    ensures username in db ==> r == db
    ensures username !in db ==> r[username] == NewProfile(username + "@example.com", |db|, today)
    ensures forall u :: u in db ==> r[u] == db[u]
  {
    if username !in db then Upsert(db, username, username + "@example.com", today) else db
  }

  /** The sender's profile after the debit: balance down by `amount` and a new
      transaction at the front. */
  function Debited(p: Profile, recipient: string, amount: int, today: string): (q: Profile)
    ensures |q.transactions| == |p.transactions| + 1 && q.transactions[1..] == p.transactions
    ensures q.transactions[0].id == |p.transactions| + 1 && q.transactions[0].kind == Debit
    ensures q.balance - p.balance == q.transactions[0].amount
    ensures q.email == p.email && q.accountNumber == p.accountNumber && q.loans == p.loans
  {
    p.(balance := p.balance - amount,
       transactions := [Transaction(|p.transactions| + 1, today, "Transfer to " + recipient, -amount, Debit)]
                       + p.transactions)
  }

  /** The recipient's profile after the credit. */
  function Credited(p: Profile, sender: string, amount: int, today: string): (q: Profile)
    ensures |q.transactions| == |p.transactions| + 1 && q.transactions[1..] == p.transactions
    ensures q.transactions[0].id == |p.transactions| + 1 && q.transactions[0].kind == Credit
    ensures q.balance - p.balance == q.transactions[0].amount
    ensures q.email == p.email && q.accountNumber == p.accountNumber && q.loans == p.loans
  {
    p.(balance := p.balance + amount,
       transactions := [Transaction(|p.transactions| + 1, today, "Transfer from " + sender, amount, Credit)]
                       + p.transactions)
  }

  /** The `message` of a transfer's reply; its text rendering of the amount is
      not modelled. */
  datatype TransferMessage = InsufficientFunds | Transferred(amount: int, recipient: string)

  datatype TransferResult = TransferResult(success: bool, message: TransferMessage, newBalance: Option<int>, db: Db)

  /** `transfer_funds` on a ledger value. */
  function Transfer(db: Db, username: string, recipient: string, amount: int, today: string): (r: TransferResult)
    ensures r.db.Keys == db.Keys + {username}
    ensures r.success <==> WithUser(db, username, today)[username].balance >= amount
    ensures r.success ==> r.message == Transferred(amount, recipient) && r.newBalance == Some(r.db[username].balance)
    ensures !r.success ==> r.message == InsufficientFunds && r.newBalance == None && r.db == WithUser(db, username, today)
  {
    var db1 := WithUser(db, username, today);
    var user := db1[username];
    if user.balance < amount then TransferResult(false, InsufficientFunds, None, db1)
    else
      var db2 := db1[username := Debited(user, recipient, amount, today)];
      var db3 := if recipient in db2 then db2[recipient := Credited(db2[recipient], username, amount, today)] else db2;
      TransferResult(true, Transferred(amount, recipient), Some(db3[username].balance), db3)
  }

  /** Insufficient funds leave an existing sender's ledger untouched. */
  lemma InsufficientChangesNothing(db: Db, username: string, recipient: string, amount: int, today: string)
    requires username in db && db[username].balance < amount
    ensures var r := Transfer(db, username, recipient, amount, today);
      !r.success && r.db == db
  {
  }

  /** A transfer between two different users debits the sender by `amount`
      and records it first in the sender's history, with the next id. */
  lemma TransferDebitsSender(db: Db, username: string, recipient: string, amount: int, today: string)
    requires username != recipient
    ensures var r := Transfer(db, username, recipient, amount, today);
      var before := WithUser(db, username, today)[username];
      r.success ==>
        && r.db[username].balance == before.balance - amount
        && r.db[username].transactions
           == [Transaction(|before.transactions| + 1, today, "Transfer to " + recipient, -amount, Debit)] + before.transactions
        && r.db[username].email == before.email && r.db[username].loans == before.loans
  {
  }

  /** A recipient with a profile is credited by `amount` and records the
      sender; a recipient without one is not created. */
  lemma TransferCreditsRecipient(db: Db, username: string, recipient: string, amount: int, today: string)
    requires username != recipient
    ensures var r := Transfer(db, username, recipient, amount, today);
      r.success && recipient in db ==>
        && r.db[recipient].balance == db[recipient].balance + amount
        && r.db[recipient].transactions
           == [Transaction(|db[recipient].transactions| + 1, today, "Transfer from " + username, amount, Credit)]
              + db[recipient].transactions
    ensures recipient !in db ==> recipient !in Transfer(db, username, recipient, amount, today).db
  {
  }

  /** No profile other than the sender's and the recipient's changes. */
  lemma TransferTouchesOnlyBoth(db: Db, username: string, recipient: string, amount: int, today: string)
    ensures var r := Transfer(db, username, recipient, amount, today);
      forall u :: u in db && u != username && u != recipient ==> r.db[u] == db[u]
  {
  }

  /** Between two existing, different users the sum of their balances is
      preserved, whether or not the transfer goes through. */
  lemma TransferPreservesPairSum(db: Db, username: string, recipient: string, amount: int, today: string)
    requires username in db && recipient in db && username != recipient
    ensures var r := Transfer(db, username, recipient, amount, today);
      r.db[username].balance + r.db[recipient].balance == db[username].balance + db[recipient].balance
  {
    var r := Transfer(db, username, recipient, amount, today);
    if r.success {
      TransferDebitsSender(db, username, recipient, amount, today);
      TransferCreditsRecipient(db, username, recipient, amount, today);
    }
  }

  /** Between two different users with profiles and enough funds, the
      sender loses `amount`, the recipient gains it and records one more
      transaction. */
  lemma TransferBetweenKnown(db: Db, username: string, recipient: string, amount: int, today: string)
    requires username in db && recipient in db && username != recipient
    requires db[username].balance >= amount
    ensures var r := Transfer(db, username, recipient, amount, today);
      && r.success
      && r.db[username].balance == db[username].balance - amount
      && r.db[recipient].balance == db[recipient].balance + amount
      && |r.db[recipient].transactions| == |db[recipient].transactions| + 1
  {
    TransferDebitsSender(db, username, recipient, amount, today);
    TransferCreditsRecipient(db, username, recipient, amount, today);
  }

  /** Sending to oneself debits and credits the same profile: its balance ends
      where it started, with the debit and then the credit on top of its
      history, and the reply reports that unchanged balance. */
  lemma SelfTransfer(db: Db, username: string, amount: int, today: string)
    requires username in db && db[username].balance >= amount
    ensures var r := Transfer(db, username, username, amount, today);
      var p := db[username];
      && r.success && r.newBalance == Some(p.balance)
      && r.db[username].balance == p.balance
      && r.db[username].transactions
         == [Transaction(|p.transactions| + 2, today, "Transfer from " + username, amount, Credit),
             Transaction(|p.transactions| + 1, today, "Transfer to " + username, -amount, Debit)]
            + p.transactions
  {
    var p := db[username];
    var tx := [Transaction(|p.transactions| + 1, today, "Transfer to " + username, -amount, Debit)] + p.transactions;
    assert [Transaction(|tx| + 1, today, "Transfer from " + username, amount, Credit)] + tx
        == [Transaction(|p.transactions| + 2, today, "Transfer from " + username, amount, Credit),
            Transaction(|p.transactions| + 1, today, "Transfer to " + username, -amount, Debit)]
           + p.transactions;
  }

  /** The amount is not checked for sign: a negative amount passes the funds
      check and moves money from the recipient to the sender. */
  lemma NegativeAmountReversesTransfer(db: Db, username: string, recipient: string, amount: int, today: string)
    requires username in db && recipient in db && username != recipient
    requires amount < 0 && db[username].balance >= 0
    ensures var r := Transfer(db, username, recipient, amount, today);
      && r.success
      && r.db[username].balance > db[username].balance
      && r.db[recipient].balance < db[recipient].balance
  {
    TransferDebitsSender(db, username, recipient, amount, today);
    TransferCreditsRecipient(db, username, recipient, amount, today);
  }

  // ---------------------------------------------------------------------------
  // The module-level `mock_db` and its operations

  class Ledger {
    var db: Db

    constructor ()
      ensures db == map["test_user" := SeedProfile()]
    {
      db := map["test_user" := SeedProfile()];
    }

    /** `create_user`: insert a default profile, or update the e-mail address
        of an existing one; the stored profile is returned. */
    method CreateUser(username: string, email: string, today: string) returns (p: Profile)
      modifies this
      ensures db == Upsert(old(db), username, email, today) && p == db[username]
    {
      if username !in db {
        db := db[username := NewProfile(email, |db|, today)];
      } else {
        db := db[username := db[username].(email := email)];
      }
      p := db[username];
    }

    /** `get_user_data`: the stored profile, created on first use. */
    method GetUserData(username: string, today: string) returns (p: Profile)
      modifies this
      ensures db == WithUser(old(db), username, today) && p == db[username]
      ensures username in old(db) ==> p == old(db)[username]
    {
      if username !in db {
        p := CreateUser(username, username + "@example.com", today);
      } else {
        p := db[username];
      }
    }

    /** `transfer_funds`. Sender and recipient are looked up by name each time
        they are written, so a transfer to oneself debits and then credits the
        same profile, and `new_balance` is read after both. */
    method TransferFunds(username: string, recipient: string, amount: int, today: string)
      returns (success: bool, message: TransferMessage, newBalance: Option<int>)
      modifies this
      ensures var r := Transfer(old(db), username, recipient, amount, today);
        db == r.db && success == r.success && message == r.message && newBalance == r.newBalance
    {
      var user := GetUserData(username, today);
      if user.balance < amount {
        return false, InsufficientFunds, None;
      }
      db := db[username := Debited(user, recipient, amount, today)];
      if recipient in db {
        db := db[recipient := Credited(db[recipient], username, amount, today)];
      }
      return true, Transferred(amount, recipient), Some(db[username].balance);
    }
  }

  // ---------------------------------------------------------------------------
  // Sessions

  /** From the seeded account, 500.00 goes to a user without a profile: the
      sender is left with 4920.50 and the recipient is not created; 6000.00
      more is then refused. */
  method SeededTransfers(today: string)
    returns (first: bool, balanceAfter: Option<int>, recipientCreated: bool, second: bool, finalBalance: int)
    ensures first && balanceAfter == Some(492050) && !recipientCreated
    ensures !second && finalBalance == 492050
  {
    var ledger := new Ledger();
    var ok1, _, nb := ledger.TransferFunds("test_user", "bob", 50000, today);
    first, balanceAfter := ok1, nb;
    recipientCreated := "bob" in ledger.db;
    var ok2, _, _ := ledger.TransferFunds("test_user", "bob", 600000, today);
    second := ok2;
    finalBalance := ledger.db["test_user"].balance;
  }

  /** Between two enrolled users the money moves from one to the other. */
  method TransferBetweenUsers(a: string, b: string, today: string)
    returns (balanceA: int, balanceB: int, historyB: nat)
    requires a != b && a != "test_user" && b != "test_user"
    ensures balanceA == WelcomeBonus - 25000 && balanceB == WelcomeBonus + 25000 && historyB == 2
  {
    var ledger := new Ledger();
    var _ := ledger.CreateUser(a, a + "@bank.com", today);
    var _ := ledger.CreateUser(b, b + "@bank.com", today);
    ghost var db := ledger.db;
    assert db[a].balance == WelcomeBonus && db[b].balance == WelcomeBonus && |db[b].transactions| == 1;
    var _, _, _ := ledger.TransferFunds(a, b, 25000, today);
    TransferBetweenKnown(db, a, b, 25000, today);
    balanceA, balanceB := ledger.db[a].balance, ledger.db[b].balance;
    historyB := |ledger.db[b].transactions|;
  }
}
