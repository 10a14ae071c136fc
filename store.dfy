/**
 * The rows of the wallet database: users, their per-currency accounts,
 * transactions and the ledger entries that tie a transaction to the accounts
 * it moved money on. Money is counted in cents. The lookups are the ones the
 * service issues to the database, and the sums are the quantities its
 * guarantees talk about.
 */
module Store {
  import opened Wrappers

  datatype Currency = USD | EUR

  function CurrencyName(c: Currency): string
  {
    match c
    case USD => "USD"
    case EUR => "EUR"
  }

  datatype TransactionType = TRANSFER | EXCHANGE

  datatype User = User(id: int, email: string)

  /** `balance` is in cents. */
  datatype Account = Account(id: int, userId: int, currency: Currency, balance: int)

  /** `amount` is in cents; `createdAt` is a logical clock reading. */
  datatype Transaction = Transaction(id: int, kind: TransactionType, amount: int, createdAt: int)

  /** A signed movement on one account: negative is a debit, positive a credit. */
  datatype LedgerEntry = LedgerEntry(accountId: int, transactionId: int, amount: int)

  /** Transaction rows are stored in creation order. */
  predicate Chronological(transactions: seq<Transaction>)
  {
    forall i, j :: 0 <= i < j < |transactions| ==> transactions[i].createdAt < transactions[j].createdAt
  }

  predicate Owns(a: Account, userId: int, currency: Currency)
  {
    a.userId == userId && a.currency == currency
  }

  /** Account `i` is the first one, in table order, that `userId` holds in `currency`. */
  predicate FirstOwned(accounts: seq<Account>, i: int, userId: int, currency: Currency)
  {
    && 0 <= i < |accounts| && Owns(accounts[i], userId, currency)
    && forall k :: 0 <= k < i ==> !Owns(accounts[k], userId, currency)
  }

  /** `userId` holds no account in `currency`. */
  predicate NoneOwned(accounts: seq<Account>, userId: int, currency: Currency)
  {
    forall k :: 0 <= k < |accounts| ==> !Owns(accounts[k], userId, currency)
  }

  /** User `j` is the first one registered under `email`. */
  predicate FirstWithEmail(users: seq<User>, j: int, email: string)
  {
    0 <= j < |users| && users[j].email == email && forall k :: 0 <= k < j ==> users[k].email != email
  }

  /**
   * The first account, in table order, that belongs to `userId` and holds
   * `currency` (the database's find-first query).
   */
  function FindAccount(accounts: seq<Account>, userId: int, currency: Currency): (r: Option<nat>)
    ensures r.Some? ==> r.value < |accounts| && Owns(accounts[r.value], userId, currency)
    ensures r.Some? ==> forall k :: 0 <= k < r.value ==> !Owns(accounts[k], userId, currency)
    ensures r.None? ==> forall k :: 0 <= k < |accounts| ==> !Owns(accounts[k], userId, currency)
  {
    if accounts == [] then None
    else if Owns(accounts[0], userId, currency) then Some(0)
    else
      match FindAccount(accounts[1..], userId, currency)
      case None => None
      case Some(i) => Some(i + 1)
  }

  /** `FindAccount` finds exactly the first owned account, and nothing when there is none. */
  lemma FindAccountIsFirst(accounts: seq<Account>, userId: int, currency: Currency)
    ensures forall i :: FirstOwned(accounts, i, userId, currency) ==> FindAccount(accounts, userId, currency) == Some(i)
    ensures FindAccount(accounts, userId, currency).None? <==> NoneOwned(accounts, userId, currency)
  {
  }

  /** The user registered under `email` (the database's find-unique query on the email column). */
  function FindUserByEmail(users: seq<User>, email: string): (r: Option<User>)
    ensures r.Some? ==> exists j :: FirstWithEmail(users, j, email) && r.value == users[j]
    ensures r.Some? ==> forall j :: FirstWithEmail(users, j, email) ==> r.value == users[j]
    ensures r.None? ==> forall k :: 0 <= k < |users| ==> users[k].email != email
  {
    if users == [] then None
    else if users[0].email == email then
      assert FirstWithEmail(users, 0, email);
      Some(users[0])
    else
      var r := FindUserByEmail(users[1..], email);
      assert forall j :: FirstWithEmail(users, j, email) ==> FirstWithEmail(users[1..], j - 1, email);
      if r.Some? then
        var j :| FirstWithEmail(users[1..], j, email) && r.value == users[1..][j];
        assert FirstWithEmail(users, j + 1, email);
        r
      else
        r
  }

  /** The amount an account contributes to the total held in `currency`. */
  function Holding(a: Account, currency: Currency): int
  {
    if a.currency == currency then a.balance else 0
  }

  /** The money held in `currency` across all accounts. */
  function Total(accounts: seq<Account>, currency: Currency): int
  {
    if accounts == [] then 0
    else Total(accounts[..|accounts| - 1], currency) + Holding(accounts[|accounts| - 1], currency)
  }

  /** Replacing one account changes a currency's total by the change in that account's holding. */
  lemma {:induction false} TotalUpdate(accounts: seq<Account>, i: nat, a: Account, currency: Currency)
    requires i < |accounts|
    ensures Total(accounts[i := a], currency)
            == Total(accounts, currency) - Holding(accounts[i], currency) + Holding(a, currency)
  {
    var n := |accounts|;
    var updated := accounts[i := a];
    assert updated[..n - 1] == if i == n - 1 then accounts[..n - 1] else accounts[..n - 1][i := a];
    if i < n - 1 {
      TotalUpdate(accounts[..n - 1], i, a, currency);
    }
  }

  /** The sum of the ledger amounts booked under transaction `id`. */
  function TransactionSum(ledger: seq<LedgerEntry>, id: int): int
  {
    if ledger == [] then 0
    else
      var e := ledger[|ledger| - 1];
      TransactionSum(ledger[..|ledger| - 1], id) + (if e.transactionId == id then e.amount else 0)
  }

  /** The number of ledger entries booked under transaction `id`. */
  function TransactionCount(ledger: seq<LedgerEntry>, id: int): nat
  {
    if ledger == [] then 0
    else
      var e := ledger[|ledger| - 1];
      TransactionCount(ledger[..|ledger| - 1], id) + (if e.transactionId == id then 1 else 0)
  }

  /** The sum of the ledger amounts booked on account `id`. */
  function AccountSum(ledger: seq<LedgerEntry>, id: int): int
  {
    if ledger == [] then 0
    else
      var e := ledger[|ledger| - 1];
      AccountSum(ledger[..|ledger| - 1], id) + (if e.accountId == id then e.amount else 0)
  }

  /** Appending entries adds their own sums and counts to those of the ledger. */
  lemma {:induction false} LedgerAppend(ledger: seq<LedgerEntry>, more: seq<LedgerEntry>, id: int)
    ensures TransactionSum(ledger + more, id) == TransactionSum(ledger, id) + TransactionSum(more, id)
    ensures TransactionCount(ledger + more, id) == TransactionCount(ledger, id) + TransactionCount(more, id)
    ensures AccountSum(ledger + more, id) == AccountSum(ledger, id) + AccountSum(more, id)
  {
    if more != [] {
      var n := |more|;
      assert (ledger + more)[..|ledger + more| - 1] == ledger + more[..n - 1];
      LedgerAppend(ledger, more[..n - 1], id);
    } else {
      assert ledger + more == ledger;
    }
  }

  /** A transaction id above every id in the ledger has no entries yet. */
  lemma {:induction false} NoEntriesForNewId(ledger: seq<LedgerEntry>, id: int)
    requires forall k :: 0 <= k < |ledger| ==> ledger[k].transactionId < id
    ensures TransactionSum(ledger, id) == 0 && TransactionCount(ledger, id) == 0
  {
    if ledger != [] {
      NoEntriesForNewId(ledger[..|ledger| - 1], id);
    }
  }
}
