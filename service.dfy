/**
 * The money-movement engine: peer transfers and same-user currency exchanges
 * over the wallet database. Each operation is one atomic step: it runs every
 * check before its first write, so it either fails with the database
 * untouched or applies all of its writes.
 */
module Service {
  import opened Wrappers
  import opened Money
  import opened Store
  import opened Rates

  /** The two exception kinds the service raises, with their messages. */
  datatype Failure = BadRequest(message: string) | NotFound(message: string)

  /** The accounts a validated movement debits (`source`) and credits (`target`), as table positions. */
  datatype Legs = Legs(source: nat, target: nat)

  predicate UniqueEmails(users: seq<User>)
  {
    forall i, j :: 0 <= i < j < |users| ==> users[i].email != users[j].email
  }

  predicate UniqueAccountIds(accounts: seq<Account>)
  {
    forall i, j :: 0 <= i < j < |accounts| ==> accounts[i].id != accounts[j].id
  }

  predicate NonNegativeBalances(accounts: seq<Account>)
  {
    forall k :: 0 <= k < |accounts| ==> accounts[k].balance >= 0
  }

  /** Transaction ids increase in table order. */
  predicate IncreasingIds(transactions: seq<Transaction>)
  {
    forall i, j :: 0 <= i < j < |transactions| ==> transactions[i].id < transactions[j].id
  }

  /**
   * What holds of the database between operations. Besides the uniqueness
   * constraints and non-negative balances: every transaction has exactly two
   * ledger entries, those of a transfer cancel out, and each account's
   * balance is its opening balance plus the entries booked on it, so the
   * ledger is a complete audit trail of every balance change.
   */
  ghost predicate Consistent(users: seq<User>, accounts: seq<Account>, transactions: seq<Transaction>,
                             ledger: seq<LedgerEntry>, nextId: int, clock: int, opening: seq<int>)
  {
    && UniqueEmails(users)
    && UniqueAccountIds(accounts)
    && NonNegativeBalances(accounts)
    && IncreasingIds(transactions)
    && Chronological(transactions)
    && (forall k :: 0 <= k < |transactions| ==> transactions[k].id < nextId && transactions[k].createdAt < clock)
    && (forall k :: 0 <= k < |ledger| ==> ledger[k].transactionId < nextId)
    && (forall k :: 0 <= k < |transactions| ==> TransactionCount(ledger, transactions[k].id) == 2)
    && (forall k :: 0 <= k < |transactions| && transactions[k].kind == TRANSFER ==>
          TransactionSum(ledger, transactions[k].id) == 0)
    && |opening| == |accounts|
    && (forall k :: 0 <= k < |accounts| ==> accounts[k].balance == opening[k] + AccountSum(ledger, accounts[k].id))
  }

  function Adjusted(a: Account, delta: int): Account
  {
    a.(balance := a.balance + delta)
  }

  /** The accounts after `debit` leaves account `s` and `credit` arrives on account `t`. */
  function Moved(accounts: seq<Account>, s: nat, t: nat, debit: int, credit: int): seq<Account>
    requires s < |accounts| && t < |accounts|
  {
    accounts[s := Adjusted(accounts[s], -debit)][t := Adjusted(accounts[t], credit)]
  }

  /** A movement between two accounts changes each currency's total by exactly its two legs. */
  lemma MovedTotal(accounts: seq<Account>, s: nat, t: nat, debit: int, credit: int, currency: Currency)
    requires s < |accounts| && t < |accounts| && s != t
    ensures Total(Moved(accounts, s, t, debit, credit), currency)
            == Total(accounts, currency)
               - (if accounts[s].currency == currency then debit else 0)
               + (if accounts[t].currency == currency then credit else 0)
  {
    var first := accounts[s := Adjusted(accounts[s], -debit)];
    TotalUpdate(accounts, s, Adjusted(accounts[s], -debit), currency);
    TotalUpdate(first, t, Adjusted(accounts[t], credit), currency);
  }

  /**
   * What a movement changes: the balance of the source goes down by `debit`,
   * that of the target up by `credit`, every other account and every id,
   * owner and currency stay as they were, and each currency's total changes
   * by exactly the legs in that currency.
   */
  lemma MovedChanges(accounts: seq<Account>, s: nat, t: nat, debit: int, credit: int)
    requires s < |accounts| && t < |accounts| && s != t
    ensures var moved := Moved(accounts, s, t, debit, credit);
      && |moved| == |accounts|
      && moved[s].balance == accounts[s].balance - debit
      && moved[t].balance == accounts[t].balance + credit
      && (forall k :: 0 <= k < |accounts| && k != s && k != t ==> moved[k] == accounts[k])
      && (forall k :: 0 <= k < |accounts| ==>
            moved[k].id == accounts[k].id && moved[k].userId == accounts[k].userId
            && moved[k].currency == accounts[k].currency)
      && forall c :: Total(moved, c) == Total(accounts, c)
                       - (if accounts[s].currency == c then debit else 0)
                       + (if accounts[t].currency == c then credit else 0)
  {
    forall c
      ensures Total(Moved(accounts, s, t, debit, credit), c) == Total(accounts, c)
                - (if accounts[s].currency == c then debit else 0)
                + (if accounts[t].currency == c then credit else 0)
    {
      MovedTotal(accounts, s, t, debit, credit, c);
    }
  }

  /** The ledger rows of a movement: the debit on the source, the credit on the target. */
  function Entries(sourceId: int, targetId: int, id: int, debit: int, credit: int): seq<LedgerEntry>
  {
    [LedgerEntry(sourceId, id, -debit), LedgerEntry(targetId, id, credit)]
  }

  /** What the two rows of a movement add to the ledger's sums and counts. */
  lemma EntriesSums(sourceId: int, targetId: int, id: int, debit: int, credit: int, key: int)
    ensures var entries := Entries(sourceId, targetId, id, debit, credit);
      && TransactionSum(entries, key) == (if key == id then credit - debit else 0)
      && TransactionCount(entries, key) == (if key == id then 2 else 0)
      && AccountSum(entries, key) == (if key == sourceId then -debit else 0) + (if key == targetId then credit else 0)
  {
    var entries := Entries(sourceId, targetId, id, debit, credit);
    var first := [entries[0]];
    assert entries[..|entries| - 1] == first && first[..|first| - 1] == [];
    assert TransactionSum(first, key) == if key == id then -debit else 0;
    assert TransactionCount(first, key) == if key == id then 1 else 0;
    assert AccountSum(first, key) == if key == sourceId then -debit else 0;
  }

  /**
   * A movement keeps the database consistent: `debit` (covered by the source
   * balance) leaves account `s`, `credit` reaches account `t`, and one new
   * transaction is recorded with its two ledger entries. For a transfer both
   * legs carry the same amount.
   */
  lemma MovementKeepsConsistent(users: seq<User>, accounts: seq<Account>, transactions: seq<Transaction>,
                                ledger: seq<LedgerEntry>, nextId: int, clock: int, opening: seq<int>,
                                s: nat, t: nat, kind: TransactionType, debit: int, credit: int)
    requires Consistent(users, accounts, transactions, ledger, nextId, clock, opening)
    requires s < |accounts| && t < |accounts| && s != t
    requires 0 <= debit <= accounts[s].balance && credit >= 0
    requires kind == TRANSFER ==> credit == debit
    ensures Consistent(users, Moved(accounts, s, t, debit, credit),
                       transactions + [Transaction(nextId, kind, debit, clock)],
                       ledger + Entries(accounts[s].id, accounts[t].id, nextId, debit, credit),
                       nextId + 1, clock + 1, opening)
  {
    var accounts' := Moved(accounts, s, t, debit, credit);
    var tx := Transaction(nextId, kind, debit, clock);
    NewRowsRecorded(transactions, ledger, nextId, tx, accounts[s].id, accounts[t].id, debit, credit);
    BalancesFollowLedger(accounts, ledger, opening, s, t, nextId, debit, credit);
    assert UniqueAccountIds(accounts') by {
      assert forall k :: 0 <= k < |accounts'| ==> accounts'[k].id == accounts[k].id;
    }
  }

  /**
   * The transaction row `tx` of a movement, recorded under the next id with
   * its two ledger rows, leaves every transaction with exactly two ledger
   * rows, and a transfer's rows still cancel out.
   */
  lemma NewRowsRecorded(transactions: seq<Transaction>, ledger: seq<LedgerEntry>, nextId: int, tx: Transaction,
                        sourceId: int, targetId: int, debit: int, credit: int)
    requires forall k :: 0 <= k < |transactions| ==> transactions[k].id < nextId
    requires forall k :: 0 <= k < |ledger| ==> ledger[k].transactionId < nextId
    requires forall k :: 0 <= k < |transactions| ==> TransactionCount(ledger, transactions[k].id) == 2
    requires forall k :: 0 <= k < |transactions| && transactions[k].kind == TRANSFER ==>
               TransactionSum(ledger, transactions[k].id) == 0
    requires tx.id == nextId && (tx.kind == TRANSFER ==> credit == debit)
    ensures var transactions' := transactions + [tx];
      var ledger' := ledger + Entries(sourceId, targetId, nextId, debit, credit);
      && (forall k :: 0 <= k < |ledger'| ==> ledger'[k].transactionId < nextId + 1)
      && (forall k :: 0 <= k < |transactions'| ==> TransactionCount(ledger', transactions'[k].id) == 2)
      && (forall k :: 0 <= k < |transactions'| && transactions'[k].kind == TRANSFER ==>
            TransactionSum(ledger', transactions'[k].id) == 0)
  {
    var transactions' := transactions + [tx];
    var entries := Entries(sourceId, targetId, nextId, debit, credit);
    var ledger' := ledger + entries;
    NoEntriesForNewId(ledger, nextId);
    forall k | 0 <= k < |transactions'|
      ensures TransactionCount(ledger', transactions'[k].id) == 2
      ensures transactions'[k].kind == TRANSFER ==> TransactionSum(ledger', transactions'[k].id) == 0
    {
      var id := transactions'[k].id;
      LedgerAppend(ledger, entries, id);
      EntriesSums(sourceId, targetId, nextId, debit, credit, id);
      if k < |transactions| {
        assert transactions'[k] == transactions[k];
      }
    }
  }

  /**
   * After `debit` leaves account `s` and `credit` reaches account `t`, with
   * the two matching ledger rows added, each balance is still its opening
   * balance plus the ledger rows on the account.
   */
  lemma BalancesFollowLedger(accounts: seq<Account>, ledger: seq<LedgerEntry>, opening: seq<int>,
                             s: nat, t: nat, nextId: int, debit: int, credit: int)
    requires UniqueAccountIds(accounts) && |opening| == |accounts|
    requires s < |accounts| && t < |accounts| && s != t
    requires forall k :: 0 <= k < |accounts| ==> accounts[k].balance == opening[k] + AccountSum(ledger, accounts[k].id)
    ensures var accounts' := Moved(accounts, s, t, debit, credit);
      var ledger' := ledger + Entries(accounts[s].id, accounts[t].id, nextId, debit, credit);
      forall k :: 0 <= k < |accounts'| ==> accounts'[k].balance == opening[k] + AccountSum(ledger', accounts'[k].id)
  {
    var accounts' := Moved(accounts, s, t, debit, credit);
    var entries := Entries(accounts[s].id, accounts[t].id, nextId, debit, credit);
    var ledger' := ledger + entries;
    forall k | 0 <= k < |accounts'|
      ensures accounts'[k].balance == opening[k] + AccountSum(ledger', accounts'[k].id)
    {
      var id := accounts[k].id;
      LedgerAppend(ledger, entries, id);
      EntriesSums(accounts[s].id, accounts[t].id, nextId, debit, credit, id);
      assert accounts'[k].id == id;
      assert k != s ==> id != accounts[s].id;
      assert k != t ==> id != accounts[t].id;
    }
  }

  /** The sender holds account `s` in the currency, the first such, and it covers the rounded amount. */
  predicate SenderCovered(accounts: seq<Account>, s: int, senderId: int, amount: Decimal, currency: Currency)
  {
    amount.units > 0 && FirstOwned(accounts, s, senderId, currency) && accounts[s].balance >= Round2(amount)
  }

  /**
   * The recipient checks of a transfer, in the service's order: a user is
   * registered under `recipientEmail`, it is not the sender, and it holds an
   * account in `currency`; the result is that account's position.
   */
  function RecipientCheck(users: seq<User>, accounts: seq<Account>, senderId: int,
                          recipientEmail: string, currency: Currency): (c: Result<nat, Failure>)
    ensures (forall k :: 0 <= k < |users| ==> users[k].email != recipientEmail) ==>
      c == Err(NotFound("Recipient user not found"))
    ensures forall j :: FirstWithEmail(users, j, recipientEmail) && users[j].id == senderId ==>
      c == Err(BadRequest("Cannot transfer to yourself"))
    ensures forall j :: FirstWithEmail(users, j, recipientEmail) && users[j].id != senderId
                        && NoneOwned(accounts, users[j].id, currency) ==>
      c == Err(BadRequest("Recipient does not have a " + CurrencyName(currency) + " account"))
    ensures forall j, t :: FirstWithEmail(users, j, recipientEmail) && users[j].id != senderId
                           && FirstOwned(accounts, t, users[j].id, currency) ==>
      c == Ok(t)
    ensures c.Ok? ==>
      exists j :: FirstWithEmail(users, j, recipientEmail) && users[j].id != senderId
                  && FirstOwned(accounts, c.value, users[j].id, currency)
  {
    match FindUserByEmail(users, recipientEmail)
    case None => Err(NotFound("Recipient user not found"))
    case Some(recipient) =>
      if recipient.id == senderId then Err(BadRequest("Cannot transfer to yourself"))
      else
        FindAccountIsFirst(accounts, recipient.id, currency);
        match FindAccount(accounts, recipient.id, currency)
        case None => Err(BadRequest("Recipient does not have a " + CurrencyName(currency) + " account"))
        case Some(t) => Ok(t)
  }

  /**
   * The checks of a transfer, in the order the service runs them: the first
   * one that fails gives the error; when all pass, the sender's and the
   * recipient's accounts in `currency`. Each `ensures` below is one outcome,
   * in that order, and together they cover every input.
   */
  function TransferCheck(users: seq<User>, accounts: seq<Account>, senderId: int,
                         recipientEmail: string, amount: Decimal, currency: Currency): (c: Result<Legs, Failure>)
    ensures amount.units <= 0 ==> c == Err(BadRequest("Amount must be positive"))
    ensures amount.units > 0 && NoneOwned(accounts, senderId, currency) ==>
      c == Err(NotFound("Sender " + CurrencyName(currency) + " account not found"))
    ensures forall s :: amount.units > 0 && FirstOwned(accounts, s, senderId, currency)
                        && accounts[s].balance < Round2(amount) ==>
      c == Err(BadRequest("Insufficient funds"))
    ensures forall s :: SenderCovered(accounts, s, senderId, amount, currency)
                        && (forall k :: 0 <= k < |users| ==> users[k].email != recipientEmail) ==>
      c == Err(NotFound("Recipient user not found"))
    ensures forall s, j :: SenderCovered(accounts, s, senderId, amount, currency)
                           && FirstWithEmail(users, j, recipientEmail) && users[j].id == senderId ==>
      c == Err(BadRequest("Cannot transfer to yourself"))
    ensures forall s, j :: SenderCovered(accounts, s, senderId, amount, currency)
                           && FirstWithEmail(users, j, recipientEmail) && users[j].id != senderId
                           && NoneOwned(accounts, users[j].id, currency) ==>
      c == Err(BadRequest("Recipient does not have a " + CurrencyName(currency) + " account"))
    ensures forall s, j, t :: SenderCovered(accounts, s, senderId, amount, currency)
                              && FirstWithEmail(users, j, recipientEmail) && users[j].id != senderId
                              && FirstOwned(accounts, t, users[j].id, currency) ==>
      c == Ok(Legs(s, t))
    ensures c.Ok? ==>
      && SenderCovered(accounts, c.value.source, senderId, amount, currency)
      && c.value.source != c.value.target
      && exists j :: FirstWithEmail(users, j, recipientEmail) && users[j].id != senderId
                     && FirstOwned(accounts, c.value.target, users[j].id, currency)
  {
    if amount.units <= 0 then Err(BadRequest("Amount must be positive"))
    else
      FindAccountIsFirst(accounts, senderId, currency);
      match FindAccount(accounts, senderId, currency)
      case None => Err(NotFound("Sender " + CurrencyName(currency) + " account not found"))
      case Some(s) =>
        if accounts[s].balance < Round2(amount) then Err(BadRequest("Insufficient funds"))
        else
          match RecipientCheck(users, accounts, senderId, recipientEmail, currency)
          case Err(f) => Err(f)
          case Ok(t) => Ok(Legs(s, t))
  }

  /**
   * The checks of an exchange, in the order the service runs them; when all
   * pass, the user's accounts in `from` and in `to`. Each `ensures` below is
   * one outcome, in that order, and together they cover every input.
   */
  function ExchangeCheck(accounts: seq<Account>, userId: int, from: Currency, to: Currency,
                         amount: Decimal): (c: Result<Legs, Failure>)
    ensures from == to ==> c == Err(BadRequest("Cannot exchange to the same currency"))
    ensures from != to && amount.units <= 0 ==> c == Err(BadRequest("Amount must be positive"))
    ensures from != to && amount.units > 0 && (NoneOwned(accounts, userId, from) || NoneOwned(accounts, userId, to)) ==>
      c == Err(NotFound("Source or target account not found"))
    ensures forall s, t :: from != to && amount.units > 0
                           && FirstOwned(accounts, s, userId, from) && FirstOwned(accounts, t, userId, to)
                           && accounts[s].balance < Round2(amount) ==>
      c == Err(BadRequest("Insufficient funds"))
    ensures forall s, t :: from != to && amount.units > 0
                           && FirstOwned(accounts, s, userId, from) && FirstOwned(accounts, t, userId, to)
                           && accounts[s].balance >= Round2(amount) ==>
      c == Ok(Legs(s, t))
    ensures c.Ok? ==>
      && from != to && amount.units > 0
      && FirstOwned(accounts, c.value.source, userId, from) && FirstOwned(accounts, c.value.target, userId, to)
      && c.value.source != c.value.target
      && accounts[c.value.source].balance >= Round2(amount)
  {
    if from == to then Err(BadRequest("Cannot exchange to the same currency"))
    else if amount.units <= 0 then Err(BadRequest("Amount must be positive"))
    else
      var source := FindAccount(accounts, userId, from);
      var target := FindAccount(accounts, userId, to);
      if source.None? || target.None? then Err(NotFound("Source or target account not found"))
      else if accounts[source.value].balance < Round2(amount) then Err(BadRequest("Insufficient funds"))
      else Ok(Legs(source.value, target.value))
  }

  class TransactionService {
    var users: seq<User>
    var accounts: seq<Account>
    var transactions: seq<Transaction>
    var ledger: seq<LedgerEntry>
    /** The id the next transaction row receives. */
    var nextTransactionId: int
    /** The creation time the next transaction row receives. */
    var clock: int
    /** EUR_TO_USD: the reciprocal of USD_TO_EUR as the decimal library computes it. */
    const eurToUsd: Decimal
    /** Each account's balance when it was provisioned, by table position. */
    ghost var opening: seq<int>

    ghost predicate Valid()
      reads this
    {
      ReverseRate(eurToUsd) && Consistent(users, accounts, transactions, ledger, nextTransactionId, clock, opening)
    }

    /** A database holding provisioned users and accounts and no transactions yet. */
    constructor (users: seq<User>, accounts: seq<Account>, eurToUsd: Decimal)
      requires UniqueEmails(users) && UniqueAccountIds(accounts) && NonNegativeBalances(accounts)
      requires ReverseRate(eurToUsd)
      ensures Valid()
      ensures this.users == users && this.accounts == accounts && this.eurToUsd == eurToUsd
      ensures transactions == [] && ledger == [] && nextTransactionId == 1 && clock == 0
    {
      this.users := users;
      this.accounts := accounts;
      this.eurToUsd := eurToUsd;
      transactions := [];
      ledger := [];
      nextTransactionId := 1;
      clock := 0;
      opening := seq(|accounts|, k requires 0 <= k < |accounts| => accounts[k].balance);
    }

    /** Adds `delta` to the balance of the account at position `i` (an update by the account's unique id). */
    method UpdateBalance(i: nat, delta: int)
      requires i < |accounts|
      modifies this`accounts
      ensures accounts == old(accounts)[i := Adjusted(old(accounts)[i], delta)]
    {
      accounts := accounts[i := Adjusted(accounts[i], delta)];
    }

    /** Inserts a transaction row with the next id and the current time. */
    method CreateTransaction(kind: TransactionType, amount: int) returns (tx: Transaction)
      modifies this`transactions, this`nextTransactionId, this`clock
      ensures tx == Transaction(old(nextTransactionId), kind, amount, old(clock))
      ensures transactions == old(transactions) + [tx]
      ensures nextTransactionId == old(nextTransactionId) + 1 && clock == old(clock) + 1
    {
      tx := Transaction(nextTransactionId, kind, amount, clock);
      transactions := transactions + [tx];
      nextTransactionId := nextTransactionId + 1;
      clock := clock + 1;
    }

    /** Inserts ledger rows. */
    method CreateLedgerEntries(entries: seq<LedgerEntry>)
      modifies this`ledger
      ensures ledger == old(ledger) + entries
    {
      ledger := ledger + entries;
    }

    /**
     * The writes of a validated movement, in the service's order: debit the
     * source, credit the target, insert the transaction row, insert its two
     * ledger rows.
     */
    method Move(legs: Legs, kind: TransactionType, debit: int, credit: int) returns (tx: Transaction)
      requires Valid()
      requires legs.source < |accounts| && legs.target < |accounts| && legs.source != legs.target
      requires 0 <= debit <= accounts[legs.source].balance && credit >= 0
      requires kind == TRANSFER ==> credit == debit
      modifies this`accounts, this`transactions, this`ledger, this`nextTransactionId, this`clock
      ensures Valid()
      ensures tx == Transaction(old(nextTransactionId), kind, debit, old(clock))
      ensures accounts == Moved(old(accounts), legs.source, legs.target, debit, credit)
      ensures accounts[legs.source].balance == old(accounts)[legs.source].balance - debit
      ensures accounts[legs.target].balance == old(accounts)[legs.target].balance + credit
      ensures transactions == old(transactions) + [tx]
      ensures nextTransactionId == old(nextTransactionId) + 1 && clock == old(clock) + 1
      ensures ledger == old(ledger) + Entries(old(accounts)[legs.source].id, old(accounts)[legs.target].id, tx.id, debit, credit)
      ensures forall c :: Total(accounts, c) == old(Total(accounts, c))
                            - (if old(accounts)[legs.source].currency == c then debit else 0)
                            + (if old(accounts)[legs.target].currency == c then credit else 0)
    {
      var source := accounts[legs.source];
      var target := accounts[legs.target];
      ghost var before := accounts;
      MovementKeepsConsistent(users, accounts, transactions, ledger, nextTransactionId, clock, opening,
                              legs.source, legs.target, kind, debit, credit);
      MovedChanges(before, legs.source, legs.target, debit, credit);

      UpdateBalance(legs.source, -debit);
      UpdateBalance(legs.target, credit);
      tx := CreateTransaction(kind, debit);
      CreateLedgerEntries(Entries(source.id, target.id, tx.id, debit, credit));
      assert accounts == Moved(before, legs.source, legs.target, debit, credit);
      assert transactions == old(transactions) + [Transaction(old(nextTransactionId), kind, debit, old(clock))];
      assert Consistent(users, accounts, transactions, ledger, nextTransactionId, clock, opening);
    }

    /**
     * Moves `amount`, rounded to cents, from the sender's account in
     * `currency` to the account in `currency` of the user registered under
     * `recipientEmail`, and records it.
     */
    method Transfer(senderId: int, recipientEmail: string, amount: Decimal, currency: Currency)
      returns (r: Result<Transaction, Failure>)
      requires Valid()
      modifies this`accounts, this`transactions, this`ledger, this`nextTransactionId, this`clock
      ensures Valid()
      ensures match old(TransferCheck(users, accounts, senderId, recipientEmail, amount, currency))
        case Err(f) =>
          && r == Err(f)
          && accounts == old(accounts) && transactions == old(transactions) && ledger == old(ledger)
          && nextTransactionId == old(nextTransactionId) && clock == old(clock)
        case Ok(legs) =>
          var d := Round2(amount);
          var s := old(accounts)[legs.source];
          var t := old(accounts)[legs.target];
          && r == Ok(Transaction(old(nextTransactionId), TRANSFER, d, old(clock)))
          && accounts == Moved(old(accounts), legs.source, legs.target, d, d)
          && accounts[legs.source].balance == s.balance - d >= 0
          && accounts[legs.target].balance == t.balance + d
          && transactions == old(transactions) + [r.value]
          && nextTransactionId == old(nextTransactionId) + 1 && clock == old(clock) + 1
          && ledger == old(ledger) + [LedgerEntry(s.id, r.value.id, -d), LedgerEntry(t.id, r.value.id, d)]
      ensures r.Ok? ==> forall c :: Total(accounts, c) == old(Total(accounts, c))
      ensures r.Ok? ==> TransactionCount(ledger, r.value.id) == 2 && TransactionSum(ledger, r.value.id) == 0
    {
      var check := TransferCheck(users, accounts, senderId, recipientEmail, amount, currency);
      if check.Err? {
        return Err(check.error);
      }
      var decimalAmount := Round2(amount);
      var transaction := Move(check.value, TRANSFER, decimalAmount, decimalAmount);
      assert Valid();
      assert transactions[|transactions| - 1] == transaction;
      return Ok(transaction);
    }

    /**
     * Converts `fromAmount`, rounded to cents, from the user's `fromCurrency`
     * account into their `toCurrency` account at the fixed rate, and records
     * it under the source amount.
     */
    method Exchange(userId: int, fromCurrency: Currency, toCurrency: Currency, fromAmount: Decimal)
      returns (r: Result<Transaction, Failure>)
      requires Valid()
      modifies this`accounts, this`transactions, this`ledger, this`nextTransactionId, this`clock
      ensures Valid()
      ensures match old(ExchangeCheck(accounts, userId, fromCurrency, toCurrency, fromAmount))
        case Err(f) =>
          && r == Err(f)
          && accounts == old(accounts) && transactions == old(transactions) && ledger == old(ledger)
          && nextTransactionId == old(nextTransactionId) && clock == old(clock)
        case Ok(legs) =>
          var d := Round2(fromAmount);
          var converted := Converted(d, RateFor(fromCurrency, toCurrency, eurToUsd));
          var s := old(accounts)[legs.source];
          var t := old(accounts)[legs.target];
          && r == Ok(Transaction(old(nextTransactionId), EXCHANGE, d, old(clock)))
          && accounts == Moved(old(accounts), legs.source, legs.target, d, converted)
          && accounts[legs.source].balance == s.balance - d >= 0
          && accounts[legs.target].balance == t.balance + converted
          && transactions == old(transactions) + [r.value]
          && nextTransactionId == old(nextTransactionId) + 1 && clock == old(clock) + 1
          && ledger == old(ledger) + [LedgerEntry(s.id, r.value.id, -d), LedgerEntry(t.id, r.value.id, converted)]
          && Total(accounts, fromCurrency) == old(Total(accounts, fromCurrency)) - d
          && Total(accounts, toCurrency) == old(Total(accounts, toCurrency)) + converted
    {
      var check := ExchangeCheck(accounts, userId, fromCurrency, toCurrency, fromAmount);
      if check.Err? {
        return Err(check.error);
      }
      var rate := RateFor(fromCurrency, toCurrency, eurToUsd);
      var decimalFromAmount := Round2(fromAmount);
      var toAmount := Converted(decimalFromAmount, rate);
      var transaction := Move(check.value, EXCHANGE, decimalFromAmount, toAmount);
      assert Valid();
      return Ok(transaction);
    }
  }
}
