/**
 * Worked examples: two seeded users moving money, and the rounding behaviour
 * at the boundaries of the service's arithmetic.
 */
module Scenario {
  import opened Wrappers
  import opened Money
  import opened Store
  import opened Rates
  import opened Service

  const Users := [User(1, "alice@example.com"), User(2, "bob@example.com")]

  /** Alice and Bob, each provisioned with USD 1000.00 and EUR 500.00. */
  const Seeded := [Account(1, 1, USD, 100000), Account(2, 1, EUR, 50000),
                   Account(3, 2, USD, 100000), Account(4, 2, EUR, 50000)]

  const AfterTransfer := [Account(1, 1, USD, 80000), Account(2, 1, EUR, 50000),
                          Account(3, 2, USD, 120000), Account(4, 2, EUR, 50000)]

  /** EUR_TO_USD as the decimal library computes it: 1 / 0.92 to 20 significant digits. */
  const LibraryEurToUsd := Decimal(10869565217391304348, 19)

  lemma Powers()
    ensures Pow10(2) == 100 && Pow10(4) == 10000
    ensures Pow10(19) == 10000000000000000000 && Pow10(21) == 1000000000000000000000
  {
    assert Pow10(2) == 100;
    assert Pow10(17) == 100000000000000000;
  }

  /** The library's quotient is 1 / 0.92 rounded at its last place. */
  lemma LibraryRate()
    ensures ReverseRate(LibraryEurToUsd)
  {
    Powers();
  }

  /**
   * The one-cent bound of an exchange and its inverse is reached: USD 0.19 is
   * EUR 0.17, which is USD 0.18.
   */
  lemma NineteenCentsThereAndBack()
    ensures Converted(19, UsdToEur) == 17
    ensures Converted(17, LibraryEurToUsd) == 18
  {
    Powers();
    assert Mul(FromCents(17), LibraryEurToUsd) == Decimal(184782608695652173916, 21);
  }

  const AfterExchange := [Account(1, 1, USD, 70000), Account(2, 1, EUR, 59200),
                          Account(3, 2, USD, 120000), Account(4, 2, EUR, 50000)]

  lemma SeededData()
    ensures UniqueEmails(Users) && UniqueAccountIds(Seeded) && NonNegativeBalances(Seeded)
  {
    assert Users[0].email[0] != Users[1].email[0];
  }

  /** Whole-dollar amounts are normalised without rounding. */
  lemma WholeAmounts()
    ensures Round2(Decimal(200, 0)) == 20000 && Round2(Decimal(100, 0)) == 10000
  {
    assert Pow10(2) == 100;
  }

  /** The transfer's checks pass on the seeded data for any positive amount Alice's dollars cover. */
  lemma TransferStep(amount: Decimal)
    requires amount.units > 0 && Round2(amount) <= 100000
    ensures TransferCheck(Users, Seeded, 1, "bob@example.com", amount, USD) == Ok(Legs(0, 2))
  {
    assert FindUserByEmail(Users, "bob@example.com") == Some(Users[1]);
    assert FindAccount(Seeded, 1, USD) == Some(0);
    assert FindAccount(Seeded, 2, USD) == Some(2);
  }

  /** Alice's dollars go down by 200.00 and Bob's up by 200.00. */
  lemma TransferMoves()
    ensures Moved(Seeded, 0, 2, 20000, 20000) == AfterTransfer
  {
    var m := Moved(Seeded, 0, 2, 20000, 20000);
    assert m[0] == AfterTransfer[0] && m[1] == AfterTransfer[1];
    assert m[2] == AfterTransfer[2] && m[3] == AfterTransfer[3];
  }

  /** The exchange's checks pass when Alice holds both currencies and enough dollars. */
  lemma ExchangeStep(accounts: seq<Account>, amount: Decimal)
    requires FindAccount(accounts, 1, USD) == Some(0) && FindAccount(accounts, 1, EUR) == Some(1)
    requires amount.units > 0 && accounts[0].balance >= Round2(amount)
    ensures ExchangeCheck(accounts, 1, USD, EUR, amount) == Ok(Legs(0, 1))
  {
  }

  lemma AliceAccounts()
    ensures FindAccount(AfterTransfer, 1, USD) == Some(0)
    ensures FindAccount(AfterTransfer, 1, EUR) == Some(1)
  {
  }

  /** 100.00 dollars are 92.00 euros at 0.92. */
  lemma ConversionStep(eurToUsd: Decimal)
    ensures Converted(10000, RateFor(USD, EUR, eurToUsd)) == 9200
  {
    assert Pow10(4) == 10000;
  }

  /** Alice's dollars go down by 100.00 and her euros up by 92.00. */
  lemma ExchangeMoves()
    ensures Moved(AfterTransfer, 0, 1, 10000, 9200) == AfterExchange
  {
    var m := Moved(AfterTransfer, 0, 1, 10000, 9200);
    assert m[0] == AfterExchange[0] && m[1] == AfterExchange[1];
    assert m[2] == AfterExchange[2] && m[3] == AfterExchange[3];
  }

  const TransferRows := [LedgerEntry(1, 1, -20000), LedgerEntry(3, 1, 20000)]
  const ExchangeRows := [LedgerEntry(1, 2, -10000), LedgerEntry(2, 2, 9200)]

  lemma BothRows()
    ensures TransferRows + ExchangeRows
         == [LedgerEntry(1, 1, -20000), LedgerEntry(3, 1, 20000), LedgerEntry(1, 2, -10000), LedgerEntry(2, 2, 9200)]
  {
  }

  /** Alice sends Bob USD 200.00 on the freshly seeded database. */
  method SendTwoHundred(service: TransactionService) returns (sent: Result<Transaction, Failure>)
    requires service.Valid() && service.users == Users && service.accounts == Seeded
    requires service.ledger == [] && service.nextTransactionId == 1 && service.clock == 0
    modifies service
    ensures service.Valid() && service.accounts == AfterTransfer
    ensures service.ledger == TransferRows
    ensures service.nextTransactionId == 2 && service.clock == 1
    ensures sent == Ok(Transaction(1, TRANSFER, 20000, 0))
  {
    var twoHundred := Decimal(200, 0);
    assert Round2(twoHundred) == 20000 by { WholeAmounts(); }
    assert TransferCheck(service.users, service.accounts, 1, "bob@example.com", twoHundred, USD) == Ok(Legs(0, 2)) by {
      WholeAmounts();
      TransferStep(twoHundred);
    }
    assert Moved(Seeded, 0, 2, 20000, 20000) == AfterTransfer by { TransferMoves(); }
    sent := service.Transfer(1, "bob@example.com", twoHundred, USD);
  }

  /** Alice then exchanges USD 100.00 into euros at 0.92. */
  method ExchangeHundred(service: TransactionService) returns (exchanged: Result<Transaction, Failure>)
    requires service.Valid() && service.accounts == AfterTransfer
    requires service.nextTransactionId == 2 && service.clock == 1
    modifies service
    ensures service.accounts == AfterExchange
    ensures service.ledger == old(service.ledger) + ExchangeRows
    ensures exchanged == Ok(Transaction(2, EXCHANGE, 10000, 1))
  {
    var hundred := Decimal(100, 0);
    assert Round2(hundred) == 10000 by { WholeAmounts(); }
    assert ExchangeCheck(service.accounts, 1, USD, EUR, hundred) == Ok(Legs(0, 1)) by {
      WholeAmounts();
      AliceAccounts();
      ExchangeStep(AfterTransfer, hundred);
    }
    assert Converted(10000, RateFor(USD, EUR, service.eurToUsd)) == 9200 by { ConversionStep(service.eurToUsd); }
    assert Moved(AfterTransfer, 0, 1, 10000, 9200) == AfterExchange by { ExchangeMoves(); }
    exchanged := service.Exchange(1, USD, EUR, hundred);
  }

  /**
   * Alice sends Bob USD 200.00, then exchanges USD 100.00 into euros at
   * 0.92. Returns the two recorded transactions, the four balances
   * afterwards in cents, and the ledger.
   */
  method AliceAndBob() returns (sent: Result<Transaction, Failure>, exchanged: Result<Transaction, Failure>,
                                 balances: seq<int>, entries: seq<LedgerEntry>)
    ensures sent == Ok(Transaction(1, TRANSFER, 20000, 0))
    ensures exchanged == Ok(Transaction(2, EXCHANGE, 10000, 1))
    ensures balances == [70000, 59200, 120000, 50000]
    ensures entries == [LedgerEntry(1, 1, -20000), LedgerEntry(3, 1, 20000),
                        LedgerEntry(1, 2, -10000), LedgerEntry(2, 2, 9200)]
  {
    LibraryRate();
    SeededData();
    var service := new TransactionService(Users, Seeded, LibraryEurToUsd);
    sent := SendTwoHundred(service);
    exchanged := ExchangeHundred(service);
    BothRows();
    balances := [service.accounts[0].balance, service.accounts[1].balance,
                 service.accounts[2].balance, service.accounts[3].balance];
    entries := service.ledger;
  }

  /**
   * The positivity check looks at the amount as given, before rounding: 0.004
   * is positive and passes it, and then rounds to 0.00, so the movement
   * carries no money. A tie, 0.005, rounds up to one cent.
   */
  lemma SubCentAmountPassesAndRoundsToZero()
    ensures Decimal(4, 3).units > 0 && Round2(Decimal(4, 3)) == 0
    ensures Round2(Decimal(5, 3)) == 1
  {
  }

  /** A movement of nothing leaves every account as it was. */
  lemma NothingMoves()
    ensures Moved(Seeded, 0, 2, 0, 0) == Seeded
  {
    var m := Moved(Seeded, 0, 2, 0, 0);
    assert m[0] == Seeded[0] && m[1] == Seeded[1];
    assert m[2] == Seeded[2] && m[3] == Seeded[3];
  }

  /**
   * Alice sends Bob USD 0.004: the amount is positive, so the transfer goes
   * through, but it rounds to 0.00. The service records a transfer of zero
   * cents and no balance changes.
   */
  method SubCentTransfer() returns (recorded: Result<Transaction, Failure>, balances: seq<int>)
    ensures recorded == Ok(Transaction(1, TRANSFER, 0, 0))
    ensures balances == [100000, 50000, 100000, 50000]
  {
    var tiny := Decimal(4, 3);
    SeededData();
    SubCentAmountPassesAndRoundsToZero();
    TransferStep(tiny);
    NothingMoves();
    LibraryRate();
    var service := new TransactionService(Users, Seeded, LibraryEurToUsd);
    recorded := service.Transfer(1, "bob@example.com", tiny, USD);
    assert service.accounts == Seeded;
    balances := [service.accounts[0].balance, service.accounts[1].balance,
                 service.accounts[2].balance, service.accounts[3].balance];
  }

  /**
   * Multiplying by the full-precision rate and rounding once differs from
   * rounding the rate first: 100.00 EUR at 1.0869565217391304348, the
   * reciprocal of 0.92 to 20 significant digits, is 108.70 USD, while the
   * rate rounded to 1.09 would give 109.00.
   */
  lemma RoundingOnceAfterMultiplying()
    ensures Converted(10000, LibraryEurToUsd) == 10870
    ensures Round2(LibraryEurToUsd) == 109
    ensures Converted(10000, FromCents(109)) == 10900
  {
    var rate := LibraryEurToUsd;
    Powers();
    assert Mul(FromCents(10000), rate) == Decimal(108695652173913043480000, 21);
  }
}
