# Bankly money-movement engine in Dafny

This project models the transaction service of the Bankly wallet API
(`apps/api/src/transaction/transaction.service.ts`). The service has three
operations:

- **transfer** moves an amount in one currency from a user's account to the
  account of another user, found by email.
- **exchange** converts an amount from one of a user's currency accounts to
  the other, at a fixed USD/EUR rate.
- **findAll** reads a user's transaction history, newest first, one page at a
  time.

The database is a class, `Service.TransactionService`. Its fields are the
four tables (users, accounts, transactions, ledger entries) and two counters
that stand in for the generated transaction ids and creation timestamps.
Transfer and exchange are methods on this class. As in the source, each one
runs all of its reads and checks first. Only then does it perform the four
writes, in the source's order (`Move`):

1. debit the source account;
2. credit the target account;
3. insert the transaction row;
4. insert its two ledger rows.

The checks of each operation are a pure function over the tables,
`TransferCheck` or `ExchangeCheck`. Its contract is a decision table in the
source's order, stated with "first account in table order" and "first user
with that email" predicates rather than with the lookups themselves. Each
possible failure gives its exception and message. When every check passes,
the result is the two accounts to move money between. The methods are proved
against these functions:

- When the check fails, the method returns that error and every table and
  counter is unchanged.
- When it passes, the method's postcondition gives the full new state.

The constructor establishes the class invariant `Valid`, and `Transfer`,
`Exchange` and `Move` keep it. The three
single-write methods are steps inside `Move`, which restores it. `Valid` says:

- emails and account ids are unique;
- balances are never negative;
- the reverse rate is 1 / 0.92 rounded at its last place;
- transaction ids and creation times increase;
- every transaction has exactly two ledger rows;
- a transfer's two rows cancel out;
- each account's balance is its opening balance plus the ledger rows booked
  on it, so the ledger is a complete audit trail.

Money is a whole number of cents. An amount passed in by a caller is an exact
decimal, `units / 10^scale`. `Money.Round2` is the decimal library's
`toDecimalPlaces(2)`, whose default mode rounds half away from zero. An
exchange multiplies the rounded amount by the rate exactly and then rounds
once. The USD to EUR rate is 0.92. The EUR to USD rate is the library's
quotient 1 / 0.92. It is a constructor parameter, `eurToUsd`, and the class
invariant requires it to be 1 / 0.92 rounded to the nearest unit of its last
place (`Rates.ReverseRate`). The library's value, 1.0869565217391304348 at 20
significant digits, is one such rate (`Scenario.LibraryRate`). For such a rate,
an exchange followed by the opposite exchange of the credited amount returns
the starting amount to within one cent in either direction (`Rates.RoundTrip`).
The amount must be below 10^scale cents of the rate, which is 10^19 cents for
the library's value. USD 0.19 becomes EUR 0.17 and then USD 0.18, so the bound
is reached (`Scenario.NineteenCentsThereAndBack`).

`findAll` is a pure function over the tables. It selects the transactions
that have a ledger row on an account of the user, and that have the requested
type when one is given. It orders them newest first, skips
`(page - 1) * limit` of them, takes at most `limit`, and reports the total
count and `Math.ceil(total / limit)` as the last page.

Two behaviours of the source are modelled as written:

- The positivity check looks at the raw amount, before rounding to cents. A
  positive amount below half a cent passes the check and moves 0.00.
  `Scenario.SubCentTransfer` calls `Transfer` on the seeded data, and its
  postcondition proves the transfer succeeds, records a transfer of zero
  cents and leaves every balance as it was. The model never
  claims a moved amount is strictly positive.
- The converted amount comes from the full-precision rate, rounded once.
  This can differ from using a rate rounded to cents first, as
  `Scenario.RoundingOnceAfterMultiplying` shows.

Files:

- `wrappers.dfy`: Option and Result.
- `money.dfy`: decimals, powers of ten, rounding to cents.
- `store.dfy`: the rows, the lookups, and the sums over accounts and ledger.
- `rates.dfy`: rate selection and conversion.
- `service.dfy`: the invariant, the checks, and the service class.
- `history.dfy`: findAll.
- `scenario.dfy`: worked examples on data shaped like the seed script's.

## Model

| member | source | states |
|---|---|---|
| Money.Round2 | apps/api/src/transaction/transaction.service.ts:25 | `toDecimalPlaces(2)` in cents. The result is the nearest cent count: the rounding error is at most half a cent, and a tie goes away from zero. Amounts with at most two places are kept exactly. A non-negative amount gives a non-negative result. |
| Money.MulValue | apps/api/src/transaction/transaction.service.ts:128-130 | The model's `Mul` is the exact product: the decimal it returns stands for the product of the two numbers. The decimal library's `mul` at line 130 instead rounds its product to 20 significant digits (see "## Left out"). |
| Store.FindAccount | apps/api/src/transaction/transaction.service.ts:17-19 | find-first on (userId, currency). A result is the first account in table order owned by the user in that currency. None means no account matches. |
| Store.FindAccountIsFirst | apps/api/src/transaction/transaction.service.ts:107-113 | The lookup returns exactly the first owned account whenever there is one, and nothing exactly when the user holds no account in that currency. |
| Store.FindUserByEmail | apps/api/src/transaction/transaction.service.ts:32-34 | find-unique on email. A result is the first registered user with that email. None means no user has it. |
| Store.TotalUpdate | apps/api/src/transaction/transaction.service.ts:54-62 | Replacing one account changes a currency's total by exactly the change in that account's holding. |
| Store.LedgerAppend | apps/api/src/transaction/transaction.service.ts:73-86 | Inserting ledger rows adds their own per-transaction sums, counts and per-account sums to those of the table. |
| Store.NoEntriesForNewId | apps/api/src/transaction/transaction.service.ts:65-70 | A freshly generated transaction id has no ledger rows yet. |
| Rates.RateFor | apps/api/src/transaction/transaction.service.ts:127-131 | The rate selection. For distinct currencies, USD to EUR uses USD_TO_EUR = 0.92 (line 102) and EUR to USD the reverse rate (line 103). The else branch also covers equal currencies. The chosen rate is positive whenever the reverse rate is. |
| Rates.ReverseRate | apps/api/src/transaction/transaction.service.ts:103 | `new Decimal(1).div(USD_TO_EUR)`: the quotient rounded to the nearest unit of its last place, i.e. units / 10^scale within half of 10^−scale of 100 / 92. Such a rate is positive. |
| Rates.RoundTrip | apps/api/src/transaction/transaction.service.ts:126-131 | An exchange and then the opposite exchange of the credited amount, at 0.92 one way and a ReverseRate the other, return the starting amount to within one cent. This holds from USD and from EUR, for any amount below 10^scale cents of the reverse rate. |
| Rates.Converted | apps/api/src/transaction/transaction.service.ts:126-131 | The credited amount is non-negative. It lies within half a cent of amount times rate, computed at full precision, and a tie rounds up. |
| Service.MovedTotal | apps/api/src/transaction/transaction.service.ts:54-62 | A debit on one account and a credit on another change a currency's total by exactly the legs in that currency. |
| Service.MovedChanges | apps/api/src/transaction/transaction.service.ts:134-142 | A movement lowers the source balance by the debit and raises the target balance by the credit. Every other account, and every id, owner and currency, stays as it was. Per-currency totals change by exactly the legs. |
| Service.EntriesSums | apps/api/src/transaction/transaction.service.ts:153-166 | A movement's two ledger rows count two rows for its transaction. They sum to credit minus debit and book the debit on the source and the credit on the target. |
| Service.MovementKeepsConsistent | apps/api/src/transaction/transaction.service.ts:54-86 | A covered debit and a non-negative credit, one new transaction and its two ledger rows keep the whole database consistent. This includes the audit trail and, for a transfer, ledger rows that cancel out. |
| Service.NewRowsRecorded | apps/api/src/transaction/transaction.service.ts:65-86 | After the new transaction and its ledger rows are inserted, every transaction has exactly two ledger rows and every transfer's rows sum to zero. |
| Service.BalancesFollowLedger | apps/api/src/transaction/transaction.service.ts:54-86 | After the two balance updates and the two ledger rows, each balance is still its opening balance plus its ledger rows. |
| Service.RecipientCheck | apps/api/src/transaction/transaction.service.ts:31-51 | In order: no user with the email gives NotFound "Recipient user not found". The first user with it being the sender gives BadRequest "Cannot transfer to yourself". That user holding no account in the currency gives BadRequest "Recipient does not have a C account". Otherwise the result is that user's first account in the currency, and a success always has such a user. |
| Service.TransferCheck | apps/api/src/transaction/transaction.service.ts:11-51 | One outcome per check, in source order, covering every input. A non-positive amount gives BadRequest "Amount must be positive". No sender account in the currency gives NotFound "Sender C account not found". A first sender account below the rounded amount gives BadRequest "Insufficient funds". Then come the three recipient outcomes of RecipientCheck. When all pass, the result is Ok with the sender's first account and the recipient's first account. Conversely, Ok implies every check passed and the two accounts are distinct. |
| Service.ExchangeCheck | apps/api/src/transaction/transaction.service.ts:93-123 | One outcome per check, in source order, covering every input. Equal currencies give BadRequest "Cannot exchange to the same currency". A non-positive amount gives BadRequest "Amount must be positive". A missing account in either currency gives NotFound "Source or target account not found". A first source account below the rounded amount gives BadRequest "Insufficient funds". Otherwise the result is Ok with the user's first accounts in the two currencies. Conversely, Ok implies every check passed and the two accounts are distinct. |
| Service.TransactionService.constructor | apps/api/src/transaction/transaction.service.ts:8 | A database with provisioned users and accounts, no transactions and a reverse rate that is 1 / 0.92 rounded at its last place (line 103) satisfies the invariant. |
| Service.TransactionService.UpdateBalance | apps/api/src/transaction/transaction.service.ts:54-62 | An `account.update` with `increment`/`decrement`: only the balance of that one account changes, by the delta. No other table is touched. |
| Service.TransactionService.CreateTransaction | apps/api/src/transaction/transaction.service.ts:65-70 | `transaction.create`: appends one row of the given type and amount, with the next id and the current time, which both advance by one. It returns that row. |
| Service.TransactionService.CreateLedgerEntries | apps/api/src/transaction/transaction.service.ts:73-86 | `ledger.createMany`: appends the given rows to the ledger and touches nothing else. |
| Service.TransactionService.Move | apps/api/src/transaction/transaction.service.ts:54-86 | The four writes keep the invariant and append one transaction row with the next id and time. They append its two ledger rows (minus debit on the source, plus credit on the target) and change exactly the two balances and the per-currency totals by the legs. |
| Service.TransactionService.Transfer | apps/api/src/transaction/transaction.service.ts:10-90 | Keeps the invariant. On a failed check it returns that error and changes nothing. On success it returns the new TRANSFER row with the rounded amount d. The sender's balance becomes balance − d ≥ 0 and the recipient's balance + d; no other account changes. It appends the rows −d and +d for that id, which sum to zero, and preserves every currency's total. |
| Service.TransactionService.Exchange | apps/api/src/transaction/transaction.service.ts:92-170 | Keeps the invariant. On a failed check it returns that error and changes nothing. On success it returns the new EXCHANGE row recording the source amount d. The source balance drops by d, staying ≥ 0, and the target rises by the converted amount. That amount uses 0.92 for USD to EUR and the reverse rate otherwise. It appends ledger rows −d and +converted, and changes the two currencies' totals by exactly those amounts. |
| History.NewestFirst | apps/api/src/transaction/transaction.service.ts:175-196 | The `where` filter with `orderBy createdAt desc`. The result holds exactly the selected transactions: a ledger row on an account of the user, and the requested type when one is given. Creation times strictly decrease. |
| History.CeilDiv | apps/api/src/transaction/transaction.service.ts:208 | `Math.ceil(total / limit)`: the least q with total ≤ q × limit. |
| History.Window | apps/api/src/transaction/transaction.service.ts:197-198 | `skip`/`take`: at most `take` elements, each the element `skip` further on. Empty when `skip` passes the end. |
| History.FindAll | apps/api/src/transaction/transaction.service.ts:172-210 | `total` counts all matches whatever the page. `page` is echoed and `lastPage` is the rounded-up quotient. The data is the slice of the newest-first matches starting at (page−1)×limit, with at most `limit` rows. Every row is a selected transaction, newest first. |
| History.PageOfMatch | apps/api/src/transaction/transaction.service.ts:172-210 | Paging loses no match. The match at position i of the newest-first order is at position i mod limit on page i div limit + 1, and that page is no later than `lastPage`. |
| Scenario.AliceAndBob | apps/api/src/transaction/transaction.service.ts:10-170 | On two seeded users with USD 1000.00 and EUR 500.00 each: a 200 USD transfer from Alice to Bob, then Alice exchanging 100 USD to EUR. The transfer is recorded as TRANSFER 20000 (id 1) with ledger rows −20000 on Alice's USD account and +20000 on Bob's. The exchange is recorded as EXCHANGE 10000 (id 2) with −10000 on Alice's USD account and +9200 on her EUR account. The final balances are USD 700.00 / EUR 592.00 for Alice and USD 1200.00 / EUR 500.00 for Bob. |
| Scenario.SubCentTransfer | apps/api/src/transaction/transaction.service.ts:11-25 | A transfer of USD 0.004 passes the positivity check, rounds to 0.00, succeeds, records a TRANSFER of zero cents and changes no balance. |
| Scenario.LibraryRate | apps/api/src/transaction/transaction.service.ts:103 | The library's quotient 1.0869565217391304348 is 1 / 0.92 rounded at its last place, so it is a valid reverse rate. |
| Scenario.NineteenCentsThereAndBack | apps/api/src/transaction/transaction.service.ts:126-131 | USD 0.19 converts to EUR 0.17, which converts back to USD 0.18 at the library's rate: the round trip can lose a whole cent. |
| Scenario.RoundingOnceAfterMultiplying | apps/api/src/transaction/transaction.service.ts:128-130 | 100.00 EUR at the 20-significant-digit reverse rate converts to 108.70 USD. Rounding the rate to 1.09 first would give 109.00. |

## Left out

- Concurrency and isolation of the database transaction (row locks, interleaved double spends) are not modelled. Each call is one atomic sequential step: it either fails with every table unchanged or applies all of its writes.
- Database write failures and the resulting rollback are not modelled: every write succeeds.
- The request body is not validated, and the model takes only numeric amounts. An amount is an exact decimal, `units / 10^scale`, which is what the decimal library builds from a JavaScript number (through its shortest decimal string). A missing or non-numeric `amount` such as "abc" is not modelled. It passes the `amount <= 0` check at line 11 (line 97 for an exchange), because the comparison with NaN is false. `new Decimal` then throws at line 25 (line 119), inside the unit of work.
- Money.MulValue, Rates.Converted: the decimal library rounds a product to 20 significant digits before the rounding to cents. The model multiplies exactly, so for the EUR to USD rate it does not capture a possible double rounding.
- Generated ids and `createdAt` timestamps are strictly increasing counters. Equal timestamps, and the database's order among them, are not modelled.
- History.FindAll: its precondition requires `page >= 1` and `limit > 0`. Outside that range the source's behaviour depends on things the model does not capture. A positive limit with `page < 1` gives a negative skip, which the database rejects. A negative limit makes the query take rows from the other end of the order, and a zero limit divides by zero in `Math.ceil(total / limit)`.
- The default arguments `page = 1` and `limit = 10` are not modelled; the HTTP controller always passes both.
- History.FindAll: the `include` of each transaction's ledger rows and their accounts is left out. A page holds the transaction rows only.
- Authentication, the HTTP controllers, the account service, the seed script, the Prisma client wiring and the web front end are not modelled. They are plumbing and foreign library calls (password hashing, token signing, HTTP, browser storage).
