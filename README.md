# Jeanbet betting ledger

This project models the betting ledger of the Jeanbet server (`jeanbet/server.js`). Jeanbet is a Telegram
mini-app in which players stake roubles at fixed odds on one of two racers, and an admin declares
the winner. The server keeps three tables:

- `users`: balance, admin flag and username, keyed by Telegram id.
- `bets`: owner, stake, racer, odds and status.
- `transactions`: an append-only log.

The sign-in handler writes with a single INSERT … ON CONFLICT statement, which is atomic on its own. Every other handler that changes these tables runs between BEGIN and COMMIT and rolls back on any error.

The model is imperative, like the handlers it follows:

- `Server.Jeanbet` is a class. It holds the tables as `users: map<int, User>`, `bets: seq<Bet>` and
  `txns: seq<Txn>`.
- There is one method per handler. Each method is one atomic step: on success it applies all of the
  handler's updates, and on any error it leaves all three tables as they were.
- The settle handler's `for` loop over the pending bets becomes a `for` loop over the snapshot
  (`SettlePending`). Its invariants tie the tables, after `j` rows, to two fold functions: `Paid` and
  `Rewritten`.
- The pure definitions and the lemmas about them state what the handlers promise:
  - the snapshot, the statuses and the payouts of a settlement (`settlement.dfy`);
  - the sum of balances and the pending stakes (`sums.dfy`);
  - the two request gates and the odds (`tables.dfy`).

Money and odds are exact `real` numbers. A bet's id is its position in `bets` plus one; ids come from a
serial column and bets are never deleted.

The main properties proved are these:

- **Validation.** Every validation error leaves every table unchanged. Every request that passes validation
  succeeds.
- **Conservation of funds.** `Funds()` is the sum of all balances plus the stakes of pending bets. Auth,
  placement and cancellation leave it unchanged. A deposit or an adjustment changes it by exactly its
  amount. Settlement changes the sum of balances by exactly the payouts of the winning bets.
- **The settlement loop.** Walking the snapshot row by row gives the same bets table as resolving every
  pending bet at once (`RewrittenSnapshot`).
- **Settling twice.** After a settlement no bet is pending, so a second one credits nobody and changes no
  status (`SettleTwice`).

`scenarios.dfy` states, and proves from the handlers' contracts, the balances and statuses the handlers
leave on concrete ledgers.

## Model

| member | source | states |
|---|---|---|
| Tables.OddsTable | jeanbet/server.js:235-243 | the published odds cover exactly racers 1 and 2, and each pays more than the stake |
| Tables.QuotedOdds | jeanbet/server.js:206 | the odds recorded on a new bet for racer 1 or 2 are the published odds of that racer, and always exceed 1 |
| Tables.Payout | jeanbet/server.js:358 | a winning bet with a positive stake and odds above 1 pays back more than its stake |
| Tables.Credit | jeanbet/server.js:154-157 | the balance update adds the amount to the matching user's balance, keeps that user's other fields, and leaves every other user and the set of users as they were |
| Tables.Authenticate | jeanbet/server.js:69-94 | the user gate passes exactly when the id is non-zero and has a `users` row; otherwise it fails with "user id required" or "user not found" |
| Tables.AuthorizeAdmin | jeanbet/server.js:248-260 | the admin gate passes exactly for an existing user with the admin flag; a failure of the user gate in front of it is reported unchanged |
| Sums.TotalUpdate | jeanbet/server.js:104-110 | replacing one user's row changes the sum of balances by the change in that row's balance |
| Sums.TotalInsert | jeanbet/server.js:104-110 | inserting a new user adds that user's balance to the sum of balances |
| Sums.TotalCredit | jeanbet/server.js:154-157 | a balance update keeps the set of users; it adds its amount to the sum of balances, or nothing when no row matches the id |
| Sums.PendingStakeAppend | jeanbet/server.js:207-210 | appending a bet adds its stake to the pending stakes |
| Sums.PendingStakeUpdate | jeanbet/server.js:458-461 | rewriting one bet changes the pending stakes by the change in that bet's stake |
| Sums.PendingStakeNone | jeanbet/server.js:371-375 | a table without pending bets holds no stake |
| Settlement.PendingRows | jeanbet/server.js:350-353 | every row of the snapshot is a pending bet, with its position and its fields, and the rows are listed in table order (one order the query may return) |
| Settlement.PendingRowsComplete | jeanbet/server.js:350-353 | every pending bet has a row in the snapshot |
| Settlement.PendingRowsAppend | jeanbet/server.js:350-353 | the snapshot of a table with one more bet ends with that bet exactly when it is pending |
| Settlement.Resolve | jeanbet/server.js:371-375 | a resolved bet is never pending and differs from the bet only in its status; it is won exactly when it was won already or was pending on the winner, and lost exactly when it was lost already or was pending on another racer; a bet that was not pending keeps its status |
| Settlement.Settled | jeanbet/server.js:350-376 | the settled table has the same length and holds no pending bet; each bet that was pending is won if it is on the winner and lost otherwise, with its other fields kept; every bet that was not pending is kept |
| Settlement.Rewritten | jeanbet/server.js:371-375 | the status writes keep the table's length and leave every bet that no row points at as it was |
| Settlement.SettleStep | jeanbet/server.js:356-376 | one iteration of the loop credits the row's payout when the row is on the winner, and gives that row's bet its resolved status |
| Settlement.RewrittenSnapshot | jeanbet/server.js:350-376 | rewriting the statuses of the snapshot rows one by one resolves every pending bet and leaves every other bet as it was |
| Settlement.Wins | jeanbet/server.js:357 | a pending row pays out exactly when its bet is resolved as won, because one test picks both the credit and the new status |
| Settlement.Paid | jeanbet/server.js:356-362 | settlement keeps the same set of users and changes nothing of a user but the balance |
| Settlement.PaidAppend | jeanbet/server.js:357-362 | settling one more row credits that row's owner the payout when the row is on the winner, and changes nothing otherwise |
| Settlement.TotalPaid | jeanbet/server.js:356-376 | when every row's owner has a row, settlement adds to the sum of balances exactly the total payout of the winning rows |
| Settlement.WinningsAnyOrder | jeanbet/server.js:356-362 | a user's winnings are the same for any order of the same rows |
| Settlement.PaidAnyOrder | jeanbet/server.js:350-362 | the balances after settlement are the same for any order in which the query returns the pending bets |
| Settlement.WinningsNone | jeanbet/server.js:357-362 | a user with no row on the winner is credited nothing |
| Settlement.LoserKeepsBalance | jeanbet/server.js:356-376 | a user with no pending bet on the winner keeps their balance through settlement |
| Settlement.SettleSingle | jeanbet/server.js:350-376 | settling a table with one pending bet resolves that bet, and credits its owner its payout exactly when it is on the winner |
| Settlement.NoPendingNoRows | jeanbet/server.js:350-353 | a table without pending bets gives an empty snapshot |
| Settlement.SettleTwice | jeanbet/server.js:350-376 | after a settlement no bet is pending, so another settlement with any winner changes no status and credits nobody |
| Settlement.SettledHoldsNoStake | jeanbet/server.js:371-375 | after a settlement the bets hold no stake |
| Server.IsPendingBet | jeanbet/server.js:442-445 | an id names a pending bet exactly when some bet with that id (its position plus one) has status pending |
| Server.Jeanbet.Valid | jeanbet/server.js:43 | every bet and every transaction names a user that has a row (jeanbet/server.js:53 for bets), and every bet is as placement writes it; the stakes it holds are never negative |
| Server.Jeanbet.constructor | jeanbet/server.js:30-60 | the tables start with the seeded users, no bets and no transactions, with every reference in place |
| Server.Jeanbet.Auth | jeanbet/server.js:99-123 | a zero id fails and changes nothing; a new id is inserted with balance 0 and no admin flag; a known id gets the new username and keeps its balance and admin flag; funds are unchanged |
| Server.Jeanbet.GetBalance | jeanbet/server.js:126-143 | returns the stored balance, or 0 for an id without a row; it changes nothing |
| Server.Jeanbet.Deposit | jeanbet/server.js:146-183 | after the user gate, a non-positive amount fails and changes nothing; a positive amount is credited and one completed deposit is logged, on every call; funds grow by exactly the amount |
| Server.Jeanbet.PlaceBet | jeanbet/server.js:186-232 | gate, racer, minimum stake and balance are checked in that order; each failure changes nothing and a request that passes them all succeeds; success appends one pending bet at the quoted odds, debits exactly the stake (leaving a balance of at least 0) and keeps funds unchanged |
| Server.Jeanbet.RecordBet | jeanbet/server.js:205-216 | inserting a pending bet and debiting its stake keeps the references in place, debits exactly the stake (leaving a balance of at least 0), appends exactly that bet and keeps funds unchanged |
| Server.Jeanbet.Settle | jeanbet/server.js:342-393 | a caller who is not an admin, or a winner outside {1, 2}, changes nothing; otherwise every bet pending at the snapshot is won or lost, every other bet is unchanged, each user is credited their winnings, no bet stays pending, and the sum of balances grows by the total payout |
| Server.Jeanbet.SettlePending | jeanbet/server.js:349-376 | the loop over the snapshot leaves the bets table settled and every user credited the payouts of their winning rows |
| Server.Jeanbet.AdjustBalance | jeanbet/server.js:396-431 | as written: only an admin passes the gates, and the account adjusted is the caller's own; a zero amount fails and changes nothing; otherwise the amount, of either sign and without a floor, is credited and one completed adjustment is logged; funds change by exactly the amount |
| Server.Jeanbet.AdjustUserBalance | jeanbet/server.js:396-431 | as intended: an admin adjusts the target's balance; a missing target or a zero amount fails, an unknown target fails, and success credits the target and logs the adjustment with the admin's id |
| Server.Jeanbet.CancelBet | jeanbet/server.js:434-477 | after the admin gate, a missing bet id fails, and an id that names no pending bet fails; both change nothing; a pending bet is marked canceled and its stake is credited back to its owner; funds are unchanged |
| Scenarios.WinningBet | jeanbet/server.js:350-376 | a stake of 200 on racer 1 from 1000 leaves 800; racer 1 winning pays 370 for 1170 and marks the bet won; a second declaration leaves 1170 |
| Scenarios.LosingBet | jeanbet/server.js:356-376 | a stake of 100 on racer 2 from 800 leaves 700, and racer 1 winning leaves 700 and marks the bet lost |
| Scenarios.CancelTwice | jeanbet/server.js:437-461 | canceling a pending bet refunds the stake; canceling it again fails with "not found" and refunds nothing |
| Scenarios.RejectedBets | jeanbet/server.js:190-203 | a stake under 50, racer 3 and a stake above the balance are each refused, and the balance is unchanged |
| Scenarios.RepeatedDeposit | jeanbet/server.js:146-167 | the same deposit sent twice credits twice and logs two transactions |
| Scenarios.AdjustAnotherUser | jeanbet/server.js:396-415 | an admin's request to credit a player is refused as written, because the gates check the player, and succeeds with the corrected handler |

## Left out

- Telegram notification to winners (`bot.sendMessage`): fire-and-forget I/O, so it is not modelled.
- Database and server setup (pool, DDL execution, CORS, Express wiring, bot polling): these are I/O and
  configuration. The schema appears only as the row datatypes and the reference invariant `Valid`.
- Concurrency:
  - the row locks (`FOR UPDATE`) are not modelled;
  - `BEGIN` sent through a connection pool does not pin one connection, so the source's atomicity is only
    intended;
  - each handler is modelled as one atomic sequential step.
- Floating point and decimal rounding: the JavaScript multiplication of stake by odds, `toFixed`, and
  the rounding of DECIMAL(10,2) and DECIMAL(4,2) storage. The model uses exact reals.
- The range of DECIMAL(10,2): balances, stakes and transaction amounts (jeanbet/server.js:36, 44, 54)
  hold at most 99,999,999.99. Beyond that limit the source's balance update fails:
  - affected requests are a deposit, an adjustment, a cancellation refund, or a settlement payout that
    would push a balance past the limit;
  - the handler rolls back and answers with an error (a settlement rolls back as a whole);
  - the model has no upper bound, so `Server.Jeanbet.Deposit`, `Server.Jeanbet.AdjustBalance`,
    `Server.Jeanbet.CancelBet` and `Server.Jeanbet.Settle` succeed there instead.
- Server.Jeanbet.SettlePending: it walks the snapshot in table order. The query at
  jeanbet/server.js:350-353 has no ORDER BY, so the database may return the pending bets in any order.
  `Settlement.PaidAnyOrder` proves that the balances do not depend on that order. For the statuses, the
  model does not prove order-independence for orders other than table order.
- JSON type coercions:
  - ids and amounts are numbers here, so a string amount compared as text is out of scope;
  - a racer id sent as the string "1" passes validation (it is converted with `Number`) but is priced at
    2.10 by the strict comparison. This appears only as a comment on `Tables.QuotedOdds`.
- Tables.QuotedOdds: for any id other than 1 it returns 2.10, as the source does. Only the two valid
  racers ever reach it.
- The Telegram id 0 is treated as "no id", as JavaScript treats a falsy id.
- Server.Jeanbet.Auth:
  - the source reports every failure as "Authentication failed"; the model reports a missing id as
    `UserIdRequired`;
  - database errors are not modelled.
- The admin statistics endpoint (`NOW()` and time windows) and the admin list queries are read-only
  reports outside the ledger: jeanbet/server.js:263-339 is not part of this model.
- Admin flags come only from the users the ledger is created with: no handler sets one.
- Deposits have no idempotency key, and adjustments have no floor. The code credits on every call and
  lets a balance go negative, and the model does the same (see `Scenarios.RepeatedDeposit`).
- Server.Jeanbet.CancelBet: a second cancellation fails with "not found or already processed"
  (jeanbet/server.js:447-449), which the model calls `BetNotFound`.
- Server.Jeanbet.Settle: the race id in the request is ignored, as in the source. Idempotence comes from
  selecting only pending bets.
- The React screens, the wallet and USDT contract calls, and the client-side bet validation are not part
  of this model.

## Findings

| source | as written | input that shows it | evidently intended | confidence | as-written member | corrected member |
|---|---|---|---|---|---|---|
| jeanbet/server.js:396-415 | the gates read `userId` from the request body as the caller (body before query), and the handler reads the same `userId` as the account to adjust, so an admin can only adjust their own balance and `details.adminId` always equals the target | an admin with id 1 sends `userId=7` (a player) and `amount=100`: the gates check user 7, who is not an admin, and the request is refused | the caller and the target are separate parameters: an admin credits or debits another user's account, and the log records the admin | medium, not executed | Server.Jeanbet.AdjustBalance (counterexample Scenarios.AdjustAnotherUser) | Server.Jeanbet.AdjustUserBalance |
