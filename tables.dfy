/** The three tables of the betting server (users, bets, transactions), the fixed
    odds it quotes, and the two request gates that run in front of its handlers.
    Money and odds are exact `real` numbers, in roubles. */
module Tables {

  /** A row of `users`, keyed by Telegram id in the map that holds the table. */
  datatype User = User(username: string, balance: real, isAdmin: bool)

  /** A bet's lifecycle: `Pending` until it is settled or canceled. */
  datatype BetStatus = Pending | Won | Lost | Canceled

  /** A row of `bets`. Its id is its position in the table plus one. */
  datatype Bet = Bet(user: int, amount: real, racer: int, odds: real, status: BetStatus)

  /** The kinds of rows this server writes to `transactions`; an adjustment records the admin's id. */
  datatype TxnKind = Deposit | Adjustment(adminId: int)

  /** The `status` column. `TxnPending` is only the column's default: every
      handler modelled here writes 'completed' explicitly. */
  datatype TxnStatus = TxnPending | TxnCompleted

  /** A row of `transactions`, an append-only log. */
  datatype Txn = Txn(user: int, amount: real, kind: TxnKind, status: TxnStatus)

  /** The errors the handlers report, one per thrown message or middleware refusal. */
  datatype Error =
    | UserIdRequired        // no (or a zero) user id in the request
    | UserNotFound          // no `users` row for the id
    | AccessDenied          // the caller is not an admin
    | InvalidAmount         // deposit of a non-positive amount
    | InvalidRacer          // racer id outside {1, 2}
    | BelowMinimumBet       // stake under the minimum
    | InsufficientFunds     // stake above the balance
    | InvalidWinner         // winner outside {1, 2}
    | MissingParameters     // adjustment without a target or with a zero amount
    | BetIdRequired         // cancellation without a bet id
    | BetNotFound           // no pending bet with that id
    | TargetNotFound        // adjustment of an account that has no row

  datatype Result<T> = Ok(value: T) | Err(error: Error)

  datatype Outcome = Done | Failed(error: Error)

  /** The smallest stake a bet may have. */
  const MinBet: real := 50.0

  /** The odds published by `/api/odds`, per racer. */
  function OddsTable(): (table: map<int, real>)
    ensures table.Keys == {1, 2}
    ensures forall racer :: racer in table ==> table[racer] > 1.0
  {
    map[1 := 1.85, 2 := 2.10]
  }

  /** The odds recorded on a new bet. The source compares the racer id to 1
      with `===`, so a racer id sent as the string "1" passes validation (which
      converts it with `Number`) yet is priced at 2.10; racer ids are integers
      here, which leaves that quirk out. */
  function QuotedOdds(racer: int): (odds: real)
    ensures racer in OddsTable() ==> odds == OddsTable()[racer]
    ensures odds > 1.0
  {
    if racer == 1 then 1.85 else 2.10
  }

  /** What a winning bet pays back: the stake times the odds stored on the bet. */
  function Payout(b: Bet): (p: real)
    ensures b.amount > 0.0 && b.odds > 1.0 ==> p > b.amount
  {
    b.amount * b.odds
  }

  /** A bet as placement writes it: a valid racer, at least the minimum stake,
      and the odds quoted for that racer. */
  ghost predicate WellFormed(b: Bet) {
    (b.racer == 1 || b.racer == 2) && b.amount >= MinBet && b.odds == QuotedOdds(b.racer)
  }

  /** `authMiddleware`: the id must be given (non-zero) and have a `users` row. */
  function Authenticate(users: map<int, User>, userId: int): (r: Outcome)
    ensures r == Done <==> userId != 0 && userId in users
    ensures r != Done ==> r == Failed(UserIdRequired) || r == Failed(UserNotFound)
  {
    if userId == 0 then Failed(UserIdRequired)
    else if userId !in users then Failed(UserNotFound)
    else Done
  }

  /** `authMiddleware` followed by `adminMiddleware`: the caller's row must also carry the admin flag. */
  function AuthorizeAdmin(users: map<int, User>, userId: int): (r: Outcome)
    ensures r == Done <==> userId != 0 && userId in users && users[userId].isAdmin
    ensures Authenticate(users, userId).Failed? ==> r == Authenticate(users, userId)
  {
    var auth := Authenticate(users, userId);
    if auth.Failed? then auth
    else if !users[userId].isAdmin then Failed(AccessDenied)
    else Done
  }

  /** `UPDATE users SET balance = balance + amount WHERE telegram_id = id`:
      a statement that matches no row changes nothing. */
  function Credit(users: map<int, User>, id: int, amount: real): (credited: map<int, User>)
    ensures credited.Keys == users.Keys
    ensures id in users ==> credited[id] == users[id].(balance := users[id].balance + amount)
    ensures forall k :: k in users && k != id ==> credited[k] == users[k]
  {
    if id in users then users[id := users[id].(balance := users[id].balance + amount)] else users
  }
}
