/** The balances and statuses the handlers leave on concrete ledgers, each
    proved from nothing but the handlers' contracts. */
module Scenarios {
  import opened Tables
  import opened Settlement
  import opened Server

  const AdminId: int := 1
  const PlayerId: int := 7

  /** A ledger with one admin and one player holding `balance`. */
  method NewLedger(balance: real) returns (ledger: Jeanbet)
    ensures fresh(ledger) && ledger.Valid()
    ensures ledger.users == map[AdminId := User("admin", 0.0, true), PlayerId := User("player", balance, false)]
    ensures ledger.bets == [] && ledger.txns == []
  {
    ledger := new Jeanbet(map[AdminId := User("admin", 0.0, true), PlayerId := User("player", balance, false)]);
  }

  /** A ledger whose player held `balance` and has just staked `amount` on `racer`. */
  method LedgerWithBet(balance: real, amount: real, racer: int) returns (ledger: Jeanbet, placed: Outcome)
    requires MinBet <= amount <= balance && (racer == 1 || racer == 2)
    ensures fresh(ledger) && ledger.Valid() && placed == Done
    ensures ledger.users == map[AdminId := User("admin", 0.0, true), PlayerId := User("player", balance - amount, false)]
    ensures ledger.bets == [Bet(PlayerId, amount, racer, QuotedOdds(racer), Pending)] && ledger.txns == []
  {
    ledger := NewLedger(balance);
    placed := ledger.PlaceBet(PlayerId, amount, racer);
  }

  /** The admin declares `winner` on a ledger that holds one pending bet: the
      bet is resolved and only a winning bet's owner is credited its payout. */
  method SettleOnlyBet(ledger: Jeanbet, winner: int) returns (r: Outcome)
    requires ledger.Valid() && AuthorizeAdmin(ledger.users, AdminId) == Done && (winner == 1 || winner == 2)
    requires |ledger.bets| == 1 && ledger.bets[0].status == Pending
    modifies ledger
    ensures ledger.Valid() && r == Done
    ensures ledger.bets == [Resolve(old(ledger.bets[0]), winner)]
    ensures ledger.users == if old(ledger.bets[0]).racer == winner
      then Credit(old(ledger.users), old(ledger.bets[0]).user, Payout(old(ledger.bets[0])))
      else old(ledger.users)
  {
    var b := ledger.bets[0];
    assert ledger.bets == [b];
    SettleSingle(ledger.users, b, winner);
    r := ledger.Settle(AdminId, 0, winner);
  }

  /** A stake of 200 on racer 1 from a balance of 1000 leaves 800; when racer 1
      wins, the bet is won and pays 200 * 1.85, for a balance of 1170. A second
      declaration then pays nothing more. */
  method WinningBet() returns (afterBet: real, afterSettle: real, afterSecondSettle: real, status: BetStatus)
    ensures afterBet == 800.0 && afterSettle == 1170.0 && afterSecondSettle == 1170.0
    ensures status == Won
  {
    var ledger, placed := LedgerWithBet(1000.0, 200.0, 1);
    afterBet := ledger.GetBalance(PlayerId);
    var settled := SettleOnlyBet(ledger, 1);
    afterSettle := ledger.GetBalance(PlayerId);
    status := ledger.bets[0].status;
    NoPendingNoRows(ledger.bets);
    PaidNothing(ledger.users, 1);
    var again := ledger.Settle(AdminId, 0, 1);
    afterSecondSettle := ledger.GetBalance(PlayerId);
  }

  /** A stake of 100 on racer 2 from a balance of 800 leaves 700; when racer 1
      wins, the bet is lost and the balance stays 700. */
  method LosingBet() returns (afterBet: real, afterSettle: real, status: BetStatus)
    ensures afterBet == 700.0 && afterSettle == 700.0
    ensures status == Lost
  {
    var ledger, placed := LedgerWithBet(800.0, 100.0, 2);
    afterBet := ledger.GetBalance(PlayerId);
    var settled := SettleOnlyBet(ledger, 1);
    afterSettle := ledger.GetBalance(PlayerId);
    status := ledger.bets[0].status;
  }

  /** A pending stake of 50 canceled by the admin comes back to the player;
      canceling the same bet again fails and changes nothing. */
  method CancelTwice() returns (first: Outcome, second: Outcome, afterFirst: real, afterSecond: real)
    ensures first == Done && afterFirst == 100.0
    ensures second == Failed(BetNotFound) && afterSecond == 100.0
  {
    var ledger := NewLedger(100.0);
    var placed := ledger.PlaceBet(PlayerId, 50.0, 1);
    first := ledger.CancelBet(AdminId, 1);
    afterFirst := ledger.GetBalance(PlayerId);
    second := ledger.CancelBet(AdminId, 1);
    afterSecond := ledger.GetBalance(PlayerId);
  }

  /** Placement refuses a stake under 50, an unknown racer and a stake above
      the balance, and changes no balance when it does. */
  method RejectedBets() returns (small: Outcome, racer: Outcome, costly: Outcome, balance: real)
    ensures small == Failed(BelowMinimumBet)
    ensures racer == Failed(InvalidRacer)
    ensures costly == Failed(InsufficientFunds)
    ensures balance == 100.0
  {
    var ledger := NewLedger(100.0);
    small := ledger.PlaceBet(PlayerId, 49.0, 1);
    racer := ledger.PlaceBet(PlayerId, 60.0, 3);
    costly := ledger.PlaceBet(PlayerId, 150.0, 2);
    balance := ledger.GetBalance(PlayerId);
  }

  /** The same deposit request sent twice credits twice and logs two rows: the
      deposit handler has no idempotency key. */
  method RepeatedDeposit() returns (balance: real, logged: nat)
    ensures balance == 200.0 && logged == 2
  {
    var ledger := NewLedger(0.0);
    var first := ledger.Deposit(PlayerId, 100.0);
    var second := ledger.Deposit(PlayerId, 100.0);
    balance := ledger.GetBalance(PlayerId);
    logged := |ledger.txns|;
  }

  /** The admin asks to credit 100 to the player. As written, the gates check
      the player (the body's `userId`), who is no admin, so the request is
      refused; the corrected handler credits the player. */
  method AdjustAnotherUser() returns (asWritten: Outcome, corrected: Outcome, balance: real)
    ensures asWritten == Failed(AccessDenied)
    ensures corrected == Done && balance == 1100.0
  {
    var ledger := NewLedger(1000.0);
    asWritten := ledger.AdjustBalance(PlayerId, 100.0);
    corrected := ledger.AdjustUserBalance(AdminId, PlayerId, 100.0);
    balance := ledger.GetBalance(PlayerId);
  }
}
