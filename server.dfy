/** The betting server's ledger: its three tables, and one method per request
    handler that reads or changes them. Every changing handler runs as one
    atomic step: on success it applies all of its updates, on any error it
    leaves every table as it was. */
module Server {
  import opened Tables
  import opened Sums
  import opened Settlement

  /** Whether `betId` names a bet that is still pending; a bet's id is its position plus one. */
  predicate IsPendingBet(bets: seq<Bet>, betId: int)
    ensures IsPendingBet(bets, betId) <==>
      exists i :: 0 <= i < |bets| && i + 1 == betId && bets[i].status == Pending
  {
    1 <= betId <= |bets| && bets[betId - 1].status == Pending
  }

  class Jeanbet {
    var users: map<int, User>
    var bets: seq<Bet>
    var txns: seq<Txn>

    /** The schema's references hold (every bet and every transaction names a
        user that has a row) and every bet is as placement writes it. */
    ghost predicate Valid()
      reads this
      ensures Valid() ==> PendingStake(bets) >= 0.0
    {
      && (forall i :: 0 <= i < |bets| ==> bets[i].user in users && WellFormed(bets[i]))
      && (forall i :: 0 <= i < |txns| ==> txns[i].user in users)
      // Last on purpose: the lemma needs the bets' non-negative stakes, which
      // the conjuncts above guarantee by the time this one is evaluated.
      && (PendingStakeNonNegative(bets); true)
    }

    /** The funds the ledger accounts for: all balances plus the stakes that pending bets hold. */
    ghost function Funds(): real
      reads this
    {
      Total(users) + PendingStake(bets)
    }

    /** Tables holding the `seed` users, no bets and no transactions. No handler
        sets the admin flag, so admins come from the seed. */
    constructor (seed: map<int, User>)
      ensures Valid()
      ensures users == seed && bets == [] && txns == []
    {
      users, bets, txns := seed, [], [];
    }

    /** `POST /api/auth`: inserts the user with balance 0 and no admin flag, or,
        for a known id, replaces the username and nothing else. */
    method Auth(userId: int, username: string) returns (r: Result<User>)
      requires Valid()
      modifies this
      ensures Valid()
      ensures bets == old(bets) && txns == old(txns)
      ensures userId == 0 ==> r == Err(UserIdRequired) && users == old(users)
      ensures userId != 0 && userId in old(users) ==>
        r == Ok(old(users)[userId].(username := username)) && users == old(users)[userId := r.value]
      ensures userId != 0 && userId !in old(users) ==>
        r == Ok(User(username, 0.0, false)) && users == old(users)[userId := r.value]
      ensures Funds() == old(Funds())
    {
      if userId == 0 {
        return Err(UserIdRequired);
      }
      var row := if userId in users then users[userId].(username := username) else User(username, 0.0, false);
      if userId in users {
        TotalUpdate(users, userId, row);
      } else {
        TotalInsert(users, userId, row);
      }
      users := users[userId := row];
      r := Ok(row);
    }

    /** `GET /api/balance/:userId`: the stored balance, or 0 for an id without a
        row. This route has no gate. */
    method GetBalance(userId: int) returns (balance: real)
      ensures userId in users ==> balance == users[userId].balance
      ensures userId !in users ==> balance == 0.0
    {
      balance := if userId in users then users[userId].balance else 0.0;
    }

    /** `POST /api/payment/deposit`: credits any positive amount, unconditionally
        and on every call, and logs one completed deposit. */
    method Deposit(userId: int, amount: real) returns (r: Outcome)
      requires Valid()
      modifies this
      ensures Valid()
      ensures Authenticate(old(users), userId).Failed? ==> r == Authenticate(old(users), userId)
      ensures Authenticate(old(users), userId) == Done && amount <= 0.0 ==> r == Failed(InvalidAmount)
      ensures Authenticate(old(users), userId) == Done && amount > 0.0 ==> r == Done
      ensures r.Failed? ==> users == old(users) && bets == old(bets) && txns == old(txns)
      ensures r == Done ==>
        && users == Credit(old(users), userId, amount)
        && bets == old(bets)
        && txns == old(txns) + [Txn(userId, amount, TxnKind.Deposit, TxnCompleted)]
      ensures Funds() == old(Funds()) + (if r == Done then amount else 0.0)
    {
      r := Authenticate(users, userId);
      if r.Failed? {
        return;
      }
      if amount <= 0.0 {
        return Failed(InvalidAmount);
      }
      TotalCredit(users, userId, amount);
      users := Credit(users, userId, amount);
      txns := txns + [Txn(userId, amount, TxnKind.Deposit, TxnCompleted)];
    }

    /** `POST /api/bets`: validates the racer, the minimum stake and the balance,
        then records a pending bet at the quoted odds and debits the stake. */
    method PlaceBet(userId: int, amount: real, racerId: int) returns (r: Outcome)
      requires Valid()
      modifies this
      ensures Valid()
      ensures Authenticate(old(users), userId).Failed? ==> r == Authenticate(old(users), userId)
      ensures Authenticate(old(users), userId) == Done && racerId != 1 && racerId != 2 ==>
        r == Failed(InvalidRacer)
      ensures Authenticate(old(users), userId) == Done && (racerId == 1 || racerId == 2) && amount < MinBet ==>
        r == Failed(BelowMinimumBet)
      ensures Authenticate(old(users), userId) == Done && (racerId == 1 || racerId == 2) && amount >= MinBet
              && old(users)[userId].balance < amount ==>
        r == Failed(InsufficientFunds)
      ensures Authenticate(old(users), userId) == Done && (racerId == 1 || racerId == 2)
              && MinBet <= amount <= old(users)[userId].balance ==>
        r == Done
      ensures r.Failed? ==> users == old(users) && bets == old(bets) && txns == old(txns)
      ensures r == Done ==>
        && userId in old(users) && (racerId == 1 || racerId == 2) && MinBet <= amount <= old(users)[userId].balance
        && users == Credit(old(users), userId, -amount)
        && users[userId].balance >= 0.0
        && bets == old(bets) + [Bet(userId, amount, racerId, QuotedOdds(racerId), Pending)]
        && txns == old(txns)
      ensures Funds() == old(Funds())
    {
      r := Authenticate(users, userId);
      if r.Failed? {
        return;
      }
      if racerId != 1 && racerId != 2 {
        return Failed(InvalidRacer);
      }
      if amount < MinBet {
        return Failed(BelowMinimumBet);
      }
      if users[userId].balance < amount {
        return Failed(InsufficientFunds);
      }
      RecordBet(Bet(userId, amount, racerId, QuotedOdds(racerId), Pending));
    }

    /** The body of the placement transaction once every check has passed:
        inserts the bet and debits its stake from its owner. */
    method RecordBet(bet: Bet)
      requires Valid() && bet.user in users && WellFormed(bet) && bet.status == Pending
      requires bet.amount <= users[bet.user].balance
      modifies this
      ensures Valid()
      ensures users == Credit(old(users), bet.user, -bet.amount)
      ensures users[bet.user].balance >= 0.0
      ensures bets == old(bets) + [bet] && txns == old(txns)
      ensures Funds() == old(Funds())
    {
      PendingStakeAppend(bets, bet);
      TotalCredit(users, bet.user, -bet.amount);
      bets := bets + [bet];
      users := Credit(users, bet.user, -bet.amount);
      assert users.Keys == old(users).Keys;
    }

    /** `POST /api/admin/settle`: for every bet pending when the snapshot is
        taken, credits its owner the stake times the bet's stored odds if it is
        on the winner and marks it won, or marks it lost. The race id is not used. */
    method Settle(userId: int, raceId: int, winner: int) returns (r: Outcome)
      requires Valid()
      modifies this
      ensures Valid()
      ensures AuthorizeAdmin(old(users), userId).Failed? ==> r == AuthorizeAdmin(old(users), userId)
      ensures AuthorizeAdmin(old(users), userId) == Done && winner != 1 && winner != 2 ==> r == Failed(InvalidWinner)
      ensures AuthorizeAdmin(old(users), userId) == Done && (winner == 1 || winner == 2) ==> r == Done
      ensures r.Failed? ==> users == old(users) && bets == old(bets) && txns == old(txns)
      ensures r == Done ==>
        && bets == Settled(old(bets), winner)
        && users == Paid(old(users), PendingRows(old(bets)), winner)
        && txns == old(txns)
      ensures r == Done ==> forall i :: 0 <= i < |bets| ==> bets[i].status != Pending
      ensures r == Done ==> Funds() == Total(old(users)) + TotalWinnings(PendingRows(old(bets)), winner)
    {
      r := AuthorizeAdmin(users, userId);
      if r.Failed? {
        return;
      }
      if winner != 1 && winner != 2 {
        return Failed(InvalidWinner);
      }
      ghost var users0, bets0 := users, bets;
      SettlePending(winner);
      TotalPaid(users0, PendingRows(bets0), winner);
      SettledHoldsNoStake(bets0, winner);
    }

    /** The body of the settle transaction: takes the snapshot of pending bets
        and walks it row by row, crediting winners and rewriting statuses. */
    method SettlePending(winner: int)
      modifies this
      ensures bets == Settled(old(bets), winner)
      ensures users == Paid(old(users), PendingRows(old(bets)), winner)
      ensures txns == old(txns)
    {
      ghost var users0, bets0 := users, bets;
      var rows := PendingRows(bets);
      for j := 0 to |rows|
        invariant txns == old(txns)
        invariant users == Paid(users0, rows[..j], winner)
        invariant bets == Rewritten(bets0, rows[..j], winner)
      {
        var row := rows[j];
        var b := row.bet;
        SettleStep(users0, bets0, rows, j, winner);
        if b.racer == winner {
          // the owner is also sent a Telegram message here, which is not modelled
          users := Credit(users, b.user, Payout(b));
        }
        bets := bets[row.index := b.(status := if b.racer == winner then Won else Lost)];
      }
      assert rows[..|rows|] == rows;
      RewrittenSnapshot(bets0, winner);
    }

    /** `POST /api/admin/adjust-balance` as written. The body's `userId` is read
        by the gates as the caller and by the handler as the account to adjust,
        so the account adjusted is always the caller's own, and it must be an
        admin's. The amount may have either sign and no floor is checked. */
    method AdjustBalance(userId: int, amount: real) returns (r: Outcome)
      requires Valid()
      modifies this
      ensures Valid()
      ensures AuthorizeAdmin(old(users), userId).Failed? ==> r == AuthorizeAdmin(old(users), userId)
      ensures AuthorizeAdmin(old(users), userId) == Done && amount == 0.0 ==> r == Failed(MissingParameters)
      ensures AuthorizeAdmin(old(users), userId) == Done && amount != 0.0 ==> r == Done
      ensures r.Failed? ==> users == old(users) && bets == old(bets) && txns == old(txns)
      ensures r == Done ==>
        && users == Credit(old(users), userId, amount)
        && bets == old(bets)
        && txns == old(txns) + [Txn(userId, amount, Adjustment(userId), TxnCompleted)]
      ensures Funds() == old(Funds()) + (if r == Done then amount else 0.0)
    {
      r := AuthorizeAdmin(users, userId);
      if r.Failed? {
        return;
      }
      if amount == 0.0 {
        return Failed(MissingParameters);
      }
      TotalCredit(users, userId, amount);
      users := Credit(users, userId, amount);
      txns := txns + [Txn(userId, amount, Adjustment(userId), TxnCompleted)];
    }

    /** The adjustment as evidently intended: an admin adjusts another user's
        balance. A target without a row is refused, as the transaction row's
        reference to `users` would refuse it. */
    method AdjustUserBalance(adminId: int, targetId: int, amount: real) returns (r: Outcome)
      requires Valid()
      modifies this
      ensures Valid()
      ensures AuthorizeAdmin(old(users), adminId).Failed? ==> r == AuthorizeAdmin(old(users), adminId)
      ensures AuthorizeAdmin(old(users), adminId) == Done && (targetId == 0 || amount == 0.0) ==>
        r == Failed(MissingParameters)
      ensures AuthorizeAdmin(old(users), adminId) == Done && targetId != 0 && amount != 0.0 && targetId !in old(users) ==>
        r == Failed(TargetNotFound)
      ensures AuthorizeAdmin(old(users), adminId) == Done && targetId != 0 && amount != 0.0 && targetId in old(users) ==>
        r == Done
      ensures r.Failed? ==> users == old(users) && bets == old(bets) && txns == old(txns)
      ensures r == Done ==>
        && users == Credit(old(users), targetId, amount)
        && bets == old(bets)
        && txns == old(txns) + [Txn(targetId, amount, Adjustment(adminId), TxnCompleted)]
      ensures Funds() == old(Funds()) + (if r == Done then amount else 0.0)
    {
      r := AuthorizeAdmin(users, adminId);
      if r.Failed? {
        return;
      }
      if targetId == 0 || amount == 0.0 {
        return Failed(MissingParameters);
      }
      if targetId !in users {
        return Failed(TargetNotFound);
      }
      TotalCredit(users, targetId, amount);
      users := Credit(users, targetId, amount);
      txns := txns + [Txn(targetId, amount, Adjustment(adminId), TxnCompleted)];
    }

    /** `POST /api/admin/cancel-bet`: only a pending bet can be canceled; its
        stake goes back to its owner. */
    method CancelBet(userId: int, betId: int) returns (r: Outcome)
      requires Valid()
      modifies this
      ensures Valid()
      ensures AuthorizeAdmin(old(users), userId).Failed? ==> r == AuthorizeAdmin(old(users), userId)
      ensures AuthorizeAdmin(old(users), userId) == Done && betId == 0 ==> r == Failed(BetIdRequired)
      ensures AuthorizeAdmin(old(users), userId) == Done && betId != 0 && !IsPendingBet(old(bets), betId) ==>
        r == Failed(BetNotFound)
      ensures AuthorizeAdmin(old(users), userId) == Done && IsPendingBet(old(bets), betId) ==> r == Done
      ensures r.Failed? ==> users == old(users) && bets == old(bets) && txns == old(txns)
      ensures r == Done ==>
        && IsPendingBet(old(bets), betId)
        && var b := old(bets)[betId - 1];
        && users == Credit(old(users), b.user, b.amount)
        && bets == old(bets)[betId - 1 := b.(status := Canceled)]
        && txns == old(txns)
      ensures Funds() == old(Funds())
    {
      r := AuthorizeAdmin(users, userId);
      if r.Failed? {
        return;
      }
      if betId == 0 {
        return Failed(BetIdRequired);
      }
      if !IsPendingBet(bets, betId) {
        return Failed(BetNotFound);
      }
      var b := bets[betId - 1];
      TotalCredit(users, b.user, b.amount);
      PendingStakeUpdate(bets, betId - 1, b.(status := Canceled));
      users := Credit(users, b.user, b.amount);
      bets := bets[betId - 1 := b.(status := Canceled)];
    }
  }
}
