/** What declaring a winner does to the tables: the snapshot of pending bets it
    selects, the status each of them receives, and the winnings credited to
    their owners. The settle handler in the server module walks the snapshot
    row by row; the functions here state the result of the whole walk. */
module Settlement {
  import opened Tables
  import opened Sums

  /** A row of the snapshot: the bet's position in `bets` and its fields. */
  datatype Row = Row(index: nat, bet: Bet)

  /** The bets selected by the settle handler's query for pending bets. The query
      has no ORDER BY, so the database may return them in any order; the snapshot
      here lists them in table order (see `PaidAnyOrder` for why the balances do
      not depend on that choice). */
  function PendingRows(bets: seq<Bet>): (rows: seq<Row>)
    ensures forall k :: 0 <= k < |rows| ==>
      rows[k].index < |bets| && bets[rows[k].index] == rows[k].bet && rows[k].bet.status == Pending
    ensures forall k, l :: 0 <= k < l < |rows| ==> rows[k].index < rows[l].index
    decreases |bets|
  {
    if bets == [] then []
    else
      var n := |bets| - 1;
      var prefix := PendingRows(bets[..n]);
      assert forall i :: 0 <= i < n ==> bets[..n][i] == bets[i];
      prefix + (if bets[n].status == Pending then [Row(n, bets[n])] else [])
  }

  /** The snapshot misses no pending bet. */
  lemma {:induction false} PendingRowsComplete(bets: seq<Bet>, i: int)
    requires 0 <= i < |bets| && bets[i].status == Pending
    ensures exists k :: 0 <= k < |PendingRows(bets)| && PendingRows(bets)[k].index == i
    decreases |bets|
  {
    var n := |bets| - 1;
    var prefix := PendingRows(bets[..n]);
    var rows := PendingRows(bets);
    assert rows == prefix + (if bets[n].status == Pending then [Row(n, bets[n])] else []);
    if i == n {
      assert rows[|prefix|].index == i;
    } else {
      PendingRowsComplete(bets[..n], i);
      var k :| 0 <= k < |prefix| && prefix[k].index == i;
      assert rows[k] == prefix[k];
    }
  }

  /** The status settlement gives a bet: a pending bet on the winner is won, any
      other pending bet is lost, and a bet already won, lost or canceled keeps
      its status. */
  function Resolve(b: Bet, winner: int): (r: Bet)
    ensures r.status != Pending
    ensures r.(status := b.status) == b
    ensures r.status == Won <==> b.status == Won || (b.status == Pending && b.racer == winner)
    ensures r.status == Lost <==> b.status == Lost || (b.status == Pending && b.racer != winner)
    ensures b.status != Pending ==> r == b
  {
    if b.status == Pending then b.(status := if b.racer == winner then Won else Lost) else b
  }

  /** The bets table after settlement. */
  function Settled(bets: seq<Bet>, winner: int): (settled: seq<Bet>)
    ensures |settled| == |bets|
    ensures forall i :: 0 <= i < |bets| ==> settled[i].status != Pending
    ensures forall i :: 0 <= i < |bets| && bets[i].status != Pending ==> settled[i] == bets[i]
    ensures forall i :: 0 <= i < |bets| && bets[i].status == Pending ==>
      settled[i] == bets[i].(status := if bets[i].racer == winner then Won else Lost)
  {
    seq(|bets|, i requires 0 <= i < |bets| => Resolve(bets[i], winner))
  }

  /** The bets table after the statuses of the snapshot rows are rewritten one
      row at a time, in order: each row's bet receives its resolved status. */
  function Rewritten(bets: seq<Bet>, rows: seq<Row>, winner: int): (rewritten: seq<Bet>)
    ensures |rewritten| == |bets|
    ensures forall i :: 0 <= i < |bets| && (forall k :: 0 <= k < |rows| ==> rows[k].index != i) ==>
      rewritten[i] == bets[i]
    decreases |rows|
  {
    if rows == [] then bets
    else
      var n := |rows| - 1;
      var prev := Rewritten(bets, rows[..n], winner);
      if rows[n].index < |prev| then prev[rows[n].index := Resolve(rows[n].bet, winner)] else prev
  }

  /** Rows that all point into `bets` rewrite a longer table the same way. */
  lemma {:induction false} RewrittenExtend(bets: seq<Bet>, x: Bet, rows: seq<Row>, winner: int)
    requires forall k :: 0 <= k < |rows| ==> rows[k].index < |bets|
    ensures Rewritten(bets + [x], rows, winner) == Rewritten(bets, rows, winner) + [x]
    decreases |rows|
  {
    if rows != [] {
      RewrittenExtend(bets, x, rows[..|rows| - 1], winner);
    }
  }

  /** The snapshot of a table with one more bet ends with that bet when it is pending. */
  lemma PendingRowsAppend(bets: seq<Bet>, x: Bet)
    ensures PendingRows(bets + [x]) == PendingRows(bets) + (if x.status == Pending then [Row(|bets|, x)] else [])
  {
    assert (bets + [x])[..|bets|] == bets;
  }

  /** Settling a table with one more bet settles that bet too. */
  lemma SettledAppend(bets: seq<Bet>, x: Bet, winner: int)
    ensures Settled(bets + [x], winner) == Settled(bets, winner) + [Resolve(x, winner)]
  {
  }

  /** Rewriting one more row rewrites that row's bet, when the row points into the table. */
  lemma RewrittenAppend(bets: seq<Bet>, rows: seq<Row>, row: Row, winner: int)
    requires row.index < |bets|
    ensures Rewritten(bets, rows + [row], winner) == Rewritten(bets, rows, winner)[row.index := Resolve(row.bet, winner)]
  {
    assert (rows + [row])[..|rows|] == rows;
  }

  /** Rewriting every row of the pending snapshot settles the whole table: the
      row-by-row walk and the table-wide definition agree. */
  lemma {:induction false} RewrittenSnapshot(bets: seq<Bet>, winner: int)
    ensures Rewritten(bets, PendingRows(bets), winner) == Settled(bets, winner)
    decreases |bets|
  {
    if bets != [] {
      var n := |bets| - 1;
      var prefix, last := bets[..n], bets[n];
      var rows := PendingRows(prefix);
      assert bets == prefix + [last];
      RewrittenSnapshot(prefix, winner);
      RewrittenExtend(prefix, last, rows, winner);
      SettledAppend(prefix, last, winner);
      PendingRowsAppend(prefix, last);
      if last.status == Pending {
        assert PendingRows(bets) == rows + [Row(n, last)];
        RewrittenAppend(bets, rows, Row(n, last), winner);
        assert (Settled(prefix, winner) + [last])[n := Resolve(last, winner)]
            == Settled(prefix, winner) + [Resolve(last, winner)];
      } else {
        assert PendingRows(bets) == rows;
        assert Resolve(last, winner) == last;
      }
    }
  }

  /** Whether a snapshot row pays out when `winner` wins. The same test picks
      the credit and the status written for the row, so a pending row pays out
      exactly when it is resolved as won. */
  predicate Wins(row: Row, winner: int)
    ensures row.bet.status == Pending ==> (Wins(row, winner) <==> Resolve(row.bet, winner).status == Won)
  {
    row.bet.racer == winner
  }

  /** The sum of the payouts the rows credit to `user`. */
  function Winnings(rows: seq<Row>, winner: int, user: int): real
    decreases |rows|
  {
    if rows == [] then 0.0
    else
      var last := rows[|rows| - 1];
      Winnings(rows[..|rows| - 1], winner, user)
        + (if last.bet.user == user && Wins(last, winner) then Payout(last.bet) else 0.0)
  }

  /** The sum of all payouts of the rows, whoever owns them. */
  function TotalWinnings(rows: seq<Row>, winner: int): real
    decreases |rows|
  {
    if rows == [] then 0.0
    else
      var last := rows[|rows| - 1];
      TotalWinnings(rows[..|rows| - 1], winner) + (if Wins(last, winner) then Payout(last.bet) else 0.0)
  }

  /** The users table after the rows are settled: every user is credited the
      winnings of their own rows, and nothing else of a row changes. */
  function Paid(users: map<int, User>, rows: seq<Row>, winner: int): (paid: map<int, User>)
    ensures paid.Keys == users.Keys
    ensures forall u :: u in users ==> paid[u].(balance := users[u].balance) == users[u]
  {
    map u | u in users :: users[u].(balance := users[u].balance + Winnings(rows, winner, u))
  }

  /** The winnings of two runs of rows add up. */
  lemma {:induction false} WinningsConcat(a: seq<Row>, b: seq<Row>, winner: int, user: int)
    ensures Winnings(a + b, winner, user) == Winnings(a, winner, user) + Winnings(b, winner, user)
    decreases |b|
  {
    if b == [] {
      assert a + b == a;
    } else {
      var n := |b| - 1;
      assert (a + b)[..|a + b| - 1] == a + b[..n];
      WinningsConcat(a, b[..n], winner, user);
    }
  }

  /** Taking one row out of the middle of the rows takes out just its winnings. */
  lemma WinningsRemoveAt(rows: seq<Row>, j: int, winner: int, user: int)
    requires 0 <= j < |rows|
    ensures Winnings(rows, winner, user)
      == Winnings(rows[..j] + rows[j + 1..], winner, user) + Winnings([rows[j]], winner, user)
  {
    assert rows == rows[..j] + [rows[j]] + rows[j + 1..];
    WinningsConcat(rows[..j] + [rows[j]], rows[j + 1..], winner, user);
    WinningsConcat(rows[..j], [rows[j]], winner, user);
    WinningsConcat(rows[..j], rows[j + 1..], winner, user);
  }

  /** Two orderings of the same rows still agree once the last row of one and
      an equal row of the other are taken out. */
  lemma MultisetRemoveLast(rows: seq<Row>, other: seq<Row>, j: int)
    requires multiset(rows) == multiset(other) && rows != []
    requires 0 <= j < |other| && other[j] == rows[|rows| - 1]
    ensures multiset(rows[..|rows| - 1]) == multiset(other[..j] + other[j + 1..])
  {
    var n, x := |rows| - 1, other[j];
    assert rows == rows[..n] + [x];
    assert other == other[..j] + [x] + other[j + 1..];
    assert multiset(rows[..n]) == multiset(rows) - multiset{x};
    assert multiset(other[..j] + other[j + 1..]) == multiset(other) - multiset{x};
  }

  /** A user's winnings do not depend on the order of the rows. */
  lemma {:induction false} WinningsAnyOrder(rows: seq<Row>, other: seq<Row>, winner: int, user: int)
    requires multiset(rows) == multiset(other)
    ensures Winnings(rows, winner, user) == Winnings(other, winner, user)
    decreases |rows|
  {
    if rows == [] {
      assert |other| == |multiset(other)| == 0;
    } else {
      var n := |rows| - 1;
      var x := rows[n];
      assert x in multiset(other);
      var j :| 0 <= j < |other| && other[j] == x;
      var rest := other[..j] + other[j + 1..];
      MultisetRemoveLast(rows, other, j);
      WinningsAnyOrder(rows[..n], rest, winner, user);
      WinningsRemoveAt(rows, n, winner, user);
      WinningsRemoveAt(other, j, winner, user);
      assert rows[..n] + rows[n + 1..] == rows[..n];
    }
  }

  /** The balances after settlement do not depend on the order in which the
      snapshot rows are walked. */
  lemma PaidAnyOrder(users: map<int, User>, rows: seq<Row>, other: seq<Row>, winner: int)
    requires multiset(rows) == multiset(other)
    ensures Paid(users, rows, winner) == Paid(users, other, winner)
  {
    forall u | u in users
      ensures Winnings(rows, winner, u) == Winnings(other, winner, u)
    {
      WinningsAnyOrder(rows, other, winner, u);
    }
  }

  /** Settling one more row is one balance update for a winning row and none for a losing one. */
  lemma PaidAppend(users: map<int, User>, rows: seq<Row>, row: Row, winner: int)
    ensures Paid(users, rows + [row], winner)
      == if Wins(row, winner) then Credit(Paid(users, rows, winner), row.bet.user, Payout(row.bet))
         else Paid(users, rows, winner)
  {
    var all := rows + [row];
    assert all[..|all| - 1] == rows && all[|all| - 1] == row;
    var before := Paid(users, rows, winner);
    var after := Paid(users, all, winner);
    if Wins(row, winner) {
      var credited := Credit(before, row.bet.user, Payout(row.bet));
      forall u | u in users ensures after[u] == credited[u] {
        assert Winnings(all, winner, u) == Winnings(rows, winner, u) + (if u == row.bet.user then Payout(row.bet) else 0.0);
      }
      assert after == credited;
    } else {
      forall u | u in users ensures after[u] == before[u] {
        assert Winnings(all, winner, u) == Winnings(rows, winner, u);
      }
      assert after == before;
    }
  }

  /** One step of the walk over a snapshot: settling row `j` after rows `..j`
      credits that row's payout if it wins and rewrites that row's bet. */
  lemma SettleStep(users: map<int, User>, bets: seq<Bet>, rows: seq<Row>, j: nat, winner: int)
    requires j < |rows| && rows[j].index < |bets|
    ensures Paid(users, rows[..j + 1], winner)
      == if Wins(rows[j], winner) then Credit(Paid(users, rows[..j], winner), rows[j].bet.user, Payout(rows[j].bet))
         else Paid(users, rows[..j], winner)
    ensures Rewritten(bets, rows[..j + 1], winner)
      == Rewritten(bets, rows[..j], winner)[rows[j].index := Resolve(rows[j].bet, winner)]
  {
    assert rows[..j + 1] == rows[..j] + [rows[j]];
    PaidAppend(users, rows[..j], rows[j], winner);
    RewrittenAppend(bets, rows[..j], rows[j], winner);
  }

  /** Settling no rows changes no balance. */
  lemma PaidNothing(users: map<int, User>, winner: int)
    ensures Paid(users, [], winner) == users
  {
  }

  /** Settlement adds to the sum of balances exactly the payouts of the winning
      rows, when every row's owner has a users row. */
  lemma {:induction false} TotalPaid(users: map<int, User>, rows: seq<Row>, winner: int)
    requires forall k :: 0 <= k < |rows| ==> rows[k].bet.user in users
    ensures Total(Paid(users, rows, winner)) == Total(users) + TotalWinnings(rows, winner)
    decreases |rows|
  {
    if rows == [] {
      PaidNothing(users, winner);
    } else {
      var n := |rows| - 1;
      var prefix, last := rows[..n], rows[n];
      assert rows == prefix + [last];
      TotalPaid(users, prefix, winner);
      PaidAppend(users, prefix, last, winner);
      TotalCredit(Paid(users, prefix, winner), last.bet.user, Payout(last.bet));
    }
  }

  /** A user none of whose rows is on the winner is credited nothing. */
  lemma {:induction false} WinningsNone(rows: seq<Row>, winner: int, user: int)
    requires forall k :: 0 <= k < |rows| && rows[k].bet.user == user ==> !Wins(rows[k], winner)
    ensures Winnings(rows, winner, user) == 0.0
    decreases |rows|
  {
    if rows != [] {
      WinningsNone(rows[..|rows| - 1], winner, user);
    }
  }

  /** A user with no pending bet on the winner keeps their balance through settlement. */
  lemma LoserKeepsBalance(users: map<int, User>, bets: seq<Bet>, winner: int, user: int)
    requires user in users
    requires forall i :: 0 <= i < |bets| && bets[i].user == user && bets[i].status == Pending ==>
      bets[i].racer != winner
    ensures Paid(users, PendingRows(bets), winner)[user] == users[user]
  {
    WinningsNone(PendingRows(bets), winner, user);
  }

  /** Settling a table that holds one pending bet: the snapshot is that bet, it
      is won or lost, and only its owner can be credited, with its payout. */
  lemma SettleSingle(users: map<int, User>, b: Bet, winner: int)
    requires b.status == Pending
    ensures PendingRows([b]) == [Row(0, b)]
    ensures Settled([b], winner) == [b.(status := if b.racer == winner then Won else Lost)]
    ensures Paid(users, [Row(0, b)], winner)
      == if b.racer == winner then Credit(users, b.user, Payout(b)) else users
  {
    assert [b][..0] == [];
    PaidAppend(users, [], Row(0, b), winner);
    PaidNothing(users, winner);
    assert [] + [Row(0, b)] == [Row(0, b)];
  }

  /** A table without pending bets yields an empty snapshot. */
  lemma {:induction false} NoPendingNoRows(bets: seq<Bet>)
    requires forall i :: 0 <= i < |bets| ==> bets[i].status != Pending
    ensures PendingRows(bets) == []
    decreases |bets|
  {
    if bets != [] {
      NoPendingNoRows(bets[..|bets| - 1]);
    }
  }

  /** Settlement leaves no bet pending, so a second settlement, with any winner,
      finds an empty snapshot: it credits nobody and changes no status. */
  lemma SettleTwice(users: map<int, User>, bets: seq<Bet>, winner: int, again: int)
    ensures PendingRows(Settled(bets, winner)) == []
    ensures Settled(Settled(bets, winner), again) == Settled(bets, winner)
    ensures Paid(users, PendingRows(Settled(bets, winner)), again) == users
  {
    NoPendingNoRows(Settled(bets, winner));
    PaidNothing(users, again);
  }

  /** After settlement the bets hold no stake: it has been paid out or kept by the house. */
  lemma SettledHoldsNoStake(bets: seq<Bet>, winner: int)
    ensures PendingStake(Settled(bets, winner)) == 0.0
  {
    PendingStakeNone(Settled(bets, winner));
  }
}
