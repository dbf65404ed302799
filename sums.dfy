/** The funds the ledger holds: the sum of all balances, and the sum of the
    stakes that pending bets keep out of those balances. */
module Sums {
  import opened Tables

  /** The sum of the balances of the users whose ids are in `keys`. */
  ghost function SumBalances(users: map<int, User>, keys: set<int>): real
    requires keys <= users.Keys
    decreases keys
  {
    if forall k :: k !in keys then 0.0
    else
      var k :| k in keys;
      users[k].balance + SumBalances(users, keys - {k})
  }

  /** The sum of all balances in `users`. */
  ghost function Total(users: map<int, User>): real {
    SumBalances(users, users.Keys)
  }

  /** The sum does not depend on which key is taken out first. */
  lemma {:induction false} SumBalancesRemove(users: map<int, User>, keys: set<int>, k: int)
    requires keys <= users.Keys && k in keys
    ensures SumBalances(users, keys) == users[k].balance + SumBalances(users, keys - {k})
    decreases keys
  {
    var j :| j in keys && SumBalances(users, keys) == users[j].balance + SumBalances(users, keys - {j});
    if j != k {
      SumBalancesRemove(users, keys - {j}, k);
      SumBalancesRemove(users, keys - {k}, j);
      assert keys - {j} - {k} == keys - {k} - {j};
    }
  }

  /** Two tables that agree on the balances of `keys` have the same sum over `keys`. */
  lemma {:induction false} SumBalancesAgree(a: map<int, User>, b: map<int, User>, keys: set<int>)
    requires keys <= a.Keys && keys <= b.Keys
    requires forall k :: k in keys ==> a[k].balance == b[k].balance
    ensures SumBalances(a, keys) == SumBalances(b, keys)
    decreases keys
  {
    if k :| k in keys {
      SumBalancesRemove(a, keys, k);
      SumBalancesRemove(b, keys, k);
      SumBalancesAgree(a, b, keys - {k});
    }
  }

  /** Replacing one user's row changes the total by the change of that row's balance. */
  lemma TotalUpdate(users: map<int, User>, k: int, u: User)
    requires k in users
    ensures Total(users[k := u]) == Total(users) - users[k].balance + u.balance
  {
    var m := users[k := u];
    assert m.Keys == users.Keys;
    SumBalancesRemove(m, m.Keys, k);
    SumBalancesRemove(users, users.Keys, k);
    SumBalancesAgree(m, users, users.Keys - {k});
  }

  /** Inserting a new user adds that user's balance to the total. */
  lemma TotalInsert(users: map<int, User>, k: int, u: User)
    requires k !in users
    ensures Total(users[k := u]) == Total(users) + u.balance
  {
    var m := users[k := u];
    assert m.Keys - {k} == users.Keys;
    SumBalancesRemove(m, m.Keys, k);
    SumBalancesAgree(m, users, users.Keys);
  }

  /** A balance update adds exactly its amount to the total, or nothing when no row matches. */
  lemma TotalCredit(users: map<int, User>, id: int, amount: real)
    ensures Credit(users, id, amount).Keys == users.Keys
    ensures Total(Credit(users, id, amount)) == Total(users) + (if id in users then amount else 0.0)
  {
    if id in users {
      TotalUpdate(users, id, users[id].(balance := users[id].balance + amount));
    }
  }

  /** The stake a bet holds back: its amount while it is pending, nothing afterwards. */
  function Stake(b: Bet): real {
    if b.status == Pending then b.amount else 0.0
  }

  /** The sum of the stakes of the pending bets. */
  function PendingStake(bets: seq<Bet>): real
    decreases |bets|
  {
    if bets == [] then 0.0 else PendingStake(bets[..|bets| - 1]) + Stake(bets[|bets| - 1])
  }

  /** Appending a bet adds its stake. */
  lemma PendingStakeAppend(bets: seq<Bet>, b: Bet)
    ensures PendingStake(bets + [b]) == PendingStake(bets) + Stake(b)
  {
    assert (bets + [b])[..|bets|] == bets;
  }

  /** Rewriting one bet changes the sum by the change of that bet's stake. */
  lemma {:induction false} PendingStakeUpdate(bets: seq<Bet>, i: int, b: Bet)
    requires 0 <= i < |bets|
    ensures PendingStake(bets[i := b]) == PendingStake(bets) - Stake(bets[i]) + Stake(b)
    decreases |bets|
  {
    var n := |bets| - 1;
    if i == n {
      assert bets[i := b][..n] == bets[..n];
    } else {
      assert bets[i := b][..n] == bets[..n][i := b];
      PendingStakeUpdate(bets[..n], i, b);
    }
  }

  /** Bets of non-negative amounts hold a non-negative stake. */
  lemma {:induction false} PendingStakeNonNegative(bets: seq<Bet>)
    requires forall i :: 0 <= i < |bets| ==> bets[i].amount >= 0.0
    ensures PendingStake(bets) >= 0.0
    decreases |bets|
  {
    if bets != [] {
      PendingStakeNonNegative(bets[..|bets| - 1]);
    }
  }

  /** A table without pending bets holds no stake. */
  lemma {:induction false} PendingStakeNone(bets: seq<Bet>)
    requires forall i :: 0 <= i < |bets| ==> bets[i].status != Pending
    ensures PendingStake(bets) == 0.0
    decreases |bets|
  {
    if bets != [] {
      PendingStakeNone(bets[..|bets| - 1]);
    }
  }
}
