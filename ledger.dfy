/** The in-memory coin ledger of one server (src/coins/ledger.rs): a table
    from user id to balance, updated in place. The functions below say what
    each update does to a balance table; the `Ledger` class performs them,
    and the database models reuse them for their account tables. */
module Ledgers {

  /** The balance table: user id to coin balance. */
  type Balances = map<nat, int>

  /** The balance of `user`, an unknown user counting as 0. */
  function BalanceOf<K>(m: map<K, int>, user: K): int {
    if user in m then m[user] else 0
  }

  /** The table after `increment_balance(user, amount)`: an existing balance
      gains `amount`, a missing account is created holding `amount`. */
  function Incremented<K>(m: map<K, int>, user: K, amount: int): (r: map<K, int>)
    ensures r.Keys == m.Keys + {user}
    ensures r[user] == BalanceOf(m, user) + amount
    ensures forall u :: u in m && u != user ==> r[u] == m[u]
  {
    m[user := BalanceOf(m, user) + amount]
  }

  /** The table after `transfer(from, to, amount)`. */
  function Transferred<K>(m: map<K, int>, from: K, to: K, amount: int): (r: map<K, int>)
    ensures r.Keys == m.Keys + {from, to}
    ensures from != to ==> r[from] == BalanceOf(m, from) - amount && r[to] == BalanceOf(m, to) + amount
    ensures from == to ==> r[from] == BalanceOf(m, from)
    ensures forall u :: u in m && u != from && u != to ==> r[u] == m[u]
  {
    Incremented(Incremented(m, from, -amount), to, amount)
  }

  /** The table after `get_balance(user)`: an unknown user is entered at 0. */
  function WithAccount<K>(m: map<K, int>, user: K): (r: map<K, int>)
    ensures r.Keys == m.Keys + {user}
    ensures forall u :: u in m ==> r[u] == m[u]
    ensures BalanceOf(r, user) == BalanceOf(m, user)
  {
    if user in m then m else m[user := 0]
  }

  /** The table after looking up every user in `users`. */
  function WithAccounts(m: Balances, users: seq<nat>): (r: Balances)
    ensures r.Keys == m.Keys + set i | 0 <= i < |users| :: users[i]
    ensures forall u :: u in m ==> r[u] == m[u]
    ensures forall u :: u in r && u !in m ==> r[u] == 0
    decreases |users|
  {
    if users == [] then m
    else WithAccounts(WithAccount(m, users[0]), users[1..])
  }

  /** The `(user, balance)` pairs `get_balances(users)` returns: one per
      user, in the order given. */
  function BalancesOf(m: Balances, users: seq<nat>): (r: seq<(nat, int)>)
    ensures |r| == |users|
    ensures forall i :: 0 <= i < |users| ==> r[i] == (users[i], BalanceOf(m, users[i]))
  {
    seq(|users|, i requires 0 <= i < |users| => (users[i], BalanceOf(m, users[i])))
  }

  /** One more user, one more pair at the end. */
  lemma BalancesOfSnoc(m: Balances, users: seq<nat>, i: nat)
    requires i < |users|
    ensures BalancesOf(m, users[..i + 1]) == BalancesOf(m, users[..i]) + [(users[i], BalanceOf(m, users[i]))]
  {
    assert users[..i + 1] == users[..i] + [users[i]];
  }

  /** The sum of the balances of the users in `users`. */
  ghost function SumOver<K>(m: map<K, int>, users: set<K>): int
    requires users <= m.Keys
    decreases users
  {
    if users == {} then 0
    else
      var u :| u in users;
      m[u] + SumOver(m, users - {u})
  }

  /** The coins in circulation on the ledger. */
  ghost function Total<K>(m: map<K, int>): int {
    SumOver(m, m.Keys)
  }

  /** Any user can be taken out of the sum first. */
  lemma {:induction false} SumOverRemove<K>(m: map<K, int>, users: set<K>, user: K)
    requires users <= m.Keys && user in users
    ensures SumOver(m, users) == m[user] + SumOver(m, users - {user})
    decreases users
  {
    var u :| u in users && SumOver(m, users) == m[u] + SumOver(m, users - {u});
    if u != user {
      SumOverRemove(m, users - {u}, user);
      SumOverRemove(m, users - {user}, u);
      assert users - {u} - {user} == users - {user} - {u};
    }
  }

  /** Changing balances outside `users` leaves their sum alone. */
  lemma {:induction false} SumOverFrame<K>(m: map<K, int>, n: map<K, int>, users: set<K>)
    requires users <= m.Keys && users <= n.Keys
    requires forall u :: u in users ==> m[u] == n[u]
    ensures SumOver(m, users) == SumOver(n, users)
    decreases users
  {
    if users != {} {
      var u :| u in users;
      SumOverRemove(m, users, u);
      SumOverRemove(n, users, u);
      SumOverFrame(m, n, users - {u});
    }
  }

  /** An increment adds exactly its amount to the coins in circulation. */
  lemma IncrementTotal<K>(m: map<K, int>, user: K, amount: int)
    ensures Total(Incremented(m, user, amount)) == Total(m) + amount
  {
    var r := Incremented(m, user, amount);
    SumOverRemove(r, r.Keys, user);
    SumOverFrame(m, r, m.Keys - {user});
    if user in m {
      SumOverRemove(m, m.Keys, user);
      assert r.Keys - {user} == m.Keys - {user};
    } else {
      assert r.Keys - {user} == m.Keys;
      assert m.Keys - {user} == m.Keys;
    }
  }

  /** A transfer neither creates nor destroys coins. */
  lemma TransferTotal<K>(m: map<K, int>, from: K, to: K, amount: int)
    ensures Total(Transferred(m, from, to, amount)) == Total(m)
  {
    IncrementTotal(m, from, -amount);
    IncrementTotal(Incremented(m, from, -amount), to, amount);
  }

  /** Incrementing by `a` and then by `-a` restores the balance. */
  lemma IncrementThenDecrement<K>(m: map<K, int>, user: K, amount: int)
    ensures Incremented(Incremented(m, user, amount), user, -amount) == WithAccount(m, user)
  {
  }

  /** The ledger of one server. */
  class Ledger {
    var balances: Balances

    /** `Default`: the empty ledger. */
    constructor ()
      ensures balances == map[]
    {
      balances := map[];
    }

    /** A ledger holding the given table, as a server's stored ledger. */
    constructor FromBalances(m: Balances)
      ensures balances == m
    {
      balances := m;
    }

    /** `increment_balance`; a negative amount decrements. */
    method IncrementBalance(user: nat, amount: int)
      modifies this
      ensures balances == Incremented(old(balances), user, amount)
    {
      if user in balances {
        balances := balances[user := balances[user] + amount];
      } else {
        balances := balances[user := amount];
      }
    }

    /** `transfer`: the sender loses and the receiver gains `amount`; there
        is no funds check. */
    method Transfer(from: nat, to: nat, amount: int)
      modifies this
      ensures balances == Transferred(old(balances), from, to, amount)
    {
      IncrementBalance(from, -amount);
      IncrementBalance(to, amount);
    }

    /** `get_balance`: the stored balance, creating the account at 0. */
    method GetBalance(user: nat) returns (balance: int)
      modifies this
      ensures balance == BalanceOf(old(balances), user)
      ensures balances == WithAccount(old(balances), user)
    {
      if user in balances {
        balance := balances[user];
      } else {
        balances := balances[user := 0];
        balance := 0;
      }
    }

    /** `get_balances`: one pair per user, in the order given, creating
        missing accounts at 0. */
    method GetBalances(users: seq<nat>) returns (results: seq<(nat, int)>)
      modifies this
      ensures results == BalancesOf(old(balances), users)
      ensures balances == WithAccounts(old(balances), users)
    {
      results := [];
      var i := 0;
      while i < |users|
        invariant 0 <= i <= |users|
        invariant results == BalancesOf(old(balances), users[..i])
        invariant WithAccounts(balances, users[i..]) == WithAccounts(old(balances), users)
        invariant forall u :: BalanceOf(balances, u) == BalanceOf(old(balances), u)
      {
        ghost var prev := balances;
        var balance := GetBalance(users[i]);
        assert balance == BalanceOf(old(balances), users[i]);
        results := results + [(users[i], balance)];
        assert users[i..][1..] == users[i + 1..];
        assert WithAccounts(balances, users[i + 1..]) == WithAccounts(prev, users[i..]);
        BalancesOfSnoc(old(balances), users, i);
        i := i + 1;
      }
      assert users[..|users|] == users;
    }

    /** `get_all_balances`: every stored account exactly once, in the map's
        own (unspecified) order. */
    method GetAllBalances() returns (results: seq<(nat, int)>)
      ensures forall i :: 0 <= i < |results| ==> results[i].0 in balances && results[i].1 == balances[results[i].0]
      ensures (set i | 0 <= i < |results| :: results[i].0) == balances.Keys
      ensures forall i, j :: 0 <= i < j < |results| ==> results[i].0 != results[j].0
    {
      results := [];
      var remaining := balances.Keys;
      while remaining != {}
        invariant remaining <= balances.Keys
        invariant forall i :: 0 <= i < |results| ==>
                    results[i].0 in balances && results[i].1 == balances[results[i].0] && results[i].0 !in remaining
        invariant (set i | 0 <= i < |results| :: results[i].0) + remaining == balances.Keys
        invariant forall i, j :: 0 <= i < j < |results| ==> results[i].0 != results[j].0
        decreases remaining
      {
        var u :| u in remaining;
        ghost var before := results;
        results := results + [(u, balances[u])];
        remaining := remaining - {u};
        assert (set i | 0 <= i < |results| :: results[i].0) == (set i | 0 <= i < |before| :: before[i].0) + {u} by {
          assert results[|before|].0 == u;
          forall i | 0 <= i < |before|
            ensures results[i] == before[i]
          {
          }
        }
      }
    }
  }
}
