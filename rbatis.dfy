/** The rbatis store (rbatis/src/accounts.rs, rbatis/src/lib.rs): one table
    of accounts whose balance column may be null, changed only through
    `adjust_balance`, and three two-step transactions built on it. */
module RbatisDb {
  import opened Wrappers
  import opened Decimal
  import opened Ids
  import opened DbModel
  import opened DbTables

  /** The store's errors. */
  datatype RbError =
    | Rbatis
    | ParseColumn(parseError: ParseIntError)
    | Schema(message: string)
    | CoinOverflow(amount: int)

  /** A row: the decimal ids and a nullable `i32` balance. The row type is
      used by the store but not declared in its files. */
  datatype Account = Account(serverId: string, userId: string, balance: Option<int>)

  /** The table, keyed by `(server_id, user_id)`. */
  type Table = map<AccountKey, Option<int>>

  /** `Account::new`: the ids as decimal text and the given balance. */
  function NewAccount(key: AccountKey, balance: int): (a: Account)
    ensures (a.serverId, a.userId) == key && a.balance == Some(balance)
  {
    Account(key.0, key.1, Some(balance))
  }

  /** Every stored balance fits the `i32` column. */
  predicate I32Column(t: Table) {
    forall k :: k in t && t[k].Some? ==> FitsI32(t[k].value)
  }

  /** A balance with null, or a missing row, counting as 0. */
  function Balance(t: Table, key: AccountKey): int {
    if key in t && t[key].Some? then t[key].value else 0
  }

  /** `account`: the row for the two ids, if there is one. */
  function AccountOf(t: Table, key: AccountKey): (r: Option<Account>)
    ensures r.Some? <==> key in t
    ensures r.Some? ==> (r.value.serverId, r.value.userId) == key && r.value.balance == t[key]
  {
    if key in t then Some(Account(key.0, key.1, t[key])) else None
  }

  /** `-amount` on an `i64`, wrapping as a release build does: `i64::MIN`
      is its own negation. */
  function NegI64(amount: I64): (r: I64)
    ensures amount != -I64_LIMIT ==> r == -amount
    ensures amount == -I64_LIMIT ==> r == amount
  {
    if amount == -I64_LIMIT then amount else -amount
  }

  /** What `adjust_balance` does: the new table and the account it returns,
      or `CoinOverflow(amount)` when the amount or the new balance does not
      fit an `i32`, in which case nothing is written. */
  function Adjusted(t: Table, key: AccountKey, amount: int): (r: Result<(Table, Account), RbError>)
    ensures !FitsI32(amount) ==> r == Failure(CoinOverflow(amount))
    ensures r.Success? <==> FitsI32(amount) && FitsI32(Balance(t, key) + amount)
    ensures r.Failure? ==> r.error == CoinOverflow(amount)
    ensures r.Success? ==>
              r.value.0 == t[key := Some(Balance(t, key) + amount)] &&
              r.value.1 == NewAccount(key, Balance(t, key) + amount)
  {
    if !FitsI32(amount) then Failure(CoinOverflow(amount))
    else match AccountOf(t, key)
      case Some(account) =>
        var current := if account.balance.Some? then account.balance.value else 0;
        if FitsI32(current + amount) then
          var updated := account.(balance := Some(current + amount));
          Success((t[(updated.serverId, updated.userId) := updated.balance], updated))
        else Failure(CoinOverflow(amount))
      case None =>
        Success((t[key := Some(amount)], NewAccount(key, amount)))
  }

  /** Two adjustments in one transaction: both take effect, or the first
      error is returned and the table is left as it was. */
  function AdjustedTwice(t: Table, key0: AccountKey, amount0: int, key1: AccountKey, amount1: int): (r: Result<(Table, Account, Account), RbError>)
    ensures r.Success? <==> Adjusted(t, key0, amount0).Success? && Adjusted(Adjusted(t, key0, amount0).value.0, key1, amount1).Success?
    ensures r.Success? ==>
              var first := Adjusted(t, key0, amount0).value;
              var second := Adjusted(first.0, key1, amount1).value;
              r.value == (second.0, first.1, second.1)
    ensures r.Failure? ==>
              r.error == if Adjusted(t, key0, amount0).Failure? then CoinOverflow(amount0) else CoinOverflow(amount1)
  {
    match Adjusted(t, key0, amount0)
    case Failure(e) => Failure(e)
    case Success(first) =>
      match Adjusted(first.0, key1, amount1)
      case Failure(e) => Failure(e)
      case Success(second) => Success((second.0, first.1, second.1))
  }

  /** Adjusting by `a` and then by `-a` restores the balance; only a null
      balance, or a missing row, is left behind as an explicit 0. */
  lemma AdjustRoundTrip(t: Table, key: AccountKey, amount: int)
    requires I32Column(t) && Adjusted(t, key, amount).Success? && FitsI32(-amount)
    ensures Adjusted(Adjusted(t, key, amount).value.0, key, -amount).Success?
    ensures Adjusted(Adjusted(t, key, amount).value.0, key, -amount).value.0 == t[key := Some(Balance(t, key))]
    ensures key in t && t[key].Some? ==> Adjusted(Adjusted(t, key, amount).value.0, key, -amount).value.0 == t
  {
    var after := Adjusted(t, key, amount).value.0;
    assert Balance(after, key) == Balance(t, key) + amount;
    assert Adjusted(after, key, -amount).Success?;
    var back := Adjusted(after, key, -amount).value.0;
    assert back == after[key := Some(Balance(t, key))];
    if key in t && t[key].Some? {
      assert t[key := Some(Balance(t, key))] == t;
    }
  }

  /** A failed adjustment reports the amount it was asked for. */
  lemma AdjustOverflowExample(key: AccountKey)
    ensures Adjusted(map[key := Some(I32_LIMIT - 1)], key, 1) == Failure(CoinOverflow(1))
    ensures Adjusted(map[], key, I32_LIMIT) == Failure(CoinOverflow(I32_LIMIT))
  {
    assert Balance(map[key := Some(I32_LIMIT - 1)], key) == I32_LIMIT - 1;
  }

  /** A tip followed by an untip between two different users restores both
      balances. */
  lemma TipThenUntipRestores(t: Table, key0: AccountKey, key1: AccountKey)
    requires I32Column(t) && key0 != key1
    requires AdjustedTwice(t, key0, 1, key1, 2).Success?
    ensures AdjustedTwice(AdjustedTwice(t, key0, 1, key1, 2).value.0, key0, -1, key1, -2).Success?
    ensures var back := AdjustedTwice(AdjustedTwice(t, key0, 1, key1, 2).value.0, key0, -1, key1, -2).value.0;
            Balance(back, key0) == Balance(t, key0) && Balance(back, key1) == Balance(t, key1) &&
            back == t[key0 := Some(Balance(t, key0))][key1 := Some(Balance(t, key1))]
  {
    var tipped := AdjustedTwice(t, key0, 1, key1, 2).value.0;
    assert Balance(tipped, key0) == Balance(t, key0) + 1;
    assert Balance(tipped, key1) == Balance(t, key1) + 2;
    assert Adjusted(tipped, key0, -1).Success?;
    var mid := Adjusted(tipped, key0, -1).value.0;
    assert Balance(mid, key1) == Balance(t, key1) + 2;
    assert Adjusted(mid, key1, -2).Success?;
    var back := AdjustedTwice(tipped, key0, -1, key1, -2).value.0;
    assert back == t[key0 := Some(Balance(t, key0))][key1 := Some(Balance(t, key1))];
  }

  /** There is no self-tip check: tipping oneself adds 3. */
  lemma SelfTipAddsThree(t: Table, key: AccountKey)
    requires AdjustedTwice(t, key, 1, key, 2).Success?
    ensures Balance(AdjustedTwice(t, key, 1, key, 2).value.0, key) == Balance(t, key) + 3
  {
    assert Balance(Adjusted(t, key, 1).value.0, key) == Balance(t, key) + 1;
  }

  /** A transfer between two users moves exactly `amount`, with no funds
      check: a sender at 0 can give 5 and end at -5. */
  lemma TransferMoves(t: Table, key0: AccountKey, key1: AccountKey, amount: I64)
    requires key0 != key1
    requires AdjustedTwice(t, key0, NegI64(amount), key1, amount).Success?
    ensures var after := AdjustedTwice(t, key0, NegI64(amount), key1, amount).value.0;
            Balance(after, key0) == Balance(t, key0) - amount &&
            Balance(after, key1) == Balance(t, key1) + amount &&
            Balance(after, key0) + Balance(after, key1) == Balance(t, key0) + Balance(t, key1)
    ensures Balance(t, key0) == 0 && amount == 5 ==> Balance(AdjustedTwice(t, key0, NegI64(amount), key1, amount).value.0, key0) == -5
  {
    var mid := Adjusted(t, key0, NegI64(amount)).value.0;
    assert Balance(mid, key1) == Balance(t, key1);
  }

  class Db {
    var accounts: Table

    /** The store over an existing table. */
    constructor (t: Table)
      ensures accounts == t
    {
      accounts := t;
    }

    /** `adjust_balance`: reads the row, then either updates its balance
        with a checked add or saves a new row holding `amount`. */
    method AdjustBalance(server: U64, user: U64, amount: int) returns (r: Result<Account, RbError>)
      modifies this
      ensures var outcome := Adjusted(old(accounts), Key(server, user), amount);
              (r.Success? <==> outcome.Success?) &&
              (outcome.Failure? ==> r.error == outcome.error && accounts == old(accounts)) &&
              (outcome.Success? ==> accounts == outcome.value.0 && r.value == outcome.value.1)
    {
      if !FitsI32(amount) {
        return Failure(CoinOverflow(amount));
      }
      var key := Key(server, user);
      var account := AccountOf(accounts, key);
      match account {
        case Some(found) =>
          var current := if found.balance.Some? then found.balance.value else 0;
          if !FitsI32(current + amount) {
            return Failure(CoinOverflow(amount));
          }
          var updated := found.(balance := Some(current + amount));
          accounts := accounts[(updated.serverId, updated.userId) := updated.balance];
          r := Success(updated);
        case None =>
          var created := NewAccount(key, amount);
          accounts := accounts[key := created.balance];
          r := Success(created);
      }
    }

    /** Runs two adjustments between `acquire_begin` and `commit`: an error in
        either returns before the commit, and the table is rolled back. */
    method Transaction(server: U64, user0: U64, amount0: int, user1: U64, amount1: int) returns (r: Result<(Account, Account), RbError>)
      modifies this
      ensures var outcome := AdjustedTwice(old(accounts), Key(server, user0), amount0, Key(server, user1), amount1);
              (r.Success? <==> outcome.Success?) &&
              (outcome.Failure? ==> accounts == old(accounts) && r.error == outcome.error) &&
              (outcome.Success? ==> accounts == outcome.value.0 && r.value == (outcome.value.1, outcome.value.2))
    {
      var snapshot := accounts;
      var account0 := AdjustBalance(server, user0, amount0);
      if account0.Failure? {
        accounts := snapshot;
        return Failure(account0.error);
      }
      var account1 := AdjustBalance(server, user1, amount1);
      if account1.Failure? {
        accounts := snapshot;
        return Failure(account1.error);
      }
      r := Success((account0.value, account1.value));
    }

    /** `tip`: +1 to the first user and +2 to the second, with no self-tip
        check. */
    method Tip(server: U64, user0: U64, user1: U64) returns (r: Result<(Account, Account), RbError>)
      modifies this
      ensures var outcome := AdjustedTwice(old(accounts), Key(server, user0), 1, Key(server, user1), 2);
              (r.Success? <==> outcome.Success?) &&
              (outcome.Failure? ==> accounts == old(accounts) && r.error == outcome.error) &&
              (outcome.Success? ==> accounts == outcome.value.0 && r.value == (outcome.value.1, outcome.value.2))
    {
      r := Transaction(server, user0, 1, user1, 2);
    }

    /** `untip`: -1 to the first user and -2 to the second. */
    method Untip(server: U64, user0: U64, user1: U64) returns (r: Result<(Account, Account), RbError>)
      modifies this
      ensures var outcome := AdjustedTwice(old(accounts), Key(server, user0), -1, Key(server, user1), -2);
              (r.Success? <==> outcome.Success?) &&
              (outcome.Failure? ==> accounts == old(accounts) && r.error == outcome.error) &&
              (outcome.Success? ==> accounts == outcome.value.0 && r.value == (outcome.value.1, outcome.value.2))
    {
      r := Transaction(server, user0, -1, user1, -2);
    }

    /** `transfer_coins`: `-amount` to the first user and `amount` to the
        second, with no funds check. */
    method TransferCoins(server: U64, user0: U64, user1: U64, amount: I64) returns (r: Result<(Account, Account), RbError>)
      modifies this
      ensures var outcome := AdjustedTwice(old(accounts), Key(server, user0), NegI64(amount), Key(server, user1), amount);
              (r.Success? <==> outcome.Success?) &&
              (outcome.Failure? ==> accounts == old(accounts) && r.error == outcome.error) &&
              (outcome.Success? ==> accounts == outcome.value.0 && r.value == (outcome.value.1, outcome.value.2))
    {
      r := Transaction(server, user0, NegI64(amount), user1, amount);
    }
  }
}
