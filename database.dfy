/** The SQLite store `Db` (db/src/lib.rs, with the account and inventory
    queries of db/src/accounts.rs and db/src/inventory.rs). Each table is a
    field; a statement updates its table in place, and a transaction
    computes its new tables first and assigns them only when every step
    succeeded, so a failed call leaves every table as it was. */
module Database {
  import opened Wrappers
  import opened Decimal
  import opened DbErrors
  import opened DbModel
  import opened DbTables
  import Ledgers

  /** `TransferResult`: both accounts as they are after the transfer. */
  datatype TransferResult = TransferResult(toAccount: BankAccount, fromAccount: BankAccount)

  /** The rows of `s`, each exactly once, in no particular order: what loading
      a query's result into a `Vec` gives. */
  method Enumerate<T>(s: set<T>) returns (rows: seq<T>)
    ensures (set i | 0 <= i < |rows| :: rows[i]) == s
    ensures forall i, j :: 0 <= i < j < |rows| ==> rows[i] != rows[j]
  {
    rows := [];
    var remaining := s;
    while remaining != {}
      invariant remaining <= s
      invariant forall i :: 0 <= i < |rows| ==> rows[i] in s && rows[i] !in remaining
      invariant (set i | 0 <= i < |rows| :: rows[i]) + remaining == s
      invariant forall i, j :: 0 <= i < j < |rows| ==> rows[i] != rows[j]
      decreases remaining
    {
      var x :| x in remaining;
      ghost var before := rows;
      rows := rows + [x];
      remaining := remaining - {x};
      assert (set i | 0 <= i < |rows| :: rows[i]) == (set i | 0 <= i < |before| :: before[i]) + {x} by {
        assert rows[|before|] == x;
        forall i | 0 <= i < |before|
          ensures rows[i] == before[i]
        {
        }
      }
    }
  }

  class Db {
    var accounts: Accounts
    var channelUsers: set<ChannelUser>
    var catalog: Catalog
    var inventory: set<InventoryItem>
    var optouts: set<Optout>

    /** A store with empty tables, as a fresh database file holds. */
    constructor ()
      ensures accounts == map[] && channelUsers == {} && catalog == map[] && inventory == {} && optouts == {}
    {
      accounts := map[];
      channelUsers := {};
      catalog := map[];
      inventory := {};
      optouts := {};
    }

    /** `user_account`: the single row for the pair; a primary-key lookup
        finds at most one, so the "too many records" arm cannot be reached. */
    function UserAccount(server: U64, user: U64): (r: Result<BankAccount, DbError>)
      reads this
      ensures r.Success? <==> Key(server, user) in accounts
      ensures r.Success? ==> r.value.ServerId() == Success(server) && r.value.UserId() == Success(user) &&
                             r.value.balance == accounts[Key(server, user)]
      ensures r.Failure? ==> r.error == NotFound("unable to find user account: #s" + Show(server) + " #u" + Show(user))
    {
      var key := Key(server, user);
      if key in accounts then Success(Row(accounts, key))
      else Failure(NotFound("unable to find user account: #s" + key.0 + " #u" + key.1))
    }

    /** `accounts::user_account`: the same lookup through `first`, whose
        missing row is the engine's `NotFound`. */
    function AccountRow(server: U64, user: U64): (r: Result<BankAccount, DbError>)
      reads this
      ensures r.Success? <==> UserAccount(server, user).Success?
      ensures r.Success? ==> r == UserAccount(server, user)
      ensures r.Failure? ==> r.error == Db(RowNotFound)
    {
      var key := Key(server, user);
      if key in accounts then Success(Row(accounts, key)) else Failure(Db(RowNotFound))
    }

    /** `insert_bank_account`: an amount outside `i32` is refused before any
        write; an existing account violates the primary key. */
    method InsertBankAccount(server: U64, user: U64, amount: I64) returns (r: Result<nat, DbError>)
      modifies this
      ensures !FitsI32(amount) ==> r == Failure(CoinOverflow)
      ensures FitsI32(amount) && Key(server, user) in old(accounts) ==> r == Failure(Db(UniqueViolation))
      ensures FitsI32(amount) && Key(server, user) !in old(accounts) ==> r == Success(1)
      ensures r.Success? ==> r.value == 1 && accounts == old(accounts)[Key(server, user) := amount]
      ensures r.Failure? ==> accounts == old(accounts)
      ensures channelUsers == old(channelUsers) && catalog == old(catalog) && inventory == old(inventory) && optouts == old(optouts)
    {
      if !FitsI32(amount) {
        return Failure(CoinOverflow);
      }
      var key := Key(server, user);
      if key in accounts {
        return Failure(Db(UniqueViolation));
      }
      accounts := accounts[key := amount];
      r := Success(1);
    }

    /** `update_balance`: sets an existing balance, counting 0 rows when the
        account does not exist. */
    method UpdateBalance(server: U64, user: U64, newBalance: I64) returns (r: Result<nat, DbError>)
      modifies this
      ensures !FitsI32(newBalance) ==> r == Failure(CoinOverflow) && accounts == old(accounts)
      ensures FitsI32(newBalance) && Key(server, user) in old(accounts) ==>
                r == Success(1) && accounts == old(accounts)[Key(server, user) := newBalance]
      ensures FitsI32(newBalance) && Key(server, user) !in old(accounts) ==> r == Success(0) && accounts == old(accounts)
      ensures channelUsers == old(channelUsers) && catalog == old(catalog) && inventory == old(inventory) && optouts == old(optouts)
    {
      if !FitsI32(newBalance) {
        return Failure(CoinOverflow);
      }
      var key := Key(server, user);
      if key in accounts {
        accounts := accounts[key := newBalance];
        r := Success(1);
      } else {
        r := Success(0);
      }
    }

    /** `increment_balance`: an upsert that creates the account holding
        `amount` or adds `amount` to it. */
    method IncrementBalance(server: U64, user: U64, amount: I64) returns (r: Result<nat, DbError>)
      modifies this
      ensures !FitsI32(amount) ==> r == Failure(CoinOverflow) && accounts == old(accounts)
      ensures FitsI32(amount) ==> r == Success(1) && accounts == Ledgers.Incremented(old(accounts), Key(server, user), amount)
      ensures channelUsers == old(channelUsers) && catalog == old(catalog) && inventory == old(inventory) && optouts == old(optouts)
    {
      if !FitsI32(amount) {
        return Failure(CoinOverflow);
      }
      accounts := Ledgers.Incremented(accounts, Key(server, user), amount);
      r := Success(1);
    }

    /** `tip`: refused with `SelfTip` before the store is touched; otherwise
        both upserts run in one transaction, each altering one row. */
    method Tip(server: U64, fromUser: U64, toUser: U64) returns (r: Result<(), DbError>)
      modifies this
      ensures fromUser == toUser ==> r == Failure(SelfTip) && accounts == old(accounts)
      ensures fromUser != toUser ==> Key(server, fromUser) != Key(server, toUser)
      ensures fromUser != toUser ==> r == Success(()) && accounts == Tipped(old(accounts), Key(server, fromUser), Key(server, toUser))
      ensures channelUsers == old(channelUsers) && catalog == old(catalog) && inventory == old(inventory) && optouts == old(optouts)
    {
      if fromUser == toUser {
        return Failure(SelfTip);
      }
      KeyInjective(server, fromUser, server, toUser);
      accounts := Tipped(accounts, Key(server, fromUser), Key(server, toUser));
      r := Success(());
    }

    /** `untip`, as written: see `UntippedAsWritten` for what it does to a
        receiver without an account. */
    method Untip(server: U64, fromUser: U64, toUser: U64) returns (r: Result<(), DbError>)
      modifies this
      ensures fromUser == toUser ==> r == Failure(SelfTip) && accounts == old(accounts)
      ensures fromUser != toUser ==> Key(server, fromUser) != Key(server, toUser)
      ensures fromUser != toUser ==> r == Success(()) && accounts == UntippedAsWritten(old(accounts), Key(server, fromUser), Key(server, toUser))
      ensures channelUsers == old(channelUsers) && catalog == old(catalog) && inventory == old(inventory) && optouts == old(optouts)
    {
      if fromUser == toUser {
        return Failure(SelfTip);
      }
      KeyInjective(server, fromUser, server, toUser);
      accounts := UntippedAsWritten(accounts, Key(server, fromUser), Key(server, toUser));
      r := Success(());
    }

    /** `transfer_coins`: the outcome of `TransferOutcome`, committed only
        when it succeeds. */
    method TransferCoins(server: U64, fromUser: U64, toUser: U64, amount: I64) returns (r: Result<TransferResult, DbError>)
      modifies this
      ensures var outcome := TransferOutcome(old(accounts), Key(server, fromUser), Key(server, toUser), amount);
              (r.Success? <==> outcome.Success?) &&
              (outcome.Failure? ==> r.error == outcome.error && accounts == old(accounts)) &&
              (outcome.Success? ==> accounts == outcome.value.0 && r.value == TransferResult(outcome.value.1, outcome.value.2))
      ensures channelUsers == old(channelUsers) && catalog == old(catalog) && inventory == old(inventory) && optouts == old(optouts)
    {
      var outcome := TransferOutcome(accounts, Key(server, fromUser), Key(server, toUser), amount);
      match outcome {
        case Failure(e) =>
          r := Failure(e);
        case Success(result) =>
          accounts := result.0;
          r := Success(TransferResult(result.1, result.2));
      }
    }

    /** `accounts::highest`: an account of the server with the largest
        balance; a server without accounts has no first row. */
    method Highest(server: U64) returns (r: Result<BankAccount, DbError>)
      ensures r.Failure? <==> forall k :: k in accounts ==> k.0 != Show(server)
      ensures r.Failure? ==> r.error == Db(RowNotFound)
      ensures r.Success? ==>
                var k := (r.value.serverId, r.value.userId);
                k in accounts && k.0 == Show(server) && r.value.balance == accounts[k] &&
                forall other :: other in accounts && other.0 == Show(server) ==> accounts[other] <= r.value.balance
    {
      var s := Show(server);
      var best: Option<AccountKey> := None;
      var remaining := accounts.Keys;
      while remaining != {}
        invariant remaining <= accounts.Keys
        invariant best.None? ==> forall k :: k in accounts && k !in remaining ==> k.0 != s
        invariant best.Some? ==> best.value in accounts && best.value.0 == s
        invariant best.Some? ==> forall k :: k in accounts && k !in remaining && k.0 == s ==> accounts[k] <= accounts[best.value]
        decreases remaining
      {
        var k :| k in remaining;
        if k.0 == s && (best.None? || accounts[k] > accounts[best.value]) {
          best := Some(k);
        }
        remaining := remaining - {k};
      }
      match best {
        case None =>
          r := Failure(Db(RowNotFound));
        case Some(k) =>
          r := Success(Row(accounts, k));
      }
    }

    /** `insert_channel_user`: a plain insert, so seeing a user twice fails. */
    method InsertChannelUser(server: U64, channel: U64, user: U64) returns (r: Result<nat, DbError>)
      modifies this
      ensures var inserted := Inserted(old(channelUsers), NewChannelUser(server, channel, user));
              (r.Success? <==> inserted.Success?) &&
              (r.Success? ==> r.value == 1 && channelUsers == inserted.value.0) &&
              (r.Failure? ==> r.error == Db(UniqueViolation) && channelUsers == old(channelUsers))
      ensures accounts == old(accounts) && catalog == old(catalog) && inventory == old(inventory) && optouts == old(optouts)
    {
      var row := NewChannelUser(server, channel, user);
      match Inserted(channelUsers, row) {
        case Failure(e) =>
          r := Failure(e);
        case Success(inserted) =>
          channelUsers := inserted.0;
          r := Success(inserted.1);
      }
    }

    /** `log_user`: an insert-or-ignore, so logging is idempotent; the count
        is 1 for a user new to the channel and 0 otherwise. */
    method LogUser(server: U64, channel: U64, user: U64) returns (r: Result<nat, DbError>)
      modifies this
      ensures var row := NewChannelUser(server, channel, user);
              channelUsers == old(channelUsers) + {row} &&
              r == Success(if row in old(channelUsers) then 0 else 1)
      ensures accounts == old(accounts) && catalog == old(catalog) && inventory == old(inventory) && optouts == old(optouts)
    {
      var logged := InsertedOrIgnored(channelUsers, NewChannelUser(server, channel, user));
      channelUsers := logged.0;
      r := Success(logged.1);
    }

    /** `channel_user_balances`: every account of the server whose user was
        seen in the channel, once each. */
    method ChannelUserBalances(server: U64, channel: U64) returns (rows: seq<BankAccount>)
      ensures (set i | 0 <= i < |rows| :: rows[i]) == ChannelBalances(accounts, channelUsers, Show(server), Show(channel))
      ensures forall i, j :: 0 <= i < j < |rows| ==> rows[i] != rows[j]
    {
      rows := Enumerate(ChannelBalances(accounts, channelUsers, Show(server), Show(channel)));
    }

    /** `add_inventory_item`: the purchase transaction, committed only when
        every step succeeded. */
    method AddInventoryItem(row: InventoryItem) returns (r: Result<(), DbError>)
      modifies this
      ensures var outcome := Purchase(old(accounts), old(catalog), old(inventory), row);
              (r.Success? <==> outcome.Success?) &&
              (outcome.Failure? ==> r.error == outcome.error && accounts == old(accounts) && inventory == old(inventory)) &&
              (outcome.Success? ==> accounts == outcome.value.0 && inventory == outcome.value.1)
      ensures channelUsers == old(channelUsers) && catalog == old(catalog) && optouts == old(optouts)
    {
      var outcome := Purchase(accounts, catalog, inventory, row);
      match outcome {
        case Failure(e) =>
          r := Failure(e);
        case Success(tables) =>
          accounts := tables.0;
          inventory := tables.1;
          r := Success(());
      }
    }

    /** `inventory::add_item`: a plain insert of the row. */
    method AddItem(row: InventoryItem) returns (r: Result<nat, DbError>)
      modifies this
      ensures r.Success? <==> row !in old(inventory)
      ensures r.Success? ==> r.value == 1 && inventory == old(inventory) + {row}
      ensures r.Failure? ==> r.error == Db(UniqueViolation) && inventory == old(inventory)
      ensures accounts == old(accounts) && channelUsers == old(channelUsers) && catalog == old(catalog) && optouts == old(optouts)
    {
      match Inserted(inventory, row) {
        case Failure(e) =>
          r := Failure(e);
        case Success(inserted) =>
          inventory := inserted.0;
          r := Success(inserted.1);
      }
    }

    /** `delete_inventory_item`: removing a row that is not there is
        `NotFound`. */
    method DeleteInventoryItem(row: InventoryItem) returns (r: Result<(), DbError>)
      modifies this
      ensures r.Success? <==> row in old(inventory)
      ensures r.Success? ==> inventory == old(inventory) - {row}
      ensures r.Failure? ==> r.error == NotFound("no record found to delete") && inventory == old(inventory)
      ensures accounts == old(accounts) && channelUsers == old(channelUsers) && catalog == old(catalog) && optouts == old(optouts)
    {
      match DeleteOutcome(inventory, row) {
        case Failure(e) =>
          r := Failure(e);
        case Success(table) =>
          inventory := table;
          r := Success(());
      }
    }

    /** `inventory::show_all`: every inventory row once. */
    method ShowAll() returns (rows: seq<InventoryItem>)
      ensures (set i | 0 <= i < |rows| :: rows[i]) == inventory
      ensures forall i, j :: 0 <= i < j < |rows| ==> rows[i] != rows[j]
    {
      rows := Enumerate(inventory);
    }

    /** `user_inventory`: the catalog items this user holds in this server. */
    method UserInventory(server: U64, user: U64) returns (result: seq<Item>)
      ensures (set i | 0 <= i < |result| :: result[i]) == InventoryOf(catalog, inventory, Show(server), Show(user))
      ensures forall i, j :: 0 <= i < j < |result| ==> result[i] != result[j]
    {
      result := Enumerate(InventoryOf(catalog, inventory, Show(server), Show(user)));
    }

    /** `user_has_item`. */
    function UserHasItem(server: U64, user: U64, item: U64): (r: Result<bool, DbError>)
      reads this
      ensures r.Success? <==> FitsI32(item)
      ensures r.Success? ==> (r.value <==> NewInventoryItem(server, user, item as I32).value in inventory)
    {
      HasItem(inventory, Show(server), Show(user), item)
    }

    /** `optout`, as written: a repeated opt-out fails on the primary key. */
    method Optout(server: U64, user: U64) returns (r: Result<(), DbError>)
      modifies this
      ensures var outcome := OptoutAsWritten(old(optouts), NewOptout(server, user));
              (r.Success? <==> outcome.Success?) &&
              (outcome.Success? ==> optouts == outcome.value) &&
              (outcome.Failure? ==> r.error == outcome.error && optouts == old(optouts))
      ensures accounts == old(accounts) && channelUsers == old(channelUsers) && catalog == old(catalog) && inventory == old(inventory)
    {
      match OptoutAsWritten(optouts, NewOptout(server, user)) {
        case Failure(e) =>
          r := Failure(e);
        case Success(table) =>
          optouts := table;
          r := Success(());
      }
    }

    /** `optin`: succeeds whether or not the user had opted out. */
    method Optin(server: U64, user: U64) returns (r: Result<(), DbError>)
      modifies this
      ensures r == Success(()) && optouts == old(optouts) - {NewOptout(server, user)}
      ensures accounts == old(accounts) && channelUsers == old(channelUsers) && catalog == old(catalog) && inventory == old(inventory)
    {
      optouts := DbTables.Optin(optouts, NewOptout(server, user)).value;
      r := Success(());
    }
  }
}
