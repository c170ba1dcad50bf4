/** What the SQLite store's statements do to its tables, as functions on
    table values (db/src/lib.rs, db/src/accounts.rs, db/src/inventory.rs).
    Bank accounts are a map from the `(server_id, user_id)` primary key to
    the balance; the other tables are sets of rows, whose whole row is the
    key. The `Db` class applies these functions to its fields. */
module DbTables {
  import opened Wrappers
  import opened Decimal
  import opened DbErrors
  import opened Ids
  import opened DbModel
  import Ledgers

  /** The primary key of `bank_accounts`: the decimal server and user ids. */
  type AccountKey = (string, string)

  type Accounts = map<AccountKey, int>

  /** The catalog, keyed by item id. */
  type Catalog = map<int, Item>

  /** The key the store builds from two ids with `to_string`. */
  function Key(server: U64, user: U64): (k: AccountKey)
    ensures ParseId(k.0) == Success(server) && ParseId(k.1) == Success(user)
  {
    ParseShow(server);
    ParseShow(user);
    (Show(server), Show(user))
  }

  /** Different ids give different keys. */
  lemma KeyInjective(s1: U64, u1: U64, s2: U64, u2: U64)
    ensures Key(s1, u1) == Key(s2, u2) <==> s1 == s2 && u1 == u2
  {
    ShowInjective(s1, s2);
    ShowInjective(u1, u2);
  }

  /** The row stored under `k`. */
  function Row(m: Accounts, k: AccountKey): (a: BankAccount)
    requires k in m
    ensures (a.serverId, a.userId) == k && a.balance == m[k]
  {
    BankAccount(k.0, k.1, m[k])
  }

  // ---------------------------------------------------------------------
  // Plain inserts, insert-or-ignore and deletes on a table of rows.

  /** `insert_into(..).execute`: the row count on success; a row that is
      already there violates the primary key. */
  function Inserted<T>(table: set<T>, row: T): (r: Result<(set<T>, nat), DbError>)
    ensures r.Success? <==> row !in table
    ensures r.Success? ==> r.value == (table + {row}, 1)
    ensures r.Failure? ==> r.error == Db(UniqueViolation)
  {
    if row in table then Failure(Db(UniqueViolation)) else Success((table + {row}, 1))
  }

  /** `insert_or_ignore_into(..).execute`: never fails, and counts 0 when the
      row was already there. */
  function InsertedOrIgnored<T>(table: set<T>, row: T): (r: (set<T>, nat))
    ensures row in r.0 && r.0 - {row} == table - {row}
    ensures r.1 == 0 <==> row in table
    ensures r.1 <= 1
  {
    (table + {row}, if row in table then 0 else 1)
  }

  /** `delete(..).execute` on a primary key: the count of rows removed. */
  function Deleted<T>(table: set<T>, row: T): (r: (set<T>, nat))
    ensures row !in r.0 && r.0 + {row} == table + {row}
    ensures r.1 == 1 <==> row in table
    ensures r.1 <= 1
  {
    (table - {row}, if row in table then 1 else 0)
  }

  /** Inserting a new row and deleting it leaves the table as it was. */
  lemma DeleteUndoesInsert<T>(table: set<T>, row: T)
    requires row !in table
    ensures Inserted(table, row).Success?
    ensures Deleted(Inserted(table, row).value.0, row) == (table, 1)
  {
    assert table + {row} - {row} == table;
  }

  // ---------------------------------------------------------------------
  // Bank accounts.

  /** The accounts after `tip`: the sender's row gains 1 and the receiver's
      2, each created with that amount when missing. */
  function Tipped(m: Accounts, from: AccountKey, to: AccountKey): (r: Accounts)
    requires from != to
    ensures r.Keys == m.Keys + {from, to}
    ensures r[from] == Ledgers.BalanceOf(m, from) + 1
    ensures r[to] == Ledgers.BalanceOf(m, to) + 2
    ensures forall k :: k in m && k != from && k != to ==> r[k] == m[k]
  {
    Ledgers.Incremented(Ledgers.Incremented(m, from, 1), to, 2)
  }

  /** The accounts after `untip` as written: the sender's row loses 1 (or is
      created at -1), an existing receiver loses 2, but a missing receiver is
      created holding 2, because the inserted row carries the literal `2`
      rather than the `-2` its update uses. */
  function UntippedAsWritten(m: Accounts, from: AccountKey, to: AccountKey): (r: Accounts)
    requires from != to
    ensures r.Keys == m.Keys + {from, to}
    ensures r[from] == Ledgers.BalanceOf(m, from) - 1
    ensures to in m ==> r[to] == m[to] - 2
    ensures to !in m ==> r[to] == 2
    ensures forall k :: k in m && k != from && k != to ==> r[k] == m[k]
  {
    var afterFrom := Ledgers.Incremented(m, from, -1);
    afterFrom[to := if to in afterFrom then afterFrom[to] - 2 else 2]
  }

  /** The accounts after `untip` as evidently intended: the sender loses 1
      and the receiver 2, a missing account counting as 0. */
  function UntippedIntended(m: Accounts, from: AccountKey, to: AccountKey): (r: Accounts)
    requires from != to
    ensures r.Keys == m.Keys + {from, to}
    ensures r[from] == Ledgers.BalanceOf(m, from) - 1
    ensures r[to] == Ledgers.BalanceOf(m, to) - 2
    ensures forall k :: k in m && k != from && k != to ==> r[k] == m[k]
  {
    Ledgers.Incremented(Ledgers.Incremented(m, from, -1), to, -2)
  }

  /** A tip puts exactly three new coins into circulation. */
  lemma TipMintsThree(m: Accounts, from: AccountKey, to: AccountKey)
    requires from != to
    ensures Ledgers.Total(Tipped(m, from, to)) == Ledgers.Total(m) + 3
  {
    Ledgers.IncrementTotal(m, from, 1);
    Ledgers.IncrementTotal(Ledgers.Incremented(m, from, 1), to, 2);
  }

  /** The intended untip takes exactly three coins out of circulation. */
  lemma UntipIntendedBurnsThree(m: Accounts, from: AccountKey, to: AccountKey)
    requires from != to
    ensures Ledgers.Total(UntippedIntended(m, from, to)) == Ledgers.Total(m) - 3
  {
    Ledgers.IncrementTotal(m, from, -1);
    Ledgers.IncrementTotal(Ledgers.Incremented(m, from, -1), to, -2);
  }

  /** The intended untip undoes a tip, leaving both accounts at their old
      balances (created at 0 if they were missing). */
  lemma UntipIntendedUndoesTip(m: Accounts, from: AccountKey, to: AccountKey)
    requires from != to
    ensures UntippedIntended(Tipped(m, from, to), from, to) == Ledgers.WithAccount(Ledgers.WithAccount(m, from), to)
  {
  }

  /** Right after a tip both accounts exist, so the untip as written undoes
      it too: the defect shows only when the receiver has no account. */
  lemma UntipAsWrittenUndoesTip(m: Accounts, from: AccountKey, to: AccountKey)
    requires from != to
    ensures UntippedAsWritten(Tipped(m, from, to), from, to) == Ledgers.WithAccount(Ledgers.WithAccount(m, from), to)
  {
  }

  /** The untip as written, aimed at a receiver without an account, gives
      that receiver 2 coins and puts one coin into circulation instead of
      taking three out. */
  lemma UntipAsWrittenCreditsNewReceiver(m: Accounts, from: AccountKey, to: AccountKey)
    requires from != to && to !in m
    ensures UntippedAsWritten(m, from, to)[to] == 2
    ensures UntippedAsWritten(m, from, to)[to] != UntippedIntended(m, from, to)[to]
    ensures Ledgers.Total(UntippedAsWritten(m, from, to)) == Ledgers.Total(m) + 1
  {
    assert UntippedAsWritten(m, from, to) == Ledgers.Incremented(Ledgers.Incremented(m, from, -1), to, 2);
    Ledgers.IncrementTotal(m, from, -1);
    Ledgers.IncrementTotal(Ledgers.Incremented(m, from, -1), to, 2);
  }

  /** The outcome of `accounts::transfer_coins` on the accounts table: the
      new table and the `(to, from)` rows read back, or the error. */
  function TransferOutcome(m: Accounts, from: AccountKey, to: AccountKey, amount: int): (r: Result<(Accounts, BankAccount, BankAccount), DbError>)
    ensures !FitsI32(amount) ==> r == Failure(CoinOverflow)
    ensures FitsI32(amount) && from !in m ==> r == Failure(Db(RowNotFound))
    ensures FitsI32(amount) && from in m && m[from] < amount ==> r == Failure(InsufficientFunds)
    ensures r.Success? <==> FitsI32(amount) && from in m && m[from] >= amount
    ensures r.Success? ==>
              var after := r.value.0;
              after.Keys == m.Keys + {to} &&
              (from != to ==> after[from] == m[from] - amount && after[to] == Ledgers.BalanceOf(m, to) + amount) &&
              (from == to ==> after[from] == m[from]) &&
              (forall k :: k in m && k != from && k != to ==> after[k] == m[k]) &&
              r.value.1 == Row(after, to) && r.value.2 == Row(after, from)
  {
    if !FitsI32(amount) then Failure(CoinOverflow)
    else if from !in m then Failure(Db(RowNotFound))
    else if m[from] < amount then Failure(InsufficientFunds)
    else
      var after := Ledgers.Transferred(m, from, to, amount);
      Success((after, Row(after, to), Row(after, from)))
  }

  /** A transfer that goes through neither creates nor destroys coins, and a
      sender who could afford it is not left below zero. */
  lemma TransferConserves(m: Accounts, from: AccountKey, to: AccountKey, amount: int)
    requires TransferOutcome(m, from, to, amount).Success?
    ensures Ledgers.Total(TransferOutcome(m, from, to, amount).value.0) == Ledgers.Total(m)
    ensures amount >= 0 ==> TransferOutcome(m, from, to, amount).value.0[from] >= 0 || m[from] < 0
  {
    Ledgers.TransferTotal(m, from, to, amount);
  }

  /** Sending a whole balance away leaves the sender at exactly 0. */
  lemma TransferAllLeavesZero(m: Accounts, from: AccountKey, to: AccountKey)
    requires from in m && from != to && FitsI32(m[from])
    ensures TransferOutcome(m, from, to, m[from]).Success?
    ensures TransferOutcome(m, from, to, m[from]).value.0[from] == 0
  {
  }

  /** The accounts of `server` whose users were seen in `channel`, as
      `channel_user_balances` selects them. */
  function ChannelBalances(m: Accounts, channelUsers: set<ChannelUser>, server: string, channel: string): set<BankAccount> {
    set k | k in m && k.0 == server && ChannelUser(server, channel, k.1) in channelUsers :: Row(m, k)
  }

  /** Once a user has been seen in a channel, their account, if they have
      one, is among that channel's balances. */
  lemma LoggedUserListed(m: Accounts, channelUsers: set<ChannelUser>, server: U64, channel: U64, user: U64)
    requires Key(server, user) in m
    ensures Row(m, Key(server, user)) in
              ChannelBalances(m, InsertedOrIgnored(channelUsers, NewChannelUser(server, channel, user)).0, Show(server), Show(channel))
  {
  }

  /** Only accounts of the asked server, and only their stored balances, are
      listed; seeing a user in another server's channel changes nothing. */
  lemma ChannelBalancesOfServer(m: Accounts, channelUsers: set<ChannelUser>, server: string, channel: string, seen: ChannelUser)
    requires seen.serverId != server
    ensures ChannelBalances(m, channelUsers + {seen}, server, channel) == ChannelBalances(m, channelUsers, server, channel)
    ensures forall a :: a in ChannelBalances(m, channelUsers, server, channel) ==>
              a.serverId == server && (a.serverId, a.userId) in m && m[(a.serverId, a.userId)] == a.balance
  {
  }

  // ---------------------------------------------------------------------
  // Inventory.

  /** The buyer's account key of an inventory row: both stored ids parsed
      and printed again. */
  function BuyerKey(row: InventoryItem): (r: Result<AccountKey, DbError>)
    ensures row.ServerId().Failure? ==> r == Failure(row.ServerId().error)
    ensures row.ServerId().Success? && row.UserId().Failure? ==> r == Failure(row.UserId().error)
    ensures row.ServerId().Success? && row.UserId().Success? ==> r == Success(Key(row.ServerId().value, row.UserId().value))
  {
    match row.ServerId()
    case Failure(e) => Failure(e)
    case Success(server) =>
      match row.UserId()
      case Failure(e) => Failure(e)
      case Success(user) => Success(Key(server, user))
  }

  /** The outcome of `add_inventory_item`: the new accounts and inventory, or
      the first error, in the order the transaction meets them. */
  function Purchase(m: Accounts, catalog: Catalog, inventory: set<InventoryItem>, row: InventoryItem): (r: Result<(Accounts, set<InventoryItem>), DbError>)
    ensures BuyerKey(row).Failure? ==> r == Failure(BuyerKey(row).error)
    ensures BuyerKey(row).Success? && row.itemId !in catalog ==> r == Failure(Db(RowNotFound))
    ensures BuyerKey(row).Success? && row.itemId in catalog && BuyerKey(row).value !in m ==> r == Failure(Db(RowNotFound))
    ensures (BuyerKey(row).Success? && row.itemId in catalog && BuyerKey(row).value in m &&
             m[BuyerKey(row).value] <= catalog[row.itemId].price) ==> r == Failure(InsufficientFunds)
    ensures r.Success? <==>
              BuyerKey(row).Success? && row.itemId in catalog && BuyerKey(row).value in m &&
              m[BuyerKey(row).value] > catalog[row.itemId].price && row !in inventory
    ensures r.Success? ==>
              var key := BuyerKey(row).value;
              r.value.1 == inventory + {row} &&
              r.value.0.Keys == m.Keys &&
              r.value.0[key] == m[key] - catalog[row.itemId].price &&
              r.value.0[key] >= 1 &&
              forall k :: k in m && k != key ==> r.value.0[k] == m[k]
  {
    match BuyerKey(row)
    case Failure(e) => Failure(e)
    case Success(key) =>
      if row.itemId !in catalog then Failure(Db(RowNotFound))
      else if key !in m then Failure(Db(RowNotFound))
      else
        var price := catalog[row.itemId].price;
        if m[key] > price then
          match Inserted(inventory, row)
          case Failure(e) => Failure(e)
          case Success(inserted) => Success((m[key := m[key] - price], inserted.0))
        else Failure(InsufficientFunds)
  }

  /** A successful purchase takes exactly the item's price out of
      circulation. */
  lemma PurchaseCostsPrice(m: Accounts, catalog: Catalog, inventory: set<InventoryItem>, row: InventoryItem)
    requires Purchase(m, catalog, inventory, row).Success?
    ensures Ledgers.Total(Purchase(m, catalog, inventory, row).value.0) == Ledgers.Total(m) - catalog[row.itemId].price
  {
    var key := BuyerKey(row).value;
    var price: int := catalog[row.itemId].price;
    var after := Purchase(m, catalog, inventory, row).value.0;
    assert after == Ledgers.Incremented(m, key, -price);
    Ledgers.IncrementTotal(m, key, -price);
  }

  /** `user_has_item`: whether the row exists, once the `u64` item id has
      been narrowed to the `i32` column. */
  function HasItem(inventory: set<InventoryItem>, server: string, user: string, item: U64): (r: Result<bool, DbError>)
    ensures r.Failure? <==> !FitsI32(item)
    ensures r.Failure? ==> r.error == BadId
    ensures r.Success? ==> (r.value <==> InventoryItem(server, user, item) in inventory)
  {
    if FitsI32(item) then Success(InventoryItem(server, user, item) in inventory) else Failure(BadId)
  }

  /** An added row is held, and a deleted one no longer is. */
  lemma HasItemAfterAddAndDelete(inventory: set<InventoryItem>, server: U64, user: U64, item: nat)
    requires item < I32_LIMIT
    ensures var row := NewInventoryItem(server, user, item).value;
            HasItem(InsertedOrIgnored(inventory, row).0, Show(server), Show(user), item) == Success(true) &&
            HasItem(Deleted(inventory, row).0, Show(server), Show(user), item) == Success(false)
  {
  }

  /** The catalog items `user_inventory` returns: those whose id appears in
      an inventory row of this user in this server. */
  function InventoryOf(catalog: Catalog, inventory: set<InventoryItem>, server: string, user: string): set<Item> {
    set row | row in inventory && row.serverId == server && row.userId == user && row.itemId in catalog :: catalog[row.itemId]
  }

  /** Rows of other users, or of the same user in another server, never
      change what a user's inventory lists. */
  lemma InventoryOfIgnoresOthers(catalog: Catalog, inventory: set<InventoryItem>, server: string, user: string, other: InventoryItem)
    requires other.serverId != server || other.userId != user
    ensures InventoryOf(catalog, inventory + {other}, server, user) == InventoryOf(catalog, inventory, server, user)
  {
  }

  /** A purchased catalog item shows in the buyer's inventory. */
  lemma PurchasedItemListed(m: Accounts, catalog: Catalog, inventory: set<InventoryItem>, row: InventoryItem)
    requires Purchase(m, catalog, inventory, row).Success?
    ensures catalog[row.itemId] in InventoryOf(catalog, Purchase(m, catalog, inventory, row).value.1, row.serverId, row.userId)
  {
    assert row in Purchase(m, catalog, inventory, row).value.1;
  }

  // ---------------------------------------------------------------------
  // Opt-outs.

  /** `optout` as written: a plain insert, whose row count is then matched
      (0 "already opted out", 1 "opted out", other counts unexpected). */
  function OptoutAsWritten(optouts: set<Optout>, row: Optout): (r: Result<set<Optout>, DbError>)
    ensures r.Success? <==> row !in optouts
    ensures r.Success? ==> r.value == optouts + {row}
  {
    match Inserted(optouts, row)
    case Failure(e) => Failure(e)
    case Success(inserted) => OptoutCount(inserted.0, inserted.1)
  }

  /** The match on the number of rows an opt-out or opt-in altered. */
  function OptoutCount(table: set<Optout>, count: nat): (r: Result<set<Optout>, DbError>)
    ensures r.Success? <==> count <= 1
  {
    if count <= 1 then Success(table)
    else Failure(Unexpected("unexpected number of records altered: " + Show(count)))
  }

  /** The plain insert never counts 0 rows, so a second opt-out meets the
      primary key and fails instead of reaching the "already opted out"
      branch. */
  lemma OptoutAsWrittenRejectsRepeat(optouts: set<Optout>, server: U64, user: U64)
    ensures var row := NewOptout(server, user);
            forall t :: Inserted(t, row).Success? ==> Inserted(t, row).value.1 == 1
    ensures var row := NewOptout(server, user);
            OptoutAsWritten(optouts, row).Success? ==>
              OptoutAsWritten(OptoutAsWritten(optouts, row).value, row) == Failure(Db(UniqueViolation))
  {
  }

  /** `optout` as evidently intended: an insert-or-ignore, so that opting
      out again takes the "already opted out" branch and succeeds. */
  function OptoutIntended(optouts: set<Optout>, row: Optout): (r: Result<set<Optout>, DbError>)
    ensures r == Success(optouts + {row})
  {
    var inserted := InsertedOrIgnored(optouts, row);
    OptoutCount(inserted.0, inserted.1)
  }

  /** `optin`: a delete by primary key, whose count is matched like the
      opt-out's. */
  function Optin(optouts: set<Optout>, row: Optout): (r: Result<set<Optout>, DbError>)
    ensures r == Success(optouts - {row})
  {
    var deleted := Deleted(optouts, row);
    OptoutCount(deleted.0, deleted.1)
  }

  /** With the intended opt-out, opting out is idempotent, and opting in
      afterwards restores the table of a user who had not opted out. */
  lemma OptoutIntendedIdempotent(optouts: set<Optout>, server: U64, user: U64)
    ensures var row := NewOptout(server, user);
            OptoutIntended(OptoutIntended(optouts, row).value, row) == OptoutIntended(optouts, row)
    ensures var row := NewOptout(server, user);
            row !in optouts ==> Optin(OptoutIntended(optouts, row).value, row) == Success(optouts)
  {
    var row := NewOptout(server, user);
    if row !in optouts {
      assert optouts + {row} - {row} == optouts;
    }
  }

  /** `delete_inventory_item`: no row removed is `NotFound`. */
  function DeleteOutcome(inventory: set<InventoryItem>, row: InventoryItem): (r: Result<set<InventoryItem>, DbError>)
    ensures r.Success? <==> row in inventory
    ensures r.Success? ==> r.value == inventory - {row}
    ensures r.Failure? ==> r.error == NotFound("no record found to delete")
  {
    var deleted := Deleted(inventory, row);
    if deleted.1 == 0 then Failure(NotFound("no record found to delete"))
    else if deleted.1 == 1 then Success(deleted.0)
    else Failure(Unexpected("unexpected number of records returned:" + Show(deleted.1)))
  }
}
