/** The rows of the SQLite store (db/src/model.rs). Ids are stored as their
    decimal text and parsed back by the accessors. */
module DbModel {
  import opened Wrappers
  import opened Decimal
  import opened DbErrors
  import opened Ids

  const I32_LIMIT: int := 0x8000_0000

  /** Whether a number fits an `i32`, as `try_into::<i32>` checks. */
  predicate FitsI32(n: int) {
    -I32_LIMIT <= n < I32_LIMIT
  }

  type I32 = n: int | FitsI32(n)

  /** The `i64` amounts the store's operations take. */
  type I64 = n: int | -I64_LIMIT <= n < I64_LIMIT

  /** A catalog item. */
  datatype Item = Item(id: I32, name: string, description: string, emoji: string, price: I32, available: I32)

  /** A user seen in a channel. */
  datatype ChannelUser = ChannelUser(serverId: string, channelId: string, userId: string)
  {
    /** The accessors `server_id`, `channel_id` and `user_id`. */
    function ServerId(): Result<U64, DbError> { ParseId(serverId) }
    function ChannelId(): Result<U64, DbError> { ParseId(channelId) }
    function UserId(): Result<U64, DbError> { ParseId(userId) }
  }

  /** A coin account. The balance column is an SQL integer. */
  datatype BankAccount = BankAccount(serverId: string, userId: string, balance: int)
  {
    function ServerId(): Result<U64, DbError> { ParseId(serverId) }
    function UserId(): Result<U64, DbError> { ParseId(userId) }
  }

  /** An item held by a user in a server. */
  datatype InventoryItem = InventoryItem(serverId: string, userId: string, itemId: I32)
  {
    function ServerId(): Result<U64, DbError> { ParseId(serverId) }
    function UserId(): Result<U64, DbError> { ParseId(userId) }
  }

  /** A user who asked to be left alone. The row type is used by the store
      but not declared in this snapshot's model file. */
  datatype Optout = Optout(serverId: string, userId: string)

  /** `ChannelUser::new`. */
  function NewChannelUser(server: U64, channel: U64, user: U64): (c: ChannelUser)
    ensures c.ServerId() == Success(server)
    ensures c.ChannelId() == Success(channel)
    ensures c.UserId() == Success(user)
  {
    ParseShow(server);
    ParseShow(channel);
    ParseShow(user);
    ChannelUser(Show(server), Show(channel), Show(user))
  }

  /** `BankAccount::new`: the balance is stored unchanged. */
  function NewBankAccount(server: U64, user: U64, balance: I32): (a: BankAccount)
    ensures a.ServerId() == Success(server)
    ensures a.UserId() == Success(user)
    ensures a.balance == balance
  {
    ParseShow(server);
    ParseShow(user);
    BankAccount(Show(server), Show(user), balance)
  }

  /** `InventoryItem::new`, which cannot fail. */
  function NewInventoryItem(server: U64, user: U64, itemId: I32): (r: Result<InventoryItem, DbError>)
    ensures r.Success?
    ensures r.value.ServerId() == Success(server)
    ensures r.value.UserId() == Success(user)
    ensures r.value.itemId == itemId
  {
    ParseShow(server);
    ParseShow(user);
    Success(InventoryItem(Show(server), Show(user), itemId))
  }

  /** `Optout::new`. */
  function NewOptout(server: U64, user: U64): (o: Optout)
    ensures ParseId(o.serverId) == Success(server)
    ensures ParseId(o.userId) == Success(user)
  {
    ParseShow(server);
    ParseShow(user);
    Optout(Show(server), Show(user))
  }

  /** Rows built from the same ids are the same row, and rows built from
      different ids differ. */
  lemma NewBankAccountInjective(s1: U64, u1: U64, s2: U64, u2: U64, b: I32)
    ensures NewBankAccount(s1, u1, b) == NewBankAccount(s2, u2, b) <==> s1 == s2 && u1 == u2
  {
    ShowInjective(s1, s2);
    ShowInjective(u1, u2);
  }

  /** A stored id that is not a `u64` makes the accessors fail with
      `IdParse`, whatever else the row holds. */
  lemma StoredIdMustParse(a: BankAccount)
    requires ParseU64(a.serverId).Failure?
    ensures a.ServerId().Failure? && a.ServerId().error.IdParse?
  {
  }
}
