/** The bank of the first bot (src/coins.rs): one ledger per server, a daily
    log of who has claimed their daily coins, and the processing of one
    transaction at a time. The clock is a parameter: `now` is the current
    time and `nextEpoch` what the daily reset time would be recomputed as. */
module Coins {
  import opened Ledgers

  /** The coins a user may claim once per daily epoch. */
  const DAILY_AMOUNT: int := 10

  /** The per-server lists of users who have claimed today. */
  type ServerLogs = map<nat, seq<nat>>

  /** No user appears twice in a list. */
  predicate NoDuplicates(xs: seq<nat>) {
    forall i, j :: 0 <= i < j < |xs| ==> xs[i] != xs[j]
  }

  predicate LogsWellFormed(logs: ServerLogs) {
    forall s :: s in logs ==> NoDuplicates(logs[s])
  }

  /** A server's list, an unknown server having an empty one. */
  function ServerLog(logs: ServerLogs, server: nat): seq<nat> {
    if server in logs then logs[server] else []
  }

  /** The logs after `user` is logged in `server`: appended at the end if
      absent, otherwise unchanged; the server's list is created if missing. */
  function Logged(logs: ServerLogs, server: nat, user: nat): (r: ServerLogs)
    ensures r.Keys == logs.Keys + {server}
    ensures user in r[server]
    ensures user !in ServerLog(logs, server) ==> r[server] == ServerLog(logs, server) + [user]
    ensures user in ServerLog(logs, server) ==> r[server] == ServerLog(logs, server)
    ensures forall s :: s in logs && s != server ==> r[s] == logs[s]
  {
    var log := ServerLog(logs, server);
    logs[server := if user in log then log else log + [user]]
  }

  /** Logging keeps every list free of duplicates. */
  lemma LoggedWellFormed(logs: ServerLogs, server: nat, user: nat)
    requires LogsWellFormed(logs)
    ensures LogsWellFormed(Logged(logs, server, user))
  {
    var r := Logged(logs, server, user);
    var log := ServerLog(logs, server);
    if user !in log {
      forall i, j | 0 <= i < j < |r[server]|
        ensures r[server][i] != r[server][j]
      {
        if j == |log| {
          assert r[server][i] == log[i];
        }
      }
    }
  }

  /** Logging the same user twice is the same as logging them once. */
  lemma LoggedIdempotent(logs: ServerLogs, server: nat, user: nat)
    ensures Logged(Logged(logs, server, user), server, user) == Logged(logs, server, user)
  {
  }

  /** `DailyLog`: the next reset time and who has claimed in each server. */
  class DailyLog {
    var epoch: int
    var logs: ServerLogs

    /** A fresh log, as `load` builds when nothing was saved. */
    constructor (epoch: int)
      ensures this.epoch == epoch && logs == map[]
    {
      this.epoch := epoch;
      logs := map[];
    }

    /** `get_or_create`: the server's list, created empty if missing. */
    method GetOrCreate(server: nat) returns (log: seq<nat>)
      modifies this
      ensures log == ServerLog(old(logs), server)
      ensures logs == old(logs)[server := log]
      ensures epoch == old(epoch)
    {
      if server !in logs {
        logs := logs[server := []];
      }
      log := logs[server];
    }

    /** `clear`: forget every list. */
    method Clear()
      modifies this
      ensures logs == map[] && epoch == old(epoch)
    {
      logs := map[];
    }

    /** `log_user`: once `now` is past the epoch, the epoch moves to
        `nextEpoch` and every list is cleared; then the user is added to the
        server's list. The answer is true exactly when the user was not yet
        in it. */
    method LogUser(server: nat, user: nat, now: int, nextEpoch: int) returns (first: bool)
      modifies this
      ensures epoch == if now > old(epoch) then nextEpoch else old(epoch)
      ensures var before := if now > old(epoch) then map[] else old(logs);
              first == (user !in ServerLog(before, server)) && logs == Logged(before, server, user)
    {
      if now > epoch {
        epoch := nextEpoch;
        Clear();
      }
      var log := GetOrCreate(server);
      if user in log {
        first := false;
      } else {
        logs := logs[server := log + [user]];
        first := true;
      }
    }
  }

  /** The ledger of a server, an unknown server having an empty one. */
  function LedgerOf(ledgers: map<nat, Balances>, server: nat): Balances {
    if server in ledgers then ledgers[server] else map[]
  }

  /** A tip: the receiver gains 2 and the tipper 1. */
  function Tipped(m: Balances, from: nat, to: nat): (r: Balances)
    requires from != to
    ensures r.Keys == m.Keys + {from, to}
    ensures r[from] == BalanceOf(m, from) + 1 && r[to] == BalanceOf(m, to) + 2
    ensures forall u :: u in m && u != from && u != to ==> r[u] == m[u]
  {
    Incremented(Incremented(m, to, 2), from, 1)
  }

  /** An untip: the receiver loses 2 and the untipper 1. */
  function Untipped(m: Balances, from: nat, to: nat): (r: Balances)
    requires from != to
    ensures r.Keys == m.Keys + {from, to}
    ensures r[from] == BalanceOf(m, from) - 1 && r[to] == BalanceOf(m, to) - 2
    ensures forall u :: u in m && u != from && u != to ==> r[u] == m[u]
  {
    Incremented(Incremented(m, to, -2), from, -1)
  }

  /** An untip undoes a tip, except that both accounts now exist. */
  lemma UntipUndoesTip(m: Balances, from: nat, to: nat)
    requires from != to
    ensures Untipped(Tipped(m, from, to), from, to) == WithAccount(WithAccount(m, from), to)
  {
    var r := Untipped(Tipped(m, from, to), from, to);
    var w := WithAccount(WithAccount(m, from), to);
    assert r.Keys == w.Keys;
    forall u | u in r
      ensures r[u] == w[u]
    {
    }
  }

  /** A tip mints three coins. */
  lemma TipMintsThree(m: Balances, from: nat, to: nat)
    requires from != to
    ensures Total(Tipped(m, from, to)) == Total(m) + 3
  {
    IncrementTotal(m, to, 2);
    IncrementTotal(Incremented(m, to, 2), from, 1);
  }

  datatype Operation =
    | Transfer(toUser: nat, amount: int)
    | GetAllBalances
    | Tip(toUser: nat)
    | Untip(toUser: nat)
    | Daily(timestamp: int)
    | GetUserBalance

  datatype Transaction = Transaction(serverId: nat, fromUser: nat, operation: Operation)

  datatype TransactionStatus = Complete | BadDailyRequest(nextEpoch: int) | SelfTip

  /** The transaction, the affected accounts and their balances afterwards,
      and the outcome. */
  datatype Receipt = Receipt(transaction: Transaction, accountResults: seq<(nat, int)>, status: TransactionStatus)

  /** An operation that updated `server`'s ledger to `updated` and reports
      the balances of `users` afterwards; looking the users up creates any
      account still missing. */
  predicate Completed(before: map<nat, Balances>, after: map<nat, Balances>, receipt: Receipt,
                      server: nat, updated: Balances, users: seq<nat>) {
    receipt.status == Complete && receipt.accountResults == BalancesOf(updated, users)
    && after == before[server := WithAccounts(updated, users)]
  }

  /** No ledger but the server's own differs between the two states. */
  ghost predicate OnlyServerChanged(before: map<nat, Balances>, after: map<nat, Balances>, server: nat) {
    forall s :: s != server ==> LedgerOf(after, s) == LedgerOf(before, s)
  }

  /** An operation refused with `status`: nothing reported, nothing changed. */
  predicate Refused(before: map<nat, Balances>, after: map<nat, Balances>, receipt: Receipt,
                    status: TransactionStatus) {
    receipt.status == status && receipt.accountResults == [] && after == before
  }

  /** A listing of every account of the ledger `m`, each with its balance. */
  predicate ListsAll(results: seq<(nat, int)>, m: Balances) {
    (set i | 0 <= i < |results| :: results[i].0) == m.Keys
    && forall i :: 0 <= i < |results| ==> results[i].0 in m && results[i].1 == m[results[i].0]
  }

  /** `Bank`: the server ledgers and the daily log. */
  class Bank {
    var ledgers: map<nat, Balances>
    var dailyLog: DailyLog

    constructor (dailyLog: DailyLog)
      ensures ledgers == map[] && this.dailyLog == dailyLog
    {
      ledgers := map[];
      this.dailyLog := dailyLog;
    }

    /** `process_transaction`. Only the transaction's server's ledger can
        change, and only a daily claim touches the daily log. */
    method ProcessTransaction(t: Transaction, now: int, nextEpoch: int) returns (receipt: Receipt)
      modifies this, dailyLog
      ensures dailyLog == old(dailyLog) && receipt.transaction == t
      ensures !t.operation.Daily? ==> dailyLog.logs == old(dailyLog.logs) && dailyLog.epoch == old(dailyLog.epoch)
      ensures OnlyServerChanged(old(ledgers), ledgers, t.serverId)
      ensures t.operation.Transfer? ==>
                Completed(old(ledgers), ledgers, receipt, t.serverId,
                          Transferred(LedgerOf(old(ledgers), t.serverId), t.fromUser, t.operation.toUser, t.operation.amount),
                          [t.fromUser, t.operation.toUser])
      ensures t.operation.GetAllBalances? ==>
                receipt.status == Complete && ledgers == old(ledgers)
                && ListsAll(receipt.accountResults, LedgerOf(old(ledgers), t.serverId))
      ensures (t.operation.Tip? || t.operation.Untip?) && t.fromUser == t.operation.toUser ==>
                Refused(old(ledgers), ledgers, receipt, SelfTip)
      ensures t.operation.Tip? && t.fromUser != t.operation.toUser ==>
                Completed(old(ledgers), ledgers, receipt, t.serverId,
                          Tipped(LedgerOf(old(ledgers), t.serverId), t.fromUser, t.operation.toUser),
                          [t.fromUser, t.operation.toUser])
      ensures t.operation.Untip? && t.fromUser != t.operation.toUser ==>
                Completed(old(ledgers), ledgers, receipt, t.serverId,
                          Untipped(LedgerOf(old(ledgers), t.serverId), t.fromUser, t.operation.toUser),
                          [t.fromUser, t.operation.toUser])
      ensures t.operation.Daily? ==>
                var before := if now > old(dailyLog.epoch) then map[] else old(dailyLog.logs);
                dailyLog.logs == Logged(before, t.serverId, t.fromUser)
                && dailyLog.epoch == (if now > old(dailyLog.epoch) then nextEpoch else old(dailyLog.epoch))
                && (t.fromUser !in ServerLog(before, t.serverId) ==>
                      Completed(old(ledgers), ledgers, receipt, t.serverId,
                                Incremented(LedgerOf(old(ledgers), t.serverId), t.fromUser, DAILY_AMOUNT), [t.fromUser]))
                && (t.fromUser in ServerLog(before, t.serverId) ==>
                      Refused(old(ledgers), ledgers, receipt, BadDailyRequest(dailyLog.epoch)))
      ensures t.operation.GetUserBalance? ==>
                Completed(old(ledgers), ledgers, receipt, t.serverId, LedgerOf(old(ledgers), t.serverId), [t.fromUser])
    {
      match t.operation
      case Transfer(to, amount) =>
        receipt := ProcessTransfer(t);
      case GetAllBalances =>
        receipt := ProcessGetAllBalances(t);
      case Tip(to) =>
        receipt := ProcessTip(t);
      case Untip(to) =>
        receipt := ProcessTip(t);
      case Daily(_) =>
        receipt := ProcessDaily(t, now, nextEpoch);
      case GetUserBalance =>
        receipt := ProcessGetUserBalance(t);
    }

    /** The transfer arm: no funds check. */
    method ProcessTransfer(t: Transaction) returns (receipt: Receipt)
      requires t.operation.Transfer?
      modifies this
      ensures dailyLog == old(dailyLog) && receipt.transaction == t
      ensures OnlyServerChanged(old(ledgers), ledgers, t.serverId)
      ensures Completed(old(ledgers), ledgers, receipt, t.serverId,
                        Transferred(LedgerOf(old(ledgers), t.serverId), t.fromUser, t.operation.toUser, t.operation.amount),
                        [t.fromUser, t.operation.toUser])
    {
      var ledger := new Ledger.FromBalances(LedgerOf(ledgers, t.serverId));
      ledger.Transfer(t.fromUser, t.operation.toUser, t.operation.amount);
      var results := ledger.GetBalances([t.fromUser, t.operation.toUser]);
      ledgers := ledgers[t.serverId := ledger.balances];
      receipt := Receipt(t, results, Complete);
    }

    /** The listing arm: every account of the server, nothing changed. */
    method ProcessGetAllBalances(t: Transaction) returns (receipt: Receipt)
      ensures receipt.transaction == t && receipt.status == Complete
      ensures ListsAll(receipt.accountResults, LedgerOf(ledgers, t.serverId))
    {
      var ledger := new Ledger.FromBalances(LedgerOf(ledgers, t.serverId));
      var results := ledger.GetAllBalances();
      receipt := Receipt(t, results, Complete);
    }

    /** The tip and untip arms: a tip to oneself is refused; otherwise the
        receiver changes by 2 and the sender by 1, upwards for a tip and
        downwards for an untip. */
    method ProcessTip(t: Transaction) returns (receipt: Receipt)
      requires t.operation.Tip? || t.operation.Untip?
      modifies this
      ensures dailyLog == old(dailyLog) && receipt.transaction == t
      ensures OnlyServerChanged(old(ledgers), ledgers, t.serverId)
      ensures t.fromUser == t.operation.toUser ==> Refused(old(ledgers), ledgers, receipt, SelfTip)
      ensures t.operation.Tip? && t.fromUser != t.operation.toUser ==>
                Completed(old(ledgers), ledgers, receipt, t.serverId,
                          Tipped(LedgerOf(old(ledgers), t.serverId), t.fromUser, t.operation.toUser),
                          [t.fromUser, t.operation.toUser])
      ensures t.operation.Untip? && t.fromUser != t.operation.toUser ==>
                Completed(old(ledgers), ledgers, receipt, t.serverId,
                          Untipped(LedgerOf(old(ledgers), t.serverId), t.fromUser, t.operation.toUser),
                          [t.fromUser, t.operation.toUser])
    {
      var from, to := t.fromUser, t.operation.toUser;
      if from == to {
        receipt := Receipt(t, [], SelfTip);
      } else {
        var sign := if t.operation.Tip? then 1 else -1;
        var ledger := new Ledger.FromBalances(LedgerOf(ledgers, t.serverId));
        ledger.IncrementBalance(to, 2 * sign);
        ledger.IncrementBalance(from, sign);
        var results := ledger.GetBalances([from, to]);
        ledgers := ledgers[t.serverId := ledger.balances];
        receipt := Receipt(t, results, Complete);
      }
    }

    /** The daily arm: the award is paid only on the user's first claim in
        the server since the last reset; a repeat is refused with the time of
        the next reset. */
    method ProcessDaily(t: Transaction, now: int, nextEpoch: int) returns (receipt: Receipt)
      requires t.operation.Daily?
      modifies this, dailyLog
      ensures dailyLog == old(dailyLog) && receipt.transaction == t
      ensures OnlyServerChanged(old(ledgers), ledgers, t.serverId)
      ensures var before := if now > old(dailyLog.epoch) then map[] else old(dailyLog.logs);
              dailyLog.logs == Logged(before, t.serverId, t.fromUser)
              && dailyLog.epoch == (if now > old(dailyLog.epoch) then nextEpoch else old(dailyLog.epoch))
              && (t.fromUser !in ServerLog(before, t.serverId) ==>
                    Completed(old(ledgers), ledgers, receipt, t.serverId,
                              Incremented(LedgerOf(old(ledgers), t.serverId), t.fromUser, DAILY_AMOUNT), [t.fromUser]))
              && (t.fromUser in ServerLog(before, t.serverId) ==>
                    Refused(old(ledgers), ledgers, receipt, BadDailyRequest(dailyLog.epoch)))
    {
      var first := dailyLog.LogUser(t.serverId, t.fromUser, now, nextEpoch);
      if first {
        var ledger := new Ledger.FromBalances(LedgerOf(ledgers, t.serverId));
        ledger.IncrementBalance(t.fromUser, DAILY_AMOUNT);
        var results := ledger.GetBalances([t.fromUser]);
        ledgers := ledgers[t.serverId := ledger.balances];
        receipt := Receipt(t, results, Complete);
      } else {
        receipt := Receipt(t, [], BadDailyRequest(dailyLog.epoch));
      }
    }

    /** The balance query arm: exactly the user's balance, creating the
        account at 0. */
    method ProcessGetUserBalance(t: Transaction) returns (receipt: Receipt)
      requires t.operation.GetUserBalance?
      modifies this
      ensures dailyLog == old(dailyLog) && receipt.transaction == t
      ensures OnlyServerChanged(old(ledgers), ledgers, t.serverId)
      ensures Completed(old(ledgers), ledgers, receipt, t.serverId, LedgerOf(old(ledgers), t.serverId), [t.fromUser])
      ensures receipt.accountResults == [(t.fromUser, BalanceOf(LedgerOf(old(ledgers), t.serverId), t.fromUser))]
    {
      var ledger := new Ledger.FromBalances(LedgerOf(ledgers, t.serverId));
      var balance := ledger.GetBalance(t.fromUser);
      ledgers := ledgers[t.serverId := ledger.balances];
      receipt := Receipt(t, [(t.fromUser, balance)], Complete);
    }
  }
}
