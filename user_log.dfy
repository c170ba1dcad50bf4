/** The log of every user ever seen, per server and channel (src/data.rs). */
module UserLogs {
  import Coins

  /** Server id to channel id to the users seen there, in order of first
      appearance. */
  type Logs = map<nat, map<nat, seq<nat>>>

  /** The users seen in `channel` of `server`, empty when either is new. */
  function ChannelLog(logs: Logs, server: nat, channel: nat): seq<nat> {
    if server in logs && channel in logs[server] then logs[server][channel] else []
  }

  /** Every channel list is free of duplicates. */
  predicate WellFormed(logs: Logs) {
    forall s, c :: s in logs && c in logs[s] ==> Coins.NoDuplicates(logs[s][c])
  }

  /** The logs after `user` is seen in `channel` of `server`. */
  function WithUser(logs: Logs, server: nat, channel: nat, user: nat): (r: Logs)
    ensures server in r && channel in r[server]
    ensures user in ChannelLog(r, server, channel)
    ensures user in ChannelLog(logs, server, channel) ==> ChannelLog(r, server, channel) == ChannelLog(logs, server, channel)
    ensures user !in ChannelLog(logs, server, channel) ==>
              ChannelLog(r, server, channel) == ChannelLog(logs, server, channel) + [user]
    ensures forall s: nat, c: nat :: (s, c) != (server, channel) ==> ChannelLog(r, s, c) == ChannelLog(logs, s, c)
  {
    var channels: map<nat, seq<nat>> := if server in logs then logs[server] else map[];
    var log := ChannelLog(logs, server, channel);
    logs[server := channels[channel := if user in log then log else log + [user]]]
  }

  /** Seeing a user keeps the lists free of duplicates. */
  lemma WithUserWellFormed(logs: Logs, server: nat, channel: nat, user: nat)
    requires WellFormed(logs)
    ensures WellFormed(WithUser(logs, server, channel, user))
  {
    var r := WithUser(logs, server, channel, user);
    forall s, c | s in r && c in r[s]
      ensures Coins.NoDuplicates(r[s][c])
    {
      var log := ChannelLog(logs, server, channel);
      if (s, c) == (server, channel) && user !in log {
        var xs := r[s][c];
        assert xs == log + [user];
        forall i, j | 0 <= i < j < |xs|
          ensures xs[i] != xs[j]
        {
          if j == |log| {
            assert xs[i] == log[i];
          }
        }
      } else {
        assert r[s][c] == ChannelLog(logs, s, c);
      }
    }
  }

  /** Seeing a user a second time changes nothing. */
  lemma WithUserIdempotent(logs: Logs, server: nat, channel: nat, user: nat)
    ensures WithUser(WithUser(logs, server, channel, user), server, channel, user) == WithUser(logs, server, channel, user)
  {
    var r := WithUser(logs, server, channel, user);
    assert r[server][channel := r[server][channel]] == r[server];
    assert r[server := r[server]] == r;
  }

  /** `UserLog`. */
  class UserLog {
    var logs: Logs

    /** The empty log, as `load` builds when nothing was saved. */
    constructor ()
      ensures logs == map[]
    {
      logs := map[];
    }

    /** `get_or_create_channel_log`: the channel's list, creating the server
        and channel entries empty when missing. */
    method GetOrCreateChannelLog(server: nat, channel: nat) returns (log: seq<nat>)
      modifies this
      ensures log == ChannelLog(old(logs), server, channel)
      ensures server in logs && channel in logs[server] && logs[server][channel] == log
      ensures forall s: nat, c: nat :: ChannelLog(logs, s, c) == ChannelLog(old(logs), s, c)
      ensures forall s :: s in old(logs) ==> s in logs && old(logs)[s].Keys <= logs[s].Keys
    {
      if server !in logs {
        logs := logs[server := map[]];
      }
      var channels := logs[server];
      if channel !in channels {
        logs := logs[server := channels[channel := []]];
      }
      log := logs[server][channel];
    }

    /** `log_user`: the user is appended to the channel's list unless already
        there. Saving the log to disk is not part of this model. */
    method LogUser(server: nat, channel: nat, user: nat)
      modifies this
      ensures forall s: nat, c: nat :: ChannelLog(logs, s, c) == ChannelLog(WithUser(old(logs), server, channel, user), s, c)
    {
      var log := GetOrCreateChannelLog(server, channel);
      if user !in log {
        var channels: map<nat, seq<nat>> := logs[server];
        logs := logs[server := channels[channel := log + [user]]];
      }
    }
  }
}
