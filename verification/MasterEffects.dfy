/** What the last command of a log does to the shardmaster's history: one configuration more, and what is in it. */
module MasterEffects {
  import opened Collections
  import opened ShardTypes
  import opened Rebalance
  import opened RebalanceLeave
  import opened MasterHistory

  /** The log runs, and its last command is no retry. */
  ghost predicate EndsAccepted(n: nat, log: seq<Command>) {
    log != [] && Legal(n, log) && IsFirst(log, |log| - 1)
  }

  /** From configurations before to after, a configuration c is followed by one more, d. */
  ghost predicate OneMore(before: seq<Config>, after: seq<Config>, c: Config, d: Config) {
    && before != [] && c == before[|before| - 1]
    && after == before + [d] && d.num == |before|
  }

  lemma LastStep(n: nat, log: seq<Command>)
    requires EndsAccepted(n, log)
    ensures Run(n, log[..|log| - 1]).Some? && Run(n, log).Some?
    ensures var before, after := Run(n, log[..|log| - 1]).value.configs, Run(n, log).value.configs;
            && before != [] && after != [] && Allowed(before[|before| - 1], log[|log| - 1])
            && NewConfig(before[|before| - 1], log[|log| - 1]).Some?
            && after[|after| - 1] == NewConfig(before[|before| - 1], log[|log| - 1]).value.(num := |before|)
            && OneMore(before, after, before[|before| - 1], after[|after| - 1])
  {
    RunIff(n, log);
    RunIff(n, log[..|log| - 1]);
    LegalMore(n, log);
    FirstIsAccepted(n, log);
  }

  /** After an accepted Move, one configuration follows: the shard is at the group named, every other shard is where
      it was, and the groups are the same. */
  lemma MoveMoves(n: nat, log: seq<Command>, shard: int, gid: int)
    requires EndsAccepted(n, log)
    requires var cmd := log[|log| - 1]; cmd.Move? && cmd.shard == shard && cmd.gid == gid
    ensures Run(n, log[..|log| - 1]).Some? && Run(n, log).Some?
    ensures var before, after := Run(n, log[..|log| - 1]).value.configs, Run(n, log).value.configs;
            && before != [] && after != []
            && var c, d := before[|before| - 1], after[|after| - 1];
            && OneMore(before, after, c, d)
            && |d.shards| == |c.shards| && 0 <= shard < |c.shards| && d.shards[shard] == gid
            && (forall p :: 0 <= p < |c.shards| && p != shard ==> d.shards[p] == c.shards[p])
            && d.groups == c.groups
  {
    LastStep(n, log);
  }

  /** After any log that runs, asking for a number gets the configuration of that number, or the last one when there
      is none of that number. */
  lemma QueriesFind(n: nat, log: seq<Command>, num: int)
    requires Legal(n, log)
    ensures Run(n, log).Some?
    ensures var configs := Run(n, log).value.configs;
            GetConfig(configs, num).num == if 0 <= num < |configs| then num else |configs| - 1
  {
    ConfigsAreNumbered(n, log);
  }

  // ---------- a Join ----------

  /** The servers that the first k entries of a Join list for a group. */
  function ServersOf(servers: seq<Joined>, k: nat, g: int): seq<string>
    requires k <= |servers|
  {
    if k == 0 then [] else
    ServersOf(servers, k - 1, g) + if servers[k - 1].gid == g then servers[k - 1].servers else []
  }

  lemma {:induction false} MergedServers(groups: Groups, servers: seq<Joined>, k: nat, g: int)
    requires k <= |servers|
    ensures var merged := Merge(groups, servers, k);
            && (g in merged <==> g in groups || exists i :: 0 <= i < k && servers[i].gid == g)
            && (g in merged ==> merged[g] == (if g in groups then groups[g] else []) + ServersOf(servers, k, g))
            && (g !in merged ==> ServersOf(servers, k, g) == [])
  {
    if k > 0 { MergedServers(groups, servers, k - 1, g); }
  }

  /** After an accepted Join, the groups are those there were and those it names; each has the servers it had,
      followed by those that the Join lists for it. */
  lemma JoinAddsServers(n: nat, log: seq<Command>, g: int)
    requires EndsAccepted(n, log) && log[|log| - 1].Join?
    ensures Run(n, log[..|log| - 1]).Some? && Run(n, log).Some?
    ensures var before, after := Run(n, log[..|log| - 1]).value.configs, Run(n, log).value.configs;
            && before != [] && after != []
            && var c, d, servers := before[|before| - 1], after[|after| - 1], log[|log| - 1].servers;
            && OneMore(before, after, c, d)
            && (g in d.groups <==> g in c.groups || Names(log[|log| - 1], g))
            && (g in d.groups ==>
                  d.groups[g] == (if g in c.groups then c.groups[g] else []) + ServersOf(servers, |servers|, g))
  {
    LastStep(n, log);
    var before, cmd := Run(n, log[..|log| - 1]).value.configs, log[|log| - 1];
    MergedServers(before[|before| - 1].groups, cmd.servers, |cmd.servers|, g);
  }

  /** No group has number 0, which stands for no group. */
  ghost predicate NoZero(c: Config) {
    0 !in c.groups
  }

  /** After an accepted Join that brings a new group, every shard is at a group, and those that moved are at new ones;
      unless there are more groups than shards, when every shard stays. */
  lemma JoinPlacesAll(n: nat, log: seq<Command>)
    requires EndsAccepted(n, log) && log[|log| - 1].Join?
    ensures Run(n, log[..|log| - 1]).Some? && Run(n, log).Some?
    ensures var before, after := Run(n, log[..|log| - 1]).value.configs, Run(n, log).value.configs;
            && before != [] && after != []
            && var c, d := before[|before| - 1], after[|after| - 1];
            && |d.shards| == |c.shards|
            && (|d.groups| > |c.shards| ==> d.shards == c.shards)
            && (Placed(c) && NoZero(c) && BringsNew(c, log[|log| - 1].servers) && |d.groups| <= |c.shards| ==>
                  forall p :: 0 <= p < |c.shards| ==>
                    d.shards[p] in d.groups && (d.shards[p] == c.shards[p] || d.shards[p] !in c.groups))
  {
    LastStep(n, log);
    var before, cmd := Run(n, log[..|log| - 1]).value.configs, log[|log| - 1];
    var c := before[|before| - 1];
    var fits := |Merge(c.groups, cmd.servers, |cmd.servers|)| <= |c.shards|;
    if Placed(c) && NoZero(c) && BringsNew(c, cmd.servers) && fits {
      JoinPlacesOne(c, cmd.servers);
    }
  }

  lemma JoinPlacesOne(c: Config, servers: seq<Joined>)
    requires Placed(c) && NoZero(c) && BringsNew(c, servers) && |Merge(c.groups, servers, |servers|)| <= |c.shards|
    ensures JoinConfig(c, servers).Some?
    ensures var d := JoinConfig(c, servers).value;
            forall p :: 0 <= p < |c.shards| ==>
              d.shards[p] in d.groups && (d.shards[p] == c.shards[p] || d.shards[p] !in c.groups)
  {
    var gids := JoinIsResult(c, servers);
    var r := JoinResult(c.shards, c.groups.Keys, gids);
    JoinSafety(c.shards, c.groups.Keys, gids);
    forall p | 0 <= p < |c.shards|
      ensures r[p] in c.groups.Keys + Elements(gids) && (r[p] == c.shards[p] || r[p] !in c.groups)
    {
      assert r[p] in gids ==> r[p] in Elements(gids);
    }
  }

  /** The assignment is the one that the theorems on the loop of a Join are about. */
  lemma JoinIsResult(c: Config, servers: seq<Joined>) returns (gids: seq<int>)
    requires Placed(c) && NoZero(c) && BringsNew(c, servers) && |Merge(c.groups, servers, |servers|)| <= |c.shards|
    ensures Joining(c.shards, c.groups.Keys, gids) && JoinConfig(c, servers).Some?
    ensures JoinConfig(c, servers).value.shards == JoinResult(c.shards, c.groups.Keys, gids)
    ensures JoinConfig(c, servers).value.groups.Keys == c.groups.Keys + Elements(gids)
  {
    gids := NewGids(c.groups, servers, |servers|);
    NewGidsIff(c.groups, servers, |servers|);
    JoinIsJoining(c, servers);
    MergeKeys(c.groups, servers, |servers|);
    JoinDealt(c, servers, |c.groups.Keys| + |gids|);
  }

  lemma JoinDealt(c: Config, servers: seq<Joined>, size: nat)
    requires size == |Merge(c.groups, servers, |servers|)|
    ensures JoinConfig(c, servers).Some? ==>
              && JoinConfig(c, servers).value.groups == Merge(c.groups, servers, |servers|)
              && JoinConfig(c, servers).value.shards
                   == JoinShards(c.shards, size, NewGids(c.groups, servers, |servers|)).shards
  {
  }

  // ---------- a Leave ----------

  /** After an accepted Leave, the groups are those that it does not name, with the servers they had; no shard is at a
      group it names, and each is where it was or at a group that remains. Without one, no shard has a group. */
  lemma LeaveRemoves(n: nat, log: seq<Command>)
    requires EndsAccepted(n, log) && log[|log| - 1].Leave?
    ensures Run(n, log[..|log| - 1]).Some? && Run(n, log).Some?
    ensures var before, after := Run(n, log[..|log| - 1]).value.configs, Run(n, log).value.configs;
            && before != [] && after != []
            && var c, d, gids := before[|before| - 1], after[|after| - 1], log[|log| - 1].gids;
            && OneMore(before, after, c, d) && |d.shards| == |c.shards|
            && (forall g :: g in d.groups <==> g in c.groups && g !in gids)
            && (forall g :: g in d.groups ==> d.groups[g] == c.groups[g])
            && (d.groups == map[] ==> forall p :: 0 <= p < |d.shards| ==> d.shards[p] == 0)
            && (d.groups != map[] ==> forall p :: 0 <= p < |d.shards| ==>
                  d.shards[p] !in gids && (d.shards[p] == c.shards[p] || d.shards[p] in d.groups))
  {
    LastStep(n, log);
    var before, cmd := Run(n, log[..|log| - 1]).value.configs, log[|log| - 1];
    var c := before[|before| - 1];
    LeaveOne(c, cmd.gids, cmd.order);
  }

  lemma LeaveOne(c: Config, gids: seq<int>, order: seq<int>)
    requires Lists(order, Remaining(c.groups, gids))
    ensures var d := LeaveConfig(c, gids, order).value;
            && |d.shards| == |c.shards|
            && (forall g :: g in d.groups <==> g in c.groups && g !in gids)
            && (forall g :: g in d.groups ==> d.groups[g] == c.groups[g])
            && (d.groups == map[] ==> forall p :: 0 <= p < |d.shards| ==> d.shards[p] == 0)
            && (d.groups != map[] ==> forall p :: 0 <= p < |d.shards| ==>
                  d.shards[p] !in gids && (d.shards[p] == c.shards[p] || d.shards[p] in d.groups))
  {
    assert forall g :: g in order <==> g in Elements(order);
    assert forall g :: g in gids <==> g in Elements(gids);
    if order != [] {
      LeaveEvicts(c.shards, Elements(gids), order);
      assert order[0] in Remaining(c.groups, gids);
    }
  }
}
