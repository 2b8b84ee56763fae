/** The shardmaster's server: the fields its log entries update, and the loops that do it in place. */
module MasterServer {
  import opened Collections
  import opened ShardTypes
  import opened Rebalance
  import opened RebalanceLeave
  import opened MasterHistory

  class ShardmasterServer {
    const n: nat
    var configs: seq<Config>
    var cache: map<int, int>
    /** Whether the last entry was accepted. */
    var flag: bool

    ghost function Value(): Master
      reads this
    {
      Master(configs, cache)
    }

    constructor (n: nat)
      ensures this.n == n && Value() == Initial(n)
    {
      this.n := n;
      configs, cache, flag := [Config(0, seq(n, i => 0), map[])], map[], true;
    }

    method AppendNewConfig(c: Config)
      modifies this`configs
      ensures configs == old(configs) + [c.(num := |old(configs)|)]
    {
      configs := configs + [c.(num := |configs|)];
    }

    method OnJoinApply(clientId: int, requestSeq: int, servers: seq<Joined>)
      requires configs != []
      requires CountOf(cache, clientId) < requestSeq ==> JoinAllowed(GetConfig(configs, -1), servers)
      modifies this
      ensures Apply(old(Value()), Join(clientId, requestSeq, servers)) == Some(Value())
      ensures flag == Accepts(old(Value()), Join(clientId, requestSeq, servers))
    {
      if CountOf(cache, clientId) >= requestSeq {
        flag := false;
        return;
      }
      flag := true;
      var newConfig := GetConfig(configs, -1);
      JoinDefinedIff(newConfig, servers);
      var groups, newGids := MergeServers(newConfig.groups, servers);
      var n := |newConfig.shards|;
      var shards := new int[n](i requires 0 <= i < n => newConfig.shards[i]);
      assert shards[..] == newConfig.shards;
      if groups == map[] {
        ClearShards(shards);
      } else if |groups| <= n {
        Deal(shards, |groups|, newGids);
      }
      cache := cache[clientId := requestSeq];
      AppendNewConfig(newConfig.(shards := shards[..], groups := groups));
    }

    method OnLeaveApply(clientId: int, requestSeq: int, gids: seq<int>, order: seq<int>)
      requires configs != []
      requires CountOf(cache, clientId) < requestSeq ==> Lists(order, Remaining(GetConfig(configs, -1).groups, gids))
      modifies this
      ensures Apply(old(Value()), Leave(clientId, requestSeq, gids, order)) == Some(Value())
      ensures flag == Accepts(old(Value()), Leave(clientId, requestSeq, gids, order))
    {
      if CountOf(cache, clientId) >= requestSeq {
        flag := false;
        return;
      }
      flag := true;
      var newConfig := GetConfig(configs, -1);
      var groups, gone := RemoveGroups(newConfig.groups, gids);
      var n := |newConfig.shards|;
      var shards := new int[n](i requires 0 <= i < n => newConfig.shards[i]);
      assert shards[..] == newConfig.shards;
      ShareOut(shards, groups, gone, order);
      cache := cache[clientId := requestSeq];
      AppendNewConfig(newConfig.(shards := shards[..], groups := groups));
    }

    method OnMoveApply(clientId: int, requestSeq: int, shard: int, gid: int)
      requires configs != []
      requires CountOf(cache, clientId) < requestSeq ==> 0 <= shard < |GetConfig(configs, -1).shards|
      modifies this
      ensures Apply(old(Value()), Move(clientId, requestSeq, shard, gid)) == Some(Value())
      ensures flag == Accepts(old(Value()), Move(clientId, requestSeq, shard, gid))
    {
      if CountOf(cache, clientId) >= requestSeq {
        flag := false;
        return;
      }
      flag := true;
      var newConfig := GetConfig(configs, -1);
      newConfig := newConfig.(shards := newConfig.shards[shard := gid]);
      cache := cache[clientId := requestSeq];
      AppendNewConfig(newConfig);
    }
  }

  method MergeServers(groups: Groups, servers: seq<Joined>) returns (merged: Groups, newGids: seq<int>)
    ensures merged == Merge(groups, servers, |servers|) && newGids == NewGids(groups, servers, |servers|)
  {
    merged, newGids := groups, [];
    for k := 0 to |servers|
      invariant merged == Merge(groups, servers, k) && newGids == NewGids(groups, servers, k)
    {
      var gid := servers[k].gid;
      if gid in merged {
        merged := merged[gid := merged[gid] + servers[k].servers];
      } else {
        merged := merged[gid := servers[k].servers];
        newGids := newGids + [gid];
      }
    }
  }

  method RemoveGroups(groups: Groups, gids: seq<int>) returns (remaining: Groups, gone: set<int>)
    ensures remaining == Remaining(groups, gids) && gone == Elements(gids)
  {
    remaining, gone := groups, {};
    for k := 0 to |gids|
      invariant gone == Elements(gids[..k]) && remaining == groups - gone
    {
      ElementsTake(gids, k);
      remaining := remaining - {gids[k]};
      gone := gone + {gids[k]};
    }
    assert gids[..|gids|] == gids;
  }

  method ClearShards(shards: array<int>)
    modifies shards
    ensures shards[..] == seq(shards.Length, i => 0)
  {
    for i := 0 to shards.Length
      invariant forall p :: 0 <= p < i ==> shards[p] == 0
    {
      shards[i] := 0;
    }
  }

  lemma {:induction false} DealDefined(shards: seq<int>, k: nat, m: nat, least: int, spare: int, newGids: seq<int>)
    requires k <= m <= |shards| && DealTo(shards, m, least, spare, newGids).Dealing?
    ensures DealTo(shards, k, least, spare, newGids).Dealing?
  {
    if k < m { DealDefined(shards, k, m - 1, least, spare, newGids); }
  }

  /** The loop of a Join, in place. */
  method Deal(shards: array<int>, groups: nat, newGids: seq<int>)
    requires 0 < groups <= shards.Length && JoinShards(shards[..], groups, newGids).Dealing?
    modifies shards
    ensures shards[..] == JoinShards(old(shards[..]), groups, newGids).shards
  {
    var least := shards.Length / groups;
    var maxCount := shards.Length % groups;
    var most := if maxCount != 0 then least + 1 else least;
    DealAll(shards, least, most, maxCount, newGids);
  }

  method DealAll(shards: array<int>, least: int, most: int, maxCount: int, newGids: seq<int>)
    requires DealTo(shards[..], shards.Length, least, maxCount, newGids).Dealing?
    requires most == if maxCount != 0 then least + 1 else least
    modifies shards
    ensures shards[..] == DealTo(old(shards[..]), shards.Length, least, maxCount, newGids).shards
  {
    ghost var start := shards[..];
    var counts: map<int, int> := map[];
    var spare := maxCount;
    var i: nat, j: nat := 0, 0;
    while i < shards.Length
      invariant i <= shards.Length
      invariant DealTo(start, i, least, maxCount, newGids) == Dealing(shards[..], counts, j, spare)
    {
      DealDefined(start, i + 1, shards.Length, least, maxCount, newGids);
      assert DealTo(start, i + 1, least, maxCount, newGids)
          == DealOne(Dealing(shards[..], counts, j, spare), i, least, maxCount == 0, newGids);
      counts, j, spare := DealShard(shards, i, least, most, newGids, counts, j, spare);
      i := i + 1;
    }
  }

  method DealShard(shards: array<int>, i: nat, least: int, most: int, newGids: seq<int>, counts: map<int, int>,
          j: nat, spare: int)
    returns (counts': map<int, int>, j': nat, spare': int)
    requires i < shards.Length && least <= most && (newGids != [] ==> j < |newGids|)
    requires DealOne(Dealing(shards[..], counts, j, spare), i, least, least == most, newGids).Dealing?
    modifies shards
    ensures Dealing(shards[..], counts', j', spare')
         == DealOne(Dealing(old(shards[..]), counts, j, spare), i, least, least == most, newGids)
  {
    counts', j', spare' := counts, j, spare;
    var gid := shards[i];
    if gid == 0
       || (least == most && CountOf(counts, gid) == least)
       || (least < most && CountOf(counts, gid) == least && spare <= 0)
    {
      var newGid := newGids[j];
      shards[i] := newGid;
      counts' := Bump(counts, newGid);
      j' := (j + 1) % |newGids|;
      assert shards[..] == old(shards[..])[i := newGid];
    } else {
      counts' := Bump(counts, gid);
      if CountOf(counts', gid) == least {
        spare' := spare - 1;
      }
    }
  }

  method FindShort(rest: seq<int>, share: int, counts: map<int, int>) returns (k: nat)
    ensures k == FirstShort(rest, share, counts, 0)
  {
    k := 0;
    while k < |rest|
      invariant k <= |rest| && FirstShort(rest, share, counts, k) == FirstShort(rest, share, counts, 0)
    {
      if CountOf(counts, rest[k]) < share {
        return;
      }
      k := k + 1;
    }
  }

  /** What a Leave makes of the assignment. */
  method ShareOut(shards: array<int>, groups: Groups, gone: set<int>, order: seq<int>)
    requires Lists(order, groups)
    modifies shards
    ensures shards[..] == LeaveShards(old(shards[..]), gone, order)
  {
    OneEach(order, groups);
    if groups == map[] {
      ClearShards(shards);
    } else {
      Redistribute(shards, gone, order, ShareOf(shards.Length, |groups|));
    }
  }

  /** The loop of a Leave, in place: filling up a group starts it over, with the counters as they are. */
  method Redistribute(shards: array<int>, gone: set<int>, rest: seq<int>, share: int)
    requires rest != []
    modifies shards
    ensures shards[..] == LeaveLoop(old(shards[..]), map[], 0, 0, gone, rest, share)
  {
    var counts: map<int, int> := map[];
    var i, j := 0, 0;
    while i < shards.Length
      invariant 0 <= i <= shards.Length && 0 <= j < |rest|
      invariant LeaveLoop(shards[..], counts, i, j, gone, rest, share)
             == LeaveLoop(old(shards[..]), map[], 0, 0, gone, rest, share)
      decreases Deficit(rest, share, counts), shards.Length - i
    {
      ghost var before := shards[..];
      var gid := shards[i];
      if gid in gone || CountOf(counts, gid) == share {
        var k := FindShort(rest, share, counts);
        if k < |rest| {
          DeficitFalls(rest, share, counts, rest[k]);
          shards[i] := rest[k];
          counts := Bump(counts, rest[k]);
          assert shards[..] == before[i := rest[k]];
          i, j := 0, 0;
          continue;
        }
        var id := rest[j];
        DeficitFalls(rest, share, counts, id);
        shards[i] := id;
        counts := Bump(counts, id);
        assert shards[..] == before[i := id];
        j := (j + 1) % |rest|;
      } else {
        DeficitFalls(rest, share, counts, gid);
        counts := Bump(counts, gid);
      }
      i := i + 1;
    }
  }

  /** A list of each group once is as long as there are groups. */
  lemma OneEach(order: seq<int>, groups: Groups)
    requires Lists(order, groups)
    ensures |order| == |groups|
  {
    DistinctSize(order);
  }
}
