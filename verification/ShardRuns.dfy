/** Building runs of the sharded store step by step, for a shard that one group hands to another. */
module ShardRuns {
  import opened ShardTypes
  import opened ShardGroup
  import opened ShardSystem
  import opened ShardInvariant
  import opened ShardTheorems

  /** What is known of a state about groups g and h. */
  ghost predicate Pair(s: System, n: nat, configs: seq<Config>, g: int, x: Group, h: int, y: Group) {
    && s.n == n > 0 && s.configs == configs
    && g != h && g in s.groups && h in s.groups && s.groups[g] == x && s.groups[h] == y
  }

  lemma Extend(tr: seq<System>, acts: seq<Action>, a: Action)
    requires IsRun(tr, acts) && tr[|acts|].n > 0 && Enabled(tr[|acts|], a)
    ensures IsRun(tr + [Next(tr[|acts|], a)], acts + [a])
  {
    var tr', acts' := tr + [Next(tr[|acts|], a)], acts + [a];
    forall i | 0 <= i < |acts'|
      ensures tr'[i].n > 0 && Enabled(tr'[i], acts'[i]) && tr'[i + 1] == Next(tr'[i], acts'[i])
    {
      if i < |acts| { assert acts'[i] == acts[i]; }
    }
  }

  /** The run one step longer. */
  lemma Then(tr: seq<System>, acts: seq<Action>, a: Action) returns (tr': seq<System>, acts': seq<Action>)
    requires IsRun(tr, acts) && tr[|acts|].n > 0 && Enabled(tr[|acts|], a)
    ensures IsRun(tr', acts') && acts <= acts' && acts' == acts + [a] && tr <= tr'
    ensures tr'[|acts'|] == Next(tr[|acts|], a)
  {
    Extend(tr, acts, a);
    tr', acts' := tr + [Next(tr[|acts|], a)], acts + [a];
  }

  lemma Publish(s: System, c1: Config, c2: Config) returns (tr: seq<System>, acts: seq<Action>)
    requires Init(s) && c1.num == 1 && c2.num == 2 && |c1.shards| == |c2.shards| == s.n
    ensures IsRun(tr, acts) && tr[|acts|] == s.(configs := s.configs + [c1, c2]) && tr[0] == s
    ensures acts == [AddConfig(c1), AddConfig(c2)]
  {
    tr, acts := [s], [];
    tr, acts := Then(tr, acts, AddConfig(c1));
    tr, acts := Then(tr, acts, AddConfig(c2));
    assert s.configs + [c1] + [c2] == s.configs + [c1, c2];
  }

  /** Both groups enter the configuration. */
  lemma Enter(tr: seq<System>, acts: seq<Action>, n: nat, c: seq<Config>, g: int, x: Group, h: int, y: Group, num: nat)
    returns (tr': seq<System>, acts': seq<Action>)
    requires IsRun(tr, acts) && Pair(tr[|acts|], n, c, g, x, h, y) && num < |c|
    requires Drained(x, num) && Drained(y, num)
    ensures IsRun(tr', acts') && tr <= tr' && acts' == acts + [ApplyConfig(g, num), ApplyConfig(h, num)]
    ensures Pair(tr'[|acts'|], n, c, g, NewConf(x, c[num], n), h, NewConf(y, c[num], n))
    ensures tr'[|acts'|].net == tr[|acts|].net
  {
    tr', acts' := Then(tr, acts, ApplyConfig(g, num));
    tr', acts' := Then(tr', acts', ApplyConfig(h, num));
    assert acts + [ApplyConfig(g, num)] + [ApplyConfig(h, num)] == acts + [ApplyConfig(g, num), ApplyConfig(h, num)];
  }

  /** Group h pulls the shard it waits for, g answers, and h installs the answer. */
  lemma Move(tr: seq<System>, acts: seq<Action>, n: nat, c: seq<Config>, g: int, x: Group, h: int, y: Group, shard: int)
    returns (tr': seq<System>, acts': seq<Action>)
    requires IsRun(tr, acts) && Pair(tr[|acts|], n, c, g, x, h, y)
    requires x.config.num == 2 && y.config.num == 2 && shard in y.waiting && y.waiting[shard] == 1
    requires |y.history| == 2 && y.history[1].num == 1
    requires 0 <= shard < |y.history[1].shards| && y.history[1].shards[shard] == g
    ensures IsRun(tr', acts') && tr <= tr'
    ensures var reply := PullReply(h, shard, 1, PullPayload(x, shard, 1));
            acts' == acts + [Pull(h, shard), ServePull(PullRequest(h, g, shard, 1)), ApplyReply(reply)]
    ensures Pair(tr'[|acts'|], n, c, g, x, h, MigrationReply(y, shard, 1, PullPayload(x, shard, 1)))
  {
    var req := PullRequest(h, g, shard, 1);
    var reply := PullReply(h, shard, 1, PullPayload(x, shard, 1));
    tr', acts' := Then(tr, acts, Pull(h, shard));
    assert req in tr'[|acts'|].net;
    tr', acts' := Then(tr', acts', ServePull(req));
    assert reply in tr'[|acts'|].net;
    tr', acts' := Then(tr', acts', ApplyReply(reply));
    assert acts + [Pull(h, shard)] + [ServePull(req)] + [ApplyReply(reply)] ==
      acts + [Pull(h, shard), ServePull(req), ApplyReply(reply)];
  }
}
