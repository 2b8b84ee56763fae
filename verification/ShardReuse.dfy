/** Writes that share a request id. Clients number their requests by the clock, so two of them can: such an id has
    at most one effect in every run exactly when its keys lie in one shard. */
module ShardReuse {
  import opened ShardTypes
  import opened ShardGroup
  import opened ShardSystem
  import opened ShardInvariant
  import opened ShardSteps
  import opened ShardTheorems
  import opened ShardRuns
  import opened ShardOnce

  function Blank(n: nat): Config {
    Config(0, seq(n, i => 0), map[])
  }

  // ---------- writing in a run ----------

  lemma AppendTwice(a: seq<Action>, b: seq<Action>, c: seq<Action>)
    ensures a + b + c == a + (b + c)
  {
  }

  /** A write at g as the next step: it executes when it is fresh. */
  lemma Write(tr: seq<System>, acts: seq<Action>, n: nat, c: seq<Config>, g: int, x: Group, h: int, y: Group, a: Action)
    returns (tr': seq<System>, acts': seq<Action>)
    requires IsRun(tr, acts) && Pair(tr[|acts|], n, c, g, x, h, y) && a.ApplyPut? && a.g == g
    ensures IsRun(tr', acts') && tr <= tr' && acts' == acts + [a]
    ensures Executes(tr', acts', |acts|, a.id) <==> Fresh(x, a.id, a.configNum, a.key, n)
    ensures Pair(tr'[|acts'|], n, c, g, PutAppend(x, a.id, a.expire, a.configNum, a.key, a.value, a.put, n), h, y)
  {
    tr', acts' := Then(tr, acts, a);
    assert tr'[|acts|] == tr[|acts|];
  }

  lemma ExecutesStill(tr: seq<System>, acts: seq<Action>, tr': seq<System>, acts': seq<Action>, i: nat, id: int)
    requires tr <= tr' && acts <= acts' && Executes(tr, acts, i, id)
    ensures Executes(tr', acts', i, id)
  {
    assert tr'[i] == tr[i] && acts'[i] == acts[i];
  }

  /** A write at g and one at h. */
  lemma WriteAtEach(tr: seq<System>, acts: seq<Action>, n: nat, c: seq<Config>, g: int, x: Group, h: int, y: Group,
                    a: Action, b: Action)
    returns (tr': seq<System>, acts': seq<Action>)
    requires IsRun(tr, acts) && Pair(tr[|acts|], n, c, g, x, h, y)
    requires a.ApplyPut? && a.g == g && b.ApplyPut? && b.g == h
    requires Fresh(x, a.id, a.configNum, a.key, n) && Fresh(y, b.id, b.configNum, b.key, n)
    ensures IsRun(tr', acts') && tr <= tr' && acts' == acts + [a, b]
    ensures Executes(tr', acts', |acts|, a.id) && Executes(tr', acts', |acts| + 1, b.id)
  {
    var tr1, acts1 := Write(tr, acts, n, c, g, x, h, y, a);
    var x1 := PutAppend(x, a.id, a.expire, a.configNum, a.key, a.value, a.put, n);
    tr', acts' := Write(tr1, acts1, n, c, h, y, g, x1, b);
    ExecutesStill(tr1, acts1, tr', acts', |acts|, a.id);
    assert acts + [a] + [b] == acts + [a, b];
  }

  /** Two writes at g. */
  lemma WriteTwice(tr: seq<System>, acts: seq<Action>, n: nat, c: seq<Config>, g: int, x: Group, h: int, y: Group,
                   a: Action, b: Action)
    returns (tr': seq<System>, acts': seq<Action>)
    requires IsRun(tr, acts) && Pair(tr[|acts|], n, c, g, x, h, y)
    requires a.ApplyPut? && a.g == g && b.ApplyPut? && b.g == g && Fresh(x, a.id, a.configNum, a.key, n)
    ensures IsRun(tr', acts') && tr <= tr' && acts' == acts + [a, b] && Executes(tr', acts', |acts|, a.id)
    ensures var x1 := PutAppend(x, a.id, a.expire, a.configNum, a.key, a.value, a.put, n);
            Pair(tr'[|acts'|], n, c, g, PutAppend(x1, b.id, b.expire, b.configNum, b.key, b.value, b.put, n), h, y)
  {
    var tr1, acts1 := Write(tr, acts, n, c, g, x, h, y, a);
    var x1 := PutAppend(x, a.id, a.expire, a.configNum, a.key, a.value, a.put, n);
    tr', acts' := Write(tr1, acts1, n, c, g, x1, h, y, b);
    ExecutesStill(tr1, acts1, tr', acts', |acts|, a.id);
    assert acts + [a] + [b] == acts + [a, b];
  }

  /** Both groups enter configuration 2, c; y then waits for the shard, which g had under configuration 1. */
  ghost predicate Hands(n: nat, c: Config, g: int, x: Group, y: Group, shard: int)
    requires n > 0
  {
    && Drained(x, 2) && Drained(y, 2)
    && NewConf(x, c, n).config.num == 2
    && var z := NewConf(y, c, n);
    && z.config.num == 2 && shard in z.waiting && z.waiting[shard] == 1
    && |z.history| == 2 && z.history[1].num == 1
    && 0 <= shard < |z.history[1].shards| && z.history[1].shards[shard] == g
  }

  /** The group that takes the shard over, with the answer to its pull installed. */
  function TakenOver(n: nat, c: Config, x: Group, y: Group, shard: int): Group
    requires n > 0
  {
    MigrationReply(NewConf(y, c, n), shard, 1, PullPayload(NewConf(x, c, n), shard, 1))
  }

  /** Both groups enter configuration 2, and the shard moves from g to h. */
  lemma PassShard(tr: seq<System>, acts: seq<Action>, n: nat, c: seq<Config>, g: int, x: Group, h: int, y: Group,
                  shard: int)
    returns (tr': seq<System>, acts': seq<Action>, steps: seq<Action>)
    requires IsRun(tr, acts) && Pair(tr[|acts|], n, c, g, x, h, y) && |c| == 3 && Hands(n, c[2], g, x, y, shard)
    ensures IsRun(tr', acts') && tr <= tr' && acts' == acts + steps && |steps| == 5
    ensures forall a :: a in steps ==> !a.ApplyPut?
    ensures Pair(tr'[|acts'|], n, c, g, NewConf(x, c[2], n), h, TakenOver(n, c[2], x, y, shard))
  {
    var tr2, acts2 := Enter(tr, acts, n, c, g, x, h, y, 2);
    tr', acts' := Move(tr2, acts2, n, c, g, NewConf(x, c[2], n), h, NewConf(y, c[2], n), shard);
    var reply := PullReply(h, shard, 1, PullPayload(NewConf(x, c[2], n), shard, 1));
    var moves := [Pull(h, shard), ServePull(PullRequest(h, g, shard, 1)), ApplyReply(reply)];
    steps := [ApplyConfig(g, 2), ApplyConfig(h, 2)] + moves;
    AppendTwice(acts, [ApplyConfig(g, 2), ApplyConfig(h, 2)], moves);
  }

  /** After the shard has moved, h executes the write. */
  lemma MoveAndWrite(tr: seq<System>, acts: seq<Action>, n: nat, c: seq<Config>, g: int, x: Group, h: int, y: Group,
                     shard: int, a: Action, i: nat)
    returns (tr': seq<System>, acts': seq<Action>, steps: seq<Action>, j: nat)
    requires IsRun(tr, acts) && Pair(tr[|acts|], n, c, g, x, h, y) && |c| == 3 && Hands(n, c[2], g, x, y, shard)
    requires a.ApplyPut? && a.g == h && Executes(tr, acts, i, a.id)
    requires Fresh(TakenOver(n, c[2], x, y, shard), a.id, a.configNum, a.key, n)
    ensures IsRun(tr', acts') && tr <= tr' && acts' == acts + steps
    ensures forall b :: b in steps && b.ApplyPut? ==> b == a
    ensures i < j && Executes(tr', acts', i, a.id) && Executes(tr', acts', j, a.id)
  {
    var tr5, acts5, moves := PassShard(tr, acts, n, c, g, x, h, y, shard);
    tr', acts' := Write(tr5, acts5, n, c, h, TakenOver(n, c[2], x, y, shard), g, NewConf(x, c[2], n), a);
    steps := moves + [a];
    j := |acts5|;
    AppendTwice(acts, moves, [a]);
    ExecutesStill(tr, acts, tr', acts', i, a.id);
  }

  // ---------- two writes on keys of two shards ----------

  /** Shard `shard` goes to g, every other one to h. */
  function Split(n: nat, num: int, shard: int, g: int, h: int): Config {
    Config(num, seq(n, i => if i == shard then g else h), map[])
  }

  lemma SplitOwn(n: nat, shard: int, g: int, h: int, i: int)
    requires n > 0 && 0 <= i < n && g != h
    ensures var c := Split(n, 1, shard, g, h);
            var x, y := NewConf(InitGroup(g, Blank(n)), c, n), NewConf(InitGroup(h, Blank(n)), c, n);
            && x.config == c && y.config == c && x.cache == map[] && y.cache == map[]
            && (i in x.own <==> i == shard) && (i in y.own <==> i != shard)
  {
    var c := Split(n, 1, shard, g, h);
    assert i in Assigned(c, g) <==> i == shard;
    assert i in Assigned(c, h) <==> i != shard;
  }

  /** Both groups enter the first configuration. */
  lemma GoTo(s: System, c: seq<Config>, g: int, h: int) returns (tr: seq<System>, acts: seq<Action>)
    requires Init(s) && g in s.groups && h in s.groups && g != h
    requires |c| == 2 && c[0] == Blank(s.n) && c[1].num == 1 && |c[1].shards| == s.n
    ensures IsRun(tr, acts) && tr[0] == s && |acts| == 3
    ensures Pair(tr[3], s.n, c, g, NewConf(InitGroup(g, c[0]), c[1], s.n), h, NewConf(InitGroup(h, c[0]), c[1], s.n))
  {
    tr, acts := Then([s], [], AddConfig(c[1]));
    assert s.configs + [c[1]] == c;
    tr, acts := Enter(tr, acts, s.n, c, g, InitGroup(g, c[0]), h, InitGroup(h, c[0]), 1);
  }

  /** Two writes with one id at two groups, each on a key of a shard of its own: both take effect, one directly
      after the other. */
  lemma TwoShardsOneId(s: System, a: Action, b: Action) returns (tr: seq<System>, acts: seq<Action>)
    requires Init(s) && a.ApplyPut? && b.ApplyPut? && a.id == b.id && a.configNum == 1 && b.configNum == 1
    requires a.g in s.groups && b.g in s.groups && a.g != b.g
    requires 0 <= Key2Shard(a.key, s.n) < s.n && 0 <= Key2Shard(b.key, s.n) < s.n
    requires Key2Shard(a.key, s.n) != Key2Shard(b.key, s.n)
    ensures IsRun(tr, acts) && tr[0] == s && |acts| == 5 && acts[3] == a && acts[4] == b
    ensures Executes(tr, acts, 3, a.id) && Executes(tr, acts, 4, a.id)
  {
    var n, shard := s.n, Key2Shard(a.key, s.n);
    var c := [Blank(n), Split(n, 1, shard, a.g, b.g)];
    var x, y := InitGroup(a.g, c[0]), InitGroup(b.g, c[0]);
    tr, acts := GoTo(s, c, a.g, b.g);
    SplitOwn(n, shard, a.g, b.g, shard);
    SplitOwn(n, shard, a.g, b.g, Key2Shard(b.key, n));
    tr, acts := WriteAtEach(tr, acts, n, c, a.g, NewConf(x, c[1], n), b.g, NewConf(y, c[1], n), a, b);
  }

  // ---------- a write on another shard takes the id of an executed one ----------

  function WriteOf(g: int, id: int, num: int, key: Str): Action {
    ApplyPut(g, id, id + 1, num, key, [], true)
  }

  function Written(x: Group, id: int, key: Str, n: nat): Group
    requires n > 0
  {
    PutAppend(x, id, id + 1, 1, key, [], true, n)
  }

  /** Group g after both writes, still under the configuration in which it has every shard. */
  function Writer(n: nat, shard: int, g: int, id: int, key: Str, other: Str): Group
    requires n > 0
  {
    Written(Written(NewConf(InitGroup(g, Blank(n)), Split(n, 1, shard, g, g), n), id, key, n), id, other, n)
  }

  lemma WriterFacts(n: nat, g: int, h: int, id: int, key: Str, other: Str)
    requires n > 0 && g != h && 0 <= Key2Shard(key, n) < n && Key2Shard(other, n) != Key2Shard(key, n)
    ensures var shard := Key2Shard(key, n);
            var x := NewConf(InitGroup(g, Blank(n)), Split(n, 1, shard, g, g), n);
            && Fresh(x, id, 1, key, n) && x.waiting == map[] && x.config == Split(n, 1, shard, g, g)
            && var z := Writer(n, shard, g, id, key, other);
            && z.config == x.config && z.waiting == map[]
            && id !in PullPayload(NewConf(z, Split(n, 2, shard, h, g), n), shard, 1).cache
  {
    var shard := Key2Shard(key, n);
    assert shard in Assigned(Split(n, 1, shard, g, g), g) && shard !in Assigned(Split(n, 2, shard, h, g), g);
    var z := Writer(n, shard, g, id, key, other);
    assert z.cache[id] == other && shard in z.own;
  }

  lemma TakerFacts(n: nat, shard: int, g: int, h: int)
    requires n > 0 && g != h && 0 <= shard < n
    ensures var y := NewConf(InitGroup(h, Blank(n)), Split(n, 1, shard, g, g), n);
            && y.waiting == map[] && y.config == Split(n, 1, shard, g, g)
            && var z := NewConf(y, Split(n, 2, shard, h, g), n);
            && z.config == Split(n, 2, shard, h, g) && z.own == {} && z.waiting == map[shard := 1]
            && z.history == [Blank(n), Split(n, 1, shard, g, g)] && z.cache == map[]
  {
    assert Assigned(Split(n, 1, shard, g, g), h) == {} && Assigned(Split(n, 2, shard, h, g), h) == {shard};
    var y := NewConf(InitGroup(h, Blank(n)), Split(n, 1, shard, g, g), n);
    assert y.own == {} && y.waiting == map[];
  }

  /** The id does not come with the shard, since g has it noted with a key of another one. */
  lemma FreshAgain(n: nat, g: int, h: int, id: int, key: Str, other: Str)
    requires n > 0 && g != h && 0 <= Key2Shard(key, n) < n && Key2Shard(other, n) != Key2Shard(key, n)
    ensures var shard := Key2Shard(key, n);
            var x, y := Writer(n, shard, g, id, key, other),
                        NewConf(InitGroup(h, Blank(n)), Split(n, 1, shard, g, g), n);
            var c := Split(n, 2, shard, h, g);
            Hands(n, c, g, x, y, shard) && Fresh(TakenOver(n, c, x, y, shard), id, 2, key, n)
  {
    WriterFacts(n, g, h, id, key, other);
    TakerFacts(n, Key2Shard(key, n), g, h);
  }

  /** Every write among the steps is one of the three with the id, and none expires it. */
  ghost predicate WritesOf(acts: seq<Action>, id: int, g: int, h: int, key: Str, other: Str) {
    forall a :: a in acts && a.ApplyPut? ==>
      a == WriteOf(g, id, 1, key) || a == WriteOf(g, id, 1, other) || a == WriteOf(h, id, 2, key)
  }

  lemma GoAllTo(s: System, shard: int, g: int, h: int) returns (tr: seq<System>, acts: seq<Action>)
    requires Init(s) && g in s.groups && h in s.groups && g != h && 0 <= shard < s.n
    ensures IsRun(tr, acts) && tr[0] == s && |acts| == 4 && (forall a :: a in acts ==> !a.ApplyPut?)
    ensures var c := [Blank(s.n), Split(s.n, 1, shard, g, g), Split(s.n, 2, shard, h, g)];
            Pair(tr[4], s.n, c, g, NewConf(InitGroup(g, c[0]), c[1], s.n), h, NewConf(InitGroup(h, c[0]), c[1], s.n))
  {
    var c := [Blank(s.n), Split(s.n, 1, shard, g, g), Split(s.n, 2, shard, h, g)];
    assert s.configs[0] == Blank(s.n);
    tr, acts := Publish(s, c[1], c[2]);
    assert s.configs + [c[1], c[2]] == c;
    tr, acts := Enter(tr, acts, s.n, c, g, InitGroup(g, c[0]), h, InitGroup(h, c[0]), 1);
  }

  /** Group g executes the write and refuses the other one. */
  lemma WriteBoth(s: System, g: int, h: int, id: int, key: Str, other: Str) returns (tr: seq<System>, acts: seq<Action>)
    requires Init(s) && g in s.groups && h in s.groups && g != h
    requires 0 <= Key2Shard(key, s.n) < s.n && Key2Shard(other, s.n) != Key2Shard(key, s.n)
    ensures IsRun(tr, acts) && tr[0] == s && |acts| == 6 && Executes(tr, acts, 4, id)
    ensures WritesOf(acts, id, g, h, key, other)
    ensures var shard := Key2Shard(key, s.n);
            var c := [Blank(s.n), Split(s.n, 1, shard, g, g), Split(s.n, 2, shard, h, g)];
            Pair(tr[6], s.n, c, g, Writer(s.n, shard, g, id, key, other), h, NewConf(InitGroup(h, c[0]), c[1], s.n))
  {
    var n, shard := s.n, Key2Shard(key, s.n);
    var c := [Blank(n), Split(n, 1, shard, g, g), Split(n, 2, shard, h, g)];
    WriterFacts(n, g, h, id, key, other);
    tr, acts := GoAllTo(s, shard, g, h);
    tr, acts := WriteTwice(tr, acts, n, c, g, NewConf(InitGroup(g, c[0]), c[1], n), h,
                           NewConf(InitGroup(h, c[0]), c[1], n), WriteOf(g, id, 1, key), WriteOf(g, id, 1, other));
  }

  /** The shard moves to h without the id, which g has noted with the other key, and h executes the write again. */
  lemma SharedIdTwice(s: System, g: int, h: int, id: int, key: Str, other: Str)
    returns (tr: seq<System>, acts: seq<Action>, j: nat)
    requires Init(s) && g in s.groups && h in s.groups && g != h
    requires 0 <= Key2Shard(key, s.n) < s.n && Key2Shard(other, s.n) != Key2Shard(key, s.n)
    ensures IsRun(tr, acts) && tr[0] == s && WritesOf(acts, id, g, h, key, other)
    ensures 4 < j && Executes(tr, acts, 4, id) && Executes(tr, acts, j, id)
  {
    var n, shard := s.n, Key2Shard(key, s.n);
    var c := [Blank(n), Split(n, 1, shard, g, g), Split(n, 2, shard, h, g)];
    var x, y := Writer(n, shard, g, id, key, other), NewConf(InitGroup(h, c[0]), c[1], n);
    FreshAgain(n, g, h, id, key, other);
    var tr6, acts6 := WriteBoth(s, g, h, id, key, other);
    var steps;
    tr, acts, steps, j := MoveAndWrite(tr6, acts6, n, c, g, x, h, y, shard, WriteOf(h, id, 2, key), 4);
  }

  // ---------- exactly when an id has one effect ----------

  /** Between two effects of the id, a request that expires it is applied. */
  ghost predicate Once(tr: seq<System>, acts: seq<Action>, id: int) {
    forall i: nat, j: nat {:trigger Executes(tr, acts, i, id), Executes(tr, acts, j, id)} ::
      i < j && Executes(tr, acts, i, id) && Executes(tr, acts, j, id) ==>
        exists k: nat {:trigger Expires(acts, k, id)} :: i < k < j && Expires(acts, k, id)
  }

  /** The writes with the id are on these keys. */
  ghost predicate Uses(acts: seq<Action>, id: int, keys: set<Str>) {
    forall a :: a in acts && a.ApplyPut? && a.id == id ==> a.key in keys
  }

  /** A byte below zero gives a negative shard, which no group ever has; otherwise the keys share their shard. */
  ghost predicate ShareShard(keys: set<Str>, n: nat)
    requires n > 0
  {
    forall a, b :: a in keys && b in keys && Key2Shard(a, n) >= 0 ==> Key2Shard(b, n) == Key2Shard(a, n)
  }

  lemma ExecutedShard(tr: seq<System>, acts: seq<Action>, j: nat, id: int)
    requires IsRun(tr, acts) && Executes(tr, acts, j, id)
    ensures tr[j].n == tr[0].n > 0 && Key2Shard(acts[j].key, tr[0].n) >= 0 && acts[j] in acts
  {
    SameShards(tr, acts, j);
    RunCore(tr, acts, j);
    OwnIsLive(tr[j], acts[j].g, Key2Shard(acts[j].key, tr[j].n));
  }

  lemma NextShards(s: System, a: Action)
    requires s.n > 0 && Enabled(s, a)
    ensures Next(s, a).n == s.n
  {
  }

  lemma {:induction false} SameShards(tr: seq<System>, acts: seq<Action>, j: nat)
    requires IsRun(tr, acts) && j < |tr|
    ensures tr[j].n == tr[0].n > 0
  {
    if j > 0 {
      SameShards(tr, acts, j - 1);
      assert acts[j - 1] == acts[j - 1];
      NextShards(tr[j - 1], acts[j - 1]);
    }
  }

  lemma SharingOnce(tr: seq<System>, acts: seq<Action>, id: int, keys: set<Str>)
    requires IsRun(tr, acts) && tr[0].n > 0 && Uses(acts, id, keys) && ShareShard(keys, tr[0].n)
    ensures Once(tr, acts, id)
  {
    forall i: nat, j: nat | i < j && Executes(tr, acts, i, id) && Executes(tr, acts, j, id)
      ensures exists k: nat {:trigger Expires(acts, k, id)} :: i < k < j && Expires(acts, k, id)
    {
      ExecutedShard(tr, acts, j, id);
      var shard := Key2Shard(acts[j].key, tr[0].n);
      forall k | 0 <= k < j && acts[k].ApplyPut? && acts[k].id == id ensures Key2Shard(acts[k].key, tr[0].n) == shard {
        assert acts[k] in acts;
      }
      AtMostOnce(tr, acts, i, j, id);
    }
  }

  lemma NeverExpired(acts: seq<Action>, id: int, g: int, h: int, key: Str, other: Str)
    requires WritesOf(acts, id, g, h, key, other)
    ensures forall k: nat {:trigger Expires(acts, k, id)} :: !Expires(acts, k, id)
  {
    forall k: nat ensures !Expires(acts, k, id) {
      if k < |acts| { assert acts[k] in acts; }
    }
  }

  lemma NotSharingTwice(s: System, g: int, h: int, id: int, keys: set<Str>)
    returns (tr: seq<System>, acts: seq<Action>)
    requires Init(s) && g in s.groups && h in s.groups && g != h && !ShareShard(keys, s.n)
    ensures IsRun(tr, acts) && tr[0] == s && Uses(acts, id, keys) && !Once(tr, acts, id)
  {
    var key, other :| key in keys && other in keys && Key2Shard(key, s.n) >= 0
      && Key2Shard(other, s.n) != Key2Shard(key, s.n);
    var j;
    tr, acts, j := SharedIdTwice(s, g, h, id, key, other);
    NeverExpired(acts, id, g, h, key, other);
  }

  /** In a store with two groups, an id whose writes are on the given keys has at most one effect between two
      expirations, in every run, exactly when the keys share one shard or can never be written. */
  lemma OnceIff(s: System, g: int, h: int, id: int, keys: set<Str>)
    requires Init(s) && g in s.groups && h in s.groups && g != h
    ensures ShareShard(keys, s.n) <==>
              forall tr, acts :: IsRun(tr, acts) && tr[0] == s && Uses(acts, id, keys) ==> Once(tr, acts, id)
  {
    if ShareShard(keys, s.n) {
      forall tr, acts | IsRun(tr, acts) && tr[0] == s && Uses(acts, id, keys) ensures Once(tr, acts, id) {
        SharingOnce(tr, acts, id, keys);
      }
    } else {
      var tr, acts := NotSharingTwice(s, g, h, id, keys);
    }
  }
}
