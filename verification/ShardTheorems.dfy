/** What holds of every run of the sharded store. */
module ShardTheorems {
  import opened ShardTypes
  import opened ShardGroup
  import opened ShardSystem
  import opened ShardInvariant
  import opened ShardSteps
  import opened ShardMoves

  lemma InitCore(s: System, k: Str)
    requires Init(s)
    ensures Core(s) && View(s, k) == []
  {
    assert ConfigOk(s, 0);
  }

  /** The write a step performs on the map, if any. */
  datatype Write = NoWrite | Set(key: Str, value: Str) | Append(key: Str, value: Str)

  function Effect(s: System, a: Action): Write
    requires s.n > 0 && Enabled(s, a)
  {
    match a
    case ApplyPut(g, id, _, configNum, key, value, put) =>
      if !Fresh(s.groups[g], id, configNum, key, s.n) then NoWrite
      else if put then Set(key, value) else Append(key, value)
    case _ => NoWrite
  }

  function After(w: Write, k: Str, v: Str): Str {
    match w
    case NoWrite => v
    case Set(key, value) => if k == key then value else v
    case Append(key, value) => if k == key then v + value else v
  }

  /** Every step changes the map by its own write and by nothing else. */
  lemma StepRefines(s: System, a: Action, k: Str)
    requires Core(s) && Enabled(s, a)
    ensures Core(Next(s, a)) && View(Next(s, a), k) == After(Effect(s, a), k, View(s, k))
  {
    match a
    case AddConfig(c) => AddConfigKeeps(s, c, k);
    case ApplyConfig(g, num) => ApplyConfigKeeps(s, g, num, k);
    case ApplyGet(g, configNum, key) => GetReads(s, g, configNum, key, k);
    case ApplyPut(g, id, expire, configNum, key, value, put) =>
      PutWrites(s, g, id, expire, configNum, key, value, put, k);
    case Pull(g, shard) => PullKeeps(s, g, shard, k);
    case ServePull(m) => ServePullKeeps(s, m, k);
    case ApplyReply(m) => ApplyReplyKeeps(s, m, k);
    case Clean(g, shard, num) => CleanKeeps(s, g, shard, num, k);
    case ApplyCleanup(m) => CleanupKeeps(s, m, k);
    case FinishClean(m) => FinishKeeps(s, m, k);
  }

  ghost predicate IsRun(tr: seq<System>, acts: seq<Action>) {
    && |tr| == |acts| + 1
    && Init(tr[0])
    && (forall i {:trigger acts[i]} :: 0 <= i < |acts| ==>
          tr[i].n > 0 && Enabled(tr[i], acts[i]) && tr[i + 1] == Next(tr[i], acts[i]))
  }

  lemma {:induction false} RunCore(tr: seq<System>, acts: seq<Action>, i: nat)
    requires IsRun(tr, acts) && i < |tr|
    ensures Core(tr[i])
  {
    if i == 0 {
      InitCore(tr[0], []);
    } else {
      RunCore(tr, acts, i - 1);
      assert acts[i - 1] == acts[i - 1];
      StepRefines(tr[i - 1], acts[i - 1], []);
    }
  }

  /** The value of k in a plain map to which the writes of the first i steps are applied in order. */
  ghost function Replay(tr: seq<System>, acts: seq<Action>, i: nat, k: Str): Str
    requires IsRun(tr, acts) && i < |tr|
  {
    if i == 0 then [] else
    assert acts[i - 1] == acts[i - 1];
    After(Effect(tr[i - 1], acts[i - 1]), k, Replay(tr, acts, i - 1, k))
  }

  /** The store refines one map: however shards move, it holds what the accepted writes left there. */
  lemma {:induction false} RefinesOneMap(tr: seq<System>, acts: seq<Action>, i: nat, k: Str)
    requires IsRun(tr, acts) && i < |tr|
    ensures Core(tr[i]) && View(tr[i], k) == Replay(tr, acts, i, k)
  {
    RunCore(tr, acts, i);
    if i == 0 {
      InitCore(tr[0], k);
    } else {
      RefinesOneMap(tr, acts, i - 1, k);
      assert acts[i - 1] == acts[i - 1];
      StepRefines(tr[i - 1], acts[i - 1], k);
    }
  }

  /** An accepted Get returns what the accepted writes before it left at the key. */
  lemma ServedReadsReplay(tr: seq<System>, acts: seq<Action>, i: nat, g: int, configNum: int, key: Str)
    requires IsRun(tr, acts) && i < |acts| && acts[i] == ApplyGet(g, configNum, key)
    requires g in tr[i].groups && tr[i].n > 0 && Serves(tr[i].groups[g], configNum, key, tr[i].n)
    ensures Lookup(Get(tr[i].groups[g], configNum, key, tr[i].n).data, key) == Replay(tr, acts, i, key)
  {
    RefinesOneMap(tr, acts, i, key);
    GetReads(tr[i], g, configNum, key, key);
  }

  /** No shard is owned by two groups at a time, whatever configurations they are at. */
  lemma OwnershipExclusive(tr: seq<System>, acts: seq<Action>, i: nat, g: int, h: int)
    requires IsRun(tr, acts) && i < |tr| && g in tr[i].groups && h in tr[i].groups && g != h
    ensures tr[i].groups[g].own !! tr[i].groups[h].own
  {
    RunCore(tr, acts, i);
    var s := tr[i];
    forall x | x in s.groups[g].own ensures x !in s.groups[h].own {
      OwnIsLive(s, g, x);
      if x in s.groups[h].own { OwnIsLive(s, h, x); }
    }
  }

  /** Inside a group, the shards its configuration gives it are those it owns and those it waits for,
      all of them from the configuration before; its history is the published one. */
  lemma OwnershipPartition(tr: seq<System>, acts: seq<Action>, i: nat, g: int)
    requires IsRun(tr, acts) && i < |tr| && g in tr[i].groups
    ensures var x := tr[i].groups[g];
            && x.own !! x.waiting.Keys && x.own + x.waiting.Keys == Assigned(x.config, g)
            && (forall j :: j in x.waiting ==> x.waiting[j] == x.config.num - 1)
            && |x.history| == x.config.num < |tr[i].configs|
            && (forall k :: 0 <= k < |x.history| ==> x.history[k].num == k && x.history[k] == tr[i].configs[k])
  {
    RunCore(tr, acts, i);
    var s := tr[i];
    assert GroupOk(s, g);
    forall k | 0 <= k < |s.groups[g].history| ensures s.groups[g].history[k].num == k {
      assert ConfigOk(s, k);
    }
  }

  // ---------- shards that no group had ----------

  /** Group g waits for shard j from a configuration in which the shard was at no group. */
  ghost predicate Orphan(s: System, g: int, j: int) {
    && g in s.groups && j in s.groups[g].waiting
    && var x := s.groups[g];
    && 0 <= x.waiting[j] < |x.history| && 0 <= j < |x.history[x.waiting[j]].shards|
    && x.history[x.waiting[j]].shards[j] !in s.groups
  }

  /** A drained group that enters the next configuration gets exactly those orphans. */
  lemma EntersOrphanIff(s: System, g: int, j: int)
    requires Core(s) && g in s.groups && 0 <= s.groups[g].config.num < |s.configs| - 1 && s.groups[g].waiting == map[]
    ensures var x := s.groups[g];
            var c := s.configs[x.config.num + 1];
            Orphan(DoApplyConfig(s, g, x.config.num + 1), g, j) <==>
              && x.config.num > 0 && j in Assigned(c, g)
              && 0 <= j < |x.config.shards| && x.config.shards[j] !in s.groups
  {
    var x := s.groups[g];
    var num := x.config.num + 1;
    EnterFacts(s, g, num);
    assert GroupOk(s, g) && ConfigOk(s, num) && ConfigOk(s, num - 1);
    assert NewConf(x, s.configs[num], s.n).history[num - 1] == x.config;
    if j in x.own { assert j in Assigned(x.config, g); }
  }

  lemma OrphanNotInstalled(s: System, m: Message, g: int, j: int)
    requires Core(s) && Enabled(s, ApplyReply(m)) && Orphan(s, g, j) && m.to == g
    requires m.configNum == s.groups[g].config.num - 1
    ensures m.shard != j
  {
    assert GroupOk(s, g) && j !in s.groups[g].own;
    if Installs(s.groups[g], m.shard, m.configNum) {
      InstallFacts(s, m);
      assert ConfigOk(s, m.configNum);
    }
  }

  lemma OrphanStep(s: System, a: Action, g: int, j: int)
    requires Core(s) && Enabled(s, a) && Orphan(s, g, j)
    ensures Orphan(Next(s, a), g, j) && Next(s, a).groups[g].config == s.groups[g].config
  {
    assert GroupOk(s, g);
    if a.ApplyConfig? {
      assert ConfigOk(s, a.num);
    } else if a.ApplyReply? {
      if a.reply.to == g && a.reply.configNum == s.groups[g].config.num - 1 { OrphanNotInstalled(s, a.reply, g, j); }
    } else {
      StaysPut(s, a, g);
    }
  }

  lemma StaysPut(s: System, a: Action, g: int)
    requires s.n > 0 && Enabled(s, a) && g in s.groups && !a.ApplyConfig? && !a.ApplyReply?
    ensures Next(s, a).groups.Keys == s.groups.Keys
    ensures var x, y := s.groups[g], Next(s, a).groups[g];
            y.config == x.config && y.history == x.history && y.waiting == x.waiting
  {
  }

  /** Once an assignment leaves a shard at no group, the group that gets it next waits for it for ever: it never
      owns the shard, and never reaches another configuration. */
  lemma {:induction false} UnassignedNeverArrives(tr: seq<System>, acts: seq<Action>, i: nat, k: nat, g: int, j: int)
    requires IsRun(tr, acts) && i <= k < |tr| && Orphan(tr[i], g, j)
    ensures Orphan(tr[k], g, j) && tr[k].groups[g].config == tr[i].groups[g].config && j !in tr[k].groups[g].own
  {
    RunCore(tr, acts, k);
    if i < k {
      UnassignedNeverArrives(tr, acts, i, k - 1, g, j);
      RunCore(tr, acts, k - 1);
      assert acts[k - 1] == acts[k - 1];
      OrphanStep(tr[k - 1], acts[k - 1], g, j);
    }
    assert GroupOk(tr[k], g);
  }

  // ---------- why a group must be drained ----------

  /** Every shard a group waits for can be pulled from another group that had it before. */
  ghost predicate CanPullAll(groups: set<int>, g: Group) {
    && g.own !! g.waiting.Keys
    && g.own + g.waiting.Keys == Assigned(g.config, g.gid)
    && forall i :: i in g.waiting ==>
         && 0 <= g.waiting[i] < |g.history|
         && 0 <= i < |g.history[g.waiting[i]].shards|
         && g.history[g.waiting[i]].shards[i] in groups - {g.gid}
  }

  lemma AwaitedShard(g: Group) returns (j: int)
    requires g.waiting != map[]
    ensures j in g.waiting
  {
    assert (forall i :: i !in g.waiting) ==> g.waiting == map[];
    j :| j in g.waiting;
  }

  /** A shard still awaited under the next configuration would be pulled from the group itself. */
  lemma SkipsSelf(s: System, g: int, j: int)
    requires Core(s) && g in s.groups && 0 <= s.groups[g].config.num < |s.configs| - 1 && j in s.groups[g].waiting
    ensures !CanPullAll(s.groups.Keys, NewConf(s.groups[g], s.configs[s.groups[g].config.num + 1], s.n))
  {
    var x := s.groups[g];
    assert GroupOk(s, g) && ConfigOk(s, x.config.num + 1);
    assert j in Assigned(x.config, g);
  }

  /** Every shard that c gives to gid was at a group in the configuration before. */
  ghost predicate FromGroups(groups: set<int>, before: Config, c: Config, gid: int) {
    forall j :: j in Assigned(c, gid) ==> 0 <= j < |before.shards| && before.shards[j] in groups
  }

  /** The polling loop does not check that a group has stopped waiting before it moves on. Moving on leaves every
      awaited shard obtainable exactly when none was awaited and none of those it now gets was left without a group. */
  lemma DrainIsNeeded(tr: seq<System>, acts: seq<Action>, i: nat, g: int)
    requires IsRun(tr, acts) && i < |tr| && g in tr[i].groups && 0 <= tr[i].groups[g].config.num < |tr[i].configs| - 1
    ensures var x := tr[i].groups[g];
            var c := tr[i].configs[x.config.num + 1];
            && tr[i].n > 0
            && (CanPullAll(tr[i].groups.Keys, NewConf(x, c, tr[i].n)) <==>
                  x.waiting == map[] && (x.config.num == 0 || FromGroups(tr[i].groups.Keys, x.config, c, g)))
  {
    RunCore(tr, acts, i);
    DrainedIff(tr[i], g);
  }

  lemma DrainedIff(s: System, g: int)
    requires Core(s) && g in s.groups && 0 <= s.groups[g].config.num < |s.configs| - 1
    ensures var x := s.groups[g];
            var c := s.configs[x.config.num + 1];
            CanPullAll(s.groups.Keys, NewConf(x, c, s.n)) <==>
              x.waiting == map[] && (x.config.num == 0 || FromGroups(s.groups.Keys, x.config, c, g))
  {
    if s.groups[g].waiting == map[] {
      DrainedPulls(s, g);
    } else {
      var j := AwaitedShard(s.groups[g]);
      SkipsSelf(s, g, j);
    }
  }

  lemma DrainedPulls(s: System, g: int)
    requires Core(s) && g in s.groups && 0 <= s.groups[g].config.num < |s.configs| - 1 && s.groups[g].waiting == map[]
    ensures var x := s.groups[g];
            var c := s.configs[x.config.num + 1];
            CanPullAll(s.groups.Keys, NewConf(x, c, s.n)) <==>
              x.config.num == 0 || FromGroups(s.groups.Keys, x.config, c, g)
  {
    var x := s.groups[g];
    var num := x.config.num + 1;
    var y := NewConf(x, s.configs[num], s.n);
    EnterFacts(s, g, num);
    assert GroupOk(s, g) && ConfigOk(s, num) && ConfigOk(s, num - 1);
    assert y.history[num - 1] == x.config;
    forall j | j in Assigned(s.configs[num], g) ensures 0 <= j < s.n && (j in x.own <==> x.config.shards[j] == g) {
      assert j in Assigned(x.config, g) <==> x.config.shards[j] == g;
    }
  }

  /** Moving on while waiting for a shard that stays assigned: the pull for it goes to the group itself, whose
      answer is empty, and installing that answer leaves the group owning the shard without its keys. */
  lemma SkippingLosesData(s: System, g: int, j: int, key: Str)
    requires Core(s) && g in s.groups && 0 <= s.groups[g].config.num < |s.configs| - 1 && j in s.groups[g].waiting
    requires var c := s.configs[s.groups[g].config.num + 1]; 0 <= j < |c.shards| && c.shards[j] == g
    requires Key2Shard(key, s.n) == j
    ensures var k := s.groups[g].config.num;
            var y := NewConf(s.groups[g], s.configs[k + 1], s.n);
            var done := MigrationReply(y, j, k, PullPayload(y, j, k));
            PullsItself(y, j, k) && j in done.own && Lookup(done.data, key) == []
  {
    var x := s.groups[g];
    var k := x.config.num;
    SkipPullsItself(s, g, j);
    SkipAnswersEmpty(s, g, j);
    assert GroupOk(s, g) && ConfigOk(s, k + 1);
    assert key !in NewConf(x, s.configs[k + 1], s.n).data;
  }

  lemma SkipAnswersEmpty(s: System, g: int, j: int)
    requires Core(s) && g in s.groups && 0 <= s.groups[g].config.num < |s.configs| - 1 && j in s.groups[g].waiting
    ensures var k := s.groups[g].config.num;
            PullPayload(NewConf(s.groups[g], s.configs[k + 1], s.n), j, k) == MigrationData(map[], map[])
  {
    var x := s.groups[g];
    var k := x.config.num;
    assert GroupOk(s, g) && ConfigOk(s, k + 1);
    assert k in x.migrating && j in x.migrating[k] ==> StoredOk(s, g, k, j);
    assert j !in x.own - Assigned(s.configs[k + 1], g);
  }

  /** The group waits for shard j from configuration k, in which it had the shard itself. */
  ghost predicate PullsItself(y: Group, j: int, k: int) {
    && j in y.waiting && y.waiting[j] == k
    && 0 <= k < |y.history| && 0 <= j < |y.history[k].shards| && y.history[k].shards[j] == y.gid
  }

  lemma SkipPullsItself(s: System, g: int, j: int)
    requires Core(s) && g in s.groups && 0 <= s.groups[g].config.num < |s.configs| - 1 && j in s.groups[g].waiting
    requires var c := s.configs[s.groups[g].config.num + 1]; 0 <= j < |c.shards| && c.shards[j] == g
    ensures var k := s.groups[g].config.num;
            var y := NewConf(s.groups[g], s.configs[k + 1], s.n);
            PullsItself(y, j, k) && j !in y.own && (forall key :: key in y.data ==> Key2Shard(key, s.n) != j)
  {
    var x := s.groups[g];
    assert GroupOk(s, g) && ConfigOk(s, x.config.num) && ConfigOk(s, x.config.num + 1);
    assert j in Assigned(x.config, g) && j in Assigned(s.configs[x.config.num + 1], g);
  }

  /** The same on concrete input: group 1 writes a key and gives its shard up in configuration 2, and group 2,
      which is to have the shard in configurations 2 and 3, enters both before it has pulled. */
  lemma GiverKeeps(c1: Config, c2: Config, key: Str, value: Str)
    requires c1 == Config(1, [1], map[]) && c2 == Config(2, [2], map[])
    ensures var x := NewConf(InitGroup(1, Config(0, [0], map[])), c1, 1);
            var g := NewConf(PutAppend(x, 7, 0, 1, key, value, true, 1), c2, 1);
            1 in g.migrating && 0 in g.migrating[1] && Lookup(g.migrating[1][0].data, key) == value
  {
    var x := NewConf(InitGroup(1, Config(0, [0], map[])), c1, 1);
    assert Assigned(c1, 1) == {0} && Assigned(c2, 1) == {};
    assert x.own == {0} && Key2Shard(key, 1) == 0;
    var y := PutAppend(x, 7, 0, 1, key, value, true, 1);
    assert y.own == {0} && Lookup(y.data, key) == value;
  }

  lemma SkipperLoses(c1: Config, c2: Config, c3: Config, key: Str)
    requires c1 == Config(1, [1], map[]) && c2 == Config(2, [2], map[]) && c3 == Config(3, [2], map[])
    ensures var g := NewConf(NewConf(NewConf(InitGroup(2, Config(0, [0], map[])), c1, 1), c2, 1), c3, 1);
            var done := MigrationReply(g, 0, 2, PullPayload(g, 0, 2));
            && g.waiting == map[0 := 2] && g.history[2].shards[0] == 2
            && done.own == {0} && done.waiting == map[] && Lookup(done.data, key) == []
  {
    assert Assigned(c1, 2) == {} && Assigned(c2, 2) == {0} && Assigned(c3, 2) == {0};
    var b1 := NewConf(InitGroup(2, Config(0, [0], map[])), c1, 1);
    assert b1.own == {} && b1.waiting == map[];
    var b2 := NewConf(b1, c2, 1);
    assert b2.own == {} && b2.waiting == map[0 := 1];
    var b3 := NewConf(b2, c3, 1);
    assert b3.own == {} && b3.waiting == map[0 := 2];
  }
}
