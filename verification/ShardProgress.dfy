/** Migration never deadlocks: when every group can reach the newest configuration with all its shards, and when not.
    */
module ShardProgress {
  import opened Collections
  import opened ShardTypes
  import opened ShardGroup
  import opened ShardSystem
  import opened ShardInvariant
  import opened ShardMoves
  import opened ShardTheorems
  import opened ShardRuns
  import opened ShardCleaning

  /** Every group is at the newest configuration and has all shards that this gives it. */
  ghost predicate CaughtUp(s: System) {
    s.configs != [] &&
    forall g :: g in s.groups ==> s.groups[g].config.num == |s.configs| - 1 && s.groups[g].waiting == map[]
  }

  /** Configuration k leaves shard i at none of the groups, and k + 1 gives it to one. */
  ghost predicate GapAt(configs: seq<Config>, groups: set<int>, k: nat, i: nat) {
    && 1 <= k < |configs| - 1 && i < |configs[k].shards| && i < |configs[k + 1].shards|
    && configs[k].shards[i] !in groups && configs[k + 1].shards[i] in groups
  }

  ghost predicate NoGap(s: System) {
    forall k: nat, i: nat {:trigger GapAt(s.configs, s.groups.Keys, k, i)} :: !GapAt(s.configs, s.groups.Keys, k, i)
  }

  /** The run goes on, without a write and without a new configuration. */
  ghost predicate Onward(tr: seq<System>, acts: seq<Action>, tr': seq<System>, acts': seq<Action>) {
    && IsRun(tr, acts) && IsRun(tr', acts') && tr <= tr' && acts <= acts'
    && var s, s' := tr[|acts|], tr'[|acts'|];
    && s'.n == s.n && s'.configs == s.configs && s'.groups.Keys == s.groups.Keys && SameMap(s, s')
  }

  /** The other groups stay at their configurations and wait for what they waited for. */
  ghost predicate OthersStay(s: System, s': System, g: int) {
    && s'.groups.Keys == s.groups.Keys
    && forall h :: h in s.groups && h != g ==>
         s'.groups[h].config == s.groups[h].config && s'.groups[h].waiting == s.groups[h].waiting
  }

  /** Every group has reached configuration m. */
  ghost predicate AllFrom(s: System, m: nat) {
    forall h :: h in s.groups ==> s.groups[h].config.num >= m
  }

  lemma OneStep(tr: seq<System>, acts: seq<Action>, a: Action) returns (tr': seq<System>, acts': seq<Action>)
    requires IsRun(tr, acts) && tr[|acts|].n > 0 && Enabled(tr[|acts|], a) && !a.ApplyPut? && !a.AddConfig?
    ensures Onward(tr, acts, tr', acts') && tr'[|acts'|] == Next(tr[|acts|], a)
  {
    tr', acts' := QuietStep(tr, acts, a);
    KeepsConfigs(tr[|acts|], a);
  }

  lemma KeepsConfigs(s: System, a: Action)
    requires s.n > 0 && Enabled(s, a) && !a.AddConfig?
    ensures Next(s, a).n == s.n && Next(s, a).configs == s.configs && Next(s, a).groups.Keys == s.groups.Keys
  {
  }

  /** The previous owner of an awaited shard is a group. */
  lemma AwaitedFrom(s: System, g: int, i: int) returns (h: int, k: nat)
    requires Core(s) && NoGap(s) && g in s.groups && i in s.groups[g].waiting
    ensures var x := s.groups[g];
            && x.waiting[i] == k == x.config.num - 1 && k < |x.history| && x.history[k].num == k
            && 0 <= i < |x.history[k].shards| && x.history[k].shards[i] == h && i !in x.own
    ensures h in s.groups
  {
    var x := s.groups[g];
    assert GroupOk(s, g);
    k := x.config.num - 1;
    assert ConfigOk(s, k) && ConfigOk(s, k + 1) && i in Assigned(x.config, g);
    h := s.configs[k].shards[i];
    assert !GapAt(s.configs, s.groups.Keys, k, i);
  }

  lemma OnwardTwice(a: seq<System>, x: seq<Action>, b: seq<System>, y: seq<Action>, c: seq<System>, z: seq<Action>)
    requires Onward(a, x, b, y) && Onward(b, y, c, z)
    ensures Onward(a, x, c, z)
  {
    forall k ensures View(c[|z|], k) == View(a[|x|], k) {
      assert View(c[|z|], k) == View(b[|y|], k);
    }
  }

  lemma NotOnward(tr: seq<System>, acts: seq<Action>)
    requires IsRun(tr, acts)
    ensures Onward(tr, acts, tr, acts) && Core(tr[|acts|])
  {
    RunCore(tr, acts, |acts|);
  }

  /** An awaited shard arrives: its pull is sent, answered by a group that has moved on, and the answer is installed.
      */
  lemma Arrives(tr: seq<System>, acts: seq<Action>, g: int, i: int) returns (tr': seq<System>, acts': seq<Action>)
    requires IsRun(tr, acts) && Core(tr[|acts|]) && NoGap(tr[|acts|])
    requires g in tr[|acts|].groups && i in tr[|acts|].groups[g].waiting
    requires AllFrom(tr[|acts|], (if tr[|acts|].groups[g].config.num < 0 then 0 else tr[|acts|].groups[g].config.num))
    ensures Onward(tr, acts, tr', acts') && OthersStay(tr[|acts|], tr'[|acts'|], g)
    ensures g in tr'[|acts'|].groups && tr'[|acts'|].groups[g].config == tr[|acts|].groups[g].config
    ensures tr'[|acts'|].groups[g].waiting == tr[|acts|].groups[g].waiting - {i}
  {
    var s := tr[|acts|];
    var h, k := AwaitedFrom(s, g, i);
    var tr1, acts1 := OneStep(tr, acts, Pull(g, i));
    var req := PullRequest(g, h, i, k);
    assert req in tr1[|acts1|].net && tr1[|acts1|].groups == s.groups;
    var tr2, acts2 := OneStep(tr1, acts1, ServePull(req));
    OnwardTwice(tr, acts, tr1, acts1, tr2, acts2);
    var reply := PullReply(g, i, k, PullPayload(s.groups[h], i, k));
    assert reply in tr2[|acts2|].net && tr2[|acts2|].groups == s.groups;
    tr', acts' := OneStep(tr2, acts2, ApplyReply(reply));
    OnwardTwice(tr, acts, tr2, acts2, tr', acts');
  }

  /** A group that no other is behind gets everything it waits for. */
  lemma {:induction false} Drains(tr: seq<System>, acts: seq<Action>, g: int)
    returns (tr': seq<System>, acts': seq<Action>)
    requires IsRun(tr, acts) && NoGap(tr[|acts|])
    requires g in tr[|acts|].groups && tr[|acts|].groups[g].config.num >= 0
    requires AllFrom(tr[|acts|], tr[|acts|].groups[g].config.num)
    ensures Onward(tr, acts, tr', acts') && OthersStay(tr[|acts|], tr'[|acts'|], g)
    ensures g in tr'[|acts'|].groups && tr'[|acts'|].groups[g].config == tr[|acts|].groups[g].config
    ensures tr'[|acts'|].groups[g].waiting == map[]
    decreases |tr[|acts|].groups[g].waiting|
  {
    NotOnward(tr, acts);
    var waiting := tr[|acts|].groups[g].waiting;
    if waiting.Keys == {} {
      tr', acts' := tr, acts;
      assert waiting == map[];
    } else {
      var i := SomeElement(waiting.Keys);
      var tr1, acts1 := Arrives(tr, acts, g, i);
      assert waiting.Keys - {i} == (waiting - {i}).Keys;
      assert |waiting.Keys - {i}| < |waiting.Keys|;
      tr', acts' := Drains(tr1, acts1, g);
      OnwardTwice(tr, acts, tr1, acts1, tr', acts');
    }
  }

  /** A group that no other is behind goes on to the next configuration. */
  lemma Climbs(tr: seq<System>, acts: seq<Action>, g: int, m: nat) returns (tr': seq<System>, acts': seq<Action>)
    requires IsRun(tr, acts) && NoGap(tr[|acts|]) && m + 1 < |tr[|acts|].configs|
    requires g in tr[|acts|].groups && tr[|acts|].groups[g].config.num == m && AllFrom(tr[|acts|], m)
    ensures Onward(tr, acts, tr', acts') && OthersStay(tr[|acts|], tr'[|acts'|], g)
    ensures g in tr'[|acts'|].groups && tr'[|acts'|].groups[g].config.num == m + 1
  {
    var tr1, acts1 := Drains(tr, acts, g);
    var s := tr1[|acts1|];
    assert GroupOk(s, g) && ConfigOk(s, m + 1);
    tr', acts' := OneStep(tr1, acts1, ApplyConfig(g, m + 1));
    OnwardTwice(tr, acts, tr1, acts1, tr', acts');
  }

  ghost function Behind(s: System, m: nat): set<int> {
    set h | h in s.groups && s.groups[h].config.num <= m
  }

  lemma FewerBehind(s: System, s': System, g: int, m: nat)
    requires OthersStay(s, s', g) && g in Behind(s, m) && s'.groups[g].config.num == m + 1
    ensures |Behind(s', m)| < |Behind(s, m)|
  {
    assert Behind(s', m) == Behind(s, m) - {g} by {
      forall h | h in s.groups ensures h in Behind(s', m) <==> h in Behind(s, m) && h != g {
      }
    }
  }

  /** All groups go on to the next configuration. */
  lemma {:induction false} LevelUp(tr: seq<System>, acts: seq<Action>, m: nat)
    returns (tr': seq<System>, acts': seq<Action>)
    requires IsRun(tr, acts) && NoGap(tr[|acts|]) && m + 1 < |tr[|acts|].configs| && AllFrom(tr[|acts|], m)
    ensures Onward(tr, acts, tr', acts') && AllFrom(tr'[|acts'|], m + 1)
    decreases |Behind(tr[|acts|], m)|
  {
    NotOnward(tr, acts);
    if Behind(tr[|acts|], m) == {} {
      tr', acts' := tr, acts;
      forall h | h in tr[|acts|].groups ensures tr[|acts|].groups[h].config.num >= m + 1 {
        assert h !in Behind(tr[|acts|], m);
      }
    } else {
      var g := SomeElement(Behind(tr[|acts|], m));
      var tr1, acts1 := Climbs(tr, acts, g, m);
      FewerBehind(tr[|acts|], tr1[|acts1|], g, m);
      tr', acts' := LevelUp(tr1, acts1, m);
      OnwardTwice(tr, acts, tr1, acts1, tr', acts');
    }
  }

  lemma {:induction false} AllClimb(tr: seq<System>, acts: seq<Action>, m: nat)
    returns (tr': seq<System>, acts': seq<Action>)
    requires IsRun(tr, acts) && NoGap(tr[|acts|]) && m < |tr[|acts|].configs| && AllFrom(tr[|acts|], m)
    ensures Onward(tr, acts, tr', acts') && AllFrom(tr'[|acts'|], |tr[|acts|].configs| - 1)
    decreases |tr[|acts|].configs| - m
  {
    NotOnward(tr, acts);
    if m + 1 == |tr[|acts|].configs| {
      tr', acts' := tr, acts;
    } else {
      var tr1, acts1 := LevelUp(tr, acts, m);
      tr', acts' := AllClimb(tr1, acts1, m + 1);
      OnwardTwice(tr, acts, tr1, acts1, tr', acts');
    }
  }

  ghost function StillWaiting(s: System): set<int> {
    set h | h in s.groups && s.groups[h].waiting != map[]
  }

  lemma FewerWaiting(s: System, s': System, g: int)
    requires OthersStay(s, s', g) && g in StillWaiting(s) && s'.groups[g].waiting == map[]
    ensures |StillWaiting(s')| < |StillWaiting(s)|
  {
    assert StillWaiting(s') == StillWaiting(s) - {g} by {
      forall h | h in s.groups ensures h in StillWaiting(s') <==> h in StillWaiting(s) && h != g {
      }
    }
  }

  /** At the newest configuration, all get what they wait for. */
  lemma {:induction false} AllDrain(tr: seq<System>, acts: seq<Action>) returns (tr': seq<System>, acts': seq<Action>)
    requires IsRun(tr, acts) && NoGap(tr[|acts|]) && tr[|acts|].configs != []
    requires AllFrom(tr[|acts|], |tr[|acts|].configs| - 1)
    ensures Onward(tr, acts, tr', acts') && CaughtUp(tr'[|acts'|])
    decreases |StillWaiting(tr[|acts|])|
  {
    NotOnward(tr, acts);
    var s := tr[|acts|];
    forall h | h in s.groups ensures s.groups[h].config.num == |s.configs| - 1 {
      assert GroupOk(s, h);
    }
    if StillWaiting(s) == {} {
      tr', acts' := tr, acts;
      forall h | h in s.groups ensures s.groups[h].waiting == map[] {
        assert h !in StillWaiting(s);
      }
    } else {
      var g := SomeElement(StillWaiting(s));
      var tr1, acts1 := Drains(tr, acts, g);
      FewerWaiting(s, tr1[|acts1|], g);
      tr', acts' := AllDrain(tr1, acts1);
      OnwardTwice(tr, acts, tr1, acts1, tr', acts');
    }
  }

  /** Without gaps, the groups can catch up from wherever a run has got to, and no value of the map changes. */
  lemma CatchesUp(tr: seq<System>, acts: seq<Action>) returns (tr': seq<System>, acts': seq<Action>)
    requires IsRun(tr, acts) && NoGap(tr[|acts|])
    ensures Onward(tr, acts, tr', acts') && CaughtUp(tr'[|acts'|])
  {
    NotOnward(tr, acts);
    var s := tr[|acts|];
    forall h | h in s.groups ensures s.groups[h].config.num >= 0 {
      assert GroupOk(s, h);
    }
    var tr1, acts1 := AllClimb(tr, acts, 0);
    tr', acts' := AllDrain(tr1, acts1);
    OnwardTwice(tr, acts, tr1, acts1, tr', acts');
  }

  /** Where groups have caught up, no assignment had a gap. */
  lemma CaughtUpNoGap(s: System)
    requires Core(s) && CaughtUp(s)
    ensures NoGap(s)
  {
    forall k: nat, i: nat ensures !GapAt(s.configs, s.groups.Keys, k, i) {
      if GapAt(s.configs, s.groups.Keys, k, i) { CaughtUpNoGapAt(s, k, i); }
    }
  }

  lemma CaughtUpNoGapAt(s: System, k: nat, i: nat)
    requires Core(s) && CaughtUp(s) && 1 <= k < |s.configs| - 1
    requires i < |s.configs[k].shards| && i < |s.configs[k + 1].shards| && s.configs[k + 1].shards[i] in s.groups
    ensures s.configs[k].shards[i] in s.groups
  {
    var g := s.configs[k + 1].shards[i];
    assert GroupOk(s, g) && ConfigOk(s, k) && ConfigOk(s, k + 1);
    assert PassedOk(s, i, k) && PassedOk(s, i, k + 1) && PlaceOk(s, i);
    if s.groups[g].config.num == k + 1 {
      assert i in Assigned(s.groups[g].config, g) && OwnOk(s, g, i);
    }
  }

  lemma {:induction false} ConfigsStay(tr: seq<System>, acts: seq<Action>, i: nat, j: nat)
    requires IsRun(tr, acts) && i <= j < |tr|
    ensures tr[i].configs <= tr[j].configs && tr[j].groups.Keys == tr[i].groups.Keys
  {
    if i < j {
      ConfigsStay(tr, acts, i, j - 1);
      assert acts[j - 1] == acts[j - 1];
      ConfigsStep(tr[j - 1], acts[j - 1]);
    }
  }

  lemma ConfigsStep(s: System, a: Action)
    requires s.n > 0 && Enabled(s, a)
    ensures s.configs <= Next(s, a).configs && Next(s, a).groups.Keys == s.groups.Keys
  {
  }

  /** The run goes on to a state in which all groups have caught up. */
  ghost predicate CanCatchUp(tr: seq<System>, acts: seq<Action>) {
    exists tr', acts' :: IsRun(tr', acts') && tr <= tr' && acts <= acts' && CaughtUp(tr'[|acts'|])
  }

  /** From wherever a run has got to, all groups can still reach the newest configuration with all their shards,
      exactly when no assignment after the first gives a group a shard that was at no group in the assignment before.
      */
  lemma CatchUpIff(tr: seq<System>, acts: seq<Action>)
    requires IsRun(tr, acts)
    ensures CanCatchUp(tr, acts) <==> NoGap(tr[|acts|])
  {
    if NoGap(tr[|acts|]) {
      var tr', acts' := CatchesUp(tr, acts);
    }
    if CanCatchUp(tr, acts) {
      var tr', acts' :| IsRun(tr', acts') && tr <= tr' && acts <= acts' && CaughtUp(tr'[|acts'|]);
      RunCore(tr', acts', |acts'|);
      ConfigsStay(tr', acts', |acts|, |acts'|);
      CaughtUpNoGap(tr'[|acts'|]);
      NoGapBefore(tr[|acts|], tr'[|acts'|]);
    }
  }

  lemma NoGapBefore(s: System, s': System)
    requires s.configs <= s'.configs && s'.groups.Keys == s.groups.Keys && NoGap(s')
    ensures NoGap(s)
  {
    forall k: nat, i: nat ensures !GapAt(s.configs, s.groups.Keys, k, i) {
      assert !GapAt(s'.configs, s'.groups.Keys, k, i);
      if k + 1 < |s.configs| { assert s'.configs[k] == s.configs[k] && s'.configs[k + 1] == s.configs[k + 1]; }
    }
  }
}
