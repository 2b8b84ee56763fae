/** What becomes of the copies that groups keep of shards they gave up: none is dropped before the shard has been
    taken over, none is forgotten after, and every one can be cleaned up. */
module ShardCleaning {
  import opened ShardTypes
  import opened ShardGroup
  import opened ShardSystem
  import opened ShardInvariant
  import opened ShardSteps
  import opened ShardMoves
  import opened ShardTheorems
  import opened ShardRuns

  /** Group g keeps the copy of shard i that it gave up with configuration k. */
  predicate Keeping(s: System, g: int, k: int, i: int) {
    g in s.groups && k in s.groups[g].migrating && i in s.groups[g].migrating[k]
  }

  /** Group g is to have the copy of shard i under configuration k cleaned up. */
  predicate Cleans(s: System, g: int, k: int, i: int) {
    g in s.groups && k in s.groups[g].cleaning && i in s.groups[g].cleaning[k]
  }

  /** Shard i had an owner under k and another under k + 1, and has been taken over since. */
  ghost predicate TakenOver(s: System, k: int, i: int) {
    1 <= k && k + 1 < |s.configs| && 0 <= i < s.n && i in s.at && s.at[i] > k
    && i < |s.configs[k].shards| && i < |s.configs[k + 1].shards|
  }

  /** A copy is kept by the shard's owner under k, and once the shard is taken over the next owner is to clean it up.
      */
  ghost predicate KeptOk(s: System, g: int, k: int, i: int) {
    && 1 <= k < |s.configs| && 0 <= i < |s.configs[k].shards| && s.configs[k].shards[i] == g && i in s.at
    && (s.at[i] > k ==> TakenOver(s, k, i) && Cleans(s, s.configs[k + 1].shards[i], k, i))
  }

  /** What g is to have cleaned up it has taken over from the owner before, which keeps the copy still or has
      confirmed that it is gone. */
  ghost predicate CleansOk(s: System, g: int, k: int, i: int) {
    && TakenOver(s, k, i) && s.configs[k + 1].shards[i] == g && s.configs[k].shards[i] in s.groups
    && (Keeping(s, s.configs[k].shards[i], k, i) || CleanReply(g, i, k) in s.net)
  }

  ghost predicate CleanMessageOk(s: System, m: Message) {
    && (m.CleanRequest? ==>
          && TakenOver(s, m.configNum, m.shard) && s.configs[m.configNum].shards[m.shard] == m.to
          && s.configs[m.configNum + 1].shards[m.shard] == m.from)
    && (m.CleanReply? ==>
          && TakenOver(s, m.configNum, m.shard)
          && forall g {:trigger Keeping(s, g, m.configNum, m.shard)} :: !Keeping(s, g, m.configNum, m.shard))
  }

  ghost predicate Swept(s: System) {
    && (forall g: int, k: int, i: int {:trigger KeptOk(s, g, k, i)} :: Keeping(s, g, k, i) ==> KeptOk(s, g, k, i))
    && (forall g: int, k: int, i: int {:trigger CleansOk(s, g, k, i)} :: Cleans(s, g, k, i) ==> CleansOk(s, g, k, i))
    && (forall m {:trigger CleanMessageOk(s, m)} :: m in s.net ==> CleanMessageOk(s, m))
  }

  /** Steps that change neither copies nor what is to be cleaned up, nor where shards are. */
  ghost predicate Apart(s: System, s': System) {
    && s'.groups.Keys == s.groups.Keys && s'.n == s.n && s'.at == s.at && s.configs <= s'.configs
    && (forall g :: g in s.groups ==>
          s'.groups[g].migrating == s.groups[g].migrating && s'.groups[g].cleaning == s.groups[g].cleaning)
    && s.net <= s'.net
  }

  lemma ApartKeeps(s: System, s': System)
    requires Swept(s) && Apart(s, s') && forall m :: m in s'.net && m !in s.net ==> CleanMessageOk(s', m)
    ensures Swept(s')
  {
    forall g: int, k: int, i: int | Keeping(s', g, k, i) ensures KeptOk(s', g, k, i) {
      assert Keeping(s, g, k, i) && KeptOk(s, g, k, i);
      assert s.at[i] > k ==> Cleans(s', s.configs[k + 1].shards[i], k, i);
    }
    forall g: int, k: int, i: int | Cleans(s', g, k, i) ensures CleansOk(s', g, k, i) {
      assert Cleans(s, g, k, i) && CleansOk(s, g, k, i);
      assert Keeping(s, s.configs[k].shards[i], k, i) ==> Keeping(s', s.configs[k].shards[i], k, i);
    }
    forall m | m in s'.net ensures CleanMessageOk(s', m) {
      if m in s.net { ApartMessage(s, s', m); }
    }
  }

  lemma ApartMessage(s: System, s': System, m: Message)
    requires Apart(s, s') && CleanMessageOk(s, m)
    ensures CleanMessageOk(s', m)
  {
    forall g | m.CleanReply? ensures !Keeping(s', g, m.configNum, m.shard) {
      assert !Keeping(s, g, m.configNum, m.shard);
    }
  }

  // ---------- the steps ----------

  lemma SendsClean(s: System, g: int, i: int, k: int)
    requires Core(s) && Swept(s) && Enabled(s, Clean(g, i, k))
    ensures Swept(DoClean(s, g, i, k))
  {
    assert GroupOk(s, g) && Cleans(s, g, k, i) && CleansOk(s, g, k, i) && ConfigOk(s, k);
    ApartKeeps(s, DoClean(s, g, i, k));
  }

  // ---------- copies that come and go ----------

  /** Every copy kept after the step was kept before or is of a shard that has not been taken over, and what was to be
      cleaned up still is. */
  ghost predicate Grown(s: System, s': System) {
    && s'.n == s.n && s'.configs == s.configs && s'.groups.Keys == s.groups.Keys && s'.net == s.net
    && s'.at.Keys == s.at.Keys && (forall i :: i in s.at ==> s'.at[i] >= s.at[i])
    && (forall g: int, k: int, i: int {:trigger Keeping(s', g, k, i)} :: Keeping(s', g, k, i) ==>
          Keeping(s, g, k, i) || (KeptOk(s', g, k, i) && s.at[i] <= k))
    && (forall g: int, k: int, i: int {:trigger Keeping(s, g, k, i)} :: Keeping(s, g, k, i) ==> Keeping(s', g, k, i))
    && (forall g: int, k: int, i: int {:trigger Cleans(s, g, k, i)} :: Cleans(s, g, k, i) ==> Cleans(s', g, k, i))
  }

  /** The step takes over only copies that it has noted for cleaning, and notes only those. */
  ghost predicate Takes(s: System, s': System) {
    && (forall g: int, k: int, i: int {:trigger Keeping(s, g, k, i)} ::
          Keeping(s, g, k, i) && i in s.at && i in s'.at && s.at[i] <= k < s'.at[i] ==> KeptOk(s', g, k, i))
    && (forall g: int, k: int, i: int {:trigger Cleans(s', g, k, i)} ::
          Cleans(s', g, k, i) ==> Cleans(s, g, k, i) || CleansOk(s', g, k, i))
  }

  lemma GrownKeeps(s: System, s': System)
    requires Swept(s) && Grown(s, s') && Takes(s, s')
    ensures Swept(s')
  {
    forall g: int, k: int, i: int | Keeping(s', g, k, i) ensures KeptOk(s', g, k, i) {
      KeptGrown(s, s', g, k, i);
    }
    forall g: int, k: int, i: int | Cleans(s', g, k, i) ensures CleansOk(s', g, k, i) {
      if Cleans(s, g, k, i) { CleansGrown(s, s', g, k, i); }
    }
    forall m | m in s'.net ensures CleanMessageOk(s', m) {
      MessageGrown(s, s', m);
    }
  }

  lemma KeptGrown(s: System, s': System, g: int, k: int, i: int)
    requires Swept(s) && Grown(s, s') && Takes(s, s') && Keeping(s', g, k, i)
    ensures KeptOk(s', g, k, i)
  {
    if Keeping(s, g, k, i) {
      assert KeptOk(s, g, k, i);
      if s.at[i] > k { assert Cleans(s, s.configs[k + 1].shards[i], k, i); }
    }
  }

  lemma CleansGrown(s: System, s': System, g: int, k: int, i: int)
    requires Swept(s) && Grown(s, s') && Cleans(s, g, k, i)
    ensures CleansOk(s', g, k, i)
  {
    assert CleansOk(s, g, k, i);
    assert Keeping(s, s.configs[k].shards[i], k, i) ==> Keeping(s', s.configs[k].shards[i], k, i);
  }

  lemma MessageGrown(s: System, s': System, m: Message)
    requires Swept(s) && Grown(s, s') && m in s.net
    ensures CleanMessageOk(s', m)
  {
    assert CleanMessageOk(s, m);
    forall g | m.CleanReply? ensures !Keeping(s', g, m.configNum, m.shard) {
      assert !Keeping(s, g, m.configNum, m.shard);
    }
  }

  /** A copy that g makes when it enters a configuration is of a shard it has, which no one has taken over. */
  lemma EnterCopies(s: System, g: int, num: nat, k: int, i: int)
    requires Enters(s, g, num) && Keeping(DoApplyConfig(s, g, num), g, k, i) && !Keeping(s, g, k, i)
    ensures KeptOk(DoApplyConfig(s, g, num), g, k, i) && i in s.at && s.at[i] <= k
  {
    EnterFacts(s, g, num);
    EnterMoved(s, g, num);
    assert GroupOk(s, g) && ConfigOk(s, num);
    assert k == s.groups[g].config.num && i in s.groups[g].own;
    OwnIsLive(s, g, i);
  }

  /** A shard that g goes on having is not one that any group keeps a copy of from g's last configuration. */
  lemma EnterTakesNone(s: System, g: int, num: nat, h: int, k: int, i: int)
    requires Swept(s) && Enters(s, g, num) && Keeping(s, h, k, i) && i in s.at && s.at[i] <= k
    ensures i !in Kept(s.groups[g], s.configs[num])
  {
    EnterFacts(s, g, num);
    assert KeptOk(s, h, k, i) && StoredOk(s, h, k, i);
    if i in Kept(s.groups[g], s.configs[num]) { OwnIsLive(s, g, i); }
  }

  lemma EnterSwept(s: System, g: int, num: nat)
    requires Swept(s) && Enters(s, g, num)
    ensures Swept(DoApplyConfig(s, g, num))
  {
    var s' := DoApplyConfig(s, g, num);
    EnterMoved(s, g, num);
    EnterKeepsStored(s, g, num);
    forall h: int, k: int, i: int | Keeping(s, h, k, i) ensures Keeping(s', h, k, i) {
      assert h == g ==> Keeps(s.groups[g], s'.groups[g], k, i);
    }
    forall h: int, k: int, i: int | Keeping(s', h, k, i) && !Keeping(s, h, k, i)
      ensures KeptOk(s', h, k, i) && s.at[i] <= k
    {
      EnterCopies(s, g, num, k, i);
    }
    forall h: int, k: int, i: int | Keeping(s, h, k, i) && i in s.at && s.at[i] <= k ensures s'.at[i] == s.at[i] {
      EnterTakesNone(s, g, num, h, k, i);
    }
    GrownKeeps(s, s');
  }

  lemma InstallSwept(s: System, m: Message)
    requires Swept(s) && Installing(s, m)
    ensures Swept(DoApplyReply(s, m))
  {
    var s' := DoApplyReply(s, m);
    InstallNotes(s, m);
    forall g: int, k: int, i: int | Keeping(s, g, k, i) && i in s.at && i in s'.at && s.at[i] <= k < s'.at[i]
      ensures KeptOk(s', g, k, i)
    {
      assert KeptOk(s, g, k, i);
    }
    GrownKeeps(s, s');
  }

  /** What is installed is noted for cleaning, and so are only shards that were before. */
  lemma InstallNotes(s: System, m: Message)
    requires Swept(s) && Installing(s, m)
    ensures var s' := DoApplyReply(s, m);
            && Grown(s, s') && (forall i :: i in s.at && i != m.shard ==> s'.at[i] == s.at[i])
            && TakenOver(s', m.configNum, m.shard) && s.at[m.shard] == m.configNum && s'.at[m.shard] == m.configNum + 1
            && Cleans(s', m.to, m.configNum, m.shard) && CleansOk(s', m.to, m.configNum, m.shard)
            && forall g: int, k: int, i: int {:trigger Cleans(s', g, k, i)} :: Cleans(s', g, k, i) ==>
                 Cleans(s, g, k, i) || (g == m.to && k == m.configNum && i == m.shard)
  {
    var s' := DoApplyReply(s, m);
    InstallFacts(s, m);
    InstallMoved(s, m);
    assert ConfigOk(s, m.configNum) && ConfigOk(s, m.configNum + 1) && MessageOk(s, m);
    assert Keeping(s', s.configs[m.configNum].shards[m.shard], m.configNum, m.shard);
  }

  /** A cleanup takes away one copy, and confirms that. */
  lemma CleanupSwept(s: System, m: Message)
    requires Core(s) && Swept(s) && Enabled(s, ApplyCleanup(m))
    ensures Swept(DoApplyCleanup(s, m))
  {
    var s' := DoApplyCleanup(s, m);
    CleanupDrops(s.groups[m.to], m.shard, m.configNum);
    assert CleanMessageOk(s, m);
    OneCopyLess(s, m);
    forall g: int, k: int, i: int | Keeping(s', g, k, i) ensures KeptOk(s', g, k, i) {
      assert KeptOk(s, g, k, i);
      assert s.at[i] > k ==> Cleans(s', s.configs[k + 1].shards[i], k, i);
    }
    forall g: int, k: int, i: int | Cleans(s', g, k, i) ensures CleansOk(s', g, k, i) {
      assert Cleans(s, g, k, i) && CleansOk(s, g, k, i);
    }
    forall r | r in s'.net ensures CleanMessageOk(s', r) {
      CleanupMessage(s, m, r);
    }
  }

  lemma OneCopyLess(s: System, m: Message)
    requires Enabled(s, ApplyCleanup(m))
    ensures forall g: int, k: int, i: int {:trigger Keeping(DoApplyCleanup(s, m), g, k, i)} ::
              Keeping(DoApplyCleanup(s, m), g, k, i) <==>
                Keeping(s, g, k, i) && !(g == m.to && k == m.configNum && i == m.shard)
  {
    CleanupDrops(s.groups[m.to], m.shard, m.configNum);
    var x, y := s.groups[m.to], Cleanup(s.groups[m.to], m.shard, m.configNum);
    assert !(m.configNum in y.migrating && m.shard in y.migrating[m.configNum]);
    forall k: int, i: int | k in x.migrating && i in x.migrating[k] && (k != m.configNum || i != m.shard)
      ensures k in y.migrating && i in y.migrating[k]
    {
      assert Keeps(x, y, k, i);
    }
    forall k: int, i: int | k in y.migrating && i in y.migrating[k] ensures k in x.migrating && i in x.migrating[k] {
      assert Keeps(x, y, k, i);
    }
  }

  lemma CleanupMessage(s: System, m: Message, r: Message)
    requires Core(s) && Swept(s) && Enabled(s, ApplyCleanup(m)) && r in DoApplyCleanup(s, m).net
    ensures CleanMessageOk(DoApplyCleanup(s, m), r)
  {
    var s' := DoApplyCleanup(s, m);
    OneCopyLess(s, m);
    assert CleanMessageOk(s, m);
    if r in s.net {
      assert CleanMessageOk(s, r);
      forall g | r.CleanReply? ensures !Keeping(s', g, r.configNum, r.shard) {
        assert !Keeping(s, g, r.configNum, r.shard);
      }
    } else {
      forall g ensures !Keeping(s', g, r.configNum, r.shard) {
        assert Keeping(s, g, r.configNum, r.shard) ==> KeptOk(s, g, r.configNum, r.shard);
      }
    }
  }

  lemma FinishCrosses(s: System, m: Message)
    requires s.n > 0 && Enabled(s, FinishClean(m))
    ensures var s' := Put(s, m.to, Cleaned(s.groups[m.to], m.shard, m.configNum));
            forall g: int, k: int, i: int {:trigger Cleans(s', g, k, i)} {:trigger Cleans(s, g, k, i)} ::
              Cleans(s', g, k, i) <==> Cleans(s, g, k, i) && !(g == m.to && k == m.configNum && i == m.shard)
  {
    var x := s.groups[m.to];
    if m.configNum in x.cleaning {
      var rest := x.cleaning[m.configNum] - {m.shard};
      assert forall i :: i in x.cleaning[m.configNum] && i != m.shard ==> i in rest;
    }
  }

  lemma FinishSwept(s: System, m: Message)
    requires Core(s) && Swept(s) && Enabled(s, FinishClean(m))
    ensures Swept(Put(s, m.to, Cleaned(s.groups[m.to], m.shard, m.configNum)))
  {
    var s' := Put(s, m.to, Cleaned(s.groups[m.to], m.shard, m.configNum));
    assert CleanMessageOk(s, m);
    FinishCrosses(s, m);
    forall g: int, k: int, i: int | Keeping(s', g, k, i) ensures KeptOk(s', g, k, i) {
      assert Keeping(s, g, k, i) && KeptOk(s, g, k, i);
      assert s.at[i] > k ==> Cleans(s, s.configs[k + 1].shards[i], k, i);
      assert s.at[i] > k ==> Cleans(s', s.configs[k + 1].shards[i], k, i);
    }
    forall g: int, k: int, i: int | Cleans(s', g, k, i) ensures CleansOk(s', g, k, i) {
      assert Cleans(s, g, k, i) && CleansOk(s, g, k, i);
      assert Keeping(s, s.configs[k].shards[i], k, i) ==> Keeping(s', s.configs[k].shards[i], k, i);
    }
    forall r | r in s'.net ensures CleanMessageOk(s', r) {
      assert CleanMessageOk(s, r);
      forall g | r.CleanReply? ensures !Keeping(s', g, r.configNum, r.shard) {
        assert !Keeping(s, g, r.configNum, r.shard);
      }
    }
  }

  lemma ApartStep(s: System, a: Action)
    requires Core(s) && Swept(s) && Enabled(s, a)
    requires a.AddConfig? || a.ApplyGet? || a.ApplyPut? || a.Pull? || a.ServePull?
    ensures Swept(Next(s, a))
  {
    ApartKeeps(s, Next(s, a));
  }

  lemma StepSwept(s: System, a: Action)
    requires Core(s) && Swept(s) && Enabled(s, a)
    ensures Swept(Next(s, a))
  {
    match a
    case ApplyConfig(g, num) =>
      assert GroupOk(s, g) && ConfigOk(s, num);
      if num > s.groups[g].config.num { EnterSwept(s, g, num); } else { assert Next(s, a) == s; }
    case ApplyReply(m) =>
      assert GroupOk(s, m.to);
      if Installs(s.groups[m.to], m.shard, m.configNum) {
        InstallSwept(s, m);
      } else {
        assert Next(s, a).groups[m.to] == s.groups[m.to] && Next(s, a) == s;
      }
    case Clean(g, i, k) => SendsClean(s, g, i, k);
    case ApplyCleanup(m) => CleanupSwept(s, m);
    case FinishClean(m) => FinishSwept(s, m);
    case _ => ApartStep(s, a);
  }

  lemma {:induction false} RunSwept(tr: seq<System>, acts: seq<Action>, j: nat)
    requires IsRun(tr, acts) && j < |tr|
    ensures Core(tr[j]) && Swept(tr[j])
  {
    RunCore(tr, acts, j);
    if j > 0 {
      RunSwept(tr, acts, j - 1);
      assert acts[j - 1] == acts[j - 1];
      StepSwept(tr[j - 1], acts[j - 1]);
    }
  }

  // ---------- in runs ----------

  /** The group has had shard i under configuration k + 1, or has moved on since. */
  predicate HasTaken(s: System, g: int, k: int, i: int) {
    && g in s.groups
    && (s.groups[g].config.num > k + 1 || (s.groups[g].config.num == k + 1 && i in s.groups[g].own))
  }

  /** None is dropped too early: while a group waits for a shard, the group that had it before and has moved on keeps
      the copy that answers the pull. */
  lemma AwaitedIsKept(tr: seq<System>, acts: seq<Action>, j: nat, g: int, i: int)
    requires IsRun(tr, acts) && j < |tr| && g in tr[j].groups && i in tr[j].groups[g].waiting
    ensures var k := tr[j].groups[g].waiting[i];
            && 1 <= k == tr[j].groups[g].config.num - 1 < |tr[j].configs| - 1 && 0 <= i < |tr[j].configs[k].shards|
            && var h := tr[j].configs[k].shards[i];
            h in tr[j].groups && tr[j].groups[h].config.num > k ==> Keeping(tr[j], h, k, i)
  {
    RunCore(tr, acts, j);
    var s := tr[j];
    assert GroupOk(s, g);
    var k := s.groups[g].waiting[i];
    assert ConfigOk(s, k) && ConfigOk(s, k + 1) && i in Assigned(s.configs[k + 1], g);
    assert PassedOk(s, i, k) && PassedOk(s, i, k + 1) && PlaceOk(s, i);
  }

  /** None is forgotten: a copy is kept by the owner it was made by, and once the next owner has taken the shard over,
      that one is to clean the copy up. */
  lemma NoneForgotten(tr: seq<System>, acts: seq<Action>, j: nat, g: int, k: int, i: int)
    requires IsRun(tr, acts) && j < |tr| && Keeping(tr[j], g, k, i)
    ensures 1 <= k < |tr[j].configs| && 0 <= i < |tr[j].configs[k].shards| && tr[j].configs[k].shards[i] == g
    ensures k + 1 < |tr[j].configs| && 0 <= i < |tr[j].configs[k + 1].shards|
    ensures var h := tr[j].configs[k + 1].shards[i]; HasTaken(tr[j], h, k, i) ==> Cleans(tr[j], h, k, i)
  {
    RunSwept(tr, acts, j);
    var s := tr[j];
    assert KeptOk(s, g, k, i) && StoredOk(s, g, k, i) && GroupOk(s, g);
    assert ConfigOk(s, k) && ConfigOk(s, k + 1);
    var h := s.configs[k + 1].shards[i];
    if HasTaken(s, h, k, i) {
      assert PassedOk(s, i, k + 1);
      assert i in s.groups[h].own ==> OwnOk(s, h, i);
    }
  }

  /** The same run with a step more, which changes no value of the map. */
  lemma QuietStep(tr: seq<System>, acts: seq<Action>, a: Action) returns (tr': seq<System>, acts': seq<Action>)
    requires IsRun(tr, acts) && tr[|acts|].n > 0 && Enabled(tr[|acts|], a) && !a.ApplyPut?
    ensures IsRun(tr', acts') && tr <= tr' && acts <= acts' && tr'[|acts'|] == Next(tr[|acts|], a)
    ensures SameMap(tr[|acts|], tr'[|acts'|])
  {
    tr', acts' := Then(tr, acts, a);
    RunCore(tr, acts, |acts|);
    RunCore(tr', acts', |acts'|);
    forall k ensures View(tr'[|acts'|], k) == View(tr[|acts|], k) {
      StepRefines(tr[|acts|], a, k);
    }
  }

  ghost predicate SameMap(s: System, s': System) {
    Core(s) && Core(s') && forall k :: View(s', k) == View(s, k)
  }

  /** Each can be cleaned up: wherever a run has got to, what a group is to have cleaned up can be, with nothing lost:
      no group keeps the copy then, and nothing is left to do about it. */
  lemma CleanupFinishes(tr: seq<System>, acts: seq<Action>, g: int, k: int, i: int)
    returns (tr': seq<System>, acts': seq<Action>)
    requires IsRun(tr, acts) && Cleans(tr[|acts|], g, k, i)
    ensures IsRun(tr', acts') && tr <= tr' && acts <= acts' && SameMap(tr[|acts|], tr'[|acts'|])
    ensures var last := tr'[|acts'|];
            g in last.groups && !Cleans(last, g, k, i) && forall h :: h in last.groups ==> !Keeping(last, h, k, i)
  {
    RunSwept(tr, acts, |acts|);
    var s := tr[|acts|];
    assert CleansOk(s, g, k, i) && GroupOk(s, g) && CleaningOk(s, g, k, i);
    var h := s.configs[k].shards[i];
    tr', acts' := tr, acts;
    if Keeping(s, h, k, i) {
      tr', acts' := Confirms(tr, acts, g, k, i);
    }
    var s2 := tr'[|acts'|];
    RunSwept(tr', acts', |acts'|);
    tr', acts' := QuietStep(tr', acts', FinishClean(CleanReply(g, i, k)));
    Crossed(s2, g, k, i);
  }

  /** Once confirmed, the clean-up is over everywhere. */
  lemma Crossed(s: System, g: int, k: int, i: int)
    requires Core(s) && Swept(s) && CleanReply(g, i, k) in s.net && g in s.groups
    ensures var last := Next(s, FinishClean(CleanReply(g, i, k)));
            g in last.groups && !Cleans(last, g, k, i) && forall h :: h in last.groups ==> !Keeping(last, h, k, i)
  {
    var done := CleanReply(g, i, k);
    assert CleanMessageOk(s, done);
    FinishCrosses(s, done);
    forall h | h in s.groups ensures !Keeping(Next(s, FinishClean(done)), h, k, i) {
      assert !Keeping(s, h, k, i);
    }
  }

  /** The copy is asked to be cleaned up, and is. */
  lemma Confirms(tr: seq<System>, acts: seq<Action>, g: int, k: int, i: int)
    returns (tr': seq<System>, acts': seq<Action>)
    requires IsRun(tr, acts) && Cleans(tr[|acts|], g, k, i) && Swept(tr[|acts|]) && 0 <= k < |tr[|acts|].configs|
    requires 0 <= i < |tr[|acts|].configs[k].shards| && Keeping(tr[|acts|], tr[|acts|].configs[k].shards[i], k, i)
    ensures IsRun(tr', acts') && tr <= tr' && acts <= acts' && SameMap(tr[|acts|], tr'[|acts'|])
    ensures CleanReply(g, i, k) in tr'[|acts'|].net && g in tr'[|acts'|].groups
  {
    RunCore(tr, acts, |acts|);
    var s := tr[|acts|];
    assert GroupOk(s, g) && CleansOk(s, g, k, i) && CleaningOk(s, g, k, i);
    var h := s.configs[k].shards[i];
    assert KeptOk(s, h, k, i) && ConfigOk(s, k);
    assert PassedOk(s, i, k + 1) && PlaceOk(s, i);
    tr', acts' := QuietStep(tr, acts, Clean(g, i, k));
    var req := CleanRequest(g, h, i, k);
    assert req in tr'[|acts'|].net;
    tr', acts' := QuietStep(tr', acts', ApplyCleanup(req));
  }
}
