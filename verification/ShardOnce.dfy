/** At most one effect for each request id: on what the store promises it, and where it does not hold. */
module ShardOnce {
  import opened ShardTypes
  import opened ShardGroup
  import opened ShardSystem
  import opened ShardInvariant
  import opened ShardSteps
  import opened ShardMoves
  import opened ShardTheorems
  import opened ShardRetries

  /** In step i, request id changes the stored data. */
  ghost predicate Executes(tr: seq<System>, acts: seq<Action>, i: nat, id: int) {
    && i < |acts| && i < |tr| && tr[i].n > 0 && Enabled(tr[i], acts[i])
    && acts[i].ApplyPut? && acts[i].id == id && Effect(tr[i], acts[i]) != NoWrite
  }

  /** In step k, a request that expires id is applied, in whatever group. */
  ghost predicate Expires(acts: seq<Action>, k: nat, id: int) {
    k < |acts| && acts[k].ApplyPut? && acts[k].expire == id
  }

  // ---------- a step does not forget the ids of live copies ----------

  lemma QuietRemembers(s: System, s': System, g: int, id: int)
    requires Core(s) && Core(s') && Quiet(s, s', g)
    requires id in s.groups[g].cache ==> id in s'.groups[g].cache
    ensures Remembered(s, s', id)
  {
    forall i | 0 <= i < s.n && id in LiveCache(s, i) ensures id in LiveCache(s', i) {
      QuietLive(s, s', g, i);
    }
  }

  lemma EnterRemembers(s: System, g: int, num: nat, id: int)
    requires Core(s) && Enabled(s, ApplyConfig(g, num)) && Core(DoApplyConfig(s, g, num))
    ensures Remembered(s, DoApplyConfig(s, g, num), id)
  {
    assert GroupOk(s, g) && ConfigOk(s, num);
    if num <= s.groups[g].config.num {
      assert DoApplyConfig(s, g, num) == s;
    } else {
      forall i | 0 <= i < s.n && id in LiveCache(s, i) && Key2Shard(LiveCache(s, i)[id], s.n) == i
        ensures id in LiveCache(DoApplyConfig(s, g, num), i)
      {
        EnterLive(s, g, num, i);
      }
    }
  }

  lemma ReplyRemembers(s: System, m: Message, id: int)
    requires Core(s) && Enabled(s, ApplyReply(m)) && Core(DoApplyReply(s, m))
    ensures Remembered(s, DoApplyReply(s, m), id)
  {
    assert GroupOk(s, m.to);
    if Installs(s.groups[m.to], m.shard, m.configNum) {
      forall i | 0 <= i < s.n && id in LiveCache(s, i) ensures id in LiveCache(DoApplyReply(s, m), i) {
        InstallLive(s, m, i);
      }
    } else {
      assert DoApplyReply(s, m).groups[m.to] == s.groups[m.to];
      assert DoApplyReply(s, m) == s;
    }
  }

  lemma NetRemembers(s: System, s': System, g: int, id: int)
    requires Core(s) && Core(s') && g in s.groups && s' == s.(net := s'.net)
    ensures Remembered(s, s', id)
  {
    assert GroupOk(s, g);
    QuietRemembers(s, s', g, id);
  }

  /** Sending a message leaves all groups alone. */
  lemma SendingRemembers(s: System, a: Action, id: int)
    requires Core(s) && Enabled(s, a) && Core(Next(s, a)) && (a.Pull? || a.ServePull? || a.Clean?)
    ensures Next(s, a).n == s.n && Remembered(s, Next(s, a), id)
  {
    NetRemembers(s, Next(s, a), if a.ServePull? then a.req.to else a.g, id);
  }

  lemma RequestRemembers(s: System, a: Action, id: int)
    requires Core(s) && Enabled(s, a) && Core(Next(s, a))
    requires a.ApplyGet? || (a.ApplyPut? && a.expire != id)
    ensures Next(s, a).n == s.n && Remembered(s, Next(s, a), id)
  {
    if a.ApplyGet? {
      GetCore(s, a.g, a.configNum, a.key);
    } else {
      PutCore(s, a.g, a.id, a.expire, a.configNum, a.key, a.value, a.put);
    }
    QuietRemembers(s, Next(s, a), a.g, id);
  }

  lemma CleaningRemembers(s: System, a: Action, id: int)
    requires Core(s) && Enabled(s, a) && Core(Next(s, a)) && (a.ApplyCleanup? || a.FinishClean?)
    ensures Next(s, a).n == s.n && Remembered(s, Next(s, a), id)
  {
    if a.ApplyCleanup? {
      CleanupQuiet(s, a.clean);
      QuietRemembers(s, Next(s, a), a.clean.to, id);
    } else {
      assert GroupOk(s, a.done.to);
      QuietRemembers(s, Next(s, a), a.done.to, id);
    }
  }

  /** Only a request that expires the id takes it from a live copy whose shard it was noted for. */
  lemma StepRemembers(s: System, a: Action, id: int)
    requires Core(s) && Enabled(s, a) && Core(Next(s, a)) && !(a.ApplyPut? && a.expire == id)
    ensures Next(s, a).n == s.n && Remembered(s, Next(s, a), id)
  {
    match a
    case AddConfig(c) =>
      forall i | 0 <= i < s.n ensures LiveCache(Next(s, a), i) == LiveCache(s, i) { AddConfigLive(s, c, i); }
    case ApplyConfig(g, num) => EnterRemembers(s, g, num, id);
    case ApplyReply(m) => ReplyRemembers(s, m, id);
    case ApplyGet(_, _, _) => RequestRemembers(s, a, id);
    case ApplyPut(_, _, _, _, _, _, _) => RequestRemembers(s, a, id);
    case ApplyCleanup(_) => CleaningRemembers(s, a, id);
    case FinishClean(_) => CleaningRemembers(s, a, id);
    case _ => SendingRemembers(s, a, id);
  }

  // ---------- an id that is used in one shard ----------

  /** Wherever the id is remembered, it is noted with a key of shard i. */
  ghost predicate NotesIn(cache: map<int, Str>, n: nat, id: int, i: int)
    requires n > 0
  {
    id in cache ==> Key2Shard(cache[id], n) == i
  }

  ghost predicate GroupNotes(x: Group, n: nat, id: int, i: int)
    requires n > 0
  {
    && NotesIn(x.cache, n, id, i)
    && forall k, j :: k in x.migrating && j in x.migrating[k] ==> NotesIn(x.migrating[k][j].cache, n, id, i)
  }

  ghost predicate Notes(s: System, id: int, i: int)
    requires s.n > 0
  {
    && (forall g :: g in s.groups ==> GroupNotes(s.groups[g], s.n, id, i))
    && (forall m :: m in s.net && m.PullReply? ==> NotesIn(m.payload.cache, s.n, id, i))
  }

  lemma EnterNotes(x: Group, c: Config, n: nat, id: int, i: int)
    requires n > 0 && GroupNotes(x, n, id, i)
    ensures GroupNotes(NewConf(x, c, n), n, id, i)
  {
  }

  lemma CleanupNotes(x: Group, shard: int, num: int, n: nat, id: int, i: int)
    requires n > 0 && GroupNotes(x, n, id, i)
    ensures GroupNotes(Cleanup(x, shard, num), n, id, i)
  {
    CleanupDrops(x, shard, num);
    var y := Cleanup(x, shard, num);
    forall k, j | k in y.migrating && j in y.migrating[k] ensures NotesIn(y.migrating[k][j].cache, n, id, i) {
      assert Keeps(x, y, k, j);
    }
  }

  lemma StepNotes(s: System, a: Action, id: int, i: int)
    requires s.n > 0 && Enabled(s, a) && Notes(s, id, i)
    requires a.ApplyPut? && a.id == id ==> Key2Shard(a.key, s.n) == i
    ensures Next(s, a).n == s.n && Notes(Next(s, a), id, i)
  {
    if a.AddConfig? || a.Pull? || a.ServePull? || a.Clean? {
      SendingNotes(s, a, id, i);
    } else if a.ApplyGet? || a.ApplyPut? || a.FinishClean? {
      RequestNotes(s, a, id, i);
    } else {
      MovingNotes(s, a, id, i);
    }
  }

  lemma SendingNotes(s: System, a: Action, id: int, i: int)
    requires s.n > 0 && Enabled(s, a) && Notes(s, id, i) && (a.AddConfig? || a.Pull? || a.ServePull? || a.Clean?)
    ensures Next(s, a).n == s.n && Notes(Next(s, a), id, i)
  {
    assert a.ServePull? ==> GroupNotes(s.groups[a.req.to], s.n, id, i);
  }

  lemma RequestNotes(s: System, a: Action, id: int, i: int)
    requires s.n > 0 && Enabled(s, a) && Notes(s, id, i) && (a.ApplyGet? || a.ApplyPut? || a.FinishClean?)
    requires a.ApplyPut? && a.id == id ==> Key2Shard(a.key, s.n) == i
    ensures Next(s, a).n == s.n && Notes(Next(s, a), id, i)
  {
  }

  lemma MovingNotes(s: System, a: Action, id: int, i: int)
    requires s.n > 0 && Enabled(s, a) && Notes(s, id, i) && (a.ApplyConfig? || a.ApplyReply? || a.ApplyCleanup?)
    ensures Next(s, a).n == s.n && Notes(Next(s, a), id, i)
  {
    if a.ApplyConfig? {
      EnterNotes(s.groups[a.g], s.configs[a.num], s.n, id, i);
    } else if a.ApplyCleanup? {
      CleanupNotes(s.groups[a.clean.to], a.clean.shard, a.clean.configNum, s.n, id, i);
    }
  }

  /** All writes of the first j steps that bear the id are on keys of shard i. */
  ghost predicate OneShard(acts: seq<Action>, j: nat, n: nat, id: int, i: int)
    requires j <= |acts| && n > 0
  {
    forall k {:trigger acts[k]} :: 0 <= k < j && acts[k].ApplyPut? && acts[k].id == id ==>
      Key2Shard(acts[k].key, n) == i
  }

  lemma {:induction false} RunNotes(tr: seq<System>, acts: seq<Action>, j: nat, id: int, i: int)
    requires IsRun(tr, acts) && j < |tr| && tr[0].n > 0 && OneShard(acts, j, tr[0].n, id, i)
    ensures tr[j].n == tr[0].n && Notes(tr[j], id, i)
  {
    if j > 0 {
      assert acts[j - 1] == acts[j - 1];
      RunNotes(tr, acts, j - 1, id, i);
      StepNotes(tr[j - 1], acts[j - 1], id, i);
    }
  }

  /** The live copy of shard i remembers the id. */
  ghost predicate LiveNotes(s: System, id: int, i: int) {
    Core(s) && 0 <= i < s.n && id in LiveCache(s, i)
  }

  lemma LiveIsNoted(s: System, id: int, i: int)
    requires LiveNotes(s, id, i) && Notes(s, id, i)
    ensures Key2Shard(LiveCache(s, i)[id], s.n) == i
  {
    assert PlaceOk(s, i);
    if s.at[i] > 0 { assert ConfigOk(s, s.at[i]); }
  }

  /** Once noted by the live copy of its shard, an id stays noted there until a request expires it. */
  lemma {:induction false} NotedUntilExpired(tr: seq<System>, acts: seq<Action>, i: nat, j: nat, id: int, shard: int)
    requires IsRun(tr, acts) && i <= j < |tr| && LiveNotes(tr[i], id, shard)
    requires tr[0].n > 0 && OneShard(acts, j, tr[0].n, id, shard)
    requires forall k: nat {:trigger Expires(acts, k, id)} :: i <= k < j ==> !Expires(acts, k, id)
    ensures LiveNotes(tr[j], id, shard)
  {
    if i < j {
      NotedUntilExpired(tr, acts, i, j - 1, id, shard);
      RunNotes(tr, acts, j - 1, id, shard);
      LiveIsNoted(tr[j - 1], id, shard);
      RunCore(tr, acts, j);
      assert acts[j - 1] == acts[j - 1] && !Expires(acts, j - 1, id);
      StepRemembers(tr[j - 1], acts[j - 1], id);
    }
  }

  lemma ExecutedIsNoted(tr: seq<System>, acts: seq<Action>, i: nat, id: int)
    requires IsRun(tr, acts) && Executes(tr, acts, i, id)
    ensures LiveNotes(tr[i + 1], id, Key2Shard(acts[i].key, tr[i].n))
  {
    RunCore(tr, acts, i);
    RunCore(tr, acts, i + 1);
    var a := acts[i];
    assert tr[i + 1] == Next(tr[i], a);
    assert Next(tr[i], a) == DoApplyPut(tr[i], a.g, id, a.expire, a.configNum, a.key, a.value, a.put);
    assert Fresh(tr[i].groups[a.g], id, a.configNum, a.key, tr[i].n);
    OwnIsLive(tr[i + 1], a.g, Key2Shard(a.key, tr[i].n));
  }

  lemma NotedIsNotFresh(tr: seq<System>, acts: seq<Action>, j: nat, id: int)
    requires IsRun(tr, acts) && Executes(tr, acts, j, id)
    ensures !LiveNotes(tr[j], id, Key2Shard(acts[j].key, tr[j].n))
  {
    RunCore(tr, acts, j);
    OwnIsLive(tr[j], acts[j].g, Key2Shard(acts[j].key, tr[j].n));
  }

  /** At most once, for an id whose writes are on keys of one shard: between two effects of the id on the whole
      store, a request that expires the id is applied. */
  lemma AtMostOnce(tr: seq<System>, acts: seq<Action>, i: nat, j: nat, id: int)
    requires IsRun(tr, acts) && i < j && Executes(tr, acts, i, id) && Executes(tr, acts, j, id)
    requires tr[0].n > 0 && OneShard(acts, j, tr[0].n, id, Key2Shard(acts[j].key, tr[0].n))
    ensures exists k: nat {:trigger Expires(acts, k, id)} :: i < k < j && Expires(acts, k, id)
  {
    var shard := Key2Shard(acts[j].key, tr[0].n);
    RunNotes(tr, acts, i, id, shard);
    RunNotes(tr, acts, j, id, shard);
    ExecutedIsNoted(tr, acts, i, id);
    NotedIsNotFresh(tr, acts, j, id);
    if forall k: nat {:trigger Expires(acts, k, id)} :: i < k < j ==> !Expires(acts, k, id) {
      NotedUntilExpired(tr, acts, i + 1, j, id, shard);
    }
  }
}
