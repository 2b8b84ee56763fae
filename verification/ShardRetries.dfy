/** Retries of a write with the same request id. A group remembers the id of every write it applies, also of one
    it refuses, and of those that come with an installed shard; what it remembers it does not execute. */
module ShardRetries {
  import opened ShardTypes
  import opened ShardGroup
  import opened ShardSystem
  import opened ShardInvariant
  import opened ShardTheorems
  import opened ShardRuns

  // ---------- what a group remembers ----------

  /** The step puts id into the cache of group g: a write with the id is applied, or it comes with a shard. */
  ghost predicate Remembers(s: System, a: Action, g: int, id: int)
    requires s.n > 0 && Enabled(s, a) && g in s.groups
  {
    || (a.ApplyPut? && a.g == g && a.id == id)
    || (a.ApplyReply? && a.reply.to == g && Installs(s.groups[g], a.reply.shard, a.reply.configNum)
        && id in a.reply.payload.cache)
  }

  /** The step takes id out of it: an applied request expires the id, or the shard of the key it is noted with
      is given up. */
  ghost predicate Forgets(s: System, a: Action, g: int, id: int)
    requires s.n > 0 && Enabled(s, a) && g in s.groups
  {
    || (a.ApplyPut? && a.g == g && a.expire == id && a.id != id)
    || (a.ApplyConfig? && a.g == g && s.configs[a.num].num > s.groups[g].config.num && id in s.groups[g].cache
        && Key2Shard(s.groups[g].cache[id], s.n) in s.groups[g].own - Assigned(s.configs[a.num], g))
  }

  lemma EnterCache(x: Group, c: Config, n: nat, id: int)
    requires n > 0
    ensures id in NewConf(x, c, n).cache <==>
              id in x.cache && !(c.num > x.config.num && Key2Shard(x.cache[id], n) in x.own - Assigned(c, x.gid))
  {
  }

  lemma PutCache(x: Group, id: int, other: int, expire: int, configNum: int, key: Str, value: Str, put: bool, n: nat)
    requires n > 0
    ensures id in PutAppend(x, other, expire, configNum, key, value, put, n).cache <==>
              other == id || (id in x.cache && expire != id)
  {
  }

  lemma ReplyCache(x: Group, shard: int, configNum: int, payload: MigrationData, id: int)
    ensures id in MigrationReply(x, shard, configNum, payload).cache <==>
              id in x.cache || (Installs(x, shard, configNum) && id in payload.cache)
  {
  }

  /** After a step the id is in the cache exactly when the step remembers it, or it was there and is not forgotten. */
  lemma StepCache(s: System, a: Action, g: int, id: int)
    requires s.n > 0 && Enabled(s, a) && g in s.groups
    requires s.groups[g].gid == g
    ensures Next(s, a).groups.Keys == s.groups.Keys
    ensures id in Next(s, a).groups[g].cache <==>
              Remembers(s, a, g, id) || (id in s.groups[g].cache && !Forgets(s, a, g, id))
  {
    var x := s.groups[g];
    match a
    case ApplyConfig(h, num) =>
      if h == g { EnterCache(x, s.configs[num], s.n, id); }
    case ApplyPut(h, other, expire, configNum, key, value, put) =>
      if h == g { PutCache(x, id, other, expire, configNum, key, value, put, s.n); }
    case ApplyReply(m) =>
      if m.to == g { ReplyCache(x, m.shard, m.configNum, m.payload, id); }
    case _ =>
  }

  // ---------- what a run leaves remembered ----------

  ghost predicate RemembersAt(tr: seq<System>, acts: seq<Action>, k: nat, g: int, id: int) {
    && k < |acts| && k < |tr| && tr[k].n > 0 && Enabled(tr[k], acts[k]) && g in tr[k].groups
    && Remembers(tr[k], acts[k], g, id)
  }

  ghost predicate ForgetsAt(tr: seq<System>, acts: seq<Action>, k: nat, g: int, id: int) {
    && k < |acts| && k < |tr| && tr[k].n > 0 && Enabled(tr[k], acts[k]) && g in tr[k].groups
    && Forgets(tr[k], acts[k], g, id)
  }

  ghost predicate NotForgotten(tr: seq<System>, acts: seq<Action>, i: nat, j: nat, g: int, id: int) {
    forall k: nat {:trigger ForgetsAt(tr, acts, k, g, id)} :: i < k < j ==> !ForgetsAt(tr, acts, k, g, id)
  }

  /** Of the first j steps, one remembers the id at g and none after it forgets it. */
  ghost predicate LastRemembered(tr: seq<System>, acts: seq<Action>, j: nat, g: int, id: int) {
    exists i: nat {:trigger RemembersAt(tr, acts, i, g, id)} ::
      i < j && RemembersAt(tr, acts, i, g, id) && NotForgotten(tr, acts, i, j, g, id)
  }

  lemma OneMoreStep(tr: seq<System>, acts: seq<Action>, i: nat, p: nat, g: int, id: int)
    requires i < p
    ensures NotForgotten(tr, acts, i, p + 1, g, id) <==>
              NotForgotten(tr, acts, i, p, g, id) && !ForgetsAt(tr, acts, p, g, id)
  {
  }

  lemma LastRememberedStep(tr: seq<System>, acts: seq<Action>, j: nat, g: int, id: int)
    requires j > 0
    ensures LastRemembered(tr, acts, j, g, id) <==>
              || RemembersAt(tr, acts, j - 1, g, id)
              || (LastRemembered(tr, acts, j - 1, g, id) && !ForgetsAt(tr, acts, j - 1, g, id))
  {
    var p: nat := j - 1;
    if RemembersAt(tr, acts, p, g, id) {
      assert NotForgotten(tr, acts, p, j, g, id);
    } else {
      forall i: nat {:trigger RemembersAt(tr, acts, i, g, id)} | i < p
        ensures NotForgotten(tr, acts, i, j, g, id) <==>
                  NotForgotten(tr, acts, i, p, g, id) && !ForgetsAt(tr, acts, p, g, id)
      {
        OneMoreStep(tr, acts, i, p, g, id);
      }
    }
  }

  /** In every run, a group's cache holds an id exactly when the last step that concerned it remembered it. */
  lemma {:induction false} CacheIsLastRemembered(tr: seq<System>, acts: seq<Action>, j: nat, g: int, id: int)
    requires IsRun(tr, acts) && j < |tr| && g in tr[0].groups
    ensures g in tr[j].groups
    ensures id in tr[j].groups[g].cache <==> LastRemembered(tr, acts, j, g, id)
  {
    if j > 0 {
      CacheIsLastRemembered(tr, acts, j - 1, g, id);
      LastRememberedStep(tr, acts, j, g, id);
      var s := tr[j - 1];
      RunCore(tr, acts, j - 1);
      assert acts[j - 1] == acts[j - 1];
      assert GroupOk(s, g);
      StepCache(s, acts[j - 1], g, id);
    }
  }

  /** A write, tried again or not, takes effect exactly when the group serves its key and the last step at the
      group that concerned its id, if any, was one that forgot it. */
  lemma WritesIff(tr: seq<System>, acts: seq<Action>, j: nat, a: Action)
    requires IsRun(tr, acts) && j < |tr| && a.ApplyPut? && a.g in tr[0].groups
    ensures tr[j].n > 0 && a.g in tr[j].groups
    ensures Enabled(tr[j], a) ==>
              (Effect(tr[j], a) != NoWrite <==>
                 Serves(tr[j].groups[a.g], a.configNum, a.key, tr[j].n) && !LastRemembered(tr, acts, j, a.g, a.id))
  {
    RunCore(tr, acts, j);
    CacheIsLastRemembered(tr, acts, j, a.g, a.id);
  }

  /** A write that a group refused is not executed there when it is tried again with its id, under whatever
      configuration, until a request expires the id or the group gives up the shard of the key noted with it. */
  lemma RefusedWriteIsBlocked(tr: seq<System>, acts: seq<Action>, i: nat, j: nat, a: Action)
    requires IsRun(tr, acts) && i < j < |tr| && a.ApplyPut? && a.g in tr[0].groups && Enabled(tr[j], a)
    requires acts[i].ApplyPut? && acts[i].g == a.g && acts[i].id == a.id
    requires NotForgotten(tr, acts, i, j, a.g, a.id)
    ensures tr[j].n > 0 && Effect(tr[j], a) == NoWrite
  {
    WritesIff(tr, acts, j, a);
    assert acts[i] == acts[i];
    CacheIsLastRemembered(tr, acts, i, a.g, a.id);
    assert RemembersAt(tr, acts, i, a.g, a.id);
  }

  // ---------- a run that loses a write ----------

  /** The assignments: no group, then group 1, then group 2. */
  ghost predicate Assignments(c: seq<Config>) {
    |c| == 3 && c[0] == Config(0, [0], map[]) && c[1] == Config(1, [1], map[]) && c[2] == Config(2, [2], map[])
  }

  lemma GroupOneMoves(c: seq<Config>)
    requires Assignments(c)
    ensures var x1 := NewConf(InitGroup(1, c[0]), c[1], 1);
            var x2 := NewConf(x1, c[2], 1);
            && x1.config == c[1] && x1.waiting == map[]
            && x2.config == c[2] && PullPayload(x2, 0, 1) == MigrationData(map[], map[])
  {
    assert Assigned(c[1], 1) == {0} && Assigned(c[2], 1) == {};
  }

  lemma GroupTwoWaits(c: seq<Config>)
    requires Assignments(c)
    ensures var y1 := NewConf(InitGroup(2, c[0]), c[1], 1);
            var y2 := NewConf(y1, c[2], 1);
            && y1.config == c[1] && y1.waiting == map[]
            && y2.config == c[2] && y2.own == {} && y2.waiting == map[0 := 1] && y2.history == [c[0], c[1]]
            && y2.data == map[] && y2.cache == map[]
  {
    assert Assigned(c[1], 2) == {} && Assigned(c[2], 2) == {0};
    var y1 := NewConf(InitGroup(2, c[0]), c[1], 1);
    assert y1.own == {} && y1.waiting == map[];
  }

  /** The shard is on its way: group 2 waits for it, and group 1 has moved on and can give it. */
  lemma ShardOnItsWay(s: System, c: seq<Config>) returns (tr: seq<System>, acts: seq<Action>)
    requires Init(s) && s.n == 1 && s.groups.Keys == {1, 2} && Assignments(c)
    ensures IsRun(tr, acts) && tr[0] == s && tr[|acts|].net == {}
    ensures var x := NewConf(NewConf(InitGroup(1, c[0]), c[1], 1), c[2], 1);
            var y := NewConf(NewConf(InitGroup(2, c[0]), c[1], 1), c[2], 1);
            Pair(tr[|acts|], 1, c, 1, x, 2, y)
  {
    GroupOneMoves(c);
    GroupTwoWaits(c);
    assert seq(1, i => 0) == [0];
    tr, acts := Publish(s, c[1], c[2]);
    assert s.configs + [c[1], c[2]] == c;
    var x, y := InitGroup(1, c[0]), InitGroup(2, c[0]);
    tr, acts := Enter(tr, acts, 1, c, 1, x, 2, y, 1);
    tr, acts := Enter(tr, acts, 1, c, 1, NewConf(x, c[1], 1), 2, NewConf(y, c[1], 1), 2);
  }

  /** A write reaches group 2 while it waits for the shard and is refused, then the shard arrives without the
      key: the group now serves the key, and the retry with the same id changes nothing all the same. */
  lemma RefusedWriteIsLost(s: System, c: seq<Config>, write: Action)
    returns (tr: seq<System>, acts: seq<Action>, i: nat)
    requires Init(s) && s.n == 1 && s.groups.Keys == {1, 2} && Assignments(c)
    requires write.ApplyPut? && write.g == 2 && write.configNum == 2
    ensures IsRun(tr, acts) && tr[0] == s && i < |acts| && acts[i] == write
    ensures var x := tr[i].groups; tr[i].n == 1 && 2 in x && x[2].config == c[2] && !Serves(x[2], 2, write.key, 1)
    ensures var last := tr[|acts|];
            && last.n == 1 && 2 in last.groups && Enabled(last, write)
            && Serves(last.groups[2], write.configNum, write.key, 1) && write.key !in last.groups[2].data
            && Effect(last, write) == NoWrite
  {
    GroupOneMoves(c);
    GroupTwoWaits(c);
    var x := NewConf(NewConf(InitGroup(1, c[0]), c[1], 1), c[2], 1);
    var y := NewConf(NewConf(InitGroup(2, c[0]), c[1], 1), c[2], 1);
    tr, acts := ShardOnItsWay(s, c);
    i := |acts|;
    tr, acts := Then(tr, acts, write);
    var z := PutAppend(y, write.id, write.expire, 2, write.key, write.value, write.put, 1);
    tr, acts := Move(tr, acts, 1, c, 1, x, 2, z, 0);
  }
}
