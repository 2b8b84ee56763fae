/** Each step of the store keeps the invariant and does to the viewed map exactly what it should. */
module ShardSteps {
  import opened ShardTypes
  import opened ShardGroup
  import opened ShardSystem
  import opened ShardInvariant

  // ---------- steps that leave configurations and ownership alone ----------

  /** Group g changed at most its data, its cache, dead copies and its list of pending cleanups. */
  ghost predicate Quiet(s: System, s': System, g: int)
    requires s.n > 0
  {
    && g in s.groups && s'.groups.Keys == s.groups.Keys && s'.n == s.n
    && (forall h :: h in s.groups && h != g ==> s'.groups[h] == s.groups[h])
    && s'.configs == s.configs && s'.at == s.at
    && var x, y := s.groups[g], s'.groups[g];
    && y.gid == x.gid && y.config == x.config && y.own == x.own && y.waiting == x.waiting && y.history == x.history
    && (forall k :: k in y.data ==> Key2Shard(k, s.n) in y.own)
    && (forall k, i :: k in y.migrating && i in y.migrating[k] ==> Keeps(x, y, k, i))
    && (forall k, i :: k in x.migrating && i in x.migrating[k] && i in s.at && s.at[i] == k ==> Keeps(x, y, k, i))
    && (forall k :: k in y.cleaning ==> k in x.cleaning && y.cleaning[k] <= x.cleaning[k])
  }

  ghost predicate Keeps(x: Group, y: Group, k: int, i: int) {
    && k in x.migrating && i in x.migrating[k] && k in y.migrating && i in y.migrating[k]
    && y.migrating[k][i] == x.migrating[k][i]
  }

  lemma ConfigsKept(s: System, s': System)
    requires ConfigsOk(s) && s'.groups.Keys >= s.groups.Keys && 0 !in s'.groups && s'.configs == s.configs
    requires s'.n == s.n
    ensures ConfigsOk(s')
  {
    forall k | 0 <= k < |s'.configs| ensures ConfigOk(s', k) {
      assert ConfigOk(s, k);
    }
  }

  lemma QuietCore(s: System, s': System, g: int)
    requires Core(s) && Quiet(s, s', g)
    requires forall m :: m in s'.net && m !in s.net ==> MessageOk'(s', m)
    ensures Core(s')
  {
    ConfigsKept(s, s');
    forall i | 0 <= i < s.n ensures PlaceOk(s', i) {
      assert PlaceOk(s, i);
      if s.at[i] > 0 { assert ConfigOk(s, s.at[i]); }
    }
    forall i, k | 0 <= i < s.n && 1 <= k < |s.configs| ensures PassedOk(s', i, k) {
      assert PassedOk(s, i, k) && ConfigOk(s, k);
    }
    forall h | h in s'.groups ensures GroupOk(s', h) {
      assert GroupOk(s, h);
    }
    QuietShards(s, s', g);
    forall m | m in s'.net ensures MessageOk(s', m) {
      if m in s.net { QuietMessage(s, s', g, m); }
    }
  }

  lemma QuietShards(s: System, s': System, g: int)
    requires Core(s) && Quiet(s, s', g) && ConfigsOk(s')
    ensures forall h, i :: h in s'.groups && i in s'.groups[h].own ==> OwnOk(s', h, i)
    ensures forall h, k, i :: h in s'.groups && k in s'.groups[h].migrating && i in s'.groups[h].migrating[k] ==>
              StoredOk(s', h, k, i)
    ensures forall h, k, i :: h in s'.groups && k in s'.groups[h].cleaning && i in s'.groups[h].cleaning[k] ==>
              CleaningOk(s', h, k, i)
  {
    forall h, i | h in s'.groups && i in s'.groups[h].own ensures OwnOk(s', h, i) {
      assert OwnOk(s, h, i);
    }
    forall h, k, i | h in s'.groups && k in s'.groups[h].migrating && i in s'.groups[h].migrating[k]
      ensures StoredOk(s', h, k, i)
    {
      assert h == g ==> Keeps(s.groups[g], s'.groups[g], k, i);
      assert StoredOk(s, h, k, i);
    }
    forall h, k, i | h in s'.groups && k in s'.groups[h].cleaning && i in s'.groups[h].cleaning[k]
      ensures CleaningOk(s', h, k, i)
    {
      assert CleaningOk(s, h, k, i);
    }
  }

  /** MessageOk where the configurations are known to be well formed. */
  ghost predicate MessageOk'(s: System, m: Message) {
    ConfigsOk(s) ==> MessageOk(s, m)
  }

  lemma QuietMessage(s: System, s': System, g: int, m: Message)
    requires Core(s) && Quiet(s, s', g) && ConfigsOk(s') && MessageOk(s, m)
    ensures MessageOk(s', m)
  {
    if m.PullReply? {
      assert ConfigOk(s, m.configNum) && ConfigOk(s, m.configNum + 1);
      assert ConfigOk(s', m.configNum) && ConfigOk(s', m.configNum + 1);
    } else if m.PullRequest? {
      assert ConfigOk(s, m.configNum) && ConfigOk(s, m.configNum + 1);
      assert ConfigOk(s', m.configNum) && ConfigOk(s', m.configNum + 1);
    }
  }

  /** Where the live copy is in g's own hands it is g's data, otherwise it is untouched. */
  lemma QuietLive(s: System, s': System, g: int, i: int)
    requires Core(s) && Core(s') && Quiet(s, s', g) && 0 <= i < s.n
    ensures i in s.groups[g].own ==>
              LiveData(s, i) == s.groups[g].data && LiveCache(s, i) == s.groups[g].cache
              && LiveData(s', i) == s'.groups[g].data && LiveCache(s', i) == s'.groups[g].cache
    ensures i !in s.groups[g].own ==> LiveData(s', i) == LiveData(s, i) && LiveCache(s', i) == LiveCache(s, i)
  {
    assert PlaceOk(s, i) && PlaceOk(s', i);
    if s.at[i] > 0 {
      assert ConfigOk(s, s.at[i]) && ConfigOk(s', s.at[i]);
      assert PassedOk(s, i, s.at[i]);
    }
    if i in s.groups[g].own {
      OwnIsLive(s, g, i);
      OwnIsLive(s', g, i);
    }
  }

  /** A shard that g owns is live at g, under g's own configuration. */
  lemma OwnIsLive(s: System, g: int, i: int)
    requires Core(s) && g in s.groups && i in s.groups[g].own
    ensures 0 <= i < s.n && i in s.at && s.at[i] == s.groups[g].config.num > 0
    ensures s.at[i] < |s.configs| && i < |s.configs[s.at[i]].shards|
    ensures Owner(s, s.at[i], i) == g
    ensures LiveData(s, i) == s.groups[g].data && LiveCache(s, i) == s.groups[g].cache
  {
    var x := s.groups[g];
    assert GroupOk(s, g) && OwnOk(s, g, i);
    assert ConfigOk(s, x.config.num);
    assert i in Assigned(x.config, g);
  }

  // ---------- client requests ----------

  lemma GetCore(s: System, g: int, configNum: int, key: Str)
    requires Core(s) && g in s.groups
    ensures var s' := Put(s, g, Get(s.groups[g], configNum, key, s.n)); Quiet(s, s', g) && Core(s')
  {
    assert GroupOk(s, g);
    QuietCore(s, Put(s, g, Get(s.groups[g], configNum, key, s.n)), g);
  }

  /** A served read returns the value of the map, and changes no value. */
  lemma GetReads(s: System, g: int, configNum: int, key: Str, k: Str)
    requires Core(s) && g in s.groups
    ensures var s' := Put(s, g, Get(s.groups[g], configNum, key, s.n)); Core(s') && View(s', k) == View(s, k)
    ensures Serves(s.groups[g], configNum, key, s.n) ==>
              Lookup(Get(s.groups[g], configNum, key, s.n).data, key) == View(s, key)
  {
    var s' := Put(s, g, Get(s.groups[g], configNum, key, s.n));
    GetCore(s, g, configNum, key);
    if 0 <= Key2Shard(k, s.n) < s.n { QuietLive(s, s', g, Key2Shard(k, s.n)); }
    if Serves(s.groups[g], configNum, key, s.n) { OwnIsLive(s, g, Key2Shard(key, s.n)); }
  }

  lemma PutCore(s: System, g: int, id: int, expire: int, configNum: int, key: Str, value: Str, put: bool)
    requires Core(s) && g in s.groups
    ensures var s' := DoApplyPut(s, g, id, expire, configNum, key, value, put); Quiet(s, s', g) && Core(s')
  {
    assert GroupOk(s, g);
    QuietCore(s, DoApplyPut(s, g, id, expire, configNum, key, value, put), g);
  }

  /** A write changes the map at its key, and only when it is served for the first time. */
  lemma PutWrites(s: System, g: int, id: int, expire: int, configNum: int, key: Str, value: Str, put: bool, k: Str)
    requires Core(s) && g in s.groups
    ensures var s' := DoApplyPut(s, g, id, expire, configNum, key, value, put);
            Core(s') && View(s', k) ==
              (if Fresh(s.groups[g], id, configNum, key, s.n) && k == key
               then if put then value else View(s, key) + value
               else View(s, k))
  {
    var s' := DoApplyPut(s, g, id, expire, configNum, key, value, put);
    PutCore(s, g, id, expire, configNum, key, value, put);
    if 0 <= Key2Shard(k, s.n) < s.n { QuietLive(s, s', g, Key2Shard(k, s.n)); }
    if Fresh(s.groups[g], id, configNum, key, s.n) { OwnIsLive(s, g, Key2Shard(key, s.n)); }
  }

  // ---------- steps that leave every live copy in place ----------

  lemma QuietKeeps(s: System, s': System, g: int, k: Str)
    requires Core(s) && Quiet(s, s', g) && s'.groups[g].data == s.groups[g].data
    requires s'.groups[g].cache == s.groups[g].cache
    requires forall m :: m in s'.net && m !in s.net ==> MessageOk'(s', m)
    ensures Core(s') && View(s', k) == View(s, k)
  {
    assert GroupOk(s, g);
    QuietCore(s, s', g);
    if 0 <= Key2Shard(k, s.n) < s.n { QuietLive(s, s', g, Key2Shard(k, s.n)); }
  }

  /** A cleanup drops one payload and no other. */
  lemma CleanupDrops(x: Group, shard: int, num: int)
    ensures var y := Cleanup(x, shard, num);
            && (forall k, i :: k in y.migrating && i in y.migrating[k] ==> Keeps(x, y, k, i))
            && (forall k, i :: k in x.migrating && i in x.migrating[k] && (k != num || i != shard) ==>
                  Keeps(x, y, k, i))
  {
    if num in x.migrating {
      var rest := x.migrating[num] - {shard};
      forall i | i in x.migrating[num] && i != shard ensures rest != map[] && i in rest {
        assert i in rest;
      }
    }
  }

  lemma CleanupQuiet(s: System, m: Message)
    requires Core(s) && m in s.net && m.CleanRequest? && m.to in s.groups
    ensures Quiet(s, DoApplyCleanup(s, m), m.to)
  {
    assert MessageOk(s, m) && GroupOk(s, m.to);
    CleanupDrops(s.groups[m.to], m.shard, m.configNum);
  }

  lemma CleanupKeeps(s: System, m: Message, k: Str)
    requires Core(s) && m in s.net && m.CleanRequest? && m.to in s.groups
    ensures Core(DoApplyCleanup(s, m)) && View(DoApplyCleanup(s, m), k) == View(s, k)
  {
    CleanupQuiet(s, m);
    QuietKeeps(s, DoApplyCleanup(s, m), m.to, k);
  }

  lemma FinishKeeps(s: System, m: Message, k: Str)
    requires Core(s) && m in s.net && m.CleanReply? && m.to in s.groups
    ensures var s' := Put(s, m.to, Cleaned(s.groups[m.to], m.shard, m.configNum)); Core(s') && View(s', k) == View(s, k)
  {
    assert GroupOk(s, m.to);
    QuietKeeps(s, Put(s, m.to, Cleaned(s.groups[m.to], m.shard, m.configNum)), m.to, k);
  }

  lemma SendKeeps(s: System, g: int, m: Message, k: Str)
    requires Core(s) && g in s.groups && MessageOk(s, m)
    ensures Core(Send(s, m)) && View(Send(s, m), k) == View(s, k)
  {
    assert GroupOk(s, g);
    forall k, i | k in s.groups[g].migrating && i in s.groups[g].migrating[k]
      ensures Keeps(s.groups[g], s.groups[g], k, i)
    {
    }
    NetMessage(s, m);
    QuietKeeps(s, Send(s, m), g, k);
  }

  lemma NetMessage(s: System, m: Message)
    requires ConfigsOk(s) && MessageOk(s, m)
    ensures MessageOk'(Send(s, m), m)
  {
    ConfigsKept(s, Send(s, m));
    if m.PullReply? || m.PullRequest? {
      assert ConfigOk(s, m.configNum) && ConfigOk(s, m.configNum + 1);
    }
  }

  lemma PullKeeps(s: System, g: int, shard: int, k: Str)
    requires Core(s) && g in s.groups && shard in s.groups[g].waiting
    ensures Core(DoPull(s, g, shard)) && View(DoPull(s, g, shard), k) == View(s, k)
  {
    var x := s.groups[g];
    assert GroupOk(s, g);
    var w := x.waiting[shard];
    assert ConfigOk(s, w) && ConfigOk(s, w + 1);
    assert shard in Assigned(x.config, g);
    SendKeeps(s, g, PullRequest(g, x.history[w].shards[shard], shard, x.history[w].num), k);
  }

  /** A group that left configuration k answers with the shard's live copy, or after it has been taken over. */
  lemma ServePullKeeps(s: System, m: Message, k: Str)
    requires Core(s) && m in s.net && m.PullRequest? && m.to in s.groups
    ensures Core(DoServePull(s, m)) && View(DoServePull(s, m), k) == View(s, k)
  {
    var x := s.groups[m.to];
    assert MessageOk(s, m);
    if CanServePull(x, m.configNum) {
      assert ConfigOk(s, m.configNum) && ConfigOk(s, m.configNum + 1);
      assert PassedOk(s, m.shard, m.configNum) && PlaceOk(s, m.shard);
      if m.configNum in x.migrating && m.shard in x.migrating[m.configNum] {
        assert StoredOk(s, m.to, m.configNum, m.shard);
      }
      SendKeeps(s, m.to, PullReply(m.from, m.shard, m.configNum, PullPayload(x, m.shard, m.configNum)), k);
    } else {
    }
  }

  lemma CleanKeeps(s: System, g: int, shard: int, num: int, k: Str)
    requires Core(s) && g in s.groups && num in s.groups[g].cleaning && shard in s.groups[g].cleaning[num]
    ensures Core(DoClean(s, g, shard, num)) && View(DoClean(s, g, shard, num), k) == View(s, k)
  {
    var x := s.groups[g];
    assert GroupOk(s, g) && CleaningOk(s, g, num, shard);
    if 0 <= num < |x.history| && 0 <= shard < |x.history[num].shards| {
      assert ConfigOk(s, num);
      SendKeeps(s, g, CleanRequest(g, x.history[num].shards[shard], shard, x.history[num].num), k);
    }
  }

  // ---------- a new configuration is published ----------

  lemma AddConfigKeeps(s: System, c: Config, k: Str)
    requires Core(s) && Enabled(s, AddConfig(c))
    ensures Core(s.(configs := s.configs + [c])) && View(s.(configs := s.configs + [c]), k) == View(s, k)
  {
    var s' := s.(configs := s.configs + [c]);
    forall j | 0 <= j < |s'.configs| ensures ConfigOk(s', j) {
      if j < |s.configs| { assert ConfigOk(s, j); }
    }
    AddConfigCore(s, c);
    if 0 <= Key2Shard(k, s.n) < s.n { AddConfigLive(s, c, Key2Shard(k, s.n)); }
  }

  lemma AddConfigLive(s: System, c: Config, i: int)
    requires Core(s) && Enabled(s, AddConfig(c)) && Core(s.(configs := s.configs + [c])) && 0 <= i < s.n
    ensures var s' := s.(configs := s.configs + [c]);
            LiveData(s', i) == LiveData(s, i) && LiveCache(s', i) == LiveCache(s, i)
  {
    var s' := s.(configs := s.configs + [c]);
    assert PlaceOk(s, i) && PlaceOk(s', i);
    if s.at[i] > 0 { assert ConfigOk(s, s.at[i]) && ConfigOk(s', s.at[i]); }
  }

  lemma AddConfigCore(s: System, c: Config)
    requires Core(s) && Enabled(s, AddConfig(c)) && ConfigsOk(s.(configs := s.configs + [c]))
    ensures Core(s.(configs := s.configs + [c]))
  {
    var s' := s.(configs := s.configs + [c]);
    forall i | 0 <= i < s.n ensures PlaceOk(s', i) {
      assert PlaceOk(s, i);
      if s.at[i] > 0 { assert ConfigOk(s, s.at[i]) && ConfigOk(s', s.at[i]); }
    }
    forall i, k | 0 <= i < s.n && 1 <= k < |s'.configs| ensures PassedOk(s', i, k) {
      assert ConfigOk(s', k) && PlaceOk(s, i);
      if k < |s.configs| {
        assert PassedOk(s, i, k);
      } else if Owner(s', k, i) in s.groups {
        assert GroupOk(s, Owner(s', k, i));
      }
    }
    forall h | h in s'.groups ensures GroupOk(s', h) {
      assert GroupOk(s, h);
    }
    forall h, i | h in s'.groups && i in s'.groups[h].own ensures OwnOk(s', h, i) {
      assert OwnOk(s, h, i);
    }
    forall h, k, i | h in s'.groups && k in s'.groups[h].migrating && i in s'.groups[h].migrating[k]
      ensures StoredOk(s', h, k, i)
    {
      assert StoredOk(s, h, k, i);
    }
    forall h, k, i | h in s'.groups && k in s'.groups[h].cleaning && i in s'.groups[h].cleaning[k]
      ensures CleaningOk(s', h, k, i)
    {
      assert CleaningOk(s, h, k, i);
    }
    forall m | m in s'.net ensures MessageOk(s', m) {
      assert MessageOk(s, m);
      if m.PullReply? || m.PullRequest? {
        assert ConfigOk(s, m.configNum) && ConfigOk(s, m.configNum + 1);
        assert ConfigOk(s', m.configNum) && ConfigOk(s', m.configNum + 1);
      }
    }
  }
}
