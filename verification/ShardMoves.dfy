/** The two steps that move shards: entering a configuration and installing a pulled shard. */
module ShardMoves {
  import opened ShardTypes
  import opened ShardGroup
  import opened ShardSystem
  import opened ShardInvariant
  import opened ShardSteps

  /** Shards only move forward, and only those in `moved`. */
  ghost predicate Moved(s: System, s': System, g: int, moved: set<int>) {
    && g in s.groups && s'.groups.Keys == s.groups.Keys && s'.n == s.n && s'.configs == s.configs
    && s'.net == s.net
    && (forall h :: h in s.groups && h != g ==> s'.groups[h] == s.groups[h])
    && s'.at.Keys == s.at.Keys
    && (forall i :: i in s.at ==> s'.at[i] == if i in moved then s.at[i] + 1 else s.at[i])
    && s'.groups[g].config.num >= s.groups[g].config.num
  }

  /** What moving must establish about messages: no reply is ahead of its shard. */
  lemma MovedMessage(s: System, s': System, g: int, moved: set<int>, m: Message)
    requires Core(s) && Moved(s, s', g, moved) && ConfigsOk(s') && m in s.net
    requires forall k, i :: k in s.groups[g].migrating && i in s.groups[g].migrating[k] ==>
               Keeps(s.groups[g], s'.groups[g], k, i)
    ensures MessageOk(s', m)
  {
    assert MessageOk(s, m);
    if m.PullReply? || m.PullRequest? {
      assert ConfigOk(s, m.configNum) && ConfigOk(s, m.configNum + 1);
      assert ConfigOk(s', m.configNum) && ConfigOk(s', m.configNum + 1);
      if m.PullReply? && s'.at[m.shard] == m.configNum {
        assert m.shard !in moved;
        if Owner(s, m.configNum, m.shard) == g { assert Keeps(s.groups[g], s'.groups[g], m.configNum, m.shard); }
      }
    }
  }

  /** The parts of the invariant that follow from moving forward alone. */
  lemma MovedCore(s: System, s': System, g: int, moved: set<int>)
    requires Core(s) && Moved(s, s', g, moved)
    requires forall k, i :: k in s.groups[g].migrating && i in s.groups[g].migrating[k] ==>
               Keeps(s.groups[g], s'.groups[g], k, i)
    requires ConfigsOk(s') && PlacesOk(s') && GroupOk(s', g)
    requires forall i :: i in s'.groups[g].own ==> OwnOk(s', g, i)
    requires forall h, i :: h in s.groups && h != g && i in s.groups[h].own ==> i !in moved
    requires forall k, i :: k in s'.groups[g].migrating && i in s'.groups[g].migrating[k] ==> StoredOk(s', g, k, i)
    requires forall k, i :: k in s'.groups[g].cleaning && i in s'.groups[g].cleaning[k] ==> CleaningOk(s', g, k, i)
    ensures Core(s')
  {
    forall h | h in s'.groups ensures GroupOk(s', h) {
      assert GroupOk(s, h);
    }
    forall h, i | h in s'.groups && i in s'.groups[h].own ensures OwnOk(s', h, i) {
      if h != g { assert OwnOk(s, h, i); }
    }
    forall h, k, i | h in s'.groups && k in s'.groups[h].migrating && i in s'.groups[h].migrating[k]
      ensures StoredOk(s', h, k, i)
    {
      if h != g { assert StoredOk(s, h, k, i); }
    }
    forall h, k, i | h in s'.groups && k in s'.groups[h].cleaning && i in s'.groups[h].cleaning[k]
      ensures CleaningOk(s', h, k, i)
    {
      if h != g { assert CleaningOk(s, h, k, i); }
    }
    forall m | m in s'.net ensures MessageOk(s', m) {
      MovedMessage(s, s', g, moved, m);
    }
  }

  // ---------- entering the next configuration ----------

  ghost predicate Enters(s: System, g: int, num: nat) {
    && Core(s) && g in s.groups && num < |s.configs|
    && num == s.groups[g].config.num + 1 && s.groups[g].waiting == map[]
  }

  /** Before its first configuration a group has nothing; later it holds all it was given. */
  lemma EnterFacts(s: System, g: int, num: nat)
    requires Enters(s, g, num)
    ensures s.groups[g].own == Assigned(s.groups[g].config, g)
    ensures s.groups[g].config.num == 0 ==> s.groups[g].own == {} && s.groups[g].data == map[]
    ensures forall i :: i in Kept(s.groups[g], s.configs[num]) ==>
              0 <= i < s.n && i in s.at && s.at[i] == s.groups[g].config.num
  {
    var x := s.groups[g];
    assert GroupOk(s, g) && ConfigOk(s, x.config.num) && ConfigOk(s, num);
    forall i | i in Kept(x, s.configs[num]) ensures 0 <= i < s.n && i in s.at && s.at[i] == x.config.num {
      if x.config.num > 0 { assert OwnOk(s, g, i); } else { assert PassedOk(s, i, 1); }
    }
  }

  lemma EnterMoved(s: System, g: int, num: nat)
    requires Enters(s, g, num)
    ensures Moved(s, DoApplyConfig(s, g, num), g, Kept(s.groups[g], s.configs[num]))
    ensures ConfigsOk(DoApplyConfig(s, g, num))
    ensures var x, y := s.groups[g], DoApplyConfig(s, g, num).groups[g];
            && y == NewConf(x, s.configs[num], s.n) && y.own == Kept(x, s.configs[num])
            && y.config == s.configs[num] && y.config.num == num
  {
    EnterFacts(s, g, num);
    assert GroupOk(s, g) && ConfigOk(s, num);
    ConfigsKept(s, DoApplyConfig(s, g, num));
  }

  lemma EnterKeepsStored(s: System, g: int, num: nat)
    requires Enters(s, g, num)
    ensures var x, y := s.groups[g], NewConf(s.groups[g], s.configs[num], s.n);
            forall k, i :: k in x.migrating && i in x.migrating[k] ==> Keeps(x, y, k, i)
  {
    var x := s.groups[g];
    assert GroupOk(s, g) && ConfigOk(s, num);
    forall k, i | k in x.migrating && i in x.migrating[k] ensures k != x.config.num {
      assert StoredOk(s, g, k, i);
    }
  }

  /** What g puts aside when entering a configuration. */
  lemma EnterStores(s: System, g: int, num: nat, i: int)
    requires Enters(s, g, num)
    requires i in s.groups[g].own && i !in Kept(s.groups[g], s.configs[num])
    ensures var x, y := s.groups[g], NewConf(s.groups[g], s.configs[num], s.n);
            x.config.num in y.migrating && i in y.migrating[x.config.num]
            && y.migrating[x.config.num][i] == MigrationData(DataOf(x.data, s.n, {i}), CacheOf(x.cache, s.n, {i}))
  {
    EnterFacts(s, g, num);
    assert GroupOk(s, g) && ConfigOk(s, num);
    var x := s.groups[g];
    var lost := x.own - Assigned(s.configs[num], x.gid);
    assert i in lost;
  }

  lemma EnterPlaces(s: System, g: int, num: nat, i: int)
    requires Enters(s, g, num) && 0 <= i < s.n && ConfigsOk(DoApplyConfig(s, g, num))
    requires i in DoApplyConfig(s, g, num).at
    ensures PlaceOk(DoApplyConfig(s, g, num), i)
  {
    var s' := DoApplyConfig(s, g, num);
    var x := s.groups[g];
    EnterFacts(s, g, num);
    EnterMoved(s, g, num);
    EnterKeepsStored(s, g, num);
    assert PlaceOk(s, i) && GroupOk(s, g) && ConfigOk(s, num) && ConfigOk(s', num);
    var p := s.at[i];
    if i !in Kept(x, s.configs[num]) && p > 0 {
      assert ConfigOk(s, p) && ConfigOk(s', p) && PassedOk(s, i, p);
      if Owner(s, p, i) == g {
        if x.config.num == p {
          EnterStores(s, g, num, i);
        } else {
          assert Keeps(x, s'.groups[g], p, i);
        }
      }
    }
  }

  lemma EnterPassed(s: System, g: int, num: nat, i: int, k: nat)
    requires Enters(s, g, num) && 0 <= i < s.n && 1 <= k < |s.configs|
    requires ConfigsOk(DoApplyConfig(s, g, num)) && i in DoApplyConfig(s, g, num).at
    ensures PassedOk(DoApplyConfig(s, g, num), i, k)
  {
    var s' := DoApplyConfig(s, g, num);
    var x := s.groups[g];
    EnterFacts(s, g, num);
    EnterMoved(s, g, num);
    assert PassedOk(s, i, k) && GroupOk(s, g) && ConfigOk(s, num) && ConfigOk(s, k) && ConfigOk(s', k);
    if i in Kept(x, s.configs[num]) && k == x.config.num {
      OwnIsLive(s, g, i);
    }
    if Owner(s, k, i) == g && k == x.config.num {
      assert i in x.own && OwnOk(s, g, i);
    }
  }

  lemma EnterGroup(s: System, g: int, num: nat)
    requires Enters(s, g, num)
    ensures var s' := DoApplyConfig(s, g, num);
            && GroupOk(s', g)
            && (forall i :: i in s'.groups[g].own ==> OwnOk(s', g, i))
            && (forall k, i :: k in s'.groups[g].cleaning && i in s'.groups[g].cleaning[k] ==> CleaningOk(s', g, k, i))
  {
    var s' := DoApplyConfig(s, g, num);
    EnterFacts(s, g, num);
    EnterMoved(s, g, num);
    assert GroupOk(s, g) && ConfigOk(s, num);
    forall k, i | k in s'.groups[g].cleaning && i in s'.groups[g].cleaning[k] ensures CleaningOk(s', g, k, i) {
      assert CleaningOk(s, g, k, i);
    }
  }

  lemma EnterStored(s: System, g: int, num: nat, k: int, i: int)
    requires Enters(s, g, num) && ConfigsOk(DoApplyConfig(s, g, num))
    requires var y := DoApplyConfig(s, g, num).groups[g]; k in y.migrating && i in y.migrating[k]
    ensures StoredOk(DoApplyConfig(s, g, num), g, k, i)
  {
    var x := s.groups[g];
    EnterFacts(s, g, num);
    EnterMoved(s, g, num);
    assert GroupOk(s, g) && ConfigOk(s, num);
    if k in x.migrating && i in x.migrating[k] {
      assert StoredOk(s, g, k, i);
    }
    if k == x.config.num {
      assert OwnOk(s, g, i);
      OwnIsLive(s, g, i);
    }
  }

  lemma EnterCore(s: System, g: int, num: nat)
    requires Enters(s, g, num)
    ensures Core(DoApplyConfig(s, g, num))
  {
    var s' := DoApplyConfig(s, g, num);
    EnterMoved(s, g, num);
    EnterKeepsStored(s, g, num);
    EnterGroup(s, g, num);
    forall i | 0 <= i < s.n ensures PlaceOk(s', i) {
      EnterPlaces(s, g, num, i);
    }
    forall i, k | 0 <= i < s.n && 1 <= k < |s.configs| ensures PassedOk(s', i, k) {
      EnterPassed(s, g, num, i, k);
    }
    forall h, i | h in s.groups && h != g && i in s.groups[h].own ensures i !in Kept(s.groups[g], s.configs[num]) {
      EnterElsewhere(s, g, num, h, i);
    }
    forall k, i | k in s'.groups[g].migrating && i in s'.groups[g].migrating[k] ensures StoredOk(s', g, k, i) {
      EnterStored(s, g, num, k, i);
    }
    MovedCore(s, s', g, Kept(s.groups[g], s.configs[num]));
  }

  lemma EnterElsewhere(s: System, g: int, num: nat, h: int, i: int)
    requires Enters(s, g, num) && h in s.groups && h != g && i in s.groups[h].own
    ensures i !in Kept(s.groups[g], s.configs[num])
  {
    EnterFacts(s, g, num);
    OwnIsLive(s, h, i);
    if i in Kept(s.groups[g], s.configs[num]) {
      OwnIsLive(s, g, i);
    }
  }

  /** Entering a configuration keeps what every shard's live copy says about the shard's own keys and ids. */
  lemma EnterLive(s: System, g: int, num: nat, i: int)
    requires Enters(s, g, num) && Core(DoApplyConfig(s, g, num)) && 0 <= i < s.n
    ensures var s' := DoApplyConfig(s, g, num);
            && (forall k :: Key2Shard(k, s.n) == i ==> Lookup(LiveData(s', i), k) == Lookup(LiveData(s, i), k))
            && (forall id :: id in LiveCache(s, i) && Key2Shard(LiveCache(s, i)[id], s.n) == i ==>
                  id in LiveCache(s', i))
  {
    var s' := DoApplyConfig(s, g, num);
    var x := s.groups[g];
    EnterFacts(s, g, num);
    EnterMoved(s, g, num);
    EnterKeepsStored(s, g, num);
    assert PlaceOk(s, i) && PlaceOk(s', i) && GroupOk(s, g) && ConfigOk(s, num) && ConfigOk(s', num);
    var p := s.at[i];
    if p > 0 { assert ConfigOk(s, p) && ConfigOk(s', p) && PassedOk(s, i, p); }
    if i in Kept(x, s.configs[num]) {
      OwnIsLive(s', g, i);
      if p > 0 { OwnIsLive(s, g, i); }
    } else if i in x.own {
      OwnIsLive(s, g, i);
      EnterStores(s, g, num, i);
    } else if p > 0 && Owner(s, p, i) == g {
      assert Keeps(x, s'.groups[g], p, i);
    }
  }

  /** A new configuration changes no value of the map. */
  lemma ApplyConfigKeeps(s: System, g: int, num: nat, k: Str)
    requires Core(s) && Enabled(s, ApplyConfig(g, num))
    ensures Core(DoApplyConfig(s, g, num)) && View(DoApplyConfig(s, g, num), k) == View(s, k)
  {
    var s' := DoApplyConfig(s, g, num);
    assert GroupOk(s, g) && ConfigOk(s, num);
    if num <= s.groups[g].config.num {
      assert s' == s;
    } else {
      EnterCore(s, g, num);
      EnterMoved(s, g, num);
      if 0 <= Key2Shard(k, s.n) < s.n { EnterLive(s, g, num, Key2Shard(k, s.n)); }
    }
  }

  // ---------- installing a pulled shard ----------

  ghost predicate Installing(s: System, m: Message) {
    && Core(s) && m in s.net && m.PullReply? && m.to in s.groups
    && Installs(s.groups[m.to], m.shard, m.configNum)
  }

  /** The shard about to be installed is still where the payload came from. */
  lemma InstallFacts(s: System, m: Message)
    requires Installing(s, m)
    ensures 0 <= m.shard < s.n && m.shard in s.at && s.at[m.shard] == m.configNum >= 1
    ensures m.shard in s.groups[m.to].waiting && MessageOk(s, m)
    ensures s.groups[m.to].config.num == m.configNum + 1 < |s.configs|
    ensures m.configNum + 1 < |s.configs| && m.shard < |s.configs[m.configNum + 1].shards|
    ensures Owner(s, m.configNum + 1, m.shard) == m.to
  {
    var x := s.groups[m.to];
    assert MessageOk(s, m) && GroupOk(s, m.to);
    assert ConfigOk(s, m.configNum) && ConfigOk(s, m.configNum + 1);
    assert m.shard in Assigned(x.config, m.to);
    assert PassedOk(s, m.shard, m.configNum + 1) && PlaceOk(s, m.shard);
  }

  lemma InstallMoved(s: System, m: Message)
    requires Installing(s, m)
    ensures Moved(s, DoApplyReply(s, m), m.to, {m.shard})
    ensures ConfigsOk(DoApplyReply(s, m))
    ensures var x, y := s.groups[m.to], DoApplyReply(s, m).groups[m.to];
            && y == MigrationReply(x, m.shard, m.configNum, m.payload)
            && y.own == x.own + {m.shard} && y.migrating == x.migrating && y.config == x.config
            && y.data == x.data + m.payload.data && y.cache == x.cache + m.payload.cache
  {
    InstallFacts(s, m);
    ConfigsKept(s, DoApplyReply(s, m));
  }

  lemma InstallPlaces(s: System, m: Message)
    requires Installing(s, m)
    ensures ConfigsOk(DoApplyReply(s, m)) && PlacesOk(DoApplyReply(s, m))
  {
    var s' := DoApplyReply(s, m);
    InstallFacts(s, m);
    InstallMoved(s, m);
    assert ConfigOk(s, m.configNum) && ConfigOk(s, m.configNum + 1);
    forall i | 0 <= i < s.n ensures PlaceOk(s', i) {
      assert PlaceOk(s, i);
      if s'.at[i] > 0 { assert ConfigOk(s', s'.at[i]) && ConfigOk(s, s'.at[i]); }
    }
    forall i, k | 0 <= i < s.n && 1 <= k < |s.configs| ensures PassedOk(s', i, k) {
      assert PassedOk(s, i, k) && ConfigOk(s, k) && ConfigOk(s', k);
    }
  }

  lemma InstallGroup(s: System, m: Message)
    requires Installing(s, m)
    ensures var s' := DoApplyReply(s, m);
            && GroupOk(s', m.to)
            && (forall i :: i in s'.groups[m.to].own ==> OwnOk(s', m.to, i))
            && (forall k, i :: k in s'.groups[m.to].cleaning && i in s'.groups[m.to].cleaning[k] ==>
                  CleaningOk(s', m.to, k, i))
  {
    var s' := DoApplyReply(s, m);
    InstallFacts(s, m);
    InstallMoved(s, m);
    var x, y := s.groups[m.to], s'.groups[m.to];
    assert GroupOk(s, m.to);
    assert y.waiting.Keys == x.waiting.Keys - {m.shard};
    forall i | i in y.own ensures OwnOk(s', m.to, i) {
      if i != m.shard { assert OwnOk(s, m.to, i); }
    }
    forall k, i | k in y.cleaning && i in y.cleaning[k] ensures CleaningOk(s', m.to, k, i) {
      if k in x.cleaning && i in x.cleaning[k] { assert CleaningOk(s, m.to, k, i); }
    }
  }

  /** No other group owns the shard that is installed: it is live at a group that has left it. */
  lemma OtherOwner(s: System, m: Message, h: int, i: int)
    requires Installing(s, m) && h in s.groups && i in s.groups[h].own
    ensures i != m.shard
  {
    InstallFacts(s, m);
    OwnIsLive(s, h, i);
    assert ConfigOk(s, m.configNum);
  }

  lemma InstallCore(s: System, m: Message)
    requires Installing(s, m)
    ensures Core(DoApplyReply(s, m))
  {
    var s' := DoApplyReply(s, m);
    InstallFacts(s, m);
    InstallMoved(s, m);
    InstallPlaces(s, m);
    InstallGroup(s, m);
    forall h, i | h in s.groups && h != m.to && i in s.groups[h].own ensures i != m.shard {
      OtherOwner(s, m, h, i);
    }
    forall k, i | k in s'.groups[m.to].migrating && i in s'.groups[m.to].migrating[k] ensures StoredOk(s', m.to, k, i) {
      assert StoredOk(s, m.to, k, i);
    }
    forall k, i | k in s.groups[m.to].migrating && i in s.groups[m.to].migrating[k]
      ensures Keeps(s.groups[m.to], s'.groups[m.to], k, i) {
    }
    MovedCore(s, s', m.to, {m.shard});
  }

  lemma InstallLive(s: System, m: Message, i: int)
    requires Installing(s, m) && Core(DoApplyReply(s, m)) && 0 <= i < s.n
    ensures var s' := DoApplyReply(s, m);
            && (forall k :: Key2Shard(k, s.n) == i ==> Lookup(LiveData(s', i), k) == Lookup(LiveData(s, i), k))
            && (forall id :: id in LiveCache(s, i) ==> id in LiveCache(s', i))
  {
    var s' := DoApplyReply(s, m);
    InstallFacts(s, m);
    InstallMoved(s, m);
    assert PlaceOk(s, i) && PlaceOk(s', i) && GroupOk(s, m.to);
    if s.at[i] > 0 { assert ConfigOk(s, s.at[i]) && ConfigOk(s', s.at[i]); }
    if i == m.shard {
      OwnIsLive(s', m.to, i);
    }
  }

  lemma ApplyReplyKeeps(s: System, m: Message, k: Str)
    requires Core(s) && Enabled(s, ApplyReply(m))
    ensures Core(DoApplyReply(s, m)) && View(DoApplyReply(s, m), k) == View(s, k)
  {
    var s' := DoApplyReply(s, m);
    assert GroupOk(s, m.to) && MessageOk(s, m);
    if !Installs(s.groups[m.to], m.shard, m.configNum) {
      assert s'.groups[m.to] == s.groups[m.to];
      assert s' == s;
    } else {
      InstallCore(s, m);
      if 0 <= Key2Shard(k, s.n) < s.n { InstallLive(s, m, Key2Shard(k, s.n)); }
    }
  }
}
