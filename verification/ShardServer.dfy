/** A group's server: the maps it updates in place, and the callbacks its log entries trigger. */
module ShardServer {
  import opened Collections
  import opened ShardTypes
  import opened ShardGroup

  class ShardkvServer {
    const n: nat
    const gid: int
    var config: Config
    var ownShards: set<int>
    var waitingShards: map<int, int>
    var migratingShards: map<int, map<int, MigrationData>>
    var cleaningShards: map<int, set<int>>
    var historyConfigs: seq<Config>
    var data: map<Str, Str>
    var cache: map<int, Str>
    /** The outcome of the last entry, and the values read so far and not yet fetched. */
    var flag: bool
    var getValue: seq<Str>

    ghost function Value(): Group
      reads this
    {
      Group(gid, config, ownShards, waitingShards, migratingShards, cleaningShards, historyConfigs, data, cache)
    }

    constructor (n: nat, gid: int)
      requires n > 0
      ensures this.n == n && this.gid == gid && getValue == []
      ensures Value() == Group(gid, Config(0, seq(n, i => 0), map[]), {}, map[], map[], map[], [], map[], map[])
    {
      this.n, this.gid := n, gid;
      config := Config(0, seq(n, i => 0), map[]);
      ownShards, waitingShards, migratingShards, cleaningShards := {}, map[], map[], map[];
      historyConfigs, data, cache, flag, getValue := [], map[], map[], false, [];
    }

    /** Cut a shard's keys out of the store. */
    method TakeData(shard: int) returns (taken: map<Str, Str>)
      requires n > 0
      modifies this`data
      ensures taken == DataOf(old(data), n, {shard}) && data == Without(old(data), taken)
    {
      taken := map[];
      var keys := data.Keys;
      while keys != {}
        invariant keys <= data.Keys
        invariant taken == map k | k in old(data) && k !in keys && Key2Shard(k, n) == shard :: old(data)[k]
        invariant data == Without(old(data), taken)
        decreases |keys|
      {
        var key := Pick(keys);
        OneLess(old(data), taken, key);
        if Key2Shard(key, n) == shard {
          taken := taken[key := data[key]];
          data := data - {key};
        }
        keys := keys - {key};
      }
    }

    /** Cut the requests remembered for a shard's keys out of the cache. */
    method TakeCache(shard: int) returns (known: map<int, Str>)
      requires n > 0
      modifies this`cache
      ensures known == CacheOf(old(cache), n, {shard}) && cache == Without(old(cache), known)
    {
      known := map[];
      var ids := cache.Keys;
      while ids != {}
        invariant ids <= cache.Keys
        invariant known ==
                    map id | id in old(cache) && id !in ids && Key2Shard(old(cache)[id], n) == shard :: old(cache)[id]
        invariant cache == Without(old(cache), known)
        decreases |ids|
      {
        var id := Pick(ids);
        OneLess(old(cache), known, id);
        if Key2Shard(cache[id], n) == shard {
          known := known[id := cache[id]];
          cache := cache - {id};
        }
        ids := ids - {id};
      }
    }

    /** Cut out every lost shard and keep the payloads under the configuration that was left. */
    method TakeLost(lost: set<int>) returns (v: map<int, MigrationData>)
      requires n > 0
      modifies this`data, this`cache
      ensures v == Payloads(old(data), old(cache), n, lost)
      ensures data == Without(old(data), DataOf(old(data), n, lost))
      ensures cache == Without(old(cache), CacheOf(old(cache), n, lost))
    {
      v := map[];
      var todo := lost;
      ghost var done: set<int> := {};
      while todo != {}
        invariant todo !! done && todo + done == lost
        invariant v == Payloads(old(data), old(cache), n, done)
        invariant data == Without(old(data), DataOf(old(data), n, done))
        invariant cache == Without(old(cache), CacheOf(old(cache), n, done))
        decreases |todo|
      {
        var s := Pick(todo);
        TakenApart(old(data), old(cache), n, done, s);
        OneMorePayload(old(data), old(cache), n, done, s);
        var taken := TakeData(s);
        var known := TakeCache(s);
        v := v[s := MigrationData(taken, known)];
        done := done + {s};
        todo := todo - {s};
      }
    }

    /** Go through the new assignment: keep what was held, note what is still elsewhere. */
    method SortShards(c: Config, oldNum: int, oldShards: set<int>) returns (lost: set<int>)
      requires ownShards == {}
      modifies this`ownShards, this`waitingShards
      ensures ownShards == if oldNum == 0 then Assigned(c, gid) else Assigned(c, gid) * oldShards
      ensures waitingShards == Awaiting(old(waitingShards), Assigned(c, gid) - ownShards, oldNum)
      ensures lost == oldShards - Assigned(c, gid)
    {
      var shards := c.shards;
      lost := oldShards;
      ghost var done: set<int> := {};
      for i := 0 to |shards|
        invariant done == set j | 0 <= j < i && shards[j] == gid
        invariant ownShards == if oldNum == 0 then done else done * oldShards
        invariant lost == oldShards - done
        invariant waitingShards == Awaiting(old(waitingShards), done - ownShards, oldNum)
      {
        if shards[i] == gid {
          if i in lost || oldNum == 0 {
            assert done + {i} - (ownShards + {i}) == done - ownShards;
            ownShards := ownShards + {i};
            lost := lost - {i};
          } else {
            AwaitOne(old(waitingShards), done - ownShards, i, oldNum);
            waitingShards := waitingShards[i := oldNum];
            assert done + {i} - ownShards == done - ownShards + {i};
          }
          done := done + {i};
        }
      }
      assert done == Assigned(c, gid);
    }

    method ApplyNewConf(newConfig: Config)
      requires n > 0
      modifies this
      ensures Value() == NewConf(old(Value()), newConfig, n)
      ensures flag == old(flag) && getValue == old(getValue)
    {
      if newConfig.num <= config.num {
        return;
      }
      ghost var g := Value();
      var oldConfig := config;
      var oldShards := ownShards;
      historyConfigs := historyConfigs + [oldConfig];
      ownShards := {};
      config := newConfig;
      var lost := SortShards(newConfig, oldConfig.num, oldShards);
      ghost var sorted := Value();
      GiveUp(lost, oldConfig.num);
      Entered(g, newConfig, n, sorted, Value());
    }

    /** Move the lost shards out of the store, to be pulled under the number of the configuration that was left. */
    method GiveUp(lost: set<int>, oldNum: int)
      requires n > 0
      modifies this`data, this`cache, this`migratingShards
      ensures migratingShards == if lost == {} then old(migratingShards)
                                 else old(migratingShards)[oldNum := Payloads(old(data), old(cache), n, lost)]
      ensures data == Without(old(data), DataOf(old(data), n, lost))
      ensures cache == Without(old(cache), CacheOf(old(cache), n, lost))
    {
      if lost != {} {
        var v := TakeLost(lost);
        migratingShards := migratingShards[oldNum := v];
      } else {
        NothingLost(data, cache, n);
      }
    }

    method OnGetApply(configNum: int, key: Str)
      requires n > 0
      modifies this
      ensures Value() == Get(old(Value()), configNum, key, n)
      ensures flag <==> configNum == old(config).num && Key2Shard(key, n) in old(ownShards)
      ensures getValue == if flag then old(getValue) + [Lookup(old(data), key)] else old(getValue)
    {
      var shard := Key2Shard(key, n);
      if configNum != config.num {
        flag := false;
      } else if shard !in ownShards {
        flag := false;
      } else {
        if key !in data {
          data := data[key := []];
        }
        getValue := getValue + [data[key]];
        flag := true;
        assert data == Get(old(Value()), configNum, key, n).data;
      }
    }

    /** A repeated request leaves the flag of the entry before it. */
    method OnPutAppendApply(id: int, expire: int, configNum: int, key: Str, value: Str, put: bool)
      requires n > 0
      modifies this
      ensures Value() == PutAppend(old(Value()), id, expire, configNum, key, value, put, n)
      ensures flag <==> configNum == old(config).num && Key2Shard(key, n) in old(ownShards)
                        && (id in old(cache) ==> old(flag))
      ensures data == if configNum != old(config).num || Key2Shard(key, n) !in old(ownShards) || id in old(cache)
                      then old(data)
                      else old(data)[key := if put then value else Lookup(old(data), key) + value]
      ensures getValue == old(getValue)
    {
      var shard := Key2Shard(key, n);
      if configNum != config.num {
        flag := false;
      } else if shard !in ownShards {
        flag := false;
      } else if id !in cache {
        flag := true;
        if put {
          data := data[key := value];
        } else {
          if key !in data {
            data := data[key := []];
          }
          data := data[key := data[key] + value];
        }
      }
      cache := cache - {expire};
      cache := cache[id := key];
      assert data == PutAppend(old(Value()), id, expire, configNum, key, value, put, n).data;
    }

    /** The reply to another group's pull. */
    method OnShardMigration(shard: int, configNum: int) returns (ok: bool, payload: MigrationData)
      ensures ok == CanServePull(Value(), configNum)
      ensures ok ==> payload == PullPayload(Value(), shard, configNum)
    {
      payload := MigrationData(map[], map[]);
      if configNum >= config.num {
        return false, payload;
      }
      if configNum in migratingShards {
        if shard in migratingShards[configNum] {
          payload := migratingShards[configNum][shard];
        }
      }
      return true, payload;
    }

    method OnShardMigrationReplyApply(shard: int, configNum: int, payload: MigrationData)
      modifies this
      ensures Value() == MigrationReply(old(Value()), shard, configNum, payload)
      ensures flag && getValue == old(getValue)
    {
      if configNum == config.num - 1 {
        waitingShards := waitingShards - {shard};
        if shard !in ownShards {
          Install(shard, configNum, payload);
        }
      }
      flag := true;
    }

    /** Take the shard over, and note that its old owner is to clean up. */
    method Install(shard: int, configNum: int, payload: MigrationData)
      modifies this`cleaningShards, this`ownShards, this`data, this`cache
      ensures var g := old(Value());
              var cleaned := (if configNum in g.cleaning then g.cleaning[configNum] else {}) + {shard};
              Value() == g.(cleaning := g.cleaning[configNum := cleaned], own := g.own + {shard},
                            data := g.data + payload.data, cache := g.cache + payload.cache)
    {
      var cleaned := if configNum in cleaningShards then cleaningShards[configNum] else {};
      cleaningShards := cleaningShards[configNum := cleaned + {shard}];
      ownShards := ownShards + {shard};
      InstallData(payload.data);
      InstallCache(payload.cache);
    }

    /** Copy every entry of the payload into the stores. */
    method InstallData(more: map<Str, Str>)
      modifies this`data
      ensures data == old(data) + more
    {
      var keys := more.Keys;
      while keys != {}
        invariant keys <= more.Keys
        invariant data == old(data) + (more - keys)
        decreases |keys|
      {
        var k := Pick(keys);
        data := data[k := more[k]];
        keys := keys - {k};
      }
    }

    method InstallCache(more: map<int, Str>)
      modifies this`cache
      ensures cache == old(cache) + more
    {
      var ids := more.Keys;
      while ids != {}
        invariant ids <= more.Keys
        invariant cache == old(cache) + (more - ids)
        decreases |ids|
      {
        var id := Pick(ids);
        cache := cache[id := more[id]];
        ids := ids - {id};
      }
    }

    method OnShardCleanupApply(shard: int, configNum: int)
      modifies this
      ensures Value() == Cleanup(old(Value()), shard, configNum)
      ensures flag && getValue == old(getValue)
    {
      if configNum in migratingShards {
        migratingShards := migratingShards[configNum := migratingShards[configNum] - {shard}];
        if migratingShards[configNum] == map[] {
          migratingShards := migratingShards - {configNum};
          assert migratingShards == old(migratingShards) - {configNum};
        }
      }
      flag := true;
    }

    /** The old owner answered a cleanup with success. */
    method FinishClean(shard: int, configNum: int)
      modifies this
      ensures Value() == Cleaned(old(Value()), shard, configNum)
      ensures flag == old(flag) && getValue == old(getValue)
    {
      if configNum !in cleaningShards {
        cleaningShards := cleaningShards[configNum := {}];
      }
      cleaningShards := cleaningShards[configNum := cleaningShards[configNum] - {shard}];
      if cleaningShards[configNum] == {} {
        cleaningShards := cleaningShards - {configNum};
      }
      assert cleaningShards == Cleaned(old(Value()), shard, configNum).cleaning;
    }
  }

  /** Cutting out one more shard, after those in `done`, finds that shard whole. */
  lemma OneLess<K, V>(m: map<K, V>, gone: map<K, V>, k: K)
    requires k in m
    ensures Without(m, gone[k := m[k]]) == Without(m, gone) - {k}
  {
  }

  lemma TakenApart(data: map<Str, Str>, cache: map<int, Str>, n: nat, done: set<int>, s: int)
    requires n > 0 && s !in done
    ensures var rest := Without(data, DataOf(data, n, done));
            DataOf(rest, n, {s}) == DataOf(data, n, {s})
            && Without(rest, DataOf(rest, n, {s})) == Without(data, DataOf(data, n, done + {s}))
    ensures var rest := Without(cache, CacheOf(cache, n, done));
            CacheOf(rest, n, {s}) == CacheOf(cache, n, {s})
            && Without(rest, CacheOf(rest, n, {s})) == Without(cache, CacheOf(cache, n, done + {s}))
  {
  }

  lemma OneMorePayload(data: map<Str, Str>, cache: map<int, Str>, n: nat, done: set<int>, s: int)
    requires n > 0
    ensures Payloads(data, cache, n, done + {s})
         == Payloads(data, cache, n, done)[s := MigrationData(DataOf(data, n, {s}), CacheOf(cache, n, {s}))]
  {
  }

  /** Sorting the new assignment and then giving up the lost shards is entering the configuration. */
  lemma Entered(g: Group, c: Config, n: nat, x: Group, y: Group)
    requires n > 0 && c.num > g.config.num
    requires x == g.(config := c, history := g.history + [g.config], own := Kept(g, c),
                     waiting := Awaiting(g.waiting, Assigned(c, g.gid) - Kept(g, c), g.config.num))
    requires var lost := g.own - Assigned(c, g.gid);
             y == x.(migrating := if lost == {} then g.migrating
                                  else g.migrating[g.config.num := Payloads(g.data, g.cache, n, lost)],
                     data := Without(g.data, DataOf(g.data, n, lost)),
                     cache := Without(g.cache, CacheOf(g.cache, n, lost)))
    ensures y == NewConf(g, c, n)
  {
  }

  lemma AwaitOne(waiting: map<int, int>, due: set<int>, i: int, num: int)
    ensures Awaiting(waiting, due, num)[i := num] == Awaiting(waiting, due + {i}, num)
  {
  }

  lemma NothingLost(data: map<Str, Str>, cache: map<int, Str>, n: nat)
    requires n > 0
    ensures Without(data, DataOf(data, n, {})) == data && Without(cache, CacheOf(cache, n, {})) == cache
  {
  }
}
