/** One group of the sharded store as a value, and the effect of each log entry it applies. */
module ShardGroup {
  import opened ShardTypes

  datatype Group = Group(
    gid: int,
    config: Config,
    own: set<int>,
    waiting: map<int, int>,
    migrating: map<int, map<int, MigrationData>>,
    cleaning: map<int, set<int>>,
    history: seq<Config>,
    data: map<Str, Str>,
    cache: map<int, Str>)

  function DataOf(data: map<Str, Str>, n: nat, shards: set<int>): map<Str, Str>
    requires n > 0
  {
    map k | k in data && Key2Shard(k, n) in shards :: data[k]
  }

  function CacheOf(cache: map<int, Str>, n: nat, shards: set<int>): map<int, Str>
    requires n > 0
  {
    map id | id in cache && Key2Shard(cache[id], n) in shards :: cache[id]
  }

  function Without<K, V>(m: map<K, V>, gone: map<K, V>): map<K, V> {
    map k | k in m && k !in gone :: m[k]
  }

  /** The payload of each lost shard. */
  function Payloads(data: map<Str, Str>, cache: map<int, Str>, n: nat, lost: set<int>): map<int, MigrationData>
    requires n > 0
  {
    map s | s in lost :: MigrationData(DataOf(data, n, {s}), CacheOf(cache, n, {s}))
  }

  /** Shards kept by g under configuration c; a group on its first configuration takes all it is given. */
  function Kept(g: Group, c: Config): set<int> {
    if g.config.num == 0 then Assigned(c, g.gid) else Assigned(c, g.gid) * g.own
  }

  /** The shards in `due` are awaited from the configuration that is left. */
  function Awaiting(waiting: map<int, int>, due: set<int>, num: int): (w: map<int, int>)
    ensures w.Keys == waiting.Keys + due
    ensures forall s :: s in w ==> w[s] == if s in due then num else waiting[s]
  {
    if due == {} then waiting else waiting + map s | s in due :: num
  }

  function NewConf(g: Group, c: Config, n: nat): Group
    requires n > 0
  {
    if c.num <= g.config.num then g else
    var kept := Kept(g, c);
    var due := Assigned(c, g.gid) - kept;
    var lost := g.own - Assigned(c, g.gid);
    g.(config := c,
       own := kept,
       waiting := Awaiting(g.waiting, due, g.config.num),
       history := g.history + [g.config],
       migrating := if lost == {} then g.migrating else g.migrating[g.config.num := Payloads(g.data, g.cache, n, lost)],
       data := Without(g.data, DataOf(g.data, n, lost)),
       cache := Without(g.cache, CacheOf(g.cache, n, lost)))
  }

  /** Both client requests are served only under the current configuration and for owned shards. */
  predicate Serves(g: Group, configNum: int, key: Str, n: nat)
    requires n > 0
  {
    configNum == g.config.num && Key2Shard(key, n) in g.own
  }

  /** A read creates the key, with an empty value, when it is missing. */
  function Get(g: Group, configNum: int, key: Str, n: nat): Group
    requires n > 0
  {
    if Serves(g, configNum, key, n) then g.(data := g.data[key := Lookup(g.data, key)]) else g
  }

  /** The request is served and its id is not remembered. */
  predicate Fresh(g: Group, id: int, configNum: int, key: Str, n: nat)
    requires n > 0
  {
    Serves(g, configNum, key, n) && id !in g.cache
  }

  function PutAppend(g: Group, id: int, expire: int, configNum: int, key: Str, value: Str, put: bool, n: nat): Group
    requires n > 0
  {
    g.(data := if Fresh(g, id, configNum, key, n)
               then g.data[key := if put then value else Lookup(g.data, key) + value] else g.data,
       cache := (g.cache - {expire})[id := key])
  }

  /** The answer to a pull: nothing while the source has not left the configuration, otherwise what it
      holds for the shard, which is an empty payload when it holds nothing. */
  predicate CanServePull(g: Group, configNum: int) {
    configNum < g.config.num
  }

  function PullPayload(g: Group, shard: int, configNum: int): MigrationData {
    if configNum in g.migrating && shard in g.migrating[configNum] then g.migrating[configNum][shard]
    else MigrationData(map[], map[])
  }

  predicate Installs(g: Group, shard: int, configNum: int) {
    configNum == g.config.num - 1 && shard !in g.own
  }

  function MigrationReply(g: Group, shard: int, configNum: int, payload: MigrationData): Group {
    if configNum != g.config.num - 1 then g else
    var g1 := g.(waiting := g.waiting - {shard});
    if shard in g.own then g1 else
    var cleaned := (if configNum in g.cleaning then g.cleaning[configNum] else {}) + {shard};
    g1.(cleaning := g.cleaning[configNum := cleaned],
        own := g.own + {shard},
        data := g.data + payload.data,
        cache := g.cache + payload.cache)
  }

  function Cleanup(g: Group, shard: int, configNum: int): Group {
    if configNum !in g.migrating then g else
    var rest := g.migrating[configNum] - {shard};
    g.(migrating := if rest == map[] then g.migrating - {configNum} else g.migrating[configNum := rest])
  }

  /** The old owner confirmed the cleanup. */
  function Cleaned(g: Group, shard: int, configNum: int): Group {
    if configNum !in g.cleaning then g else
    var rest := g.cleaning[configNum] - {shard};
    g.(cleaning := if rest == {} then g.cleaning - {configNum} else g.cleaning[configNum := rest])
  }
}
