/** All groups of the store, the configurations they follow, and the pull and cleanup messages between
    them, as a state machine. Messages may be lost, duplicated, delayed and reordered. */
module ShardSystem {
  import opened ShardTypes
  import opened ShardGroup

  datatype Message =
    | PullRequest(from: int, to: int, shard: int, configNum: int)
    | PullReply(to: int, shard: int, configNum: int, payload: MigrationData)
    | CleanRequest(from: int, to: int, shard: int, configNum: int)
    | CleanReply(to: int, shard: int, configNum: int)

  /** `at[s]` is the last configuration whose owner of shard s has had the shard. */
  datatype System = System(
    n: nat,
    configs: seq<Config>,
    groups: map<int, Group>,
    net: set<Message>,
    at: map<int, nat>)

  datatype Action =
    | AddConfig(c: Config)
    | ApplyConfig(g: int, num: nat)
    | ApplyGet(g: int, configNum: int, key: Str)
    | ApplyPut(g: int, id: int, expire: int, configNum: int, key: Str, value: Str, put: bool)
    | Pull(g: int, shard: int)
    | ServePull(req: Message)
    | ApplyReply(reply: Message)
    | Clean(g: int, shard: int, configNum: int)
    | ApplyCleanup(clean: Message)
    | FinishClean(done: Message)

  function InitGroup(gid: int, c: Config): Group {
    Group(gid, c, {}, map[], map[], map[], [], map[], map[])
  }

  ghost predicate Init(s: System) {
    && s.n > 0
    && |s.configs| == 1 && s.configs[0] == Config(0, seq(s.n, i => 0), map[])
    && 0 !in s.groups
    && (forall g :: g in s.groups ==> s.groups[g] == InitGroup(g, s.configs[0]))
    && s.net == {}
    && (forall i :: i in s.at <==> 0 <= i < s.n) && (forall i :: i in s.at ==> s.at[i] == 0)
  }

  /** A group moves one configuration at a time, once it waits for no shard. */
  predicate Drained(g: Group, num: nat) {
    num <= g.config.num || (num == g.config.num + 1 && g.waiting == map[])
  }

  predicate Enabled(s: System, a: Action) {
    match a
    case AddConfig(c) => c.num == |s.configs| && |c.shards| == s.n
    case ApplyConfig(g, num) => g in s.groups && num < |s.configs| && Drained(s.groups[g], num)
    case ApplyGet(g, _, _) => g in s.groups
    case ApplyPut(g, _, _, _, _, _, _) => g in s.groups
    case Pull(g, shard) => g in s.groups && shard in s.groups[g].waiting
    case ServePull(m) => m in s.net && m.PullRequest? && m.to in s.groups
    case ApplyReply(m) => m in s.net && m.PullReply? && m.to in s.groups
    case Clean(g, shard, num) => g in s.groups && num in s.groups[g].cleaning && shard in s.groups[g].cleaning[num]
    case ApplyCleanup(m) => m in s.net && m.CleanRequest? && m.to in s.groups
    case FinishClean(m) => m in s.net && m.CleanReply? && m.to in s.groups
  }

  function Put(s: System, gid: int, g: Group): System {
    s.(groups := s.groups[gid := g])
  }

  function Send(s: System, m: Message): System {
    s.(net := s.net + {m})
  }

  /** The shards of g move to the configuration it just entered. */
  function Advance(at: map<int, nat>, shards: set<int>, num: nat): map<int, nat> {
    map s | s in at :: if s in shards then num else at[s]
  }

  function DoApplyConfig(s: System, g: int, num: nat): System
    requires s.n > 0 && g in s.groups && num < |s.configs|
  {
    var x := s.groups[g];
    var y := NewConf(x, s.configs[num], s.n);
    Put(s, g, y).(at := if y.config.num == x.config.num then s.at else Advance(s.at, y.own, num))
  }

  function DoApplyPut(s: System, g: int, id: int, expire: int, configNum: int, key: Str, value: Str, put: bool): System
    requires s.n > 0 && g in s.groups
  {
    Put(s, g, PutAppend(s.groups[g], id, expire, configNum, key, value, put, s.n))
  }

  /** The pull goes to the group that had the shard in the configuration noted in `waiting`. */
  function DoPull(s: System, g: int, shard: int): System
    requires g in s.groups && shard in s.groups[g].waiting
  {
    var x := s.groups[g];
    var w := x.waiting[shard];
    if 0 <= w < |x.history| && 0 <= shard < |x.history[w].shards| then
      Send(s, PullRequest(g, x.history[w].shards[shard], shard, x.history[w].num))
    else s
  }

  function DoServePull(s: System, m: Message): System
    requires m.PullRequest? && m.to in s.groups
  {
    var x := s.groups[m.to];
    if CanServePull(x, m.configNum) then
      Send(s, PullReply(m.from, m.shard, m.configNum, PullPayload(x, m.shard, m.configNum)))
    else s
  }

  function DoApplyReply(s: System, m: Message): System
    requires m.PullReply? && m.to in s.groups
  {
    var x := s.groups[m.to];
    Put(s, m.to, MigrationReply(x, m.shard, m.configNum, m.payload)).(
      at := if Installs(x, m.shard, m.configNum) && x.config.num >= 0
            then Advance(s.at, {m.shard}, x.config.num) else s.at)
  }

  function DoClean(s: System, g: int, shard: int, num: int): System
    requires g in s.groups
  {
    var x := s.groups[g];
    if 0 <= num < |x.history| && 0 <= shard < |x.history[num].shards| then
      Send(s, CleanRequest(g, x.history[num].shards[shard], shard, x.history[num].num))
    else s
  }

  /** The confirmation is sent only by a group that still had the shard's payload when asked. */
  function DoApplyCleanup(s: System, m: Message): System
    requires m.CleanRequest? && m.to in s.groups
  {
    var x := s.groups[m.to];
    var s1 := Put(s, m.to, Cleanup(x, m.shard, m.configNum));
    if m.configNum in x.migrating && m.shard in x.migrating[m.configNum] then
      Send(s1, CleanReply(m.from, m.shard, m.configNum))
    else s1
  }

  function Next(s: System, a: Action): System
    requires s.n > 0 && Enabled(s, a)
  {
    match a
    case AddConfig(c) => s.(configs := s.configs + [c])
    case ApplyConfig(g, num) => DoApplyConfig(s, g, num)
    case ApplyGet(g, configNum, key) => Put(s, g, Get(s.groups[g], configNum, key, s.n))
    case ApplyPut(g, id, expire, configNum, key, value, put) => DoApplyPut(s, g, id, expire, configNum, key, value, put)
    case Pull(g, shard) => DoPull(s, g, shard)
    case ServePull(m) => DoServePull(s, m)
    case ApplyReply(m) => DoApplyReply(s, m)
    case Clean(g, shard, num) => DoClean(s, g, shard, num)
    case ApplyCleanup(m) => DoApplyCleanup(s, m)
    case FinishClean(m) => Put(s, m.to, Cleaned(s.groups[m.to], m.shard, m.configNum))
  }
}
