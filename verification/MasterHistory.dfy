/** The shardmaster as a machine that applies a log of commands: its numbered configurations, and the
    highest request number it has accepted from each client. */
module MasterHistory {
  import opened Collections
  import opened ShardTypes
  import opened Rebalance
  import opened RebalanceLeave

  datatype Joined = Joined(gid: int, servers: seq<string>)

  /** The servers of a Join are listed in the iteration order of its map, and `order` is the iteration order
      of the groups that a Leave lets stay. */
  datatype Command =
    | Join(client: int, number: int, servers: seq<Joined>)
    | Leave(client: int, number: int, gids: seq<int>, order: seq<int>)
    | Move(client: int, number: int, shard: int, gid: int)

  type Groups = map<int, seq<string>>

  datatype Master = Master(configs: seq<Config>, cache: map<int, int>)

  function Initial(n: nat): Master {
    Master([Config(0, seq(n, i => 0), map[])], map[])
  }

  /** The groups once the first k entries of a Join are in: servers of a known group go to its end. */
  function Merge(groups: Groups, servers: seq<Joined>, k: nat): Groups
    requires k <= |servers|
  {
    if k == 0 then groups else
    var g, j := Merge(groups, servers, k - 1), servers[k - 1];
    g[j.gid := if j.gid in g then g[j.gid] + j.servers else j.servers]
  }

  function NewGids(groups: Groups, servers: seq<Joined>, k: nat): seq<int>
    requires k <= |servers|
  {
    if k == 0 then [] else
    var gids := NewGids(groups, servers, k - 1);
    if servers[k - 1].gid in Merge(groups, servers, k - 1) then gids else gids + [servers[k - 1].gid]
  }

  /** None when the loop reads the empty list of new groups. */
  function JoinConfig(c: Config, servers: seq<Joined>): Option<Config> {
    var groups := Merge(c.groups, servers, |servers|);
    match JoinShards(c.shards, |groups|, NewGids(c.groups, servers, |servers|))
    case Undefined => None
    case Dealing(shards, _, _, _) => Some(c.(shards := shards, groups := groups))
  }

  function Remaining(groups: Groups, gids: seq<int>): Groups {
    groups - Elements(gids)
  }

  /** `order` lists each of the groups once. */
  ghost predicate Lists(order: seq<int>, groups: Groups) {
    Distinct(order) && Elements(order) == groups.Keys
  }

  ghost function LeaveConfig(c: Config, gids: seq<int>, order: seq<int>): Option<Config> {
    if Lists(order, Remaining(c.groups, gids)) then
      Some(c.(shards := LeaveShards(c.shards, Elements(gids), order), groups := Remaining(c.groups, gids)))
    else None
  }

  /** None when the shard does not exist. */
  function MoveConfig(c: Config, shard: int, gid: int): Option<Config> {
    if 0 <= shard < |c.shards| then Some(c.(shards := c.shards[shard := gid])) else None
  }

  /** A number outside the history stands for the last configuration. */
  function GetConfig(configs: seq<Config>, num: int): Config
    requires configs != []
  {
    if num < 0 || num >= |configs| then configs[|configs| - 1] else configs[num]
  }

  ghost function NewConfig(c: Config, cmd: Command): Option<Config> {
    match cmd
    case Join(_, _, servers) => JoinConfig(c, servers)
    case Leave(_, _, gids, order) => LeaveConfig(c, gids, order)
    case Move(_, _, shard, gid) => MoveConfig(c, shard, gid)
  }

  predicate Accepts(m: Master, cmd: Command) {
    CountOf(m.cache, cmd.client) < cmd.number
  }

  /** None when an accepted command has no defined outcome. */
  ghost function Apply(m: Master, cmd: Command): Option<Master>
    requires m.configs != []
  {
    if !Accepts(m, cmd) then Some(m) else
    match NewConfig(GetConfig(m.configs, -1), cmd)
    case None => None
    case Some(c) => Some(Master(m.configs + [c.(num := |m.configs|)], m.cache[cmd.client := cmd.number]))
  }

  ghost function Run(n: nat, log: seq<Command>): (m: Option<Master>)
    ensures m.Some? ==> m.value.configs != []
  {
    if log == [] then Some(Initial(n)) else
    match Run(n, log[..|log| - 1])
    case None => None
    case Some(m) => Apply(m, log[|log| - 1])
  }

  // ---------- when a command has an outcome ----------

  /** The Join names a group that is not there yet. */
  predicate BringsNew(c: Config, servers: seq<Joined>) {
    exists k :: 0 <= k < |servers| && servers[k].gid !in c.groups
  }

  /** A Join that brings no new group is safe only if its loop, when it runs, has no shard to hand out. */
  predicate JoinAllowed(c: Config, servers: seq<Joined>) {
    var n, groups := |c.shards|, |c.groups|;
    || BringsNew(c, servers)
    || !(0 < groups <= n)
    || forall i :: 0 <= i < n ==> !NeedsNew(c.shards, i, n / groups, n % groups)
  }

  ghost predicate Allowed(c: Config, cmd: Command) {
    match cmd
    case Join(_, _, servers) => JoinAllowed(c, servers)
    case Leave(_, _, gids, order) => Lists(order, Remaining(c.groups, gids))
    case Move(_, _, shard, _) => 0 <= shard < |c.shards|
  }

  lemma {:induction false} NewGidsIff(groups: Groups, servers: seq<Joined>, k: nat)
    requires k <= |servers|
    ensures NewGids(groups, servers, k) == [] <==> forall j :: 0 <= j < k ==> servers[j].gid in groups
    ensures NewGids(groups, servers, k) == [] ==> Merge(groups, servers, k).Keys == groups.Keys
  {
    if k > 0 { NewGidsIff(groups, servers, k - 1); }
  }

  lemma JoinDefinedIff(c: Config, servers: seq<Joined>)
    ensures JoinConfig(c, servers).Some? <==> JoinAllowed(c, servers)
  {
    var groups, n := Merge(c.groups, servers, |servers|), |c.shards|;
    NewGidsIff(c.groups, servers, |servers|);
    if NewGids(c.groups, servers, |servers|) == [] {
      assert |groups| == |groups.Keys| && |c.groups| == |c.groups.Keys|;
      if 0 < |groups| <= n { DealDefinedIff(c.shards, n, n / |groups|, n % |groups|); }
    }
  }

  /** A command has an outcome exactly when it is allowed on the configuration it meets. */
  lemma OutcomeIff(c: Config, cmd: Command)
    ensures NewConfig(c, cmd).Some? <==> Allowed(c, cmd)
  {
    if cmd.Join? { JoinDefinedIff(c, cmd.servers); }
  }

  lemma ThreeMerged(servers: seq<Joined>)
    requires |servers| == 3 && servers[0].gid == 1 && servers[1].gid == 2 && servers[2].gid == 3
    ensures NewGids(map[], servers, 3) == [1, 2, 3] && Merge(map[], servers, 3).Keys == {1, 2, 3}
  {
    assert Merge(map[], servers, 1).Keys == {1} && NewGids(map[], servers, 1) == [1];
    assert Merge(map[], servers, 2).Keys == {1, 2} && NewGids(map[], servers, 2) == [1, 2];
  }

  lemma LastIsSpare(s: seq<int>)
    requires s == [1, 2, 3, 1, 2, 3, 1, 2, 3, 1]
    ensures NeedsNew(s, 9, 3, 1)
  {
    HoldsMore(s, 0, 1); HoldsMore(s, 1, 1); HoldsMore(s, 2, 1); HoldsMore(s, 3, 1); HoldsMore(s, 4, 1);
    HoldsMore(s, 5, 1); HoldsMore(s, 6, 1); HoldsMore(s, 7, 1); HoldsMore(s, 8, 1);
    FullMore(s, 6, 3); FullMore(s, 7, 3); FullMore(s, 8, 3);
  }

  lemma FirstThree()
    ensures DealTo(seq(10, i => 0), 10, 3, 1, [1, 2, 3]).shards == [1, 2, 3, 1, 2, 3, 1, 2, 3, 1]
  {
    ZerosInTurn(seq(10, i => 0), 10, 3, 1, [1, 2, 3]);
    var shards := DealTo(seq(10, i => 0), 10, 3, 1, [1, 2, 3]).shards;
    forall i: nat | i < 10 ensures shards[i] == TurnOf([1, 2, 3], i) {
    }
    TurnsOfThree();
  }

  lemma TurnsOfThree()
    ensures forall i: nat :: i < 10 ==> TurnOf([1, 2, 3], i) == [1, 2, 3, 1, 2, 3, 1, 2, 3, 1][i]
  {
  }

  /** Ten shards, and the groups 1, 2 and 3 join: a second Join that only adds a server to group 1 would hand out
      the last shard, and there is no new group to hand it to. */
  lemma JoinWithoutNewGroup(a: seq<string>, b: seq<string>, c: seq<string>, more: seq<string>)
    ensures var first := JoinConfig(Config(0, seq(10, i => 0), map[]), [Joined(1, a), Joined(2, b), Joined(3, c)]);
            && first.Some? && first.value.shards == [1, 2, 3, 1, 2, 3, 1, 2, 3, 1]
            && JoinConfig(first.value, [Joined(1, more)]) == None
  {
    var empty, servers := Config(0, seq(10, i => 0), map[]), [Joined(1, a), Joined(2, b), Joined(3, c)];
    ThreeMerged(servers);
    assert |Merge(map[], servers, 3)| == |{1, 2, 3}| == 3;
    FirstThree();
    var first := JoinConfig(empty, servers).value;
    LastIsSpare(first.shards);
    JoinDefinedIff(first, [Joined(1, more)]);
  }

  // ---------- which logs run ----------

  /** Command k has a higher number than all its client's commands before it. */
  ghost predicate IsFirst(log: seq<Command>, k: nat)
    requires k < |log|
  {
    log[k].number > 0 && forall j :: 0 <= j < k && log[j].client == log[k].client ==> log[j].number < log[k].number
  }

  /** What is remembered of a client is its highest number, so that a command is accepted just when it is a first. */
  lemma {:induction false} CacheIsHighest(n: nat, log: seq<Command>, client: int)
    requires Run(n, log).Some?
    ensures var last := CountOf(Run(n, log).value.cache, client);
            && last >= 0
            && (forall j :: 0 <= j < |log| && log[j].client == client ==> log[j].number <= last)
            && (last > 0 ==> exists j :: 0 <= j < |log| && log[j].client == client && log[j].number == last)
  {
    if log != [] {
      var before := log[..|log| - 1];
      CacheIsHighest(n, before, client);
      var last := CountOf(Run(n, before).value.cache, client);
      if last > 0 {
        var j :| 0 <= j < |before| && before[j].client == client && before[j].number == last;
        assert log[j] == before[j];
      }
      assert forall j :: 0 <= j < |before| ==> before[j] == log[j];
    }
  }

  lemma FirstIsAccepted(n: nat, log: seq<Command>)
    requires log != [] && Run(n, log[..|log| - 1]).Some?
    ensures Accepts(Run(n, log[..|log| - 1]).value, log[|log| - 1]) <==> IsFirst(log, |log| - 1)
  {
    var before := log[..|log| - 1];
    CacheIsHighest(n, before, log[|log| - 1].client);
    assert forall j :: 0 <= j < |before| ==> before[j] == log[j];
  }

  /** The configuration that the next command of the log meets. */
  ghost function Current(n: nat, log: seq<Command>): Config {
    if log == [] then Config(0, seq(n, i => 0), map[]) else
    var c := Current(n, log[..|log| - 1]);
    if !IsFirst(log, |log| - 1) then c else
    match NewConfig(c, log[|log| - 1])
    case None => c
    case Some(d) => d.(num := c.num + 1)
  }

  /** Command k is a retry, or is allowed on the configuration it meets. */
  ghost predicate LegalAt(n: nat, log: seq<Command>, k: nat)
    requires k < |log|
  {
    IsFirst(log, k) ==> Allowed(Current(n, log[..k]), log[k])
  }

  ghost predicate Legal(n: nat, log: seq<Command>) {
    forall k: nat {:trigger LegalAt(n, log, k)} :: k < |log| ==> LegalAt(n, log, k)
  }

  lemma FirstBefore(log: seq<Command>, k: nat)
    requires k < |log| - 1
    ensures IsFirst(log[..|log| - 1], k) <==> IsFirst(log, k)
  {
    assert forall j :: 0 <= j < |log| - 1 ==> log[..|log| - 1][j] == log[j];
  }

  lemma LegalMore(n: nat, log: seq<Command>)
    requires log != []
    ensures Legal(n, log) <==> Legal(n, log[..|log| - 1]) && LegalAt(n, log, |log| - 1)
  {
    var before := log[..|log| - 1];
    forall k: nat | k < |before| ensures LegalAt(n, before, k) <==> LegalAt(n, log, k) {
      FirstBefore(log, k);
      assert before[..k] == log[..k];
    }
  }

  /** The first Move past the last shard ends the run. */
  lemma MoveOutside(n: nat, client: int, number: int, gid: int)
    requires number > 0
    ensures Run(n, [Move(client, number, n, gid)]) == None
  {
    var log := [Move(client, number, n, gid)];
    assert log[..0] == [];
    assert Run(n, log[..0]) == Some(Initial(n));
  }

  /** A log runs to its end exactly when every command that is no retry is allowed where it is applied, and then
      its last configuration, numbered by the configurations before it, is the current one. */
  lemma {:induction false} RunIff(n: nat, log: seq<Command>)
    ensures Run(n, log).Some? <==> Legal(n, log)
    ensures Run(n, log).Some? ==>
              var configs := Run(n, log).value.configs;
              GetConfig(configs, -1) == Current(n, log) && Current(n, log).num == |configs| - 1
  {
    if log != [] {
      RunIff(n, log[..|log| - 1]);
      LegalMore(n, log);
      if Run(n, log[..|log| - 1]).Some? {
        FirstIsAccepted(n, log);
        OutcomeIff(Current(n, log[..|log| - 1]), log[|log| - 1]);
      }
    }
  }

  /** The command is a Join that lists group g. */
  predicate Names(cmd: Command, g: int) {
    cmd.Join? && exists i :: 0 <= i < |cmd.servers| && cmd.servers[i].gid == g
  }

  lemma {:induction false} MergedWereNamed(groups: Groups, servers: seq<Joined>, k: nat, g: int)
    requires k <= |servers| && g in Merge(groups, servers, k)
    ensures g in groups || exists i :: 0 <= i < k && servers[i].gid == g
  {
    if k > 0 && g != servers[k - 1].gid { MergedWereNamed(groups, servers, k - 1, g); }
  }

  lemma {:induction false} GroupsWereNamed(n: nat, log: seq<Command>, g: int)
    requires g in Current(n, log).groups
    ensures exists j :: 0 <= j < |log| && Names(log[j], g)
  {
    if log != [] {
      var before, cmd := log[..|log| - 1], log[|log| - 1];
      var c := Current(n, before);
      if g in c.groups {
        GroupsWereNamed(n, before, g);
        var j :| 0 <= j < |before| && Names(before[j], g);
        assert log[j] == before[j];
      } else {
        if cmd.Join? { MergedWereNamed(c.groups, cmd.servers, |cmd.servers|, g); }
        assert Names(log[|log| - 1], g);
      }
    }
  }

  /** A Join that lists a group no Join before it has listed is allowed, whatever the log before it. */
  lemma NewNameIsAllowed(n: nat, log: seq<Command>, k: nat, g: int)
    requires k < |log| && Names(log[k], g) && forall j :: 0 <= j < k ==> !Names(log[j], g)
    ensures LegalAt(n, log, k)
  {
    if g in Current(n, log[..k]).groups {
      GroupsWereNamed(n, log[..k], g);
      assert false;
    }
  }

  // ---------- the history ----------

  /** Configuration i has number i, and every configuration places every shard. */
  lemma {:induction false} ConfigsAreNumbered(n: nat, log: seq<Command>)
    requires Legal(n, log)
    ensures Run(n, log).Some?
    ensures var configs := Run(n, log).value.configs;
            forall i :: 0 <= i < |configs| ==> configs[i].num == i && |configs[i].shards| == n
  {
    RunIff(n, log);
    if log != [] {
      LegalMore(n, log);
      ConfigsAreNumbered(n, log[..|log| - 1]);
      var m := Run(n, log[..|log| - 1]).value;
      var c := GetConfig(m.configs, -1);
      if Accepts(m, log[|log| - 1]) {
        NewConfigSize(c, log[|log| - 1]);
      }
    }
  }

  lemma NewConfigSize(c: Config, cmd: Command)
    requires NewConfig(c, cmd).Some?
    ensures |NewConfig(c, cmd).value.shards| == |c.shards|
  {
  }

  /** What a log has produced stays as it is when more commands follow. */
  lemma {:induction false} ConfigsNeverChange(n: nat, log: seq<Command>, k: nat)
    requires Legal(n, log) && k <= |log|
    ensures Run(n, log[..k]).Some? && Run(n, log).Some? && Run(n, log[..k]).value.configs <= Run(n, log).value.configs
  {
    RunIff(n, log);
    if k < |log| {
      LegalMore(n, log);
      ConfigsNeverChange(n, log[..|log| - 1], k);
      assert log[..|log| - 1][..k] == log[..k];
    } else {
      assert log[..k] == log;
    }
  }

  // ---------- where shards are ----------

  ghost predicate Placed(c: Config) {
    forall p :: 0 <= p < |c.shards| ==> c.shards[p] == 0 || c.shards[p] in c.groups
  }

  /** A Move names no group or one that exists. */
  predicate ValidMove(c: Config, cmd: Command) {
    cmd.Move? ==> cmd.gid == 0 || cmd.gid in c.groups
  }

  /** The loop leaves a shard alone or gives it to a new group. */
  lemma {:induction false} DealsToNew(shards: seq<int>, k: nat, least: int, spare: int, newGids: seq<int>)
    requires k <= |shards| && DealTo(shards, k, least, spare, newGids).Dealing?
    ensures var d := DealTo(shards, k, least, spare, newGids);
            forall p :: 0 <= p < |shards| ==> d.shards[p] == shards[p] || d.shards[p] in newGids
  {
    if k > 0 { DealsToNew(shards, k - 1, least, spare, newGids); }
  }

  lemma {:induction false} MergeKeys(groups: Groups, servers: seq<Joined>, k: nat)
    requires k <= |servers|
    ensures var gids := NewGids(groups, servers, k);
            && Distinct(gids) && Elements(gids) !! groups.Keys
            && Merge(groups, servers, k).Keys == groups.Keys + Elements(gids)
  {
    if k == 0 {
      assert NewGids(groups, servers, k) == [];
    } else {
      MergeKeys(groups, servers, k - 1);
      if servers[k - 1].gid !in Merge(groups, servers, k - 1) {
        OneMoreGid(groups.Keys, NewGids(groups, servers, k - 1), servers[k - 1].gid);
      }
    }
  }

  lemma OneMoreGid(present: set<int>, gids: seq<int>, gid: int)
    requires Distinct(gids) && Elements(gids) !! present && gid !in present + Elements(gids)
    ensures Distinct(gids + [gid]) && Elements(gids + [gid]) !! present
    ensures Elements(gids + [gid]) == Elements(gids) + {gid}
  {
    assert (gids + [gid])[..|gids|] == gids;
    ElementsMore(gids + [gid]);
    forall i: nat, j: nat | i < j < |gids| + 1 ensures Differ(gids + [gid], i, j) {
      assert gids[i] in Elements(gids);
      if j < |gids| { assert Differ(gids, i, j); }
    }
  }

  lemma {:induction false} MergeSize(groups: Groups, servers: seq<Joined>, k: nat)
    requires k <= |servers|
    ensures |Merge(groups, servers, k)| == |groups| + |NewGids(groups, servers, k)|
  {
    if k > 0 {
      MergeSize(groups, servers, k - 1);
      var before, j := Merge(groups, servers, k - 1), servers[k - 1];
      UpdateSize(before, j.gid, if j.gid in before then before[j.gid] + j.servers else j.servers);
    }
  }

  lemma UpdateSize(groups: Groups, gid: int, servers: seq<string>)
    ensures |groups[gid := servers]| == |groups| + if gid in groups then 0 else 1
  {
    assert groups[gid := servers].Keys == groups.Keys + {gid};
  }

  lemma JoinPlaces(c: Config, servers: seq<Joined>)
    requires Placed(c) && JoinConfig(c, servers).Some?
    ensures Placed(JoinConfig(c, servers).value)
  {
    var groups, gids := Merge(c.groups, servers, |servers|), NewGids(c.groups, servers, |servers|);
    MergeKeys(c.groups, servers, |servers|);
    if 0 < |groups| <= |c.shards| {
      DealsToNew(c.shards, |c.shards|, |c.shards| / |groups|, |c.shards| % |groups|, gids);
      assert forall g :: g in gids ==> g in Elements(gids);
    }
  }

  lemma LeavePlaces(c: Config, gids: seq<int>, order: seq<int>)
    requires Placed(c) && Lists(order, Remaining(c.groups, gids))
    ensures LeaveConfig(c, gids, order).Some? && Placed(LeaveConfig(c, gids, order).value)
    ensures order != [] ==>
              forall p :: 0 <= p < |c.shards| && c.shards[p] in c.groups ==>
                LeaveConfig(c, gids, order).value.shards[p] in Remaining(c.groups, gids)
  {
    assert forall g :: g in order <==> g in Elements(order);
    if order != [] {
      LeaveEvicts(c.shards, Elements(gids), order);
    }
  }

  ghost predicate ValidMoves(n: nat, log: seq<Command>) {
    forall k :: 0 <= k < |log| && IsFirst(log, k) ==> ValidMove(Current(n, log[..k]), log[k])
  }

  /** With valid Moves, every configuration of a run places its shards at no group or at one of its groups. */
  lemma {:induction false} ShardsArePlaced(n: nat, log: seq<Command>)
    requires Legal(n, log) && ValidMoves(n, log)
    ensures Run(n, log).Some?
    ensures forall i :: 0 <= i < |Run(n, log).value.configs| ==> Placed(Run(n, log).value.configs[i])
  {
    RunIff(n, log);
    if log != [] {
      var before, cmd := log[..|log| - 1], log[|log| - 1];
      LegalMore(n, log);
      ValidBefore(n, log);
      ShardsArePlaced(n, before);
      RunIff(n, before);
      FirstIsAccepted(n, log);
      var c := Current(n, before);
      if IsFirst(log, |log| - 1) {
        match cmd
        case Join(_, _, servers) => JoinPlaces(c, servers);
        case Leave(_, _, gids, order) => LeavePlaces(c, gids, order);
        case Move(_, _, _, _) =>
      }
    }
  }

  lemma ValidBefore(n: nat, log: seq<Command>)
    requires log != [] && ValidMoves(n, log)
    ensures ValidMoves(n, log[..|log| - 1])
    ensures IsFirst(log, |log| - 1) ==> ValidMove(Current(n, log[..|log| - 1]), log[|log| - 1])
  {
    var before := log[..|log| - 1];
    forall k | 0 <= k < |before| && IsFirst(before, k) ensures ValidMove(Current(n, before[..k]), before[k]) {
      FirstBefore(log, k);
      assert before[..k] == log[..k] && before[k] == log[k];
    }
  }

  /** On a placed configuration, a Join that brings a new group meets what the theorems about its loop ask. */
  lemma JoinIsJoining(c: Config, servers: seq<Joined>)
    requires Placed(c) && 0 !in c.groups && NewGids(c.groups, servers, |servers|) != []
    requires |Merge(c.groups, servers, |servers|)| <= |c.shards|
    ensures Joining(c.shards, c.groups.Keys, NewGids(c.groups, servers, |servers|))
    ensures |Merge(c.groups, servers, |servers|)| == |c.groups.Keys| + |NewGids(c.groups, servers, |servers|)|
    ensures JoinConfig(c, servers).Some?
  {
    MergeKeys(c.groups, servers, |servers|);
    MergeSize(c.groups, servers, |servers|);
  }

  // ---------- retries ----------

  /** A command is accepted exactly when its number is higher than all its client's numbers before it. */
  lemma AcceptsFirsts(n: nat, log: seq<Command>)
    requires log != [] && Legal(n, log[..|log| - 1])
    ensures Run(n, log[..|log| - 1]).Some?
    ensures Accepts(Run(n, log[..|log| - 1]).value, log[|log| - 1]) <==> IsFirst(log, |log| - 1)
  {
    RunIff(n, log[..|log| - 1]);
    FirstIsAccepted(n, log);
  }

  /** The log without retries and late duplicates. */
  ghost function Firsts(log: seq<Command>): seq<Command> {
    if log == [] then []
    else Firsts(log[..|log| - 1]) + if IsFirst(log, |log| - 1) then [log[|log| - 1]] else []
  }

  /** Every log ends as it does with each client's non-increasing numbers deleted: in the same state, or undefined. */
  lemma {:induction false} RetriesChangeNothing(n: nat, log: seq<Command>)
    ensures Run(n, Firsts(log)) == Run(n, log)
  {
    if log != [] {
      var before, cmd := log[..|log| - 1], log[|log| - 1];
      RetriesChangeNothing(n, before);
      if Run(n, before).Some? { FirstIsAccepted(n, log); }
      if IsFirst(log, |log| - 1) {
        RunMore(n, Firsts(before), cmd);
      } else {
        assert Firsts(log) == Firsts(before);
      }
    }
  }

  lemma RunMore(n: nat, log: seq<Command>, cmd: Command)
    ensures Run(n, log + [cmd]) == if Run(n, log).None? then None else Apply(Run(n, log).value, cmd)
  {
    assert (log + [cmd])[..|log|] == log;
  }
}
