/** The invariant of the sharded store: each shard has one live place, found by following its owners. */
module ShardInvariant {
  import opened ShardTypes
  import opened ShardGroup
  import opened ShardSystem

  function Owner(s: System, num: nat, shard: int): int
    requires num < |s.configs| && 0 <= shard < |s.configs[num].shards|
  {
    s.configs[num].shards[shard]
  }

  ghost predicate ConfigOk(s: System, k: nat)
    requires k < |s.configs|
  {
    && s.configs[k].num == k
    && |s.configs[k].shards| == s.n
    && (k == 0 ==> forall i :: 0 <= i < s.n ==> s.configs[k].shards[i] == 0)
  }

  ghost predicate ConfigsOk(s: System) {
    && s.n > 0 && |s.configs| > 0
    && 0 !in s.groups
    && forall k {:trigger ConfigOk(s, k)} :: 0 <= k < |s.configs| ==> ConfigOk(s, k)
  }

  /** A payload holds keys of its shard only. */
  ghost predicate PayloadOk(s: System, shard: int, p: MigrationData)
    requires s.n > 0
  {
    forall k :: k in p.data ==> Key2Shard(k, s.n) == shard
  }

  ghost predicate GroupOk(s: System, g: int)
    requires s.n > 0 && g in s.groups
  {
    var x := s.groups[g];
    && x.gid == g
    && 0 <= x.config.num < |s.configs| && x.config == s.configs[x.config.num]
    && x.history == s.configs[..x.config.num]
    && x.own !! x.waiting.Keys
    && x.own + x.waiting.Keys == Assigned(x.config, g)
    && (forall i :: i in x.waiting ==> x.waiting[i] == x.config.num - 1)
    && (x.config.num <= 1 ==> x.waiting == map[])
    && (forall k :: k in x.data ==> Key2Shard(k, s.n) in x.own)
  }

  /** What g keeps for later owners was its own, and is the live copy only while no one has taken it. */
  ghost predicate StoredOk(s: System, g: int, k: int, i: int)
    requires ConfigsOk(s) && g in s.groups && k in s.groups[g].migrating && i in s.groups[g].migrating[k]
  {
    && 1 <= k < s.groups[g].config.num && k < |s.configs|
    && 0 <= i < s.n && i in s.at && s.at[i] >= k
    && PayloadOk(s, i, s.groups[g].migrating[k][i])
  }

  ghost predicate CleaningOk(s: System, g: int, k: int, i: int)
    requires g in s.groups && k in s.groups[g].cleaning && i in s.groups[g].cleaning[k]
  {
    i in s.at && k < s.at[i] && 1 <= k
  }

  /** The owners of a shard before its place are groups that have moved on, and no owner after its place has. */
  ghost predicate PassedOk(s: System, i: int, k: nat)
    requires ConfigsOk(s) && 0 <= i < s.n && i in s.at && 1 <= k < |s.configs|
  {
    assert ConfigOk(s, k);
    var g := Owner(s, k, i);
    && (k < s.at[i] ==> g in s.groups && s.groups[g].config.num > k)
    && (k == s.at[i] ==> g in s.groups && s.groups[g].config.num >= k)
    && (g in s.groups && s.groups[g].config.num > k ==> s.at[i] >= k)
  }

  /** The live place of a shard exists. */
  ghost predicate PlaceOk(s: System, i: int)
    requires ConfigsOk(s) && 0 <= i < s.n && i in s.at
  {
    && s.at[i] < |s.configs|
    && (s.at[i] > 0 ==>
          assert ConfigOk(s, s.at[i]);
          && Owner(s, s.at[i], i) in s.groups
          && var x := s.groups[Owner(s, s.at[i], i)];
          && (x.config.num == s.at[i] ==> i in x.own)
          && (x.config.num > s.at[i] ==> s.at[i] in x.migrating && i in x.migrating[s.at[i]]))
  }

  ghost predicate OwnOk(s: System, g: int, i: int)
    requires g in s.groups && i in s.groups[g].own
  {
    i in s.at && s.at[i] == s.groups[g].config.num
  }

  /** A shard passed from the owner under k to another group under k + 1. */
  ghost predicate Handover(s: System, i: int, k: int) {
    1 <= k && k + 1 < |s.configs| && 0 <= i < s.n && i in s.at
  }

  ghost predicate MessageOk(s: System, m: Message)
    requires ConfigsOk(s)
  {
    match m
    case PullRequest(from, to, i, k) =>
      && Handover(s, i, k) && from in s.groups
      && (assert ConfigOk(s, k) && ConfigOk(s, k + 1); Owner(s, k, i) == to && Owner(s, k + 1, i) == from)
    case PullReply(to, i, k, p) =>
      && Handover(s, i, k) && to in s.groups
      && (assert ConfigOk(s, k) && ConfigOk(s, k + 1); Owner(s, k + 1, i) == to)
      && s.at[i] >= k
      && PayloadOk(s, i, p)
      && (s.at[i] == k ==>
            && Owner(s, k, i) in s.groups
            && var x := s.groups[Owner(s, k, i)];
            x.config.num > k && k in x.migrating && i in x.migrating[k] && p == x.migrating[k][i])
    case CleanRequest(from, to, i, k) => i in s.at && 1 <= k < s.at[i]
    case CleanReply(to, i, k) => true
  }

  // ---------- the live copy of a shard ----------

  ghost function LiveData(s: System, i: int): map<Str, Str>
    requires ConfigsOk(s) && 0 <= i < s.n && i in s.at && PlaceOk(s, i)
  {
    if s.at[i] == 0 then map[] else
    assert ConfigOk(s, s.at[i]);
    var x := s.groups[Owner(s, s.at[i], i)];
    if x.config.num > s.at[i] then x.migrating[s.at[i]][i].data else x.data
  }

  ghost function LiveCache(s: System, i: int): map<int, Str>
    requires ConfigsOk(s) && 0 <= i < s.n && i in s.at && PlaceOk(s, i)
  {
    if s.at[i] == 0 then map[] else
    assert ConfigOk(s, s.at[i]);
    var x := s.groups[Owner(s, s.at[i], i)];
    if x.config.num > s.at[i] then x.migrating[s.at[i]][i].cache else x.cache
  }

  ghost predicate PlacesOk(s: System)
    requires ConfigsOk(s)
  {
    && (forall i :: i in s.at <==> 0 <= i < s.n)
    && (forall i {:trigger PlaceOk(s, i)} :: 0 <= i < s.n ==> PlaceOk(s, i))
    && (forall i, k {:trigger PassedOk(s, i, k)} :: 0 <= i < s.n && 1 <= k < |s.configs| ==> PassedOk(s, i, k))
  }

  ghost predicate GroupsOk(s: System)
    requires ConfigsOk(s)
  {
    && (forall g {:trigger GroupOk(s, g)} :: g in s.groups ==> GroupOk(s, g))
    && (forall g, i {:trigger OwnOk(s, g, i)} :: g in s.groups && i in s.groups[g].own ==> OwnOk(s, g, i))
    && (forall g, k, i {:trigger StoredOk(s, g, k, i)} ::
          g in s.groups && k in s.groups[g].migrating && i in s.groups[g].migrating[k] ==> StoredOk(s, g, k, i))
    && (forall g, k, i {:trigger CleaningOk(s, g, k, i)} ::
          g in s.groups && k in s.groups[g].cleaning && i in s.groups[g].cleaning[k] ==> CleaningOk(s, g, k, i))
  }

  ghost predicate Core(s: System) {
    && ConfigsOk(s)
    && PlacesOk(s)
    && GroupsOk(s)
    && (forall m {:trigger MessageOk(s, m)} :: m in s.net ==> MessageOk(s, m))
  }

  /** What the live copies remember of requests on keys of their shards is still remembered. */
  ghost predicate Remembered(s: System, s': System, id: int)
    requires Core(s) && Core(s') && s'.n == s.n
  {
    forall i :: 0 <= i < s.n && id in LiveCache(s, i) && Key2Shard(LiveCache(s, i)[id], s.n) == i ==>
      id in LiveCache(s', i)
  }

  /** The value of a key in the whole store: what the live copy of its shard holds. */
  ghost function View(s: System, key: Str): Str
    requires Core(s)
  {
    var i := Key2Shard(key, s.n);
    if 0 <= i < s.n then Lookup(LiveData(s, i), key) else []
  }
}
