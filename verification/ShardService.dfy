/** Exactly when a group serves a client request, in every run, and what it does then. */
module ShardService {
  import opened ShardTypes
  import opened ShardGroup
  import opened ShardSystem
  import opened ShardInvariant
  import opened ShardSteps
  import opened ShardTheorems
  import opened ShardRetries

  // ---------- the shard of a key ----------

  /** The shard of a key is the remainder of its first byte, as a signed number, by the number of shards, with the
      sign of the byte; an empty key has shard 0. A shard is negative, and thus at no group, exactly when the byte is
      from 128 on and its distance to 256 is no multiple of that number. */
  lemma ShardOfKey(key: Str, n: nat) returns (quotient: int)
    requires n > 0
    ensures var b := if key == [] then 0 else if key[0] < 128 then key[0] as int else key[0] as int - 256;
            var shard := Key2Shard(key, n);
            && b == quotient * n + shard && shard < n && shard + n > 0
            && (b >= 0 ==> shard >= 0) && (b <= 0 ==> shard <= 0)
            && (shard < 0 <==> key != [] && key[0] >= 128 && (256 - key[0] as int) % n != 0)
  {
    var b := if key == [] then 0 else if key[0] < 128 then key[0] as int else key[0] as int - 256;
    if b >= 0 {
      quotient := b / n;
    } else {
      quotient := -(-b / n);
      assert -b == (-b / n) * n + (-b) % n;
      assert quotient * n == -((-b / n) * n);
    }
  }

  // ---------- requests ----------

  /** Group g is at this configuration, and the key's shard is among those that it has. */
  predicate AtHome(s: System, g: int, configNum: int, key: Str)
    requires s.n > 0 && g in s.groups
  {
    s.groups[g].config.num == configNum && Key2Shard(key, s.n) in s.groups[g].own
  }

  /** In every run, a write takes effect exactly when it names the group's configuration, the group has the shard of
      its key, and its id is not last remembered there; then the group's store and the map change at its key and
      nowhere else. Under another configuration number, or without the shard, no key of the store and no value of the
      map changes. */
  lemma WritesExactly(tr: seq<System>, acts: seq<Action>, j: nat, a: Action, k: Str)
    requires IsRun(tr, acts) && j < |tr| && a.ApplyPut? && a.g in tr[0].groups
    ensures tr[j].n > 0 && a.g in tr[j].groups && Core(tr[j]) && Enabled(tr[j], a) && Core(Next(tr[j], a))
    ensures a.g in Next(tr[j], a).groups
    ensures var s, s' := tr[j], Next(tr[j], a);
            var before, after := s.groups[a.g].data, s'.groups[a.g].data;
            if AtHome(s, a.g, a.configNum, a.key) && !LastRemembered(tr, acts, j, a.g, a.id) then
              && after == before[a.key := if a.put then a.value else Lookup(before, a.key) + a.value]
              && View(s', k) ==
                   if k != a.key then View(s, k) else if a.put then a.value else View(s, k) + a.value
            else after == before && View(s', k) == View(s, k)
  {
    RunCore(tr, acts, j);
    CacheIsLastRemembered(tr, acts, j, a.g, a.id);
    PutWrites(tr[j], a.g, a.id, a.expire, a.configNum, a.key, a.value, a.put, k);
  }

  /** In every run, a read finds its key exactly under the same condition on configuration and shard: then the key is
      in the store, with the value that the writes before left there, and no other key is touched; otherwise nothing
      is. */
  lemma ReadsExactly(tr: seq<System>, acts: seq<Action>, j: nat, g: int, configNum: int, key: Str)
    requires IsRun(tr, acts) && j < |tr| && g in tr[j].groups
    ensures tr[j].n > 0 && Enabled(tr[j], ApplyGet(g, configNum, key))
    ensures g in Next(tr[j], ApplyGet(g, configNum, key)).groups
    ensures var s, s' := tr[j], Next(tr[j], ApplyGet(g, configNum, key));
            var before, after := s.groups[g].data, s'.groups[g].data;
            if AtHome(s, g, configNum, key) then after == before[key := Replay(tr, acts, j, key)]
            else s' == s
  {
    RunCore(tr, acts, j);
    var s := tr[j];
    if AtHome(s, g, configNum, key) {
      RefinesOneMap(tr, acts, j, key);
      GetReads(s, g, configNum, key, key);
    } else {
      assert s.groups[g := s.groups[g]] == s.groups;
    }
  }

  /** A reply for the configuration before the current one ends the wait for its shard and leaves the group with it,
      whether it had the shard or not. If it had not, what the payload has of a key or an id replaces what the group
      had, and the rest stays. A late reply changes nothing. */
  lemma ReplyEndsWait(g: Group, shard: int, configNum: int, payload: MigrationData)
    ensures var h := MigrationReply(g, shard, configNum, payload);
            if configNum == g.config.num - 1 then
              && shard in h.own && shard !in h.waiting && h.own == g.own + {shard} && h.waiting == g.waiting - {shard}
              && (shard in g.own ==> h == g.(waiting := h.waiting))
              && (shard !in g.own ==>
                    forall k :: Lookup(h.data, k) == Lookup(if k in payload.data then payload.data else g.data, k))
              && (shard !in g.own ==> forall id ::
                    && (id in h.cache <==> id in payload.cache || id in g.cache)
                    && (id in h.cache ==>
                          h.cache[id] == if id in payload.cache then payload.cache[id] else g.cache[id]))
            else h == g
  {
  }
}
