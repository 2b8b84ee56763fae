/** The loop of a Leave, which starts over whenever it fills up a group, and keeps its counters when it does. */
module RebalanceLeave {
  import opened Collections
  import opened Rebalance

  /** The first remaining group, from position k on, that is short of its share; the list's length if none is. */
  function FirstShort(rest: seq<int>, share: int, counts: map<int, int>, k: nat): (f: nat)
    requires k <= |rest|
    ensures k <= f <= |rest|
    ensures f < |rest| ==> CountOf(counts, rest[f]) < share
    ensures forall q :: k <= q < f ==> CountOf(counts, rest[q]) >= share
    decreases |rest| - k
  {
    if k == |rest| || CountOf(counts, rest[k]) < share then k else FirstShort(rest, share, counts, k + 1)
  }

  /** How much the counters of the remaining groups fall short of the share, in all. */
  function Deficit(rest: seq<int>, share: int, counts: map<int, int>): nat {
    if rest == [] then 0
    else Deficit(rest[1..], share, counts)
         + if CountOf(counts, rest[0]) < share then share - CountOf(counts, rest[0]) else 0
  }

  /** Counting a shard never raises the deficit, and lowers it when the shard goes to a group that is short. */
  lemma {:induction false} DeficitFalls(rest: seq<int>, share: int, counts: map<int, int>, g: int)
    ensures Deficit(rest, share, Bump(counts, g)) <= Deficit(rest, share, counts)
    ensures g in rest && CountOf(counts, g) < share ==>
              Deficit(rest, share, Bump(counts, g)) < Deficit(rest, share, counts)
  {
    if rest != [] { DeficitFalls(rest[1..], share, counts, g); }
  }

  /** The shard at i must find another group: its group leaves, or has counted exactly its share. */
  predicate MustMove(shards: seq<int>, counts: map<int, int>, i: nat, gone: set<int>, share: int)
    requires i < |shards|
  {
    shards[i] in gone || CountOf(counts, shards[i]) == share
  }

  /** The rest of the loop: at shard i, with the next group to serve in turn at position j. */
  function LeaveLoop(shards: seq<int>, counts: map<int, int>, i: nat, j: nat, gone: set<int>, rest: seq<int>,
          share: int): (r: seq<int>)
    requires i <= |shards| && j < |rest|
    ensures |r| == |shards|
    decreases Deficit(rest, share, counts), |shards| - i
  {
    if i == |shards| then shards
    else if MustMove(shards, counts, i, gone, share) then
      var k := FirstShort(rest, share, counts, 0);
      if k < |rest| then
        DeficitFalls(rest, share, counts, rest[k]);
        LeaveLoop(shards[i := rest[k]], Bump(counts, rest[k]), 0, 0, gone, rest, share)
      else
        DeficitFalls(rest, share, counts, rest[j]);
        LeaveLoop(shards[i := rest[j]], Bump(counts, rest[j]), i + 1, (j + 1) % |rest|, gone, rest, share)
    else
      DeficitFalls(rest, share, counts, shards[i]);
      LeaveLoop(shards, Bump(counts, shards[i]), i + 1, j, gone, rest, share)
  }

  function ShareOf(n: nat, groups: nat): int
    requires groups > 0
  {
    if n / groups < 1 then 1 else n / groups
  }

  /** The shards of the new configuration: all unassigned when no group remains. */
  function LeaveShards(shards: seq<int>, gone: set<int>, rest: seq<int>): (r: seq<int>)
    ensures |r| == |shards|
  {
    if rest == [] then seq(|shards|, i => 0)
    else LeaveLoop(shards, map[], 0, 0, gone, rest, ShareOf(|shards|, |rest|))
  }

  /** In r no shard is at a leaving group, and only remaining groups were given shards. */
  ghost predicate Evicted(r: seq<int>, shards: seq<int>, gone: set<int>, rest: seq<int>)
    requires |r| == |shards|
  {
    forall p :: 0 <= p < |r| ==> r[p] !in gone && (r[p] == shards[p] || r[p] in rest)
  }

  lemma EvictedToo(r: seq<int>, shards: seq<int>, i: nat, g: int, gone: set<int>, rest: seq<int>)
    requires |r| == |shards| && i < |shards| && g in rest && Evicted(r, shards[i := g], gone, rest)
    ensures Evicted(r, shards, gone, rest)
  {
    forall p | 0 <= p < |r| ensures r[p] !in gone && (r[p] == shards[p] || r[p] in rest) {
      assert r[p] == shards[i := g][p] || r[p] in rest;
    }
  }

  lemma {:induction false} LoopEvicts(shards: seq<int>, counts: map<int, int>, i: nat, j: nat, gone: set<int>,
          rest: seq<int>, share: int)
    requires i <= |shards| && j < |rest|
    requires forall g :: g in rest ==> g !in gone
    requires forall p :: 0 <= p < i ==> shards[p] !in gone
    ensures Evicted(LeaveLoop(shards, counts, i, j, gone, rest, share), shards, gone, rest)
    decreases Deficit(rest, share, counts), |shards| - i
  {
    var r := LeaveLoop(shards, counts, i, j, gone, rest, share);
    if i < |shards| {
      if MustMove(shards, counts, i, gone, share) {
        var k := FirstShort(rest, share, counts, 0);
        if k < |rest| {
          DeficitFalls(rest, share, counts, rest[k]);
          LoopEvicts(shards[i := rest[k]], Bump(counts, rest[k]), 0, 0, gone, rest, share);
          EvictedToo(r, shards, i, rest[k], gone, rest);
        } else {
          DeficitFalls(rest, share, counts, rest[j]);
          LoopEvicts(shards[i := rest[j]], Bump(counts, rest[j]), i + 1, (j + 1) % |rest|, gone, rest, share);
          EvictedToo(r, shards, i, rest[j], gone, rest);
        }
      } else {
        DeficitFalls(rest, share, counts, shards[i]);
        LoopEvicts(shards, Bump(counts, shards[i]), i + 1, j, gone, rest, share);
      }
    }
  }

  /** No shard stays with a group that leaves; every shard that had a group has a remaining one; and a shard
      moves to remaining groups only. */
  lemma LeaveEvicts(shards: seq<int>, gone: set<int>, rest: seq<int>)
    requires rest != [] && forall g :: g in rest ==> g !in gone
    ensures var r := LeaveShards(shards, gone, rest);
            forall p :: 0 <= p < |shards| ==>
              && r[p] !in gone
              && (r[p] == shards[p] || r[p] in rest)
              && (shards[p] in gone || shards[p] in rest ==> r[p] in rest)
  {
    LoopEvicts(shards, map[], 0, 0, gone, rest, ShareOf(|shards|, |rest|));
  }

  /** While no shard is at a leaving group, and no group or unassigned value has more than the share, the loop
      only counts. */
  lemma {:induction false} LoopOnlyCounts(shards: seq<int>, counts: map<int, int>, i: nat, j: nat,
          gone: set<int>, rest: seq<int>, share: int)
    requires i <= |shards| && j < |rest|
    requires forall g :: CountOf(counts, g) == Holds(shards[..i], g)
    requires forall p :: 0 <= p < |shards| ==> shards[p] !in gone && Holds(shards, shards[p]) <= share
    ensures LeaveLoop(shards, counts, i, j, gone, rest, share) == shards
    decreases |shards| - i
  {
    if i < |shards| {
      forall g ensures CountOf(Bump(counts, shards[i]), g) == Holds(shards[..i + 1], g) {
        HoldsMore(shards, i, g);
      }
      HoldsOfPrefix(shards, i + 1, shards[i]);
      LoopOnlyCounts(shards, Bump(counts, shards[i]), i + 1, j, gone, rest, share);
    }
  }

  lemma {:induction false} HoldsOfPrefix(s: seq<int>, k: nat, g: int)
    requires k <= |s|
    ensures Holds(s[..k], g) <= Holds(s, g)
    decreases |s| - k
  {
    if k < |s| {
      HoldsMore(s, k, g);
      HoldsOfPrefix(s, k + 1, g);
    } else {
      assert s[..k] == s;
    }
  }

  /** Groups without shards leave without moving any, when no other group has more than the equal share. */
  lemma LeaveOfIdleGroups(shards: seq<int>, gone: set<int>, rest: seq<int>)
    requires rest != []
    requires forall p :: 0 <= p < |shards| ==>
               shards[p] !in gone && Holds(shards, shards[p]) <= ShareOf(|shards|, |rest|)
    ensures LeaveShards(shards, gone, rest) == shards
  {
    LoopOnlyCounts(shards, map[], 0, 0, gone, rest, ShareOf(|shards|, |rest|));
  }

  /** The first q remaining groups have counted one shard and the others none. */
  ghost predicate CountedOne(counts: map<int, int>, rest: seq<int>, q: nat) {
    forall p :: 0 <= p < |rest| ==> CountOf(counts, rest[p]) == if p < q then 1 else 0
  }

  /** With a share of one, the first shard is passed on from group to group, until all have counted one. */
  lemma {:induction false} PassedOn(shards: seq<int>, counts: map<int, int>, q: nat, gone: set<int>, rest: seq<int>)
    returns (s: seq<int>, c: map<int, int>)
    requires shards != [] && 1 <= q <= |rest| && Distinct(rest)
    requires shards[0] == rest[q - 1] && CountedOne(counts, rest, q)
    ensures |s| == |shards| && s[0] == rest[|rest| - 1] && CountedOne(c, rest, |rest|)
    ensures forall p :: 0 < p < |shards| ==> s[p] == shards[p]
    ensures LeaveLoop(shards, counts, 0, 0, gone, rest, 1) == LeaveLoop(s, c, 0, 0, gone, rest, 1)
    decreases |rest| - q
  {
    if q == |rest| {
      s, c := shards, counts;
    } else {
      assert CountOf(counts, rest[q]) == 0 && CountOf(counts, rest[q - 1]) == 1;
      assert FirstShort(rest, 1, counts, 0) == q;
      OneCounted(counts, rest, q);
      s, c := PassedOn(shards[0 := rest[q]], Bump(counts, rest[q]), q + 1, gone, rest);
    }
  }

  lemma OneCounted(counts: map<int, int>, rest: seq<int>, q: nat)
    requires q < |rest| && Distinct(rest) && CountedOne(counts, rest, q)
    ensures CountedOne(Bump(counts, rest[q]), rest, q + 1)
  {
    forall p | 0 <= p < |rest| ensures CountOf(Bump(counts, rest[q]), rest[p]) == if p < q + 1 then 1 else 0 {
      if p != q { DistinctAt(rest, p, q); }
    }
  }

  /** The first i shards are at the remaining groups in turn. */
  ghost predicate InTurns(s: seq<int>, i: nat, rest: seq<int>)
    requires i <= |s| && rest != []
  {
    forall p: nat :: p < i ==> s[p] == TurnOf(rest, p)
  }

  /** Once no group is short, shards of leaving groups go to the remaining ones in turn. */
  lemma {:induction false} GoesRound(shards: seq<int>, counts: map<int, int>, i: nat, gone: set<int>,
          rest: seq<int>, share: int)
    requires i <= |shards| && rest != [] && forall g :: g in rest ==> CountOf(counts, g) >= share
    requires InTurns(shards, i, rest)
    requires forall p :: i < p < |shards| ==> shards[p] in gone
    requires i < |shards| ==> MustMove(shards, counts, i, gone, share)
    ensures InTurns(LeaveLoop(shards, counts, i, i % |rest|, gone, rest, share), |shards|, rest)
    decreases |shards| - i
  {
    if i < |shards| {
      var j := i % |rest|;
      assert FirstShort(rest, share, counts, 0) == |rest|;
      NextInCycle(i, |rest|);
      assert rest[j] == TurnOf(rest, i);
      GoesRound(shards[i := rest[j]], Bump(counts, rest[j]), i + 1, gone, rest, share);
    }
  }

  /** When every shard is at a leaving group and equal shares are of one shard, the remaining groups get the
      shards in turn. */
  lemma LeaveOfAllHolders(shards: seq<int>, gone: set<int>, rest: seq<int>)
    requires rest != [] && Distinct(rest) && ShareOf(|shards|, |rest|) == 1
    requires forall p :: 0 <= p < |shards| ==> shards[p] in gone
    ensures InTurns(LeaveShards(shards, gone, rest), |shards|, rest)
  {
    if shards != [] {
      assert FirstShort(rest, 1, map[], 0) == 0;
      OneCounted(map[], rest, 0);
      var s, c := PassedOn(shards[0 := rest[0]], Bump(map[], rest[0]), 1, gone, rest);
      assert forall g :: g in rest ==> CountOf(c, g) >= 1;
      GoesRound(s, c, 0, gone, rest, 1);
    }
  }

  /** A group that has counted past its share is not moved from, so shards that it has already stay. */
  lemma {:induction false} StaysOver(shards: seq<int>, counts: map<int, int>, i: nat, j: nat, gone: set<int>,
          rest: seq<int>, share: int, g: int)
    requires i <= |shards| && j < |rest| && g !in gone && CountOf(counts, g) > share
    requires forall p :: i <= p < |shards| ==> shards[p] == g
    ensures LeaveLoop(shards, counts, i, j, gone, rest, share) == shards
    decreases |shards| - i
  {
    if i < |shards| { StaysOver(shards, Bump(counts, shards[i]), i + 1, j, gone, rest, share, g); }
  }

  /** There is no bound on how much a remaining group can exceed the equal share. The counters survive the new start,
      so that a shard is counted for groups it has been taken from: when equal shares are of one shard, the first
      shard is at a leaving group, and the first remaining group has all others, then that group ends with every
      shard and the other remaining groups with none. */
  lemma LeaveMayGiveAll(shards: seq<int>, gone: set<int>, rest: seq<int>)
    requires rest != [] && Distinct(rest) && rest[0] !in gone && ShareOf(|shards|, |rest|) == 1
    requires shards != [] && shards[0] in gone && forall p :: 0 < p < |shards| ==> shards[p] == rest[0]
    ensures forall p :: 0 <= p < |shards| ==> LeaveShards(shards, gone, rest)[p] == rest[0]
  {
    assert FirstShort(rest, 1, map[], 0) == 0;
    OneCounted(map[], rest, 0);
    var s, c := PassedOn(shards[0 := rest[0]], Bump(map[], rest[0]), 1, gone, rest);
    assert CountOf(c, rest[|rest| - 1]) == 1 && FirstShort(rest, 1, c, 0) == |rest|;
    StaysOver(s[0 := rest[0]], Bump(c, rest[0]), 1, 1 % |rest|, gone, rest, 1, rest[0]);
  }

  /** Of two shards over two remaining groups, one group ends with both. */
  lemma LeaveMayUnbalance()
    ensures LeaveShards([3, 1], {3}, [1, 2]) == [1, 1]
  {
    assert Distinct([1, 2]);
    LeaveMayGiveAll([3, 1], {3}, [1, 2]);
  }
}
