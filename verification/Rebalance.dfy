/** How the shardmaster shares shards out: the loops of a Join and of a Leave as functions of the
    assignment, and what they guarantee for any number of shards. */
module Rebalance {
  import opened Collections

  // ---------- counting ----------

  /** A counter map: a missing key reads as zero. */
  function CountOf(counts: map<int, int>, g: int): int {
    if g in counts then counts[g] else 0
  }

  function Bump(counts: map<int, int>, g: int): (r: map<int, int>)
    ensures forall h :: CountOf(r, h) == CountOf(counts, h) + (if h == g then 1 else 0)
  {
    counts[g := CountOf(counts, g) + 1]
  }

  /** How many shards group g has. */
  function Holds(s: seq<int>, g: int): (c: nat)
    ensures c <= |s|
  {
    if s == [] then 0 else Holds(s[..|s| - 1], g) + if s[|s| - 1] == g then 1 else 0
  }

  /** How many shards the groups of `gs` have together. */
  function HoldAll(s: seq<int>, gs: set<int>): nat {
    if s == [] then 0 else HoldAll(s[..|s| - 1], gs) + if s[|s| - 1] in gs then 1 else 0
  }

  /** How many shards change their group from a to b. */
  function Moved(a: seq<int>, b: seq<int>): nat
    requires |a| == |b|
  {
    if a == [] then 0
    else Moved(a[..|a| - 1], b[..|b| - 1]) + if a[|a| - 1] != b[|b| - 1] then 1 else 0
  }

  lemma HoldsMore(s: seq<int>, k: nat, g: int)
    requires k < |s|
    ensures Holds(s[..k + 1], g) == Holds(s[..k], g) + if s[k] == g then 1 else 0
  {
    assert s[..k + 1][..k] == s[..k];
  }

  lemma {:induction false} HoldAllAdds(s: seq<int>, gs: set<int>, g: int)
    requires g !in gs
    ensures HoldAll(s, gs + {g}) == HoldAll(s, gs) + Holds(s, g)
  {
    if s != [] { HoldAllAdds(s[..|s| - 1], gs, g); }
  }

  lemma {:induction false} HoldAllNone(s: seq<int>)
    ensures HoldAll(s, {}) == 0
  {
    if s != [] { HoldAllNone(s[..|s| - 1]); }
  }

  /** Groups that have m shards each. */
  lemma {:induction false} HoldAllEach(s: seq<int>, gs: set<int>, m: nat)
    requires forall g :: g in gs ==> Holds(s, g) == m
    ensures HoldAll(s, gs) == |gs| * m
    decreases |gs|
  {
    if gs == {} {
      HoldAllNone(s);
    } else {
      var g := SomeElement(gs);
      HoldAllEach(s, gs - {g}, m);
      HoldAllAdds(s, gs - {g}, g);
      assert gs == gs - {g} + {g};
    }
  }

  /** Disjoint groups that have every shard between them. */
  lemma {:induction false} HoldAllSplits(s: seq<int>, gs: set<int>, hs: set<int>)
    requires gs !! hs && forall i :: 0 <= i < |s| ==> s[i] in gs || s[i] in hs
    ensures HoldAll(s, gs) + HoldAll(s, hs) == |s|
  {
    if s != [] { HoldAllSplits(s[..|s| - 1], gs, hs); }
  }

  // ---------- the loop of a Join ----------

  /** The loop's variables; Undefined once it reads the list of new groups while that is empty. */
  datatype Dealing = Undefined | Dealing(shards: seq<int>, counts: map<int, int>, next: nat, spare: int)

  /** Shard i is handed to a new group. */
  predicate HandsOut(d: Dealing, i: nat, least: int, exact: bool)
    requires d.Dealing? && i < |d.shards|
  {
    d.shards[i] == 0 || (CountOf(d.counts, d.shards[i]) == least && (exact || d.spare <= 0))
  }

  function DealOne(d: Dealing, i: nat, least: int, exact: bool, newGids: seq<int>): Dealing
    requires d.Dealing? && i < |d.shards| && (newGids != [] ==> d.next < |newGids|)
  {
    if HandsOut(d, i, least, exact) then
      if newGids == [] then Undefined
      else Dealing(d.shards[i := newGids[d.next]], Bump(d.counts, newGids[d.next]), (d.next + 1) % |newGids|, d.spare)
    else
      var counts := Bump(d.counts, d.shards[i]);
      d.(counts := counts, spare := if CountOf(counts, d.shards[i]) == least then d.spare - 1 else d.spare)
  }

  /** The loop after its first k rounds; `spare` groups may have one shard more than the least share. */
  function DealTo(shards: seq<int>, k: nat, least: int, spare: int, newGids: seq<int>): (d: Dealing)
    requires k <= |shards|
    ensures newGids != [] ==> d.Dealing?
    ensures d.Dealing? ==> |d.shards| == |shards| && (newGids != [] ==> d.next < |newGids|)
  {
    if k == 0 then Dealing(shards, map[], 0, spare)
    else
      var d := DealTo(shards, k - 1, least, spare, newGids);
      if d == Undefined then Undefined else DealOne(d, k - 1, least, spare == 0, newGids)
  }

  /** The shards of the new configuration; the loop runs only when there are at most as many groups as shards. */
  function JoinShards(shards: seq<int>, groups: nat, newGids: seq<int>): Dealing {
    if groups == 0 then Dealing(seq(|shards|, i => 0), map[], 0, 0)
    else if groups <= |shards| then DealTo(shards, |shards|, |shards| / groups, |shards| % groups, newGids)
    else Dealing(shards, map[], 0, 0)
  }

  // ---------- a Join that brings no new group ----------

  /** How many of the assigned shards are the least-th one of their group, read from the left. */
  function Full(s: seq<int>, least: int): nat {
    if s == [] then 0
    else Full(s[..|s| - 1], least) + if s[|s| - 1] != 0 && Holds(s, s[|s| - 1]) == least then 1 else 0
  }

  /** Shard i has no group, or its group has its least share to the left of i, and as many groups as may have one
      more are full there. */
  predicate NeedsNew(s: seq<int>, i: nat, least: int, spare: int)
    requires i < |s|
  {
    s[i] == 0 || (Holds(s[..i], s[i]) == least && Full(s[..i], least) >= spare)
  }

  lemma FullMore(s: seq<int>, k: nat, least: int)
    requires k < |s|
    ensures Full(s[..k + 1], least) ==
              Full(s[..k], least) + if s[k] != 0 && Holds(s[..k], s[k]) + 1 == least then 1 else 0
  {
    assert s[..k + 1][..k] == s[..k];
    HoldsMore(s, k, s[k]);
  }

  /** What the loop's variables are as long as nothing is handed out. */
  ghost predicate Untouched(d: Dealing, s: seq<int>, k: nat, least: int, spare: int)
    requires k <= |s|
  {
    && d.Dealing? && d.shards == s && d.next == 0 && d.spare == spare - Full(s[..k], least)
    && forall g :: CountOf(d.counts, g) == Holds(s[..k], g)
  }

  lemma UntouchedNext(d: Dealing, s: seq<int>, k: nat, least: int, spare: nat)
    requires k < |s| && Untouched(d, s, k, least, spare)
    ensures var e := DealOne(d, k, least, spare == 0, []);
            if NeedsNew(s, k, least, spare) then e == Undefined else Untouched(e, s, k + 1, least, spare)
  {
    FullMore(s, k, least);
    forall g ensures Holds(s[..k + 1], g) == Holds(s[..k], g) + if s[k] == g then 1 else 0 {
      HoldsMore(s, k, g);
    }
  }

  /** Without new groups the first k rounds are defined exactly when none of those shards needs a new group,
      and then they change no assignment. */
  lemma {:induction false} DealDefinedIff(s: seq<int>, k: nat, least: int, spare: nat)
    requires k <= |s|
    ensures DealTo(s, k, least, spare, []).Dealing? <==> forall i :: 0 <= i < k ==> !NeedsNew(s, i, least, spare)
    ensures DealTo(s, k, least, spare, []).Dealing? ==> Untouched(DealTo(s, k, least, spare, []), s, k, least, spare)
  {
    if k > 0 {
      DealDefinedIff(s, k - 1, least, spare);
      var d := DealTo(s, k - 1, least, spare, []);
      if d.Dealing? { UntouchedNext(d, s, k - 1, least, spare); }
    }
  }

  /** Group g has at most m shards; 0 stands for no group and has none. */
  predicate Within(s: seq<int>, g: int, m: nat) {
    Holds(s, g) <= if g == 0 then 0 else m
  }

  /** No shard is unassigned and no group has more than m shards. */
  ghost predicate AtMostEach(s: seq<int>, m: nat) {
    forall g :: Within(s, g, m)
  }

  lemma AtMostGrows(s: seq<int>, k: nat, m: nat)
    requires k < |s| && AtMostEach(s[..k], m) && s[k] != 0 && Holds(s[..k], s[k]) < m
    ensures AtMostEach(s[..k + 1], m)
  {
    var more := s[..k + 1];
    forall g ensures Within(more, g, m) {
      assert Within(s[..k], g, m);
      HoldsMore(s, k, g);
    }
  }

  lemma AtMostShrinks(s: seq<int>, k: nat, m: nat)
    requires k < |s| && AtMostEach(s[..k + 1], m)
    ensures AtMostEach(s[..k], m)
  {
    forall g ensures Within(s[..k], g, m) {
      assert Within(s[..k + 1], g, m);
      HoldsMore(s, k, g);
    }
  }

  lemma AtMostMore(s: seq<int>, k: nat, m: nat)
    requires k < |s|
    ensures AtMostEach(s[..k + 1], m) <==> AtMostEach(s[..k], m) && s[k] != 0 && Holds(s[..k], s[k]) < m
  {
    if AtMostEach(s[..k + 1], m) {
      AtMostShrinks(s, k, m);
      HoldsMore(s, k, s[k]);
      assert Within(s[..k + 1], s[k], m);
    }
    if AtMostEach(s[..k], m) && s[k] != 0 && Holds(s[..k], s[k]) < m { AtMostGrows(s, k, m); }
  }

  /** With exact shares, none of the first k shards needs a new group exactly when they are all assigned, to no
      group more than its share. */
  lemma {:induction false} ExactNeedsIff(s: seq<int>, k: nat, least: nat)
    requires k <= |s|
    ensures (forall i :: 0 <= i < k ==> !NeedsNew(s, i, least, 0)) <==> AtMostEach(s[..k], least)
  {
    if k == 0 {
      assert forall g :: Holds(s[..0], g) == 0;
    } else {
      ExactNeedsIff(s, k - 1, least);
      AtMostMore(s, k - 1, least);
      assert AtMostEach(s[..k - 1], least) ==> Within(s[..k - 1], s[k - 1], least);
      assert (forall i :: 0 <= i < k ==> !NeedsNew(s, i, least, 0)) <==>
               (forall i :: 0 <= i < k - 1 ==> !NeedsNew(s, i, least, 0)) && !NeedsNew(s, k - 1, least, 0);
    }
  }

  /** The new group whose turn it is when i shards have been handed out. */
  function TurnOf(newGids: seq<int>, i: nat): int
    requires newGids != []
  {
    newGids[i % |newGids|]
  }

  /** Unassigned shards go to the new groups in turn. */
  lemma {:induction false} ZerosInTurn(s: seq<int>, k: nat, least: int, spare: int, newGids: seq<int>)
    requires k <= |s| && newGids != [] && forall i :: 0 <= i < |s| ==> s[i] == 0
    ensures Handed(DealTo(s, k, least, spare, newGids), k, newGids)
  {
    if k > 0 {
      ZerosInTurn(s, k - 1, least, spare, newGids);
      ZeroDealt(DealTo(s, k - 1, least, spare, newGids), k - 1, least, spare == 0, newGids);
    }
  }

  /** Of shards none of which had a group, the first k are handed out in turn. */
  ghost predicate Handed(d: Dealing, k: nat, newGids: seq<int>)
    requires newGids != []
  {
    && d.Dealing? && k <= |d.shards| && d.next == k % |newGids|
    && (forall i: nat :: i < k ==> d.shards[i] == TurnOf(newGids, i))
    && forall i :: k <= i < |d.shards| ==> d.shards[i] == 0
  }

  lemma ZeroDealt(d: Dealing, k: nat, least: int, exact: bool, newGids: seq<int>)
    requires newGids != [] && Handed(d, k, newGids) && k < |d.shards|
    ensures Handed(DealOne(d, k, least, exact, newGids), k + 1, newGids)
  {
    NextInCycle(k, |newGids|);
    assert newGids[d.next] == TurnOf(newGids, k);
  }

  lemma NextInCycle(k: nat, m: nat)
    requires m > 0
    ensures (k % m + 1) % m == (k + 1) % m
  {
    var q, r := k / m, k % m;
    assert k == m * q + r;
    if r + 1 == m {
      assert m * (q + 1) == m * q + m;
      RemainderIs(k + 1, m, q + 1, 0);
      RemainderIs(m, m, 1, 0);
    } else {
      RemainderIs(k + 1, m, q, r + 1);
      RemainderIs(r + 1, m, 0, r + 1);
    }
  }

  lemma RemainderIs(x: int, m: int, q: int, r: int)
    requires m > 0 && 0 <= r < m && x == m * q + r
    ensures x % m == r
  {
    var p := x / m;
    assert x == m * p + x % m;
    assert m * (p - q) == m * p - m * q;
    TimesAtLeast(m, p - q);
  }

  // ---------- a Join that does ----------

  /** New groups join those present, which have all shards that any group has. */
  ghost predicate Joining(shards: seq<int>, present: set<int>, newGids: seq<int>) {
    && newGids != [] && Distinct(newGids) && Elements(newGids) !! present && 0 !in present
    && |present| + |newGids| <= |shards|
    && forall i :: 0 <= i < |shards| ==> shards[i] == 0 || shards[i] in present
  }

  /** What is dealt goes to new groups, and what is not yet reached is untouched. */
  lemma {:induction false} DealtPlaces(shards: seq<int>, k: nat, least: int, spare: int, present: set<int>,
          newGids: seq<int>)
    requires Joining(shards, present, newGids) && k <= |shards|
    ensures var d := DealTo(shards, k, least, spare, newGids);
            && d.shards[k..] == shards[k..]
            && forall i :: 0 <= i < k ==> d.shards[i] in newGids || (d.shards[i] == shards[i] && shards[i] in present)
  {
    if k > 0 {
      DealtPlaces(shards, k - 1, least, spare, present, newGids);
      var d := DealTo(shards, k - 1, least, spare, newGids);
      assert d.shards[k - 1] == d.shards[k - 1..][0] == shards[k - 1..][0];
    }
  }

  /** The counters count. */
  lemma {:induction false} DealtCounts(shards: seq<int>, k: nat, least: int, spare: int, newGids: seq<int>, g: int)
    requires newGids != [] && k <= |shards|
    ensures var d := DealTo(shards, k, least, spare, newGids); CountOf(d.counts, g) == Holds(d.shards[..k], g)
  {
    if k > 0 {
      DealtCounts(shards, k - 1, least, spare, newGids, g);
      var d, e := DealTo(shards, k - 1, least, spare, newGids), DealTo(shards, k, least, spare, newGids);
      HoldsMore(e.shards, k - 1, g);
      assert e.shards[..k - 1] == d.shards[..k - 1];
    }
  }

  lemma NextUntouched(shards: seq<int>, k: nat, least: int, spare: int, present: set<int>, newGids: seq<int>)
    requires Joining(shards, present, newGids) && k < |shards|
    ensures DealTo(shards, k, least, spare, newGids).shards[k] == shards[k]
    ensures forall g :: g in present ==> g !in newGids
  {
    DealtPlaces(shards, k, least, spare, present, newGids);
    var d := DealTo(shards, k, least, spare, newGids);
    assert d.shards[k] == d.shards[k..][0] == shards[k..][0];
    assert forall q :: 0 <= q < |newGids| ==> newGids[q] in Elements(newGids);
  }

  /** One round keeps a shard of group g unless g has its least share already; with exact shares, just when not. */
  lemma DealOneKeeps(d: Dealing, i: nat, least: int, exact: bool, newGids: seq<int>, g: int)
    requires d.Dealing? && i < |d.shards| && newGids != [] && d.next < |newGids|
    requires g != 0 && g !in newGids && CountOf(d.counts, g) == Holds(d.shards[..i], g)
    ensures var e, had := DealOne(d, i, least, exact, newGids), Holds(d.shards[..i], g);
            && e.Dealing? && |e.shards| == |d.shards|
            && (Holds(e.shards[..i + 1], g) == had || Holds(e.shards[..i + 1], g) == had + 1)
            && (d.shards[i] != g ==> Holds(e.shards[..i + 1], g) == had)
            && (d.shards[i] == g && Holds(e.shards[..i + 1], g) == had ==> had == least)
            && (d.shards[i] == g && had == least && exact ==> Holds(e.shards[..i + 1], g) == had)
  {
    var e := DealOne(d, i, least, exact, newGids);
    HoldsMore(e.shards, i, g);
    assert e.shards[..i] == d.shards[..i];
  }

  /** A present group keeps its first shards up to the least share, and no more when the shares are exact. */
  lemma {:induction false} DealtKeeps(shards: seq<int>, k: nat, least: nat, spare: int, present: set<int>,
          newGids: seq<int>, g: int)
    requires Joining(shards, present, newGids) && k <= |shards| && g in present
    ensures var d := DealTo(shards, k, least, spare, newGids);
            && Holds(d.shards[..k], g) >= Min(Holds(shards[..k], g), least)
            && (spare == 0 ==> Holds(d.shards[..k], g) == Min(Holds(shards[..k], g), least))
  {
    if k == 0 {
      assert Holds(shards[..0], g) == 0;
    } else {
      DealtKeeps(shards, k - 1, least, spare, present, newGids, g);
      NextUntouched(shards, k - 1, least, spare, present, newGids);
      DealtCounts(shards, k - 1, least, spare, newGids, g);
      DealOneKeeps(DealTo(shards, k - 1, least, spare, newGids), k - 1, least, spare == 0, newGids, g);
      HoldsMore(shards, k - 1, g);
    }
  }

  /** One round: a present group keeps the shard, or the next new group gets it. */
  lemma DealOneStep(d: Dealing, i: nat, least: int, exact: bool, present: set<int>, newGids: seq<int>)
    requires d.Dealing? && i < |d.shards| && newGids != [] && d.next < |newGids|
    requires Elements(newGids) !! present && 0 !in present && (d.shards[i] == 0 || d.shards[i] in present)
    ensures var e := DealOne(d, i, least, exact, newGids);
            && e.Dealing? && |e.shards| == |d.shards| && e.shards[..i] == d.shards[..i]
            && if e.shards[i] in present then e.next == d.next
               else e.shards[i] == newGids[d.next] && e.next == if d.next + 1 == |newGids| then 0 else d.next + 1
  {
    assert newGids[d.next] in Elements(newGids);
  }

  /** The new groups have had their turns: those before the next one have one shard more. */
  ghost predicate InTurn(d: Dealing, k: nat, newGids: seq<int>, c: nat)
    requires d.Dealing? && k <= |d.shards|
  {
    forall q :: 0 <= q < |newGids| ==> Holds(d.shards[..k], newGids[q]) == c + if q < d.next then 1 else 0
  }

  lemma NextTurn(d: Dealing, i: nat, least: int, exact: bool, present: set<int>, newGids: seq<int>, c: nat)
    returns (c': nat)
    requires d.Dealing? && i < |d.shards| && newGids != [] && d.next < |newGids| && Distinct(newGids)
    requires Elements(newGids) !! present && 0 !in present && (d.shards[i] == 0 || d.shards[i] in present)
    requires InTurn(d, i, newGids, c)
    ensures var e := DealOne(d, i, least, exact, newGids);
            e.Dealing? && |e.shards| == |d.shards| && InTurn(e, i + 1, newGids, c')
  {
    var e := DealOne(d, i, least, exact, newGids);
    DealOneStep(d, i, least, exact, present, newGids);
    c' := if e.shards[i] !in present && d.next + 1 == |newGids| then c + 1 else c;
    forall q | 0 <= q < |newGids|
      ensures Holds(e.shards[..i + 1], newGids[q]) == c' + if q < e.next then 1 else 0
    {
      HoldsMore(e.shards, i, newGids[q]);
      if q != d.next { DistinctAt(newGids, q, d.next); }
      assert newGids[q] in Elements(newGids);
    }
  }

  lemma {:induction false} DealtInTurn(shards: seq<int>, k: nat, least: int, spare: int, present: set<int>,
          newGids: seq<int>)
    returns (c: nat)
    requires Joining(shards, present, newGids) && k <= |shards|
    ensures InTurn(DealTo(shards, k, least, spare, newGids), k, newGids, c)
  {
    if k == 0 {
      c := 0;
    } else {
      c := DealtInTurn(shards, k - 1, least, spare, present, newGids);
      NextUntouched(shards, k - 1, least, spare, present, newGids);
      var d := DealTo(shards, k - 1, least, spare, newGids);
      assert d.shards[k - 1] == 0 || d.shards[k - 1] in present;
      c := NextTurn(d, k - 1, least, spare == 0, present, newGids, c);
    }
  }

  /** The whole loop, with its shares, as the theorems below speak of it. */
  function JoinResult(shards: seq<int>, present: set<int>, newGids: seq<int>): (r: seq<int>)
    requires newGids != []
    ensures |r| == |shards|
  {
    JoinShards(shards, |present| + |newGids|, newGids).shards
  }

  function Share(shards: seq<int>, present: set<int>, newGids: seq<int>): nat
    requires newGids != []
  {
    |shards| / (|present| + |newGids|)
  }

  /** All groups can have the same number of shards. */
  predicate SharesExact(shards: seq<int>, present: set<int>, newGids: seq<int>)
    requires newGids != []
  {
    |shards| % (|present| + |newGids|) == 0
  }

  lemma WholeLoop(shards: seq<int>, present: set<int>, newGids: seq<int>) returns (spare: int)
    requires Joining(shards, present, newGids)
    ensures JoinResult(shards, present, newGids) ==
              DealTo(shards, |shards|, Share(shards, present, newGids), spare, newGids).shards
    ensures spare == 0 <==> SharesExact(shards, present, newGids)
    ensures JoinResult(shards, present, newGids)[..|shards|] == JoinResult(shards, present, newGids)
    ensures shards[..|shards|] == shards
  {
    spare := |shards| % (|present| + |newGids|);
  }

  /** Every shard ends at a group; shards move to new groups only; a group that was present keeps what it has
      up to the least share; and what the new groups get differs by at most one. */
  lemma JoinSafety(shards: seq<int>, present: set<int>, newGids: seq<int>)
    requires Joining(shards, present, newGids)
    ensures var r := JoinResult(shards, present, newGids);
            && (forall i :: 0 <= i < |shards| ==> r[i] in newGids || (r[i] == shards[i] && shards[i] in present))
            && (forall g :: g in present ==> Holds(r, g) >= Min(Holds(shards, g), Share(shards, present, newGids)))
            && (forall p, q :: 0 <= p < |newGids| && 0 <= q < |newGids| ==>
                  Holds(r, newGids[p]) <= Holds(r, newGids[q]) + 1)
  {
    var n, least := |shards|, Share(shards, present, newGids);
    var spare := WholeLoop(shards, present, newGids);
    DealtPlaces(shards, n, least, spare, present, newGids);
    forall g | g in present ensures Holds(JoinResult(shards, present, newGids), g) >= Min(Holds(shards, g), least) {
      DealtKeeps(shards, n, least, spare, present, newGids, g);
    }
    var c, next := JoinTurns(shards, present, newGids);
  }

  // ---------- exact shares ----------

  /** Every group of gs has exactly m shards. */
  ghost predicate Even(s: seq<int>, gs: set<int>, m: int) {
    forall g :: g in gs ==> Holds(s, g) == m
  }

  /** Every shard is at a group of gs, and each of them has m shards. */
  ghost predicate Balanced(s: seq<int>, gs: set<int>, m: int) {
    (forall i :: 0 <= i < |s| ==> s[i] in gs) && Even(s, gs, m)
  }

  /** What the new groups have together, when they were served in turn. */
  lemma {:induction false} TurnsTotal(s: seq<int>, gs: seq<int>, c: nat, next: nat, q: nat)
    requires Distinct(gs) && q <= |gs|
    requires forall p :: 0 <= p < |gs| ==> Holds(s, gs[p]) == c + if p < next then 1 else 0
    ensures HoldAll(s, Elements(gs[..q])) == q * c + Min(q, next)
  {
    if q == 0 {
      assert Elements(gs[..0]) == {};
      HoldAllNone(s);
    } else {
      TurnsTotal(s, gs, c, next, q - 1);
      OneMoreHolder(s, gs, q - 1);
      assert (q - 1) * c + c == q * c;
    }
  }

  lemma OneMoreHolder(s: seq<int>, gs: seq<int>, q: nat)
    requires Distinct(gs) && q < |gs|
    ensures HoldAll(s, Elements(gs[..q + 1])) == HoldAll(s, Elements(gs[..q])) + Holds(s, gs[q])
  {
    ElementsTake(gs, q);
    DistinctNext(gs, q);
    HoldAllAdds(s, Elements(gs[..q]), gs[q]);
  }

  /** A Join whose group count divides the shard count evens the shares out exactly when every group that
      was present has its share already. */
  lemma JoinEvensIff(shards: seq<int>, present: set<int>, newGids: seq<int>)
    requires Joining(shards, present, newGids) && SharesExact(shards, present, newGids)
    ensures var share := Share(shards, present, newGids);
            Balanced(JoinResult(shards, present, newGids), present + Elements(newGids), share)
            <==> (forall g :: g in present ==> Holds(shards, g) >= share)
  {
    var r, share := JoinResult(shards, present, newGids), Share(shards, present, newGids);
    forall g | g in present ensures Holds(r, g) == Min(Holds(shards, g), share) {
      var spare := WholeLoop(shards, present, newGids);
      DealtKeeps(shards, |shards|, share, spare, present, newGids, g);
    }
    if forall g :: g in present ==> Holds(shards, g) >= share {
      NewOnesEven(shards, present, newGids);
      EvenTogether(shards, present, newGids);
    }
    if Balanced(r, present + Elements(newGids), share) {
      forall g | g in present ensures Holds(shards, g) >= share {
        assert g in present + Elements(newGids);
        assert Holds(r, g) == share;
      }
    }
  }

  lemma EvenTogether(shards: seq<int>, present: set<int>, newGids: seq<int>)
    requires Joining(shards, present, newGids)
    requires Even(JoinResult(shards, present, newGids), present, Share(shards, present, newGids))
    requires Even(JoinResult(shards, present, newGids), Elements(newGids), Share(shards, present, newGids))
    ensures Balanced(JoinResult(shards, present, newGids), present + Elements(newGids), Share(shards, present, newGids))
  {
    JoinSafety(shards, present, newGids);
    assert forall q :: 0 <= q < |newGids| ==> newGids[q] in Elements(newGids);
  }

  lemma NewOnesEven(shards: seq<int>, present: set<int>, newGids: seq<int>)
    requires Joining(shards, present, newGids) && SharesExact(shards, present, newGids)
    requires Even(JoinResult(shards, present, newGids), present, Share(shards, present, newGids))
    ensures Even(JoinResult(shards, present, newGids), Elements(newGids), Share(shards, present, newGids))
  {
    var c, next := JoinTurns(shards, present, newGids);
    NewOnesTotal(shards, present, newGids);
    var m, share := |newGids|, Share(shards, present, newGids);
    var r := JoinResult(shards, present, newGids);
    assert newGids[..m] == newGids;
    TurnsTotal(r, newGids, c, next, m);
    SameTurns(m, c, next, share);
    forall g | g in Elements(newGids) ensures Holds(r, g) == share {
      var q :| 0 <= q < m && newGids[q] == g;
    }
  }

  /** The new groups have been served in turn, c times each and some of them once more. */
  lemma JoinTurns(shards: seq<int>, present: set<int>, newGids: seq<int>) returns (c: nat, next: nat)
    requires Joining(shards, present, newGids)
    ensures next < |newGids|
    ensures forall q :: 0 <= q < |newGids| ==>
              Holds(JoinResult(shards, present, newGids), newGids[q]) == c + if q < next then 1 else 0
  {
    var n, share := |shards|, Share(shards, present, newGids);
    var spare := WholeLoop(shards, present, newGids);
    c := DealtInTurn(shards, n, share, spare, present, newGids);
    next := DealTo(shards, n, share, spare, newGids).next;
  }

  /** What the groups present leave over is the new groups' shares. */
  lemma NewOnesTotal(shards: seq<int>, present: set<int>, newGids: seq<int>)
    requires Joining(shards, present, newGids) && SharesExact(shards, present, newGids)
    requires Even(JoinResult(shards, present, newGids), present, Share(shards, present, newGids))
    ensures HoldAll(JoinResult(shards, present, newGids), Elements(newGids))
         == |newGids| * Share(shards, present, newGids)
  {
    var r, share := JoinResult(shards, present, newGids), Share(shards, present, newGids);
    JoinSafety(shards, present, newGids);
    HoldAllEach(r, present, share);
    assert forall q :: 0 <= q < |newGids| ==> newGids[q] in Elements(newGids);
    HoldAllSplits(r, present, Elements(newGids));
    SharesAddUp(|shards|, |present|, |newGids|);
  }

  lemma SharesAddUp(n: nat, p: nat, m: nat)
    requires m > 0 && n % (p + m) == 0
    ensures n == p * (n / (p + m)) + m * (n / (p + m))
  {
    assert n == (p + m) * (n / (p + m));
  }

  lemma SameTurns(m: nat, c: int, next: nat, share: int)
    requires next < m && m * c + next == m * share
    ensures c == share && next == 0
  {
    assert m * (share - c) == next;
    TimesAtLeast(m, share - c);
  }

  lemma TimesAtLeast(m: int, k: int)
    requires m >= 0
    ensures k >= 1 ==> m * k >= m
    ensures k <= -1 ==> m * k <= -m
  {
    if k >= 1 { assert m * (k - 1) >= 0; }
    if k <= -1 { assert m * (-k - 1) >= 0; }
  }

  /** Shards that stay put under b are among those b gives to the groups present. */
  lemma {:induction false} StayersBound(a: seq<int>, b: seq<int>, gs: set<int>)
    requires |a| == |b|
    requires forall i :: 0 <= i < |a| ==> a[i] in gs || a[i] != b[i]
    ensures |a| - Moved(a, b) <= HoldAll(b, gs)
  {
    if a != [] { StayersBound(a[..|a| - 1], b[..|b| - 1], gs); }
  }

  lemma {:induction false} StayersExact(a: seq<int>, b: seq<int>, gs: set<int>)
    requires |a| == |b|
    requires forall i :: 0 <= i < |a| ==> (b[i] in gs <==> a[i] == b[i])
    ensures |a| - Moved(a, b) == HoldAll(b, gs)
  {
    if a != [] { StayersExact(a[..|a| - 1], b[..|b| - 1], gs); }
  }

  /** Then no assignment with equal shares moves fewer shards. */
  lemma JoinMovesFewest(shards: seq<int>, present: set<int>, newGids: seq<int>, b: seq<int>)
    requires Joining(shards, present, newGids) && SharesExact(shards, present, newGids) && 0 !in newGids
    requires forall g :: g in present ==> Holds(shards, g) >= Share(shards, present, newGids)
    requires |b| == |shards| && Balanced(b, present + Elements(newGids), Share(shards, present, newGids))
    ensures Moved(shards, JoinResult(shards, present, newGids)) <= Moved(shards, b)
  {
    JoinEvensIff(shards, present, newGids);
    FewestMoves(shards, present, newGids, b, Share(shards, present, newGids));
  }

  lemma FewestMoves(shards: seq<int>, present: set<int>, newGids: seq<int>, b: seq<int>, share: nat)
    requires Joining(shards, present, newGids) && 0 !in newGids && |b| == |shards|
    requires Balanced(JoinResult(shards, present, newGids), present + Elements(newGids), share)
    requires Balanced(b, present + Elements(newGids), share)
    ensures Moved(shards, JoinResult(shards, present, newGids)) <= Moved(shards, b)
  {
    var r := JoinResult(shards, present, newGids);
    JoinSafety(shards, present, newGids);
    HoldAllEach(r, present, share);
    HoldAllEach(b, present, share);
    assert forall q :: 0 <= q < |newGids| ==> newGids[q] in Elements(newGids);
    StayersExact(shards, r, present);
    StayersBound(shards, b, present);
  }

  // ---------- uneven shares ----------

  /** While a sole group is below its least share, and beyond it when more than one group may have a shard
      extra, nothing is handed out. */
  lemma {:induction false} SoleGroupKeeps(shards: seq<int>, g: int, newGids: seq<int>, k: nat, least: int, spare: int)
    requires k <= |shards| && newGids != [] && g != 0 && least >= 1 && spare >= 0
    requires forall i :: 0 <= i < |shards| ==> shards[i] == g
    requires k <= least || spare >= 2
    ensures var d := DealTo(shards, k, least, spare, newGids);
            d.shards == shards && CountOf(d.counts, g) == k && d.spare == spare - if k >= least then 1 else 0
  {
    if k > 0 { SoleGroupKeeps(shards, g, newGids, k - 1, least, spare); }
  }

  /** A shard's place is final once its round is over. */
  lemma {:induction false} DealtStays(shards: seq<int>, j: nat, k: nat, least: int, spare: int, newGids: seq<int>)
    requires newGids != [] && j < k <= |shards|
    ensures DealTo(shards, k, least, spare, newGids).shards[j] == DealTo(shards, j + 1, least, spare, newGids).shards[j]
  {
    if j + 1 < k {
      DealtStays(shards, j, k - 1, least, spare, newGids);
      DealOneElsewhere(DealTo(shards, k - 1, least, spare, newGids), k - 1, least, spare == 0, newGids, j);
    }
  }

  lemma DealOneElsewhere(d: Dealing, i: nat, least: int, exact: bool, newGids: seq<int>, j: nat)
    requires d.Dealing? && i < |d.shards| && newGids != [] && d.next < |newGids| && j < |d.shards| && j != i
    ensures DealOne(d, i, least, exact, newGids).Dealing? && |DealOne(d, i, least, exact, newGids).shards| == |d.shards|
    ensures DealOne(d, i, least, exact, newGids).shards[j] == d.shards[j]
  {
  }

  /** One group with every shard keeps them all, however many join at once, exactly when equal shares leave at
      least two shards over: with ten shards and three new groups, for example. */
  lemma SoleGroupKeepsAllIff(shards: seq<int>, g: int, newGids: seq<int>)
    requires Joining(shards, {g}, newGids) && forall i :: 0 <= i < |shards| ==> shards[i] == g
    ensures JoinShards(shards, 1 + |newGids|, newGids).shards == shards <==> |shards| % (1 + |newGids|) >= 2
  {
    var n, least, spare := |shards|, |shards| / (1 + |newGids|), |shards| % (1 + |newGids|);
    LeastBelow(n, 1 + |newGids|);
    if spare >= 2 {
      SoleGroupKeeps(shards, g, newGids, n, least, spare);
    } else {
      SoleGroupKeeps(shards, g, newGids, least, least, spare);
      DealtStays(shards, least, n, least, spare, newGids);
      var d := DealTo(shards, least, least, spare, newGids);
      assert newGids[d.next] in Elements(newGids);
      assert DealTo(shards, n, least, spare, newGids).shards[least] == newGids[d.next];
    }
  }

  lemma LeastBelow(n: nat, groups: nat)
    requires 2 <= groups <= n
    ensures 1 <= n / groups < n
  {
  }
}
