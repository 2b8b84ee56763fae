/** What a Join leaves where it is, and when it makes the shares as even as they can be, for any number of groups. */
module RebalanceJoin {
  import opened Collections
  import opened Rebalance

  // ---------- the shards that stay ----------

  /** Of the first k shards, one of group g needs a new group. */
  predicate Cut(s: seq<int>, k: nat, g: int, least: int, spare: int)
    requires k <= |s|
  {
    exists p :: 0 <= p < k && s[p] == g && NeedsNew(s, p, least, spare)
  }

  /** Shard i has a group, and neither it nor a shard of that group before it needs a new one. */
  predicate Stays(s: seq<int>, i: nat, least: int, spare: int)
    requires i < |s|
  {
    s[i] != 0 && !Cut(s, i + 1, s[i], least, spare)
  }

  /** How many of the first k shards stay with group g: its least share once one of them needs a new group. */
  function KeptBy(s: seq<int>, k: nat, g: int, least: nat, spare: int): nat
    requires k <= |s|
  {
    if Cut(s, k, g, least, spare) then least else Holds(s[..k], g)
  }

  /** How many of the first k shards stay. */
  function Staying(s: seq<int>, k: nat, least: int, spare: int): nat
    requires k <= |s|
  {
    if k == 0 then 0 else Staying(s, k - 1, least, spare) + if Stays(s, k - 1, least, spare) then 1 else 0
  }

  lemma CutMore(s: seq<int>, k: nat, g: int, least: int, spare: int)
    requires k < |s|
    ensures Cut(s, k + 1, g, least, spare) <==>
              Cut(s, k, g, least, spare) || (s[k] == g && NeedsNew(s, k, least, spare))
  {
  }

  /** A group that has been cut has more than its least share, and the groups that may have one more are full. */
  lemma {:induction false} CutIsFull(s: seq<int>, k: nat, g: int, least: int, spare: int)
    requires k <= |s| && g != 0 && Cut(s, k, g, least, spare)
    ensures Holds(s[..k], g) > least && Full(s[..k], least) >= spare
  {
    CutMore(s, k - 1, g, least, spare);
    HoldsMore(s, k - 1, g);
    FullMore(s, k - 1, least);
    if Cut(s, k - 1, g, least, spare) { CutIsFull(s, k - 1, g, least, spare); }
  }

  /** The loop's counters after k rounds, in terms of the assignment before it. */
  ghost predicate Tallied(d: Dealing, s: seq<int>, k: nat, least: nat, spare: int, present: set<int>)
    requires k <= |s|
  {
    && d.Dealing? && d.spare == spare - Full(s[..k], least)
    && forall g :: g in present ==> CountOf(d.counts, g) == KeptBy(s, k, g, least, spare)
  }

  lemma HandsOutIff(d: Dealing, s: seq<int>, k: nat, least: nat, spare: nat, present: set<int>)
    requires k < |s| && Tallied(d, s, k, least, spare, present)
    requires |d.shards| == |s| && d.shards[k] == s[k] && (s[k] == 0 || s[k] in present)
    ensures HandsOut(d, k, least, spare == 0) <==> !Stays(s, k, least, spare)
  {
    CutMore(s, k, s[k], least, spare);
    if s[k] != 0 && Cut(s, k, s[k], least, spare) { CutIsFull(s, k, s[k], least, spare); }
  }

  lemma KeptMore(s: seq<int>, k: nat, g: int, least: nat, spare: nat)
    requires k < |s| && g != 0
    ensures KeptBy(s, k + 1, g, least, spare) ==
              KeptBy(s, k, g, least, spare) + if s[k] == g && Stays(s, k, least, spare) then 1 else 0
  {
    CutMore(s, k, g, least, spare);
    HoldsMore(s, k, g);
  }

  lemma FullOfStaying(s: seq<int>, k: nat, least: nat, spare: nat)
    requires k < |s|
    ensures Full(s[..k + 1], least) == Full(s[..k], least) +
              if Stays(s, k, least, spare) && KeptBy(s, k + 1, s[k], least, spare) == least then 1 else 0
  {
    FullMore(s, k, least);
    HoldsMore(s, k, s[k]);
    CutMore(s, k, s[k], least, spare);
    if s[k] != 0 && Cut(s, k + 1, s[k], least, spare) { CutIsFull(s, k + 1, s[k], least, spare); }
  }

  lemma TalliedNext(d: Dealing, s: seq<int>, k: nat, least: nat, spare: nat, present: set<int>, newGids: seq<int>)
    requires Joining(s, present, newGids) && k < |s| && Tallied(d, s, k, least, spare, present)
    requires |d.shards| == |s| && d.shards[k] == s[k] && d.next < |newGids|
    ensures Tallied(DealOne(d, k, least, spare == 0, newGids), s, k + 1, least, spare, present)
  {
    HandsOutIff(d, s, k, least, spare, present);
    FullOfStaying(s, k, least, spare);
    assert newGids[d.next] in Elements(newGids);
    forall g | g in present
      ensures CountOf(DealOne(d, k, least, spare == 0, newGids).counts, g) == KeptBy(s, k + 1, g, least, spare)
    {
      KeptMore(s, k, g, least, spare);
    }
  }

  lemma {:induction false} DealtTallied(s: seq<int>, k: nat, least: nat, spare: nat, present: set<int>,
          newGids: seq<int>)
    requires Joining(s, present, newGids) && k <= |s|
    ensures Tallied(DealTo(s, k, least, spare, newGids), s, k, least, spare, present)
  {
    if k > 0 {
      DealtTallied(s, k - 1, least, spare, present, newGids);
      NextUntouched(s, k - 1, least, spare, present, newGids);
      TalliedNext(DealTo(s, k - 1, least, spare, newGids), s, k - 1, least, spare, present, newGids);
    }
  }

  /** How many groups may have one shard more than the least share. */
  function Spare(shards: seq<int>, present: set<int>, newGids: seq<int>): nat
    requires newGids != []
  {
    |shards| % (|present| + |newGids|)
  }

  /** A shard stays where it is exactly when it and the shards of its group before it need no new group; every
      other shard goes to a new one. */
  lemma JoinKeepsIff(shards: seq<int>, present: set<int>, newGids: seq<int>, i: nat)
    requires Joining(shards, present, newGids) && i < |shards|
    ensures var r := JoinResult(shards, present, newGids);
            if Stays(shards, i, Share(shards, present, newGids), Spare(shards, present, newGids))
            then r[i] == shards[i] && r[i] in present else r[i] in Elements(newGids)
  {
    var least, spare := Share(shards, present, newGids), Spare(shards, present, newGids);
    var d := DealTo(shards, i, least, spare, newGids);
    DealtTallied(shards, i, least, spare, present, newGids);
    NextUntouched(shards, i, least, spare, present, newGids);
    HandsOutIff(d, shards, i, least, spare, present);
    DealtStays(shards, i, |shards|, least, spare, newGids);
    assert newGids[d.next] in Elements(newGids);
  }

  /** Each group that was present ends with what it keeps: its least share if a shard of it needs a new group, and
      all its shards otherwise. */
  lemma LeavesExactly(shards: seq<int>, present: set<int>, newGids: seq<int>, g: int)
    requires Joining(shards, present, newGids) && g in present
    ensures Holds(JoinResult(shards, present, newGids), g)
         == KeptBy(shards, |shards|, g, Share(shards, present, newGids), Spare(shards, present, newGids))
  {
    var n, least, spare := |shards|, Share(shards, present, newGids), Spare(shards, present, newGids);
    DealtTallied(shards, n, least, spare, present, newGids);
    DealtCounts(shards, n, least, spare, newGids, g);
    var d := DealTo(shards, n, least, spare, newGids);
    assert d.shards[..n] == d.shards;
  }

  // ---------- how many groups keep more than the least share ----------

  lemma SubsetSize(a: set<int>, b: set<int>)
    requires a <= b
    ensures |a| <= |b|
  {
    assert b == a + (b - a);
  }

  /** The groups with at least m of the first k shards. */
  ghost function Having(s: seq<int>, k: nat, gs: set<int>, m: int): set<int>
    requires k <= |s|
  {
    set g | g in gs && Holds(s[..k], g) >= m
  }

  /** The groups that keep more than their least share of the first k shards. */
  ghost function Keepers(s: seq<int>, k: nat, gs: set<int>, least: nat, spare: int): set<int>
    requires k <= |s|
  {
    set g | g in gs && KeptBy(s, k, g, least, spare) > least
  }

  lemma {:induction false} FullCounts(s: seq<int>, k: nat, gs: set<int>, least: nat)
    requires k <= |s| && least >= 1 && 0 !in gs && forall i :: 0 <= i < |s| ==> s[i] == 0 || s[i] in gs
    ensures Full(s[..k], least) == |Having(s, k, gs, least)|
  {
    if k == 0 {
      NothingYet(s, gs, least, 0);
    } else {
      FullCounts(s, k - 1, gs, least);
      FullMore(s, k - 1, least);
      HavingNext(s, k - 1, gs, least);
    }
  }

  lemma NothingYet(s: seq<int>, gs: set<int>, least: nat, spare: int)
    ensures least >= 1 ==> Having(s, 0, gs, least) == {}
    ensures Keepers(s, 0, gs, least, spare) == {}
  {
    forall g ensures Holds(s[..0], g) == 0 {
    }
  }

  /** One more shard brings its group to m when it is the group's m-th, and no other. */
  lemma HavingNext(s: seq<int>, k: nat, gs: set<int>, m: nat)
    requires k < |s| && 0 !in gs && (s[k] == 0 || s[k] in gs)
    ensures |Having(s, k + 1, gs, m)| ==
              |Having(s, k, gs, m)| + if s[k] != 0 && Holds(s[..k], s[k]) + 1 == m then 1 else 0
  {
    var g := s[k];
    forall h | h in gs ensures h in Having(s, k + 1, gs, m) <==>
                                 h in Having(s, k, gs, m) || (h == g && Holds(s[..k], g) + 1 == m)
    {
      HoldsMore(s, k, h);
    }
    if g != 0 && Holds(s[..k], g) + 1 == m {
      assert Having(s, k + 1, gs, m) == Having(s, k, gs, m) + {g};
    } else {
      assert Having(s, k + 1, gs, m) == Having(s, k, gs, m);
    }
  }

  lemma KeepersNext(s: seq<int>, k: nat, gs: set<int>, least: nat, spare: nat)
    requires k < |s| && 0 !in gs && (s[k] == 0 || s[k] in gs)
    ensures Keepers(s, k + 1, gs, least, spare) <= Keepers(s, k, gs, least, spare) + {s[k]}
    ensures !(Stays(s, k, least, spare) && Holds(s[..k], s[k]) == least) ==>
              Keepers(s, k + 1, gs, least, spare) <= Keepers(s, k, gs, least, spare)
  {
    forall g | g in gs
      ensures KeptBy(s, k + 1, g, least, spare) ==
                KeptBy(s, k, g, least, spare) + if s[k] == g && Stays(s, k, least, spare) then 1 else 0
    {
      KeptMore(s, k, g, least, spare);
    }
    CutMore(s, k, s[k], least, spare);
  }

  /** A group only keeps its first shard beyond the least share while fewer groups than the remainder are full. */
  lemma KeepersBeforeNext(s: seq<int>, k: nat, gs: set<int>, least: nat, spare: nat)
    requires k < |s| && least >= 1 && 0 !in gs && forall i :: 0 <= i < |s| ==> s[i] == 0 || s[i] in gs
    requires Stays(s, k, least, spare) && Holds(s[..k], s[k]) == least
    ensures |Keepers(s, k, gs, least, spare)| < spare
  {
    var full, was := Having(s, k, gs, least), Keepers(s, k, gs, least, spare);
    FullCounts(s, k, gs, least);
    CutMore(s, k, s[k], least, spare);
    assert s[k] in full && s[k] !in was && was <= full;
    SubsetSize(was, full);
  }

  lemma OneMoreKeeper(s: seq<int>, k: nat, gs: set<int>, least: nat, spare: nat)
    requires k < |s| && least >= 1 && 0 !in gs && forall i :: 0 <= i < |s| ==> s[i] == 0 || s[i] in gs
    requires |Keepers(s, k, gs, least, spare)| <= spare
    ensures |Keepers(s, k + 1, gs, least, spare)| <= spare
  {
    var was := Keepers(s, k, gs, least, spare);
    KeepersNext(s, k, gs, least, spare);
    if Stays(s, k, least, spare) && Holds(s[..k], s[k]) == least {
      KeepersBeforeNext(s, k, gs, least, spare);
      SubsetSize(Keepers(s, k + 1, gs, least, spare), was + {s[k]});
    } else {
      SubsetSize(Keepers(s, k + 1, gs, least, spare), was);
    }
  }

  /** No more groups than the remainder keep more than the least share. */
  lemma {:induction false} FewKeepers(s: seq<int>, k: nat, gs: set<int>, least: nat, spare: nat)
    requires k <= |s| && least >= 1 && 0 !in gs && forall i :: 0 <= i < |s| ==> s[i] == 0 || s[i] in gs
    ensures |Keepers(s, k, gs, least, spare)| <= spare
  {
    if k == 0 {
      NothingYet(s, gs, least, spare);
    } else {
      FewKeepers(s, k - 1, gs, least, spare);
      OneMoreKeeper(s, k - 1, gs, least, spare);
    }
  }

  // ---------- when the shares come out as even as they can be ----------

  /** Each group of gs has m shards or one more. */
  ghost predicate Level(s: seq<int>, gs: set<int>, m: int) {
    forall g :: g in gs ==> m <= Holds(s, g) <= m + 1
  }

  /** What the groups of gs have together is at most m each and one more for those in `more`. */
  lemma {:induction false} HoldAllAtMost(s: seq<int>, gs: set<int>, m: nat, more: set<int>)
    requires forall g :: g in gs ==> Holds(s, g) <= m + if g in more then 1 else 0
    ensures HoldAll(s, gs) <= |gs| * m + |gs * more|
    decreases |gs|
  {
    if gs == {} {
      HoldAllNone(s);
    } else {
      var g := SomeElement(gs);
      var rest := gs - {g};
      HoldAllAtMost(s, rest, m, more);
      HoldAllAdds(s, rest, g);
      assert gs == rest + {g} && gs * more == rest * more + if g in more then {g} else {};
      assert |gs| * m == |rest| * m + m;
    }
  }

  lemma {:induction false} StayingIsHeld(s: seq<int>, r: seq<int>, k: nat, gs: set<int>, least: int, spare: int)
    requires k <= |s| == |r|
    requires forall i: nat :: i < |s| ==> (r[i] in gs <==> Stays(s, i, least, spare))
    ensures Staying(s, k, least, spare) == HoldAll(r[..k], gs)
  {
    if k > 0 {
      StayingIsHeld(s, r, k - 1, gs, least, spare);
      assert r[..k][..k - 1] == r[..k - 1];
    }
  }

  /** The groups that were present have what stays, the new groups the rest. */
  lemma StayingAndRest(shards: seq<int>, present: set<int>, newGids: seq<int>)
    requires Joining(shards, present, newGids)
    ensures var r := JoinResult(shards, present, newGids);
            var stay := Staying(shards, |shards|, Share(shards, present, newGids), Spare(shards, present, newGids));
            HoldAll(r, present) == stay && HoldAll(r, Elements(newGids)) == |shards| - stay
  {
    var r, n := JoinResult(shards, present, newGids), |shards|;
    var least, spare := Share(shards, present, newGids), Spare(shards, present, newGids);
    forall i: nat | i < n ensures r[i] in present <==> Stays(shards, i, least, spare) {
      JoinKeepsIff(shards, present, newGids, i);
    }
    StayingIsHeld(shards, r, n, present, least, spare);
    assert r[..n] == r;
    JoinSafety(shards, present, newGids);
    assert forall q :: 0 <= q < |newGids| ==> newGids[q] in Elements(newGids);
    HoldAllSplits(r, present, Elements(newGids));
  }

  /** When no group that was present keeps more than one above the least share, enough is left for the new ones. */
  lemma EnoughLeft(shards: seq<int>, present: set<int>, newGids: seq<int>)
    requires Joining(shards, present, newGids)
    requires forall g :: g in present ==>
               Holds(JoinResult(shards, present, newGids), g) <= Share(shards, present, newGids) + 1
    ensures HoldAll(JoinResult(shards, present, newGids), Elements(newGids))
         >= |newGids| * Share(shards, present, newGids)
  {
    var r, n, p, m := JoinResult(shards, present, newGids), |shards|, |present|, |newGids|;
    var least, spare := Share(shards, present, newGids), Spare(shards, present, newGids);
    var keepers := Keepers(shards, n, present, least, spare);
    AtLeastOne(n, p + m);
    FewKeepers(shards, n, present, least, spare);
    forall g | g in present ensures Holds(r, g) <= least + if g in keepers then 1 else 0 {
      LeavesExactly(shards, present, newGids, g);
    }
    HoldAllAtMost(r, present, least, keepers);
    assert present * keepers == keepers;
    StayingAndRest(shards, present, newGids);
    QuotientSplits(n, p, m);
  }

  lemma QuotientSplits(n: nat, p: nat, m: nat)
    requires p + m > 0
    ensures n == p * (n / (p + m)) + m * (n / (p + m)) + n % (p + m)
  {
    assert n == (p + m) * (n / (p + m)) + n % (p + m);
  }

  lemma AtLeastOne(n: nat, groups: nat)
    requires 0 < groups <= n
    ensures n / groups >= 1
  {
  }

  /** Groups served in turn, c times each and the first `next` once more, all have m or m + 1 exactly when their
      total lies in between. */
  lemma TurnsLevel(q: nat, c: nat, next: nat, m: nat)
    requires next < q
    ensures m * q <= c * q + next <= (m + 1) * q <==> m <= c && (if next == 0 then c else c + 1) <= m + 1
  {
    TimesAtLeast(q, c - m);
    TimesAtLeast(q, c - m - 1);
    assert q * (c - m) == c * q - m * q && q * (c - m - 1) == c * q - (m + 1) * q;
  }

  lemma NewLevelIff(shards: seq<int>, present: set<int>, newGids: seq<int>)
    requires Joining(shards, present, newGids)
    ensures var r, m, least := JoinResult(shards, present, newGids), |newGids|, Share(shards, present, newGids);
            Level(r, Elements(newGids), least) <==>
              least * m <= HoldAll(r, Elements(newGids)) <= (least + 1) * m
  {
    var r, m, least := JoinResult(shards, present, newGids), |newGids|, Share(shards, present, newGids);
    var c, next := JoinTurns(shards, present, newGids);
    assert newGids[..m] == newGids;
    TurnsTotal(r, newGids, c, next, m);
    TurnsLevel(m, c, next, least);
    ServedLevelIff(r, newGids, c, next, least);
    assert m * c == c * m;
  }

  lemma ServedLevelIff(r: seq<int>, gs: seq<int>, c: nat, next: nat, m: nat)
    requires next < |gs| && forall q :: 0 <= q < |gs| ==> Holds(r, gs[q]) == c + if q < next then 1 else 0
    ensures Level(r, Elements(gs), m) <==> m <= c && (if next == 0 then c else c + 1) <= m + 1
  {
    assert gs[0] in Elements(gs) && gs[|gs| - 1] in Elements(gs);
    assert Holds(r, gs[0]) == c + (if 0 < next then 1 else 0) && Holds(r, gs[|gs| - 1]) == c;
  }

  /** A Join leaves every group with the least share or one shard more exactly when each group that was present is
      left with that, and what stays leaves no more than that to the new groups. */
  lemma JoinLevelsIff(shards: seq<int>, present: set<int>, newGids: seq<int>)
    requires Joining(shards, present, newGids)
    ensures var n, least, spare := |shards|, Share(shards, present, newGids), Spare(shards, present, newGids);
            Level(JoinResult(shards, present, newGids), present + Elements(newGids), least) <==>
              && (forall g :: g in present ==> least <= KeptBy(shards, n, g, least, spare) <= least + 1)
              && n - Staying(shards, n, least, spare) <= |newGids| * (least + 1)
  {
    var r, least := JoinResult(shards, present, newGids), Share(shards, present, newGids);
    forall g | g in present
      ensures Holds(r, g) == KeptBy(shards, |shards|, g, least, Spare(shards, present, newGids))
    {
      LeavesExactly(shards, present, newGids, g);
    }
    StayingAndRest(shards, present, newGids);
    NewLevelIff(shards, present, newGids);
    if Level(r, present, least) { EnoughLeft(shards, present, newGids); }
    assert Level(r, present + Elements(newGids), least) <==>
             Level(r, present, least) && Level(r, Elements(newGids), least);
  }
}
