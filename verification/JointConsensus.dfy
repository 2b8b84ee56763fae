/** A change of membership: the lists of the joint configuration, its vote thresholds, and who decides under it. */
module JointConsensus {
  import opened Collections
  import opened RaftLog
  import opened RaftHistory

  datatype Phase = Blank | Staging | OldJoint | Joint | JointNew | New

  /** `before` is C_old; the thresholds are the sizes that C_old and C_new are taken to have. */
  datatype Configuration = Configuration(
    added: seq<NodeName>,
    removed: seq<NodeName>,
    before: seq<NodeName>,
    index: int,
    index2: int,
    oldThres: nat,
    newThres: nat,
    state: Phase)

  /** Sizes are 64-bit unsigned numbers. */
  const SIZE_LIMIT: nat := 0x1_0000_0000_0000_0000

  function Wrap(x: int): (r: nat)
    ensures r < SIZE_LIMIT
    ensures 0 <= x < SIZE_LIMIT ==> r == x
  {
    x % SIZE_LIMIT
  }

  /** How many of the first k added names are new. */
  function CountNew(added: seq<NodeName>, before: seq<NodeName>, k: nat): nat
    requires k <= |added|
  {
    if k == 0 then 0 else CountNew(added, before, k - 1) + if added[k - 1] in before then 0 else 1
  }

  /** How many of the first k removed names were there. */
  function CountGone(removed: seq<NodeName>, before: seq<NodeName>, k: nat): nat
    requires k <= |removed|
  {
    if k == 0 then 0 else CountGone(removed, before, k - 1) + if removed[k - 1] in before then 1 else 0
  }

  function NewThreshold(added: seq<NodeName>, removed: seq<NodeName>, before: seq<NodeName>): nat {
    Wrap(|before| + CountNew(added, before, |added|) - CountGone(removed, before, |removed|))
  }

  /** The configuration as constructed from its three lists. */
  function Configure(added: seq<NodeName>, removed: seq<NodeName>, before: seq<NodeName>): Configuration {
    Configuration(added, removed, before, -1, -1, Wrap(|before|), NewThreshold(added, removed, before), Staging)
  }

  /** The loops that set the thresholds. */
  method InitThresholds(added: seq<NodeName>, removed: seq<NodeName>, before: seq<NodeName>)
    returns (oldThres: nat, newThres: nat)
    ensures oldThres == Wrap(|before|) && newThres == NewThreshold(added, removed, before)
  {
    oldThres := Wrap(|before|);
    newThres := oldThres;
    for i := 0 to |added|
      invariant newThres == Wrap(|before| + CountNew(added, before, i))
    {
      if added[i] !in before {
        newThres := Wrap(newThres + 1);
      }
    }
    for i := 0 to |removed|
      invariant newThres == Wrap(|before| + CountNew(added, before, |added|) - CountGone(removed, before, i))
    {
      if removed[i] in before {
        newThres := Wrap(newThres - 1);
      }
    }
  }

  predicate IsInOld(c: Configuration, p: NodeName) {
    p in c.before
  }

  predicate IsInNew(c: Configuration, p: NodeName) {
    (IsInOld(c, p) && p !in c.removed) || p in c.added
  }

  ghost function OldMembers(c: Configuration): set<NodeName> {
    Elements(c.before)
  }

  ghost function NewMembers(c: Configuration): (s: set<NodeName>)
    ensures forall p :: p in s <==> IsInNew(c, p)
  {
    assert forall p :: p in c.before <==> p in Elements(c.before);
    assert forall p :: p in c.added <==> p in Elements(c.added);
    (set p | p in Elements(c.before) && p !in c.removed) + Elements(c.added)
  }

  // ---------- what the thresholds count ----------

  /** The lists name each server once, and none both to be added and to be removed. */
  ghost predicate ProperLists(added: seq<NodeName>, removed: seq<NodeName>, before: seq<NodeName>) {
    && Distinct(added) && Distinct(removed) && Distinct(before)
    && Elements(added) !! Elements(removed)
    && |before| + |added| < SIZE_LIMIT
  }

  lemma MinusMore(a: set<NodeName>, x: NodeName, b: set<NodeName>)
    requires x !in a
    ensures |(a + {x}) - b| == |a - b| + if x in b then 0 else 1
  {
    assert (a + {x}) - b == (a - b) + if x in b then {} else {x};
  }

  lemma CommonMore(a: set<NodeName>, x: NodeName, b: set<NodeName>)
    ensures |(a + {x}) * b| == |a * b| + if x in b && x !in a then 1 else 0
  {
    assert (a + {x}) * b == (a * b) + if x in b && x !in a then {x} else {};
  }

  /** The new ones among the first k added names, and those of C_old among the first k removed. */
  ghost function NewOnes(added: seq<NodeName>, before: seq<NodeName>, k: nat): set<NodeName>
    requires k <= |added|
  {
    Elements(added[..k]) - Elements(before)
  }

  ghost function GoneOnes(removed: seq<NodeName>, before: seq<NodeName>, k: nat): set<NodeName>
    requires k <= |removed|
  {
    Elements(removed[..k]) * Elements(before)
  }

  lemma NoOnes(names: seq<NodeName>, before: seq<NodeName>)
    ensures NewOnes(names, before, 0) == {} && GoneOnes(names, before, 0) == {}
  {
  }

  lemma NewStep(added: seq<NodeName>, before: seq<NodeName>, k: nat)
    requires Distinct(added) && k < |added|
    ensures |NewOnes(added, before, k + 1)| == |NewOnes(added, before, k)| + if added[k] in before then 0 else 1
  {
    ElementsTake(added, k);
    DistinctNext(added, k);
    MinusMore(Elements(added[..k]), added[k], Elements(before));
    ElementsIn(before, added[k]);
  }

  lemma {:induction false} NewCounted(added: seq<NodeName>, before: seq<NodeName>, k: nat)
    requires Distinct(added) && k <= |added|
    ensures CountNew(added, before, k) == |NewOnes(added, before, k)|
  {
    if k == 0 {
      NoOnes(added, before);
    } else {
      NewCounted(added, before, k - 1);
      NewStep(added, before, k - 1);
    }
  }

  /** Removal j repeats the removal of a name of C_old. */
  predicate Repeats(removed: seq<NodeName>, before: seq<NodeName>, j: nat)
    requires j < |removed|
  {
    removed[j] in before && removed[j] in removed[..j]
  }

  /** Of the first k removals, none repeats the removal of a name of C_old. */
  ghost predicate RemovedOnce(removed: seq<NodeName>, before: seq<NodeName>, k: nat)
    requires k <= |removed|
  {
    forall j: nat {:trigger Repeats(removed, before, j)} :: j < k ==> !Repeats(removed, before, j)
  }

  lemma RemovedOnceMore(removed: seq<NodeName>, before: seq<NodeName>, k: nat)
    requires k < |removed|
    ensures RemovedOnce(removed, before, k + 1) <==> RemovedOnce(removed, before, k) && !Repeats(removed, before, k)
  {
  }

  lemma DistinctRemovedOnce(removed: seq<NodeName>, before: seq<NodeName>)
    requires Distinct(removed)
    ensures RemovedOnce(removed, before, |removed|)
  {
    forall j: nat | j < |removed| ensures !Repeats(removed, before, j) {
      DistinctNext(removed, j);
      ElementsIn(removed[..j], removed[j]);
    }
  }

  lemma GoneStep(removed: seq<NodeName>, before: seq<NodeName>, k: nat)
    requires k < |removed|
    ensures |GoneOnes(removed, before, k + 1)|
         == |GoneOnes(removed, before, k)| + if removed[k] in before && !Repeats(removed, before, k) then 1 else 0
  {
    ElementsTake(removed, k);
    ElementsIn(removed[..k], removed[k]);
    CommonMore(Elements(removed[..k]), removed[k], Elements(before));
    ElementsIn(before, removed[k]);
  }

  lemma {:induction false} GoneCounted(removed: seq<NodeName>, before: seq<NodeName>, k: nat)
    requires k <= |removed|
    ensures CountGone(removed, before, k) >= |GoneOnes(removed, before, k)|
    ensures CountGone(removed, before, k) == |GoneOnes(removed, before, k)| <==> RemovedOnce(removed, before, k)
  {
    if k == 0 {
      NoOnes(removed, before);
    } else {
      GoneCounted(removed, before, k - 1);
      GoneStep(removed, before, k - 1);
      RemovedOnceMore(removed, before, k - 1);
    }
  }

  lemma NewMembersCount(c: Configuration)
    requires Distinct(c.before) && Elements(c.added) !! Elements(c.removed)
    ensures |NewMembers(c)| ==
              |c.before| - |Elements(c.removed) * Elements(c.before)| + |Elements(c.added) - Elements(c.before)|
  {
    var a, r, o := Elements(c.added), Elements(c.removed), Elements(c.before);
    DistinctSize(c.before);
    assert NewMembers(c) == (o - r) + (a - o);
    assert o == (o - r) + r * o;
  }

  /** The size of C_new, and the part of C_old that goes. */
  lemma NewSize(added: seq<NodeName>, removed: seq<NodeName>, before: seq<NodeName>) returns (gone: nat)
    requires Distinct(added) && Distinct(before) && Elements(added) !! Elements(removed)
    ensures |NewMembers(Configure(added, removed, before))| == |before| + CountNew(added, before, |added|) - gone
    ensures CountGone(removed, before, |removed|) >= gone
    ensures CountGone(removed, before, |removed|) == gone <==> RemovedOnce(removed, before, |removed|)
  {
    gone := |Elements(removed) * Elements(before)|;
    NewMembersCount(Configure(added, removed, before));
    NewCounted(added, before, |added|);
    GoneCounted(removed, before, |removed|);
    assert added[..|added|] == added && removed[..|removed|] == removed;
  }

  /** With distinct old and added names, the new threshold is the size of C_new exactly when no name of C_old
      is listed for removal twice. */
  lemma ThresholdExactIff(added: seq<NodeName>, removed: seq<NodeName>, before: seq<NodeName>)
    requires Distinct(added) && Distinct(before) && Elements(added) !! Elements(removed)
    requires |before| + |added| + |removed| < SIZE_LIMIT
    ensures var c := Configure(added, removed, before);
            c.newThres == |NewMembers(c)| <==> RemovedOnce(removed, before, |removed|)
  {
    var gone := NewSize(added, removed, before);
    CountsBounded(added, removed, before, |added|, |removed|);
    WrapSame(|before| + CountNew(added, before, |added|) - CountGone(removed, before, |removed|),
             |NewMembers(Configure(added, removed, before))|);
  }

  /** Below the limit, a wrapped number is y only if the number is y itself. */
  lemma WrapSame(x: int, y: nat)
    requires y < SIZE_LIMIT && y - SIZE_LIMIT < x < SIZE_LIMIT
    ensures Wrap(x) == y <==> x == y
  {
    if x < 0 { assert Wrap(x) == x + SIZE_LIMIT; }
  }

  lemma {:induction false} CountsBounded(added: seq<NodeName>, removed: seq<NodeName>, before: seq<NodeName>,
          j: nat, k: nat)
    requires j <= |added| && k <= |removed|
    ensures CountNew(added, before, j) <= j && CountGone(removed, before, k) <= k
  {
    if j > 0 { CountsBounded(added, removed, before, j - 1, k); }
    else if k > 0 { CountsBounded(added, removed, before, j, k - 1); }
  }

  /** Proper lists: the thresholds are the sizes of C_old and C_new. */
  lemma ThresholdsCount(added: seq<NodeName>, removed: seq<NodeName>, before: seq<NodeName>)
    requires ProperLists(added, removed, before)
    ensures var c := Configure(added, removed, before);
            c.oldThres == |OldMembers(c)| && c.newThres == |NewMembers(c)|
  {
    var gone := NewSize(added, removed, before);
    CountsBounded(added, removed, before, |added|, |removed|);
    DistinctRemovedOnce(removed, before);
    DistinctSize(before);
  }

  // ---------- decisions ----------

  /** The votes counted for C_old when the peers in s agree: the node counts itself whether it is in C_old or not. */
  ghost function OldVotes(c: Configuration, s: set<NodeName>): nat {
    1 + |s * OldMembers(c)|
  }

  ghost function NewVotes(c: Configuration, name: NodeName, s: set<NodeName>): nat {
    (if IsInNew(c, name) then 1 else 0) + |s * NewMembers(c)|
  }

  /** 1 for yes, -1 for no, 0 when no change of membership is under way. */
  ghost function Decision(c: Configuration, name: NodeName, s: set<NodeName>): int {
    if c.state == OldJoint || c.state == Joint then
      if OldVotes(c, s) > c.oldThres / 2 && NewVotes(c, name, s) > c.newThres / 2 then 1 else -1
    else if c.state == New || c.state == JointNew then
      if NewVotes(c, name, s) > c.newThres / 2 then 1 else -1
    else 0
  }

  /** There is a decision exactly while a change of membership is under way. */
  lemma DecidesInChange(c: Configuration, name: NodeName, s: set<NodeName>)
    ensures Decision(c, name, s) != 0 <==> c.state in {OldJoint, Joint, JointNew, New}
    ensures Decision(c, name, s) in {-1, 0, 1}
  {
  }

  ghost predicate OldQuorum(c: Configuration, q: set<NodeName>) {
    Majority(q * OldMembers(c), OldMembers(c))
  }

  ghost predicate NewQuorum(c: Configuration, q: set<NodeName>) {
    Majority(q * NewMembers(c), NewMembers(c))
  }

  ghost predicate JointQuorum(c: Configuration, q: set<NodeName>) {
    OldQuorum(c, q) && NewQuorum(c, q)
  }

  /** A configuration in some phase of its change. */
  ghost predicate Proper(c: Configuration) {
    && ProperLists(c.added, c.removed, c.before)
    && c.oldThres == Wrap(|c.before|) && c.newThres == NewThreshold(c.added, c.removed, c.before)
  }

  /** A decider of C_old says yes in the joint phases just when it and its supporters are a majority of both
      memberships, and any decider does in the later phases just when they are a majority of C_new. */
  lemma DecisionIsQuorum(c: Configuration, name: NodeName, s: set<NodeName>)
    requires Proper(c) && name !in s
    ensures (c.state == OldJoint || c.state == Joint) && name in c.before ==>
              (Decision(c, name, s) == 1 <==> JointQuorum(c, {name} + s))
    ensures c.state == JointNew || c.state == New ==> (Decision(c, name, s) == 1 <==> NewQuorum(c, {name} + s))
  {
    ProperCounts(c);
    if name in c.before { OldVotesCount(c, name, s); }
    NewVotesCount(c, name, s);
  }

  lemma ProperCounts(c: Configuration)
    requires Proper(c)
    ensures c.oldThres == |OldMembers(c)| && c.newThres == |NewMembers(c)|
  {
    var k := Configure(c.added, c.removed, c.before);
    ThresholdsCount(c.added, c.removed, c.before);
    assert k == c.(index := -1, index2 := -1, state := Staging);
    assert OldMembers(k) == OldMembers(c) && NewMembers(k) == NewMembers(c);
  }

  lemma OldVotesCount(c: Configuration, name: NodeName, s: set<NodeName>)
    requires name !in s && name in c.before && c.oldThres == |OldMembers(c)|
    ensures OldVotes(c, s) > c.oldThres / 2 <==> OldQuorum(c, {name} + s)
  {
    WithSelf(name, s, OldMembers(c));
    ElementsIn(c.before, name);
  }

  lemma NewVotesCount(c: Configuration, name: NodeName, s: set<NodeName>)
    requires name !in s && c.newThres == |NewMembers(c)|
    ensures NewVotes(c, name, s) > c.newThres / 2 <==> NewQuorum(c, {name} + s)
  {
    WithSelf(name, s, NewMembers(c));
  }

  lemma WithSelf(name: NodeName, s: set<NodeName>, m: set<NodeName>)
    requires name !in s
    ensures |({name} + s) * m| == |s * m| + if name in m then 1 else 0
  {
    assert ({name} + s) * m == s * m + if name in m then {name} else {};
  }

  /** A joint quorum meets every quorum of C_old, every joint quorum and every quorum of C_new. */
  lemma JointQuorumsMeet(c: Configuration, q: set<NodeName>, r: set<NodeName>) returns (m: NodeName)
    requires JointQuorum(c, q) && (OldQuorum(c, r) || NewQuorum(c, r))
    ensures m in q && m in r
  {
    if OldQuorum(c, r) {
      m := QuorumsIntersect(q * OldMembers(c), r * OldMembers(c), OldMembers(c));
    } else {
      m := QuorumsIntersect(q * NewMembers(c), r * NewMembers(c), NewMembers(c));
    }
  }

  /** Two nodes in the same change of membership, one in a joint phase and deciding from C_old, the other in any
      later or equal phase: two positive decisions share a supporter. */
  lemma DecisionsMeet(c: Configuration, d: Configuration, n: NodeName, s: set<NodeName>, m: NodeName, t: set<NodeName>)
    returns (common: NodeName)
    requires Proper(c) && Proper(d) && c.added == d.added && c.removed == d.removed && c.before == d.before
    requires (c.state == OldJoint || c.state == Joint) && n in c.before && n !in s && m !in t
    requires d.state == JointNew || d.state == New || ((d.state == OldJoint || d.state == Joint) && m in d.before)
    requires Decision(c, n, s) == 1 && Decision(d, m, t) == 1
    ensures common in {n} + s && common in {m} + t
  {
    DecisionIsQuorum(c, n, s);
    DecisionIsQuorum(d, m, t);
    assert OldMembers(c) == OldMembers(d) && NewMembers(c) == NewMembers(d);
    common := JointQuorumsMeet(c, {n} + s, {m} + t);
  }

  lemma ThreeElements(s: seq<NodeName>)
    requires |s| == 3
    ensures Elements(s) == {s[0], s[1], s[2]}
  {
  }

  lemma TwoElements(s: seq<NodeName>)
    requires |s| == 2
    ensures Elements(s) == {s[0], s[1]}
  {
  }

  /** A node outside C_old counts itself in C_old all the same. In a joint phase it decides by joint quorums
      except when its supporters are one short of a majority of C_old and all that C_new needs. */
  lemma OutsiderDecidesIff(c: Configuration, name: NodeName, s: set<NodeName>)
    requires Proper(c) && (c.state == OldJoint || c.state == Joint) && name !in c.before && name !in s
    ensures (Decision(c, name, s) == 1 <==> JointQuorum(c, {name} + s))
       <==> !(|s * OldMembers(c)| == |OldMembers(c)| / 2 && NewQuorum(c, {name} + s))
  {
    ProperCounts(c);
    ElementsIn(c.before, name);
    WithSelf(name, s, OldMembers(c));
    NewVotesCount(c, name, s);
  }

  lemma TwoNew(a: NodeName, b: NodeName, c: NodeName, d: NodeName, e: NodeName)
    requires d !in {a, b, c} && e !in {a, b, c}
    ensures CountNew([d, e], [a, b, c], 2) == 2
  {
    var added, before := [d, e], [a, b, c];
    assert added[0] !in before && added[1] !in before;
    assert CountNew(added, before, 0) == 0;
    assert CountNew(added, before, 1) == 1;
  }

  /** Five names for which such a node decides without a majority of C_old. */
  lemma OutsiderMiscounts(a: NodeName, b: NodeName, c: NodeName, d: NodeName, e: NodeName)
    requires a !in {b, c, d, e} && b !in {c, d, e} && c !in {d, e} && d != e
    ensures var k := Configure([d, e], [], [a, b, c]).(state := Joint);
            Decision(k, d, {a, e}) == 1 && OldQuorum(k, {b, c}) && {d, a, e} !! {b, c}
  {
    var k := Configure([d, e], [], [a, b, c]).(state := Joint);
    ThreeElements([a, b, c]);
    TwoElements([d, e]);
    TwoNew(a, b, c, d, e);
    assert OldMembers(k) == {a, b, c};
    assert NewMembers(k) == {a, b, c, d, e};
    assert {a, e} * OldMembers(k) == {a} && {a, e} * NewMembers(k) == {a, e};
    assert {b, c} * OldMembers(k) == {b, c};
    assert CountGone([], [a, b, c], 0) == 0;
  }

  /** With a name listed for removal twice, two nodes can each decide alone under C_new. */
  lemma DuplicatesMiscount(a: NodeName, b: NodeName, c: NodeName)
    requires a != b && a != c && b != c
    ensures var k := Configure([], [a, a], [a, b, c]).(state := JointNew);
            Decision(k, b, {}) == 1 && Decision(k, c, {}) == 1
  {
    var k := Configure([], [a, a], [a, b, c]).(state := JointNew);
    assert CountGone([a, a], [a, b, c], 1) == 1 && CountGone([a, a], [a, b, c], 2) == 2;
    assert IsInNew(k, b) && IsInNew(k, c);
  }
}
