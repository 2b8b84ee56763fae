/** How a leader finds the point where a follower's log agrees with its own: requests that fail cut the
    follower's log back by whole terms, and the one that succeeds makes it the leader's log. */
module RaftProbe {
  import opened Collections
  import opened RaftLog
  import opened RaftModel
  import opened RaftHistory
  import opened RaftCluster
  import opened RaftInvariant
  import opened RaftTheorems

  /** How many stretches of entries of one term a log consists of. */
  function Runs(log: Log): nat {
    if |log| <= 1 then |log|
    else Runs(log[..|log| - 1]) + if log[|log| - 1].term != log[|log| - 2].term then 1 else 0
  }

  lemma {:induction false} RunsGrow(log: Log, k: nat)
    requires k <= |log|
    ensures Runs(log[..k]) <= Runs(log)
    decreases |log| - k
  {
    if k < |log| {
      RunsStep(log, k);
      RunsGrow(log, k + 1);
    } else {
      assert log[..k] == log;
    }
  }

  lemma RunsStep(log: Log, k: nat)
    requires k < |log|
    ensures Runs(log[..k + 1]) == Runs(log[..k]) + if k == 0 || log[k].term != log[k - 1].term then 1 else 0
  {
    assert log[..k + 1][..k] == log[..k];
  }

  /** Cutting a log off before the stretch that an entry belongs to leaves fewer stretches. */
  lemma CutDropsRun(log: Log, p: nat)
    requires p < |log|
    ensures Runs(log[..BeforeRun(log, p, log[p].term)]) < Runs(log)
  {
    var k := RunStart(log, p);
    CutAtStart(log, k);
  }

  /** The entries before an entry's stretch end where the stretch starts. */
  lemma RunStart(log: Log, p: nat) returns (k: nat)
    requires p < |log|
    ensures k == BeforeRun(log, p, log[p].term) && k < |log| && (k == 0 || log[k].term != log[k - 1].term)
  {
    k := BeforeRun(log, p, log[p].term);
    if k < p { assert log[k].term == log[p].term; }
  }

  lemma CutAtStart(log: Log, k: nat)
    requires k < |log| && (k == 0 || log[k].term != log[k - 1].term)
    ensures Runs(log[..k]) < Runs(log)
  {
    RunsStep(log, k);
    RunsGrow(log, k + 1);
  }

  function Terms(log: Log): set<nat> {
    set i | 0 <= i < |log| :: log[i].term
  }

  ghost predicate NeverFalls(log: Log) {
    forall i, j :: 0 <= i <= j < |log| ==> log[i].term <= log[j].term
  }

  lemma TermsStep(log: Log)
    requires log != []
    ensures Terms(log) == Terms(log[..|log| - 1]) + {log[|log| - 1].term}
    ensures NeverFalls(log) && |log| > 1 ==>
              (log[|log| - 1].term in Terms(log[..|log| - 1]) <==> log[|log| - 1].term == log[|log| - 2].term)
  {
    var l := log[..|log| - 1];
    assert forall i :: 0 <= i < |l| ==> l[i] == log[i];
    if |log| > 1 { assert l[|l| - 1].term in Terms(l); }
  }

  /** A log whose terms never fall has as many stretches as terms. */
  lemma {:induction false} RunsAreTerms(log: Log)
    requires NeverFalls(log)
    ensures Runs(log) == |Terms(log)|
  {
    if log != [] {
      TermsStep(log);
      RunsAreTerms(log[..|log| - 1]);
    } else {
      assert Terms(log) == {};
    }
  }

  // ---------- the exchange ----------

  ghost predicate Matched(a: Log, b: Log) {
    forall i: nat {:trigger Agree(a, b, i + 1)} :: i < |a| && i < |b| && a[i].term == b[i].term ==> Agree(a, b, i + 1)
  }

  /** The leader's log l and the follower's f start alike and match, the first entry being alone in its term,
      and the leader's next request starts within its log. */
  ghost predicate Probing(l: Log, f: Log, next: int) {
    && Contiguous(l) && Contiguous(f) && l != [] && f != [] && l[0] == f[0]
    && (forall i :: 0 < i < |f| ==> f[i].term != f[0].term)
    && BaseIndex(l) < next <= LastIndex(l) + 1
    && Matched(l, f)
  }

  /** What one request does to the follower's log, and whether it succeeds. */
  function Round(l: Log, f: Log, next: int): (Log, bool)
    requires Contiguous(l) && Contiguous(f) && l != [] && BaseIndex(l) < next <= LastIndex(l) + 1
  {
    var k := next - BaseIndex(l);
    AppendTo(f, next - 1, l[k - 1].term, l[k..])
  }

  /** A request that reaches beyond the follower's log leaves it as it is. */
  predicate Beyond(f: Log, next: int) {
    next - 1 > LastIndex(f)
  }

  /** A failed request keeps the logs comparable, and either found the follower's log too short, or cut off at
      least one stretch; the next request starts where the follower's log ends. */
  lemma FailedRound(l: Log, f: Log, next: int)
    requires Probing(l, f, next) && !Round(l, f, next).1
    ensures var g := Round(l, f, next).0;
            && Probing(l, g, LastIndex(g) + 1) && !Beyond(g, LastIndex(g) + 1)
            && if Beyond(f, next) then g == f else Runs(g) < Runs(f)
  {
    LastOf(l);
    LastOf(f);
    if !Beyond(f, next) {
      var p := next - 1 - BaseIndex(f);
      var k := BeforeRun(f, p, f[p].term);
      assert k > 0;
      CutDropsRun(f, p);
      LastOf(f[..k]);
      CutMatched(l, f, k);
    }
  }

  lemma CutMatched(l: Log, f: Log, k: nat)
    requires Matched(l, f) && k <= |f|
    ensures Matched(l, f[..k])
  {
    forall i: nat | i < |l| && i < k && l[i].term == f[..k][i].term ensures Agree(l, f[..k], i + 1) {
      assert Agree(l, f, i + 1);
    }
  }

  /** The request that succeeds makes the follower's log the leader's. */
  lemma SucceedingRound(l: Log, f: Log, next: int)
    requires Probing(l, f, next) && Round(l, f, next).1
    ensures Round(l, f, next).0 == l
  {
    LastOf(l);
    LastOf(f);
    var p := next - 1 - BaseIndex(l);
    assert Agree(l, f, p + 1);
    assert l == l[..p + 1] + l[p + 1..];
    assert f[..p + 1] == l[..p + 1];
    if next - 1 == LastIndex(f) { assert f[..p + 1] == f; }
  }

  /** The follower's log when a request first succeeds, the failed requests before it, and where the leader then
      takes the follower to be. */
  datatype Outcome = Outcome(log: Log, fails: nat, next: int, held: int)

  ghost function Settle(l: Log, f: Log, next: int): Outcome
    requires Probing(l, f, next)
    decreases Runs(f), if Beyond(f, next) then 1 else 0
  {
    var (g, ok) := Round(l, f, next);
    if ok then Outcome(g, 0, LastIndex(g) + 1, LastIndex(g))
    else
      FailedRound(l, f, next);
      var r := Settle(l, g, LastIndex(g) + 1);
      r.(fails := r.fails + 1)
  }

  /** At most as many requests fail as the follower's log has stretches of one term; then it is the leader's
      log, and the leader knows exactly that. */
  lemma {:induction false} ProbeConverges(l: Log, f: Log, next: int)
    requires Probing(l, f, next)
    ensures var r := Settle(l, f, next);
            && r.log == l && r.next == LastIndex(l) + 1 && r.held == LastIndex(l)
            && r.fails <= Runs(f) - if Beyond(f, next) then 0 else 1
    decreases Runs(f), if Beyond(f, next) then 1 else 0
  {
    var (g, ok) := Round(l, f, next);
    RunsGrow(f, 1);
    if ok {
      SucceedingRound(l, f, next);
    } else {
      FailedRound(l, f, next);
      ProbeConverges(l, g, LastIndex(g) + 1);
    }
  }

  // ---------- the exchange in the model ----------

  /** A round is what the request handler of the follower and the reply handler of the leader do between them. */
  lemma RoundInModel(n: Node, f: Node, p: NodeName)
    requires n.role == Leader && p in n.peers && f.name == p && f.term == n.term
    requires Contiguous(n.log) && Contiguous(f.log) && n.log != [] && CanSendTo(n, p)
    requires BaseIndex(n.log) == BaseIndex(f.log)
    ensures var r := AppendRequestFor(n, p);
            var (y, reply) := ProcessAppend(f, r);
            var (g, ok) := Round(n.log, f.log, n.peers[p].nextIndex);
            && y.log == g && reply.Some? && reply.value.success == ok
            && (LastIndex(g) <= LastIndex(n.log) ==>
                  var m := OnAppendReply(n, reply.value);
                  && p in m.peers && m.log == n.log
                  && m.peers[p].nextIndex == LastIndex(g) + 1 && m.peers[p].matchIndex == LastIndex(g))
  {
    var (y, reply) := ProcessAppend(f, AppendRequestFor(n, p));
  }

  /** In every run, whatever a leader takes a follower's position to be, its exchange with any other node's log
      settles after no more failed requests than that log has terms. */
  lemma ProbesSettleInRuns(tr: seq<Cluster>, acts: seq<Action>, i: nat, n: NodeName, m: NodeName, t: nat)
    requires IsRun(tr, acts) && LeadsAt(tr, i, n, t) && m in tr[i].nodes && m != n
    ensures m in tr[i].nodes[n].peers
    ensures var l, f, next := tr[i].nodes[n].log, tr[i].nodes[m].log, tr[i].nodes[n].peers[m].nextIndex;
            && Probing(l, f, next)
            && Settle(l, f, next).log == l
            && Settle(l, f, next).fails <= |Terms(f)|
  {
    RunInv(tr, acts, i);
    var s := tr[i];
    var f := s.nodes[m].log;
    LeaderProbes(s, n, m);
    assert NodeShape(s, m);
    assert NeverFalls(f) by {
      forall a, b | 0 <= a <= b < |f| ensures f[a].term <= f[b].term {
        TermsSorted(s.hist, f, a, b);
      }
    }
    RunsAreTerms(f);
    ProbeConverges(s.nodes[n].log, f, s.nodes[n].peers[m].nextIndex);
  }

  /** What a leader and any other node have in common is enough for their exchange. */
  lemma LeaderProbes(s: Cluster, n: NodeName, m: NodeName)
    requires Inv(s) && n in s.nodes && s.nodes[n].role == Leader && m in s.nodes && m != n
    ensures m in s.nodes[n].peers && Probing(s.nodes[n].log, s.nodes[m].log, s.nodes[n].peers[m].nextIndex)
  {
    var l, f := s.nodes[n].log, s.nodes[m].log;
    assert NodeShape(s, n) && NodeShape(s, m) && LeaderOk(s, n) && PeerOk(s, s.nodes[n], m);
    LogIndex(s.hist, l);
    LogIndex(s.hist, f);
    forall k: nat | k < |l| && k < |f| && l[k].term == f[k].term ensures Agree(l, f, k + 1) {
      Matching(s.hist, l, f, k);
    }
    forall k | 0 < k < |f| ensures f[k].term != f[0].term {
      assert EntryOk(s.hist, f, k);
      assert TermLogOk(s.hist, f[k].term);
    }
  }
}
