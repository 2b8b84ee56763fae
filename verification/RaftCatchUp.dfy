/** A leader can always bring a majority up to date: from every state of a run in which it leads there are steps,
    taken by the leader and the nodes of the majority alone, after which these hold its log, and it has committed what
    it logs. */
module RaftCatchUp {
  import opened Collections
  import opened RaftLog
  import opened RaftModel
  import opened RaftHistory
  import opened RaftCluster
  import opened RaftInvariant
  import opened RaftTheorems
  import opened RaftProbe
  import opened RaftScenes
  import opened RaftEffects
  import opened RaftElects

  // ---------- one exchange, at the two nodes ----------

  /** The number the filter of node f compares with, for a request of term t. */
  function Seen(f: Node, t: nat): nat {
    if t > f.term || f.role == Candidate then 0 else f.lastSeq
  }

  /** The node as it processes a request of its leader of term t. */
  function Following(f: Node, t: nat, leader: NodeName): Node
    requires t >= f.term
  {
    AcceptLeader(f, t, leader).value
  }

  lemma LetsThrough(f: Node, r: Message)
    requires r.AppendRequest? && r.src in f.peers && Contiguous(f.log) && r.term >= f.term
    requires r.seqNr > Seen(f, r.term) && (f.role == Leader ==> f.term < r.term)
    ensures var f1 := Following(f, r.term, r.src);
            && f1.log == f.log && f1.term == r.term && f1.role == Follower && f1.name == f.name
            && f1.commit == f.commit && f1.applied == f.applied
            && OnAppendRequest(f, r) == ProcessAppend(f1, r)
  {
  }

  lemma Answers(f: Node, r: Message)
    requires r.AppendRequest? && Contiguous(f.log)
    ensures var (y, reply) := ProcessAppend(f, r);
            var (g, ok) := AppendTo(f.log, r.prevIndex, r.prevTerm, r.entries);
            && reply == Some(AppendReply(f.name, r.src, f.term, ok, LastIndex(g), LastTerm(g), r.term))
            && y.log == g && y.term == f.term && y.role == f.role
  {
  }

  /** What the follower makes of the leader's request. */
  lemma Receives(n: Node, f: Node, r: Message)
    requires r.AppendRequest? && f.name in n.peers && Contiguous(n.log) && RequestTo(r, n, f.name)
    requires n.name in f.peers && f.term <= n.term && (f.role == Leader ==> f.term < n.term)
    requires n.role == Leader && f.commit == f.applied && n.commit <= LastIndex(n.log) && r.seqNr > Seen(f, n.term)
    requires Probing(n.log, f.log, n.peers[f.name].nextIndex)
    ensures var (y, reply) := OnAppendRequest(f, r);
            var (g, ok) := Round(n.log, f.log, n.peers[f.name].nextIndex);
            && reply == Some(AppendReply(f.name, n.name, n.term, ok, LastIndex(g), LastTerm(g), n.term))
            && y.log == g && y.term == n.term && y.role == Follower
            && (ok ==> g == n.log && y.commit == y.applied == Max(f.commit, n.commit))
            && (!ok ==> y.commit == f.commit)
  {
    LetsThrough(f, r);
    var f1 := Following(f, n.term, n.name);
    Answers(f1, r);
    RoundCommits(n, f1, f.name);
  }

  /** What the leader makes of the answer: it knows what the follower holds, and commits its last entry, when that is
      of its term, as soon as a majority is known to hold it. */
  lemma Hears(n: Node, v: NodeName, ok: bool, last: int, lastTerm: nat)
    requires n.role == Leader && Contiguous(n.log) && v in n.peers
    requires last <= LastIndex(n.log) && n.commit <= LastIndex(n.log)
    ensures var x := OnAppendReply(n, AppendReply(v, n.name, n.term, ok, last, lastTerm, n.term));
            && x == n.(commit := x.commit, applied := x.applied, peers := x.peers) && x.commit >= n.commit
            && x.peers == n.peers[v := n.peers[v].(matchIndex := last, nextIndex := last + 1)]
            && (ok && Decides(x, last) ==> x.commit == last)
  {
    var r := AppendReply(v, n.name, n.term, ok, last, lastTerm, n.term);
    var x := OnAppendReply(n, r);
    NotesPosition(n, r);
    if ok {
      CommitsIff(n, r);
      assert Holders(x, last) == HoldersWith(n, r, last);
      assert |x.peers| == |x.peers.Keys| == |n.peers.Keys|;
    }
  }

  /** The leader's last entry is i, of its own term, and more than half of the nodes are known to hold it. */
  ghost predicate Decides(n: Node, i: int)
    requires Contiguous(n.log)
  {
    n.log != [] && i == LastIndex(n.log) && LastTerm(n.log) == n.term && 2 * |Holders(n, i)| > |n.peers| + 1
  }

  // ---------- one exchange, in the cluster ----------

  /** The leader's requests may be delivered: they reach as far as anything acknowledged in its term. */
  lemma MayDeliver(tr: seq<Cluster>, acts: seq<Action>, s: Cluster, c: NodeName, r: Message)
    requires Reaches(tr, acts, s) && c in s.nodes && s.nodes[c].role == Leader && r in s.net && r.AppendRequest?
    requires r.dst in s.nodes && r.dst != c && r.term == s.nodes[c].term && Reach(r) == |s.nodes[c].log|
    ensures Enabled(s, Deliver(r))
    ensures s.nodes[r.dst].role == Leader ==> s.nodes[r.dst].term != r.term
  {
    NodeSound(tr, acts, s, r.dst);
    ReachesInv(tr, acts, s);
    assert LeaderOk(s, c) && LeaderOk(s, r.dst);
    forall a | a in s.hist.acks && a.term == r.term ensures a.len <= Reach(r) {
      assert AckOk(s.hist, a);
    }
  }

  lemma Probes(tr: seq<Cluster>, acts: seq<Action>, s: Cluster, c: NodeName, v: NodeName)
    requires Reaches(tr, acts, s) && c in s.nodes && s.nodes[c].role == Leader && v in s.nodes && v != c
    ensures v in s.nodes[c].peers && Probing(s.nodes[c].log, s.nodes[v].log, s.nodes[c].peers[v].nextIndex)
  {
    ReachesInv(tr, acts, s);
    LeaderProbes(s, c, v);
  }

  /** The leader c and another node v, in its term or an older one, whose filter lets the next request through. */
  ghost predicate Facing(s: Cluster, c: NodeName, v: NodeName) {
    && c in s.nodes && v in s.nodes && v != c && s.nodes[c].role == Leader && v in s.nodes[c].peers
    && s.nodes[v].term <= s.nodes[c].term
  }

  predicate Passes(s: Cluster, c: NodeName, v: NodeName)
    requires c in s.nodes && v in s.nodes && v in s.nodes[c].peers
  {
    s.nodes[c].peers[v].seqNr > Seen(s.nodes[v], s.nodes[c].term)
  }

  lemma Delivers(tr: seq<Cluster>, acts: seq<Action>, s: Cluster, r: Message) returns (s': Cluster)
    requires Reaches(tr, acts, s) && r.AppendRequest? && Enabled(s, Deliver(r)) && s.nodes[r.dst].name == r.dst
    ensures Reaches(tr, acts, s') && Elsewhere(s, s', {r.dst})
    ensures var (y, reply) := OnAppendRequest(s.nodes[r.dst], r);
            s'.nodes[r.dst] == y && (reply.Some? ==> reply.value in s'.net)
  {
    GoesOn(tr, acts, s, Deliver(r));
    s' := Next(s, Deliver(r));
    Delivered(s, r);
  }

  lemma Delivered(s: Cluster, r: Message)
    requires r.AppendRequest? && Enabled(s, Deliver(r)) && s.nodes[r.dst].name == r.dst
    ensures var s' := Next(s, Deliver(r));
            var (y, reply) := OnAppendRequest(s.nodes[r.dst], r);
            && Elsewhere(s, s', {r.dst}) && s'.nodes[r.dst] == y && (reply.Some? ==> reply.value in s'.net)
  {
    var (y, reply) := OnAppendRequest(s.nodes[r.dst], r);
    assert y.name == r.dst;
  }

  lemma Requested(tr: seq<Cluster>, acts: seq<Action>, s: Cluster, c: NodeName, v: NodeName)
    returns (s': Cluster, reply: Message)
    requires Reaches(tr, acts, s) && Facing(s, c, v) && Passes(s, c, v)
    requires Probing(s.nodes[c].log, s.nodes[v].log, s.nodes[c].peers[v].nextIndex)
    ensures Reaches(tr, acts, s') && Elsewhere(s, s', {c, v}) && s'.nodes[c] == CountSent(s.nodes[c]) && reply in s'.net
    ensures var (g, ok) := Round(s.nodes[c].log, s.nodes[v].log, s.nodes[c].peers[v].nextIndex);
            && reply == AppendReply(v, c, s.nodes[c].term, ok, LastIndex(g), LastTerm(g), s.nodes[c].term)
            && s'.nodes[v].log == g && s'.nodes[v].term == s.nodes[c].term
            && (ok ==> g == s.nodes[c].log && s'.nodes[v].commit == s'.nodes[v].applied >= s.nodes[c].commit)
  {
    var s1, r := SendsTo(tr, acts, s, c, v);
    LeaderSound(tr, acts, s, c);
    NodeSound(tr, acts, s, v);
    MayDeliver(tr, acts, s1, c, r);
    Receives(s.nodes[c], s.nodes[v], r);
    s' := Delivers(tr, acts, s1, r);
    var (g, ok) := Round(s.nodes[c].log, s.nodes[v].log, s.nodes[c].peers[v].nextIndex);
    reply := AppendReply(v, c, s.nodes[c].term, ok, LastIndex(g), LastTerm(g), s.nodes[c].term);
  }

  /** The leader keeps term and log, commits no less, and takes peers outside vs to hold what it took them to hold. */
  ghost predicate LeadsOn(s: Cluster, s': Cluster, c: NodeName, vs: set<NodeName>) {
    && c in s.nodes && c in s'.nodes
    && var n, x := s.nodes[c], s'.nodes[c];
    && x.role == n.role && x.term == n.term && x.log == n.log && x.commit >= n.commit && x.peers.Keys == n.peers.Keys
    && forall p :: p in n.peers && p !in vs ==> x.peers[p].matchIndex == n.peers[p].matchIndex
  }

  lemma HearsReply(tr: seq<Cluster>, acts: seq<Action>, s: Cluster, c: NodeName, v: NodeName, ok: bool, last: int,
                   lastTerm: nat)
    returns (s': Cluster)
    requires Reaches(tr, acts, s) && c in s.nodes && s.nodes[c].role == Leader && v in s.nodes[c].peers
    requires last <= LastIndex(s.nodes[c].log)
    requires AppendReply(v, c, s.nodes[c].term, ok, last, lastTerm, s.nodes[c].term) in s.net
    ensures Reaches(tr, acts, s') && Elsewhere(s, s', {c}) && LeadsOn(s, s', c, {v})
    ensures s'.nodes[c].peers[v] == s.nodes[c].peers[v].(matchIndex := last, nextIndex := last + 1)
    ensures Sound(s', c) && (ok && Decides(s'.nodes[c], last) ==> s'.nodes[c].commit == last)
  {
    LeaderSound(tr, acts, s, c);
    Hears(s.nodes[c], v, ok, last, lastTerm);
    var reply := AppendReply(v, c, s.nodes[c].term, ok, last, lastTerm, s.nodes[c].term);
    GoesOn(tr, acts, s, Deliver(reply));
    s' := Next(s, Deliver(reply));
    NodeSound(tr, acts, s', c);
  }

  /** The leader has brought v to its term and log. */
  ghost predicate Level(s: Cluster, c: NodeName, v: NodeName) {
    && c in s.nodes && v in s.nodes && v in s.nodes[c].peers
    && s.nodes[v].term == s.nodes[c].term && s.nodes[v].log == s.nodes[c].log
    && s.nodes[c].peers[v].matchIndex == LastIndex(s.nodes[c].log)
  }

  /** Once more than half of the nodes are known to hold the leader's last entry, and it is of its term, it is
      committed. */
  ghost predicate Commits(s: Cluster, c: NodeName)
    requires c in s.nodes && Contiguous(s.nodes[c].log)
  {
    Decides(s.nodes[c], LastIndex(s.nodes[c].log)) ==> s.nodes[c].commit == LastIndex(s.nodes[c].log)
  }

  lemma Exchange(tr: seq<Cluster>, acts: seq<Action>, s: Cluster, c: NodeName, v: NodeName)
    returns (s': Cluster, ok: bool)
    requires Reaches(tr, acts, s) && Facing(s, c, v) && Passes(s, c, v)
    requires Probing(s.nodes[c].log, s.nodes[v].log, s.nodes[c].peers[v].nextIndex)
    ensures Reaches(tr, acts, s') && Elsewhere(s, s', {c, v}) && LeadsOn(s, s', c, {v}) && Facing(s', c, v)
    ensures var g := Round(s.nodes[c].log, s.nodes[v].log, s.nodes[c].peers[v].nextIndex).0;
            && ok == Round(s.nodes[c].log, s.nodes[v].log, s.nodes[c].peers[v].nextIndex).1
            && s'.nodes[v].log == g && s'.nodes[c].peers[v].nextIndex == LastIndex(g) + 1
    ensures Sound(s', c)
    ensures ok ==> Level(s', c, v) && Commits(s', c) && s'.nodes[v].applied >= s.nodes[c].commit
  {
    var s1, reply := Requested(tr, acts, s, c, v);
    var l, f, next := s.nodes[c].log, s.nodes[v].log, s.nodes[c].peers[v].nextIndex;
    var (g, done) := Round(l, f, next);
    ok := done;
    ShorterOrSame(l, f, next);
    s' := HearsReply(tr, acts, s1, c, v, ok, LastIndex(g), LastTerm(g));
  }

  /** The follower's log never ends past the leader's, once it has answered. */
  lemma ShorterOrSame(l: Log, f: Log, next: int)
    requires Probing(l, f, next)
    ensures LastIndex(Round(l, f, next).0) <= LastIndex(l)
  {
    LastOf(l);
    LastOf(f);
    if Round(l, f, next).1 {
      SucceedingRound(l, f, next);
    } else {
      FailedRound(l, f, next);
      LastOf(Round(l, f, next).0);
    }
  }

  // ---------- the majority ----------

  /** Nothing changed but the numbers of the leader's requests. */
  ghost predicate Counted(s: Cluster, s': Cluster, c: NodeName) {
    && c in s.nodes && c in s'.nodes
    && var n, x := s.nodes[c], s'.nodes[c];
    && x == n.(peers := x.peers) && x.peers.Keys == n.peers.Keys
    && forall p :: p in n.peers ==> x.peers[p] == n.peers[p].(seqNr := x.peers[p].seqNr)
  }

  /** The leader sends until its numbers are past what v has seen. */
  lemma {:induction false} WaitsOut(tr: seq<Cluster>, acts: seq<Action>, s: Cluster, c: NodeName, v: NodeName)
    returns (s': Cluster)
    requires Reaches(tr, acts, s) && Facing(s, c, v)
    ensures Reaches(tr, acts, s') && Elsewhere(s, s', {c}) && Counted(s, s', c) && Facing(s', c, v) && Passes(s', c, v)
    decreases if Passes(s, c, v) then 0 else Seen(s.nodes[v], s.nodes[c].term) + 1 - s.nodes[c].peers[v].seqNr
  {
    if Passes(s, c, v) {
      s' := s;
    } else {
      var s1, r := SendsTo(tr, acts, s, c, v);
      s' := WaitsOut(tr, acts, s1, c, v);
    }
  }

  /** The leader brings v to its log, however far apart the two are. */
  lemma {:induction false} Brings(tr: seq<Cluster>, acts: seq<Action>, s: Cluster, c: NodeName, v: NodeName)
    returns (s': Cluster)
    requires Reaches(tr, acts, s) && Facing(s, c, v)
    ensures Reaches(tr, acts, s') && Elsewhere(s, s', {c, v}) && LeadsOn(s, s', c, {v}) && Facing(s', c, v)
    ensures Sound(s', c) && Level(s', c, v) && Commits(s', c) && s'.nodes[v].applied >= s.nodes[c].commit
    decreases Runs(s.nodes[v].log), if Beyond(s.nodes[v].log, s.nodes[c].peers[v].nextIndex) then 1 else 0
  {
    var s1 := WaitsOut(tr, acts, s, c, v);
    Probes(tr, acts, s1, c, v);
    var s2, ok := Exchange(tr, acts, s1, c, v);
    if ok {
      s' := s2;
    } else {
      FailedRound(s1.nodes[c].log, s1.nodes[v].log, s1.nodes[c].peers[v].nextIndex);
      s' := Brings(tr, acts, s2, c, v);
    }
  }

  ghost predicate FacingAll(s: Cluster, c: NodeName, vs: set<NodeName>) {
    c in s.nodes && s.nodes[c].role == Leader && forall v :: v in vs ==> Facing(s, c, v)
  }

  lemma {:induction false} BringsAll(tr: seq<Cluster>, acts: seq<Action>, s: Cluster, c: NodeName, vs: set<NodeName>)
    returns (s': Cluster)
    requires Reaches(tr, acts, s) && FacingAll(s, c, vs) && Sound(s, c) && vs != {}
    ensures Reaches(tr, acts, s') && Elsewhere(s, s', vs + {c}) && LeadsOn(s, s', c, vs) && FacingAll(s', c, vs)
    ensures Sound(s', c) && Commits(s', c)
    ensures forall v :: v in vs ==> Level(s', c, v) && s'.nodes[v].applied >= s.nodes[c].commit
    decreases vs
  {
    var v := SomeElement(vs);
    var s1 := Brings(tr, acts, s, c, v);
    if vs - {v} == {} {
      s' := s1;
      assert forall u :: u in vs ==> u == v || u in vs - {v};
    } else {
      s' := BringsAll(tr, acts, s1, c, vs - {v});
    }
  }

  /** The leader logs a command. */
  lemma Takes(tr: seq<Cluster>, acts: seq<Action>, s: Cluster, c: NodeName, kind: CommandKind, data: string)
    returns (s': Cluster)
    requires Reaches(tr, acts, s) && c in s.nodes && s.nodes[c].role == Leader
    ensures Reaches(tr, acts, s') && Elsewhere(s, s', {c}) && c in s'.nodes && s'.nodes[c].role == Leader
    ensures s'.nodes[c].term == s.nodes[c].term
    ensures s'.nodes[c].log == s.nodes[c].log + [Entry(|s.nodes[c].log|, s.nodes[c].term, kind, data)]
  {
    LeaderSound(tr, acts, s, c);
    GoesOn(tr, acts, s, ClientLog(c, kind, data));
    s' := Next(s, ClientLog(c, kind, data));
  }

  /** A majority that holds the leader's last entry decides. */
  lemma MajorityDecides(s: Cluster, c: NodeName, q: set<NodeName>)
    requires c in s.nodes && Sound(s, c) && Majority(q, s.nodes.Keys) && c in q
    requires forall v :: v in q && v != c ==> Level(s, c, v)
    requires LastTerm(s.nodes[c].log) == s.nodes[c].term
    ensures Decides(s.nodes[c], LastIndex(s.nodes[c].log))
  {
    var i := LastIndex(s.nodes[c].log);
    assert q <= Holders(s.nodes[c], i);
    SubsetSize(q, Holders(s.nodes[c], i));
    assert |s.nodes[c].peers.Keys| == |s.nodes.Keys| - 1;
  }

  /** The nodes of q hold the log, and have applied it up to entry i. */
  ghost predicate AllApplied(s: Cluster, q: set<NodeName>, log: Log, i: nat) {
    forall v :: v in q ==> v in s.nodes && s.nodes[v].log == log && i < |log| && s.nodes[v].applied >= i
  }

  /** From a state in which c leads, its last entry of its term: the nodes of q come to hold its log, and to apply it.
      */
  lemma Settles(tr: seq<Cluster>, acts: seq<Action>, s: Cluster, c: NodeName, q: set<NodeName>) returns (s': Cluster)
    requires Reaches(tr, acts, s) && Leads(s, c, q) && c in q && q - {c} != {} && Majority(q, s.nodes.Keys)
    requires Sound(s, c) && LastTerm(s.nodes[c].log) == s.nodes[c].term
    ensures Reaches(tr, acts, s') && Elsewhere(s, s', q)
    ensures AllApplied(s', q, s.nodes[c].log, |s.nodes[c].log| - 1)
  {
    var s1 := Gathers(tr, acts, s, c, q);
    s' := Spreads(tr, acts, s1, c, q);
  }

  /** The leader has committed its whole log, which the others of q hold. */
  ghost predicate Gathered(s: Cluster, c: NodeName, q: set<NodeName>, log: Log) {
    && FacingAll(s, c, q - {c}) && Sound(s, c) && s.nodes[c].log == log && s.nodes[c].commit == |log| - 1
  }

  lemma Gathers(tr: seq<Cluster>, acts: seq<Action>, s: Cluster, c: NodeName, q: set<NodeName>) returns (s': Cluster)
    requires Reaches(tr, acts, s) && Leads(s, c, q) && c in q && q - {c} != {} && Majority(q, s.nodes.Keys)
    requires Sound(s, c) && LastTerm(s.nodes[c].log) == s.nodes[c].term
    ensures Reaches(tr, acts, s') && Elsewhere(s, s', q) && Gathered(s', c, q, s.nodes[c].log)
  {
    s' := BringsAll(tr, acts, s, c, q - {c});
    assert q - {c} + {c} == q;
    MajorityDecides(s', c, q);
  }

  lemma Spreads(tr: seq<Cluster>, acts: seq<Action>, s: Cluster, c: NodeName, q: set<NodeName>) returns (s': Cluster)
    requires Reaches(tr, acts, s) && c in s.nodes && Gathered(s, c, q, s.nodes[c].log) && c in q && q - {c} != {}
    ensures Reaches(tr, acts, s') && Elsewhere(s, s', q)
    ensures AllApplied(s', q, s.nodes[c].log, |s.nodes[c].log| - 1)
  {
    s' := BringsAll(tr, acts, s, c, q - {c});
    assert q - {c} + {c} == q;
    forall v | v in q ensures v in s'.nodes && s'.nodes[v].log == s.nodes[c].log
                              && s'.nodes[v].applied >= |s.nodes[c].log| - 1
    {
      assert v == c || v in q - {c};
    }
  }

  /** Availability: wherever a run has got to, however messages were lost, every majority of a cluster of at least two
      nodes can still commit and apply any command, with nothing done by any other node. One of its most recent nodes
      leads, and what its log held comes before. */
  lemma MajorityCommits(tr: seq<Cluster>, acts: seq<Action>, q: set<NodeName>, kind: CommandKind, data: string)
    returns (tr': seq<Cluster>, acts': seq<Action>, c: NodeName, e: Entry)
    requires IsRun(tr, acts) && Majority(q, tr[|acts|].nodes.Keys) && |tr[|acts|].nodes| > 1
    ensures IsRun(tr', acts') && tr <= tr' && acts <= acts' && Elsewhere(tr[|acts|], tr'[|acts'|], q)
    ensures c in q && c in tr[|acts|].nodes && MostRecent(tr[|acts|], c, q)
    ensures var log := tr[|acts|].nodes[c].log;
            e.kind == kind && e.data == data && AllApplied(tr'[|acts'|], q, log + [e], |log|)
  {
    var s := tr[|acts|];
    assert Reaches(tr, acts, s);
    var s';
    s', c, e := ElectsAndCommits(tr, acts, s, q, kind, data);
    tr', acts' :| IsRun(tr', acts') && tr <= tr' && acts <= acts' && tr'[|acts'|] == s';
  }

  lemma ElectsAndCommits(tr: seq<Cluster>, acts: seq<Action>, s: Cluster, q: set<NodeName>, kind: CommandKind,
                         data: string)
    returns (s': Cluster, c: NodeName, e: Entry)
    requires Reaches(tr, acts, s) && Majority(q, s.nodes.Keys) && |s.nodes| > 1
    ensures Reaches(tr, acts, s') && Elsewhere(s, s', q) && c in q && MostRecent(s, c, q)
    ensures e.kind == kind && e.data == data && AllApplied(s', q, s.nodes[c].log + [e], |s.nodes[c].log|)
  {
    var s1;
    s1, c := MajorityElects(tr, acts, s, q);
    TwoOrMore(s, c, q);
    s', e := LogsAndCommits(tr, acts, s1, c, q, kind, data);
  }

  /** A leader of a majority can commit a command with it. */
  lemma LogsAndCommits(tr: seq<Cluster>, acts: seq<Action>, s: Cluster, c: NodeName, q: set<NodeName>,
                       kind: CommandKind, data: string)
    returns (s': Cluster, e: Entry)
    requires Reaches(tr, acts, s) && Leads(s, c, q) && c in q && q - {c} != {} && Majority(q, s.nodes.Keys)
    ensures Reaches(tr, acts, s') && Elsewhere(s, s', q) && e.kind == kind && e.data == data
    ensures AllApplied(s', q, s.nodes[c].log + [e], |s.nodes[c].log|)
  {
    var s1 := Takes(tr, acts, s, c, kind, data);
    e := Entry(|s.nodes[c].log|, s.nodes[c].term, kind, data);
    NodeSound(tr, acts, s1, c);
    s' := Settles(tr, acts, s1, c, q);
  }

  lemma TwoOrMore(s: Cluster, c: NodeName, q: set<NodeName>)
    requires c in q && Majority(q, s.nodes.Keys) && |s.nodes| > 1
    ensures q - {c} != {}
  {
    assert |s.nodes| == |s.nodes.Keys|;
    assert |q - {c}| == |q| - 1 > 0;
  }

  /** A node alone never commits: commits are decided on replies only, and there is no one to reply. */
  lemma {:induction false} LoneNodeCommitsNothing(tr: seq<Cluster>, acts: seq<Action>, i: nat, n: NodeName)
    requires IsRun(tr, acts) && i < |tr| && tr[0].nodes.Keys == {n}
    ensures tr[i].nodes.Keys == {n} && tr[i].net == {}
    ensures tr[i].nodes[n].commit == 0 && tr[i].nodes[n].applied == 0
  {
    if i == 0 {
      assert InitNode(tr[0], n);
    } else {
      LoneNodeCommitsNothing(tr, acts, i - 1, n);
      assert acts[i - 1] == acts[i - 1];
      LoneStep(tr, acts, i - 1, n);
    }
  }

  lemma LoneStep(tr: seq<Cluster>, acts: seq<Action>, i: nat, n: NodeName)
    requires IsRun(tr, acts) && i < |acts| && tr[i].nodes.Keys == {n} && tr[i].net == {}
    ensures Enabled(tr[i], acts[i])
    ensures var s' := Next(tr[i], acts[i]);
            && s'.nodes.Keys == {n} && s'.net == {}
            && s'.nodes[n].commit == tr[i].nodes[n].commit && s'.nodes[n].applied == tr[i].nodes[n].applied
  {
    assert acts[i] == acts[i];
    RunInv(tr, acts, i);
    assert NodeShape(tr[i], n);
    LoneNext(tr[i], acts[i], n);
  }

  lemma LoneNext(s: Cluster, a: Action, n: NodeName)
    requires Enabled(s, a) && s.nodes.Keys == {n} && s.net == {} && s.nodes[n].name == n && s.nodes[n].peers.Keys == {}
    ensures var s' := Next(s, a);
            && s'.nodes.Keys == {n} && s'.net == {}
            && s'.nodes[n].commit == s.nodes[n].commit && s'.nodes[n].applied == s.nodes[n].applied
  {
    assert VoteRequests(StartElection(s.nodes[n])) == {};
  }
}
