/** Building runs step by step from states of which only a few facts are known. */
module RaftScenes {
  import opened Collections
  import opened RaftLog
  import opened RaftModel
  import opened RaftHistory
  import opened RaftCluster
  import opened RaftTheorems

  // ---------- runs ----------

  /** Some run from s ends in s'. */
  ghost predicate RunsTo(s: Cluster, s': Cluster) {
    exists tr, acts :: IsRun(tr, acts) && tr[0] == s && tr[|acts|] == s'
  }

  lemma Starts(s: Cluster)
    requires Init(s)
    ensures RunsTo(s, s)
  {
    var tr: seq<Cluster>, acts: seq<Action> := [s], [];
    assert IsRun(tr, acts) && tr[|acts|] == s;
  }

  lemma Then(s: Cluster, s': Cluster, a: Action)
    requires RunsTo(s, s') && Enabled(s', a)
    ensures RunsTo(s, Next(s', a))
  {
    var tr, acts :| IsRun(tr, acts) && tr[0] == s && tr[|acts|] == s';
    Extend(tr, acts, a, Next(s', a));
  }

  ghost predicate StepOk(tr: seq<Cluster>, acts: seq<Action>, i: nat)
    requires i < |acts| < |tr|
  {
    Enabled(tr[i], acts[i]) && tr[i + 1] == Next(tr[i], acts[i])
  }

  lemma StepsMakeRun(tr: seq<Cluster>, acts: seq<Action>)
    requires |tr| == |acts| + 1 && Init(tr[0]) && forall i: nat :: i < |acts| ==> StepOk(tr, acts, i)
    ensures IsRun(tr, acts)
  {
    forall i | 0 <= i < |acts| ensures Enabled(tr[i], acts[i]) && tr[i + 1] == Next(tr[i], acts[i]) {
      assert StepOk(tr, acts, i);
    }
  }

  lemma Extend(tr: seq<Cluster>, acts: seq<Action>, a: Action, s': Cluster)
    requires IsRun(tr, acts) && Enabled(tr[|acts|], a) && s' == Next(tr[|acts|], a)
    ensures RunsTo(tr[0], s')
  {
    var tr', acts' := tr + [s'], acts + [a];
    forall i | 0 <= i < |acts'| ensures StepOk(tr', acts', i) {
      if i < |acts| { assert acts[i] == acts'[i] && StepOk(tr, acts, i); }
    }
    StepsMakeRun(tr', acts');
    assert tr'[|acts'|] == s';
  }

  // ---------- what is known of a node ----------

  /** A node of term t with this log and these peers that has committed nothing past the bootstrap entry. */
  ghost predicate Known(x: Node, name: NodeName, t: nat, log: Log, ps: set<NodeName>) {
    && x.name == name && x.term == t && x.log == log && x.commit == 0 && x.applied == 0
    && log != [] && Contiguous(log) && BaseIndex(log) == 0
    && x.peers.Keys == ps && name !in ps
    && forall p :: p in ps ==> x.peers[p].seqNr >= SEQ_START
  }

  /** A candidate with the votes of these peers. */
  ghost predicate HasVotes(x: Node, yes: set<NodeName>) {
    x.role == Candidate && forall p :: p in x.peers ==> (x.peers[p].votedForMe <==> p in yes)
  }

  /** A leader that knows nothing of its peers' logs yet. */
  ghost predicate JustLeads(x: Node) {
    x.role == Leader && forall p :: p in x.peers ==> x.peers[p].nextIndex == 1 && x.peers[p].matchIndex == NO_INDEX
  }

  /** What steps at the nodes of `ns` leave as it was. */
  ghost predicate Elsewhere(s: Cluster, s': Cluster, ns: set<NodeName>) {
    && s'.nodes.Keys == s.nodes.Keys && s.net <= s'.net && s'.hist.boot == s.hist.boot
    && forall m :: m in s.nodes && m !in ns ==> s'.nodes[m] == s.nodes[m]
  }

  /** Steps from s to s' record acknowledgements of these nodes only. */
  ghost predicate AckersIn(s: Cluster, s': Cluster, ns: set<NodeName>) {
    forall a :: a in s'.hist.acks && a !in s.hist.acks ==> a.node in ns
  }

  /** A leader that has sent nothing yet. */
  ghost predicate NothingSent(x: Node) {
    forall p :: p in x.peers ==> x.peers[p].seqNr == SEQ_START
  }

  /** A vote request of n to p, of a candidate with this log, is under way. */
  ghost predicate Asked(s: Cluster, n: NodeName, p: NodeName, t: nat, log: Log) {
    exists m :: m in s.net && Asks(m, n, p, t, log)
  }

  predicate Asks(m: Message, n: NodeName, p: NodeName, t: nat, log: Log) {
    && m.VoteRequest? && m.src == n && m.dst == p && m.term == t && m.seqNr >= SEQ_START
    && m.lastIndex == LastIndex(log) && m.lastTerm == LastTerm(log)
  }

  /** Every node of an initial state is known. */
  lemma AllKnown(s: Cluster, n: NodeName, t: nat)
    requires Init(s) && n in s.nodes && s.nodes[n].term == t
    ensures Known(s.nodes[n], n, t, [s.hist.boot], s.nodes.Keys - {n}) && s.nodes[n].role == Follower
  {
    assert InitNode(s, n);
  }

  // ---------- elections ----------

  lemma StandsUp(s0: Cluster, s: Cluster, n: NodeName, t: nat, log: Log, ps: set<NodeName>) returns (s': Cluster)
    requires RunsTo(s0, s) && n in s.nodes && Known(s.nodes[n], n, t, log, ps) && s.nodes[n].role != Leader
    ensures RunsTo(s0, s') && Elsewhere(s, s', {n}) && AckersIn(s, s', {})
    ensures Known(s'.nodes[n], n, t + 1, log, ps) && HasVotes(s'.nodes[n], {})
    ensures forall p :: p in ps ==> Asked(s', n, p, t + 1, log)
  {
    Then(s0, s, Elect(n));
    s' := Next(s, Elect(n));
    var x := StartElection(s.nodes[n]);
    forall p | p in ps ensures Asked(s', n, p, t + 1, log) {
      assert VoteRequestFor(x, p) in VoteRequests(x);
      assert Asks(VoteRequestFor(x, p), n, p, t + 1, log);
    }
  }

  lemma GrantsVote(s0: Cluster, s: Cluster, n: NodeName, v: NodeName, t: nat, log: Log, tv: nat, logv: Log,
          ps: set<NodeName>)
    returns (s': Cluster)
    requires RunsTo(s0, s) && Asked(s, n, v, t, log) && v in s.nodes && Known(s.nodes[v], v, tv, logv, ps)
    requires tv < t && n in ps && UpToDate(LastTerm(log), LastIndex(log), logv)
    ensures RunsTo(s0, s') && Elsewhere(s, s', {v}) && AckersIn(s, s', {})
    ensures Known(s'.nodes[v], v, t, logv, ps) && s'.nodes[v].role == Follower
    ensures VoteReply(v, n, t, true, t) in s'.net
  {
    var m :| m in s.net && Asks(m, n, v, t, log);
    Then(s0, s, Deliver(m));
    s' := Next(s, Deliver(m));
  }

  lemma RefusesVote(s0: Cluster, s: Cluster, n: NodeName, v: NodeName, t: nat, log: Log, tv: nat, logv: Log,
          ps: set<NodeName>)
    returns (s': Cluster)
    requires RunsTo(s0, s) && Asked(s, n, v, t, log) && v in s.nodes && Known(s.nodes[v], v, tv, logv, ps)
    requires tv < t && n in ps && !UpToDate(LastTerm(log), LastIndex(log), logv)
    ensures RunsTo(s0, s') && Elsewhere(s, s', {v}) && AckersIn(s, s', {}) && Known(s'.nodes[v], v, t, logv, ps)
  {
    var m :| m in s.net && Asks(m, n, v, t, log);
    Then(s0, s, Deliver(m));
    s' := Next(s, Deliver(m));
  }

  /** What a candidate makes of a further vote. */
  lemma OneVote(x: Node, v: NodeName, ps: set<NodeName>, yes: set<NodeName>, m: Message)
    requires x.peers.Keys == ps && x.name !in ps && HasVotes(x, yes) && yes <= ps && v in ps && v !in yes
    requires m.VoteReply? && m.src == v && m.granted && m.term == x.term
    ensures var y := CountVote(x, m);
            && HasVotes(y, yes + {v}) && y == x.(peers := y.peers) && y.peers.Keys == ps
            && (forall p :: p in ps ==> y.peers[p].seqNr == x.peers[p].seqNr)
            && OnVoteReply(x, m) == if 2 + |yes| > (|ps| + 1) / 2 then BecomeLeader(y) else y
  {
    var y := CountVote(x, m);
    assert Supporters(y) == {x.name} + yes + {v};
    assert |y.peers| == |y.peers.Keys|;
  }

  lemma CountsVote(s0: Cluster, s: Cluster, n: NodeName, v: NodeName, t: nat, log: Log, ps: set<NodeName>,
          yes: set<NodeName>)
    returns (s': Cluster)
    requires RunsTo(s0, s) && n in s.nodes && Known(s.nodes[n], n, t, log, ps) && HasVotes(s.nodes[n], yes)
    requires yes <= ps && v in ps && v !in yes && VoteReply(v, n, t, true, t) in s.net
    ensures RunsTo(s0, s') && Elsewhere(s, s', {n}) && AckersIn(s, s', {n}) && Known(s'.nodes[n], n, t, log, ps)
    ensures if 2 + |yes| > (|ps| + 1) / 2 then JustLeads(s'.nodes[n]) && NothingSent(s'.nodes[n])
            else HasVotes(s'.nodes[n], yes + {v})
  {
    var m := VoteReply(v, n, t, true, t);
    OneVote(s.nodes[n], v, ps, yes, m);
    Then(s0, s, Deliver(m));
    s' := Next(s, Deliver(m));
  }

  /** A node of four stands for election and wins with the votes of v and w. */
  lemma WinsTerm(s0: Cluster, s: Cluster, n: NodeName, v: NodeName, w: NodeName, t: nat, log: Log, ps: set<NodeName>,
          tv: nat, lv: Log, pv: set<NodeName>, tw: nat, lw: Log, pw: set<NodeName>)
    returns (s': Cluster)
    requires RunsTo(s0, s) && n in s.nodes && Known(s.nodes[n], n, t, log, ps) && s.nodes[n].role != Leader
    requires |ps| == 3 && v in ps && w in ps && v != w && n in pv && n in pw
    requires v in s.nodes && Known(s.nodes[v], v, tv, lv, pv) && tv <= t
    requires w in s.nodes && Known(s.nodes[w], w, tw, lw, pw) && tw <= t
    requires UpToDate(LastTerm(log), LastIndex(log), lv) && UpToDate(LastTerm(log), LastIndex(log), lw)
    ensures RunsTo(s0, s') && Elsewhere(s, s', {n, v, w}) && AckersIn(s, s', {n})
    ensures Known(s'.nodes[n], n, t + 1, log, ps) && JustLeads(s'.nodes[n]) && NothingSent(s'.nodes[n])
    ensures Known(s'.nodes[v], v, t + 1, lv, pv) && s'.nodes[v].role == Follower
    ensures Known(s'.nodes[w], w, t + 1, lw, pw) && s'.nodes[w].role == Follower
    ensures forall p :: p in ps ==> Asked(s', n, p, t + 1, log)
  {
    var s1 := StandsUp(s0, s, n, t, log, ps);
    var s2 := BothGrant(s0, s1, n, v, w, t + 1, log, tv, lv, pv, tw, lw, pw);
    forall p | p in ps ensures Asked(s2, n, p, t + 1, log) {
      AskedStill(s1, s2, n, p, t + 1, log);
    }
    s' := BothCount(s0, s2, n, v, w, t + 1, log, ps);
    forall p | p in ps ensures Asked(s', n, p, t + 1, log) {
      AskedStill(s2, s', n, p, t + 1, log);
    }
  }

  lemma AskedStill(s: Cluster, s': Cluster, n: NodeName, p: NodeName, t: nat, log: Log)
    requires Asked(s, n, p, t, log) && s.net <= s'.net
    ensures Asked(s', n, p, t, log)
  {
  }

  lemma BothGrant(s0: Cluster, s: Cluster, n: NodeName, v: NodeName, w: NodeName, t: nat, log: Log,
          tv: nat, lv: Log, pv: set<NodeName>, tw: nat, lw: Log, pw: set<NodeName>)
    returns (s': Cluster)
    requires RunsTo(s0, s) && Asked(s, n, v, t, log) && Asked(s, n, w, t, log) && v != w && n in pv && n in pw
    requires v in s.nodes && Known(s.nodes[v], v, tv, lv, pv) && tv < t && UpToDate(LastTerm(log), LastIndex(log), lv)
    requires w in s.nodes && Known(s.nodes[w], w, tw, lw, pw) && tw < t && UpToDate(LastTerm(log), LastIndex(log), lw)
    ensures RunsTo(s0, s') && Elsewhere(s, s', {v, w}) && AckersIn(s, s', {})
    ensures Known(s'.nodes[v], v, t, lv, pv) && s'.nodes[v].role == Follower && VoteReply(v, n, t, true, t) in s'.net
    ensures Known(s'.nodes[w], w, t, lw, pw) && s'.nodes[w].role == Follower && VoteReply(w, n, t, true, t) in s'.net
  {
    var s1 := GrantsVote(s0, s, n, v, t, log, tv, lv, pv);
    AskedStill(s, s1, n, w, t, log);
    s' := GrantsVote(s0, s1, n, w, t, log, tw, lw, pw);
  }

  lemma BothCount(s0: Cluster, s: Cluster, n: NodeName, v: NodeName, w: NodeName, t: nat, log: Log, ps: set<NodeName>)
    returns (s': Cluster)
    requires RunsTo(s0, s) && n in s.nodes && Known(s.nodes[n], n, t, log, ps) && HasVotes(s.nodes[n], {})
    requires |ps| == 3 && v in ps && w in ps && v != w
    requires VoteReply(v, n, t, true, t) in s.net && VoteReply(w, n, t, true, t) in s.net
    ensures RunsTo(s0, s') && Elsewhere(s, s', {n}) && AckersIn(s, s', {n})
    ensures Known(s'.nodes[n], n, t, log, ps) && JustLeads(s'.nodes[n]) && NothingSent(s'.nodes[n])
  {
    var s1 := CountsVote(s0, s, n, v, t, log, ps, {});
    assert {} + {v} == {v};
    s' := CountsVote(s0, s1, n, w, t, log, ps, {v});
  }

  // ---------- replication ----------

  /** A leader that knows nothing of its peers sends its whole log past the first entry. */
  lemma SendsAll(s: Cluster, n: NodeName, p: NodeName, t: nat, log: Log, ps: set<NodeName>) returns (r: Message)
    requires n in s.nodes && Known(s.nodes[n], n, t, log, ps) && JustLeads(s.nodes[n]) && p in ps
    ensures Contiguous(s.nodes[n].log) && CanSend(s.nodes[n])
    ensures r in DoSend(s, n).net && Elsewhere(s, DoSend(s, n), {n})
    ensures r.AppendRequest? && r.src == n && r.dst == p && r.term == t && r.prevIndex == 0 && r.prevTerm == log[0].term
    ensures r.entries == log[1..] && r.leaderCommit == 0 && r.seqNr == s.nodes[n].peers[p].seqNr
    ensures r.initial <==> r.seqNr == SEQ_START
    ensures Known(DoSend(s, n).nodes[n], n, t, log, ps) && JustLeads(DoSend(s, n).nodes[n])
  {
    var x := s.nodes[n];
    LastOf(log);
    forall q | q in x.peers ensures CanSendTo(x, q) {
      assert x.peers[q].nextIndex == 1;
    }
    r := AppendRequestFor(x, p);
    assert r in AppendRequests(x);
  }

  lemma Beats(s0: Cluster, s: Cluster, n: NodeName, p: NodeName, t: nat, log: Log, ps: set<NodeName>)
    returns (s': Cluster, r: Message)
    requires RunsTo(s0, s) && n in s.nodes && Known(s.nodes[n], n, t, log, ps) && JustLeads(s.nodes[n]) && p in ps
    ensures RunsTo(s0, s') && Elsewhere(s, s', {n}) && AckersIn(s, s', {}) && r in s'.net
    ensures r.AppendRequest? && r.src == n && r.dst == p && r.term == t && r.prevIndex == 0 && r.entries == log[1..]
    ensures r.seqNr == s.nodes[n].peers[p].seqNr && (r.initial <==> r.seqNr == SEQ_START)
    ensures Known(s'.nodes[n], n, t, log, ps) && JustLeads(s'.nodes[n])
  {
    r := SendsAll(s, n, p, t, log, ps);
    Then(s0, s, Heartbeat(n));
    s' := Next(s, Heartbeat(n));
  }

  lemma Logs(s0: Cluster, s: Cluster, n: NodeName, p: NodeName, t: nat, log: Log, ps: set<NodeName>, kind: CommandKind,
          data: string)
    returns (s': Cluster, e: Entry, r: Message)
    requires RunsTo(s0, s) && n in s.nodes && Known(s.nodes[n], n, t, log, ps) && JustLeads(s.nodes[n]) && p in ps
    ensures RunsTo(s0, s') && Elsewhere(s, s', {n}) && AckersIn(s, s', {n}) && r in s'.net
    ensures e == Entry(|log|, t, kind, data)
    ensures Known(s'.nodes[n], n, t, log + [e], ps) && JustLeads(s'.nodes[n])
    ensures r.AppendRequest? && r.src == n && r.dst == p && r.term == t && r.prevIndex == 0 && r.prevTerm == log[0].term
    ensures r.entries == (log + [e])[1..] && r.leaderCommit == 0
    ensures r.seqNr == s.nodes[n].peers[p].seqNr && (r.initial <==> r.seqNr == SEQ_START)
  {
    LastOf(log);
    e := Entry(|log|, t, kind, data);
    var r0 := SendsAll(s, n, p, t, log, ps);
    var s1 := DoAppendLocal(s, n, kind, data);
    LogsNode(s, n, t, log, ps, kind, data);
    r := SendsAll(s1, n, p, t, log + [e], ps);
    Then(s0, s, ClientLog(n, kind, data));
    s' := Next(s, ClientLog(n, kind, data));
  }

  lemma LogsNode(s: Cluster, n: NodeName, t: nat, log: Log, ps: set<NodeName>, kind: CommandKind, data: string)
    requires n in s.nodes && Known(s.nodes[n], n, t, log, ps) && JustLeads(s.nodes[n]) && CanSend(s.nodes[n])
    ensures var s' := DoAppendLocal(s, n, kind, data);
            && Known(s'.nodes[n], n, t, log + [Entry(|log|, t, kind, data)], ps) && JustLeads(s'.nodes[n])
            && Elsewhere(s, s', {n}) && AckersIn(s, s', {n}) && s'.nodes[n].peers == s.nodes[n].peers
  {
    LastOf(log);
  }

  /** A node refuses a request of an older term, and names the end of its log in its own term. */
  lemma RefusesRequest(s0: Cluster, s: Cluster, m: Message, t: nat, log: Log, ps: set<NodeName>) returns (s': Cluster)
    requires RunsTo(s0, s) && m in s.net && m.AppendRequest? && m.dst in s.nodes && m.src in ps
    requires Known(s.nodes[m.dst], m.dst, t, log, ps) && m.term < t
    ensures RunsTo(s0, s') && Elsewhere(s, s', {}) && s'.nodes == s.nodes && AckersIn(s, s', {})
    ensures AppendReply(m.dst, m.src, t, false, LastIndex(log), LastTerm(log), m.term) in s'.net
  {
    Then(s0, s, Deliver(m));
    s' := Next(s, Deliver(m));
  }

  /** A follower with nothing but the bootstrap entry takes a first request's one entry. */
  lemma TakesOne(s0: Cluster, s: Cluster, m: Message, boot: Entry, e: Entry, ps: set<NodeName>) returns (s': Cluster)
    requires RunsTo(s0, s) && m in s.net && m.AppendRequest? && m.dst in s.nodes && m.src in ps
    requires Known(s.nodes[m.dst], m.dst, m.term, [boot], ps) && s.nodes[m.dst].role == Follower
    requires m.initial && m.prevIndex == 0 && m.entries == [e] && e.index == 1 && m.leaderCommit == 0
    requires forall a :: a in s.hist.acks ==> a.node != m.dst
    ensures RunsTo(s0, s') && s'.nodes.Keys == s.nodes.Keys && s.net <= s'.net && s'.hist.boot == s.hist.boot
    ensures forall n :: n in s.nodes && n != m.dst ==> s'.nodes[n] == s.nodes[n]
    ensures s'.nodes[m.dst].log == [boot, e]
    ensures AppendReply(m.dst, m.src, m.term, true, 1, e.term, m.term) in s'.net
  {
    assert [boot] + [e] == [boot, e];
    Then(s0, s, Deliver(m));
    s' := Next(s, Deliver(m));
  }
}
