/** What the invariant means for whole runs, in terms of nodes and their logs only. */
module RaftTheorems {
  import opened RaftLog
  import opened RaftModel
  import opened RaftHistory
  import opened RaftCluster
  import opened RaftInvariant
  import opened RaftPreserve
  import opened RaftSteps
  import opened RaftReplicate
  import opened RaftFollow
  import opened RaftSafety

  /** A run from an initial state: one action between each state and the next. */
  ghost predicate IsRun(tr: seq<Cluster>, acts: seq<Action>) {
    && |tr| == |acts| + 1
    && Init(tr[0])
    && forall i {:trigger acts[i]} :: 0 <= i < |acts| ==> Enabled(tr[i], acts[i]) && tr[i + 1] == Next(tr[i], acts[i])
  }

  lemma {:induction false} RunInv(tr: seq<Cluster>, acts: seq<Action>, i: nat)
    requires IsRun(tr, acts) && i < |tr|
    ensures Inv(tr[i])
  {
    if i == 0 {
      InitInv(tr[0]);
    } else {
      RunInv(tr, acts, i - 1);
      assert acts[i - 1] == acts[i - 1];
      NextInv(tr[i - 1], acts[i - 1]);
    }
  }

  lemma VoteReplyGrows(s: Cluster, m: Message)
    requires Inv(s) && m in s.net && m.dst in s.nodes && m.VoteReply? && TimelyReply(s, m)
    ensures Grows(s.hist, DoVoteReply(s, m).hist)
  {
    var x := s.nodes[m.dst];
    assert NodeShape(s, m.dst);
    if x.role == Candidate && m.src in x.peers && m.term <= x.term {
      CountVoteKeeps(s, m);
      CountedVoteGrows(s, m);
    }
  }

  lemma CountedVoteGrows(s: Cluster, m: Message)
    requires m.VoteReply? && m.dst in s.nodes && m.src in s.nodes[m.dst].peers && m.term <= s.nodes[m.dst].term
    requires s.nodes[m.dst].role == Candidate && s.nodes[m.dst].name == m.dst
    requires Inv(Put(s, CountVote(s.nodes[m.dst], m)))
    ensures Grows(s.hist, DoVoteReply(s, m).hist)
  {
    var s1 := Put(s, CountVote(s.nodes[m.dst], m));
    if WinsElection(s1.nodes[m.dst]) { WinHistory(s1, m.dst); }
  }

  lemma DeliverGrows(s: Cluster, m: Message)
    requires Inv(s) && Enabled(s, Deliver(m))
    ensures Grows(s.hist, Next(s, Deliver(m)).hist)
  {
    if m.VoteReply? { VoteReplyGrows(s, m); }
  }

  lemma TimeoutGrows(s: Cluster, n: NodeName)
    requires Inv(s) && Enabled(s, ElectionTimeout(n))
    ensures Grows(s.hist, DoElectionTimeout(s, n).hist)
  {
    assert NodeShape(s, n);
    if WinsElection(s.nodes[n]) { WinHistory(s, n); }
  }

  lemma NextGrows(s: Cluster, a: Action)
    requires Inv(s) && Enabled(s, a)
    ensures Grows(s.hist, Next(s, a).hist)
  {
    match a
    case Elect(n) => ElectHistory(s, n);
    case ElectionTimeout(n) => TimeoutGrows(s, n);
    case Heartbeat(n) =>
    case ClientLog(n, kind, data) => AppendLocalHistory(s, n, kind, data);
    case Deliver(m) => DeliverGrows(s, m);
  }

  lemma {:induction false} RunGrows(tr: seq<Cluster>, acts: seq<Action>, i: nat, j: nat)
    requires IsRun(tr, acts) && i <= j < |tr|
    ensures Grows(tr[i].hist, tr[j].hist)
  {
    if i < j {
      RunGrows(tr, acts, i, j - 1);
      RunInv(tr, acts, j - 1);
      assert acts[j - 1] == acts[j - 1];
      NextGrows(tr[j - 1], acts[j - 1]);
      GrowsTrans(tr[i].hist, tr[j - 1].hist, tr[j].hist);
    }
  }

  ghost predicate LeadsAt(tr: seq<Cluster>, i: nat, n: NodeName, t: nat) {
    i < |tr| && n in tr[i].nodes && tr[i].nodes[n].role == Leader && tr[i].nodes[n].term == t
  }

  /** Election safety: a term has at most one leader in a whole run. */
  lemma ElectionSafety(tr: seq<Cluster>, acts: seq<Action>, i: nat, j: nat, n: NodeName, m: NodeName, t: nat)
    requires IsRun(tr, acts) && LeadsAt(tr, i, n, t) && LeadsAt(tr, j, m, t)
    ensures n == m
  {
    RunInv(tr, acts, i);
    RunInv(tr, acts, j);
    assert LeaderOk(tr[i], n) && LeaderOk(tr[j], m);
    if i <= j { RunGrows(tr, acts, i, j); } else { RunGrows(tr, acts, j, i); }
  }

  /** Leader append-only: while it leads a term, a node only adds to its log. */
  lemma LeaderAppendOnly(tr: seq<Cluster>, acts: seq<Action>, i: nat, j: nat, n: NodeName, t: nat)
    requires IsRun(tr, acts) && i <= j && LeadsAt(tr, i, n, t) && LeadsAt(tr, j, n, t)
    ensures tr[i].nodes[n].log <= tr[j].nodes[n].log
  {
    RunInv(tr, acts, i);
    RunInv(tr, acts, j);
    assert LeaderOk(tr[i], n) && LeaderOk(tr[j], n);
    RunGrows(tr, acts, i, j);
  }

  /** Once a follower has replied success in a term, its log only grows for as long as it stays in that term,
      though every accepted request erases whatever the log has past the request's previous index. */
  lemma FollowerOnlyGrows(tr: seq<Cluster>, acts: seq<Action>, i: nat, j: nat, n: NodeName, r: Message)
    requires IsRun(tr, acts) && i <= j < |tr| && n in tr[i].nodes && n in tr[j].nodes
    requires r in tr[i].net && r.AppendReply? && r.success && r.src == n
    requires tr[i].nodes[n].term == r.term == tr[j].nodes[n].term
    requires tr[i].nodes[n].role == Follower
    ensures tr[i].nodes[n].log <= tr[j].nodes[n].log
  {
    RunInv(tr, acts, i);
    RunInv(tr, acts, j);
    RunGrows(tr, acts, i, j);
    assert MessageOk(tr[i], r);
    var a := AckAtEnd(tr[i], n, r.term, r.lastIndex + 1);
    assert AckHeld(tr[j], a) && AckOk(tr[i].hist, a);
  }

  /** A follower that has acknowledged anything in its term has acknowledged its whole log, which is the leader's so
      far. */
  lemma AckAtEnd(s: Cluster, n: NodeName, t: nat, len: int) returns (b: Ack)
    requires Inv(s) && n in s.nodes && s.nodes[n].term == t && s.nodes[n].role == Follower && Acked(s.hist, t, n, len)
    ensures b in s.hist.acks && b.term == t && b.node == n && b.len == |s.nodes[n].log|
    ensures t in s.hist.tlog && Agree(s.nodes[n].log, s.hist.tlog[t], |s.nodes[n].log|)
  {
    var a :| a in s.hist.acks && a.term == t && a.node == n && a.len >= len;
    assert AckHeld(s, a);
    b :| b in s.hist.acks && b.term == a.term && b.node == a.node && b.len == |s.nodes[n].log|;
  }

  /** Every node's log keeps its indices consecutive from the bootstrap entry on. */
  lemma LogsStayContiguous(tr: seq<Cluster>, acts: seq<Action>, i: nat, n: NodeName)
    requires IsRun(tr, acts) && i < |tr| && n in tr[i].nodes
    ensures Contiguous(tr[i].nodes[n].log) && BaseIndex(tr[i].nodes[n].log) == 0
  {
    RunInv(tr, acts, i);
    assert NodeShape(tr[i], n);
    LogIndex(tr[i].hist, tr[i].nodes[n].log);
  }

  /** Log matching: if the logs of two nodes, at any two moments of a run, have the same term at an index,
      they hold the same entries up to it. */
  lemma LogMatching(tr: seq<Cluster>, acts: seq<Action>, i: nat, j: nat, n: NodeName, m: NodeName, k: nat)
    requires IsRun(tr, acts) && i < |tr| && j < |tr| && n in tr[i].nodes && m in tr[j].nodes
    requires k < |tr[i].nodes[n].log| && k < |tr[j].nodes[m].log|
    requires tr[i].nodes[n].log[k].term == tr[j].nodes[m].log[k].term
    ensures tr[i].nodes[n].log[..k + 1] == tr[j].nodes[m].log[..k + 1]
  {
    RunInv(tr, acts, i);
    RunInv(tr, acts, j);
    assert NodeShape(tr[i], n) && NodeShape(tr[j], m);
    if i <= j {
      RunGrows(tr, acts, i, j);
      LogOkGrows(tr[i].hist, tr[j].hist, tr[i].nodes[n].log);
      Matching(tr[j].hist, tr[i].nodes[n].log, tr[j].nodes[m].log, k);
    } else {
      RunGrows(tr, acts, j, i);
      LogOkGrows(tr[j].hist, tr[i].hist, tr[j].nodes[m].log);
      Matching(tr[i].hist, tr[i].nodes[n].log, tr[j].nodes[m].log, k);
    }
  }

  // ---------- applied entries ----------

  /** In step i, node n hands entry e to its state machine as number k. */
  ghost predicate Applies(tr: seq<Cluster>, i: nat, n: NodeName, k: int, e: Entry) {
    && i + 1 < |tr| && n in tr[i].nodes && n in tr[i + 1].nodes
    && tr[i].nodes[n].applied < k <= tr[i + 1].nodes[n].applied
    && 0 <= k < |tr[i + 1].nodes[n].log|
    && tr[i + 1].nodes[n].log[k] == e
  }

  /** Only append messages move a node's applied index. */
  lemma OnlyAppendsApply(s: Cluster, a: Action, n: NodeName)
    requires Enabled(s, a) && n in s.nodes && n in Next(s, a).nodes
    requires forall x :: x in s.nodes ==> s.nodes[x].name == x
    requires Next(s, a).nodes[n].applied > s.nodes[n].applied
    ensures a.Deliver? && (a.msg.AppendRequest? || a.msg.AppendReply?) && a.msg.dst == n
  {
  }

  /** A step that moves a node's applied index stays within its log and is recorded. */
  lemma ApplyIsNoted(s: Cluster, a: Action, n: NodeName, k: int)
    requires Inv(s) && Enabled(s, a) && n in s.nodes && n in Next(s, a).nodes
    requires s.nodes[n].applied < k <= Next(s, a).nodes[n].applied
    ensures 0 <= k < |Next(s, a).nodes[n].log|
    ensures Applied(n, k, Next(s, a).nodes[n].log[k]) in Next(s, a).hist.applied
  {
    var s' := Next(s, a);
    NextInv(s, a);
    assert NodeShape(s, n) && NodeShape(s', n);
    forall x | x in s.nodes ensures s.nodes[x].name == x {
      assert NodeShape(s, x);
    }
    OnlyAppendsApply(s, a, n);
    LogIndex(s'.hist, s'.nodes[n].log);
    AppliesAndNotes(s, a.msg, k);
  }

  lemma AppliesAndNotes(s: Cluster, m: Message, k: int)
    requires m.dst in s.nodes && s.nodes[m.dst].name == m.dst && Contiguous(s.nodes[m.dst].log)
    requires (m.AppendRequest? || m.AppendReply?) && s.nodes[m.dst].applied >= 0
    requires var y := (if m.AppendRequest? then DoAppendRequest(s, m) else DoAppendReply(s, m)).nodes[m.dst];
             BaseIndex(y.log) == 0 && LastIndex(y.log) == |y.log| - 1 && s.nodes[m.dst].applied < k <= y.applied
    ensures var s' := if m.AppendRequest? then DoAppendRequest(s, m) else DoAppendReply(s, m);
            0 <= k < |s'.nodes[m.dst].log| && Applied(m.dst, k, s'.nodes[m.dst].log[k]) in s'.hist.applied
  {
    AppliedInRange(s.nodes[m.dst], m);
  }

  lemma AppliedInRange(x: Node, m: Message)
    requires Contiguous(x.log) && (m.AppendRequest? || m.AppendReply?)
    requires var y := if m.AppendRequest? then OnAppendRequest(x, m).0 else OnAppendReply(x, m); y.applied > x.applied
    ensures var y := if m.AppendRequest? then OnAppendRequest(x, m).0 else OnAppendReply(x, m);
            y.applied <= LastIndex(y.log)
  {
  }

  lemma AppliedAgree(h: History, a: Applied, b: Applied)
    requires HistOk(h) && a in h.applied && b in h.applied && a.index == b.index
    ensures a.entry == b.entry
  {
    assert AppliedOk(h, a) && AppliedOk(h, b);
    var c :| c in h.commits && c.term in h.tlog && 0 <= a.index <= c.index < |h.tlog[c.term]|
             && h.tlog[c.term][a.index] == a.entry;
    var d :| d in h.commits && d.term in h.tlog && 0 <= b.index <= d.index < |h.tlog[d.term]|
             && h.tlog[d.term][b.index] == b.entry;
    if c.index <= d.index { CommitPointsNest(h, c, d); } else { CommitPointsNest(h, d, c); }
  }

  lemma AppliesIsNoted(tr: seq<Cluster>, acts: seq<Action>, i: nat, n: NodeName, k: int, e: Entry, j: nat)
    requires IsRun(tr, acts) && Applies(tr, i, n, k, e) && i < j < |tr|
    ensures Applied(n, k, e) in tr[j].hist.applied
  {
    RunInv(tr, acts, i);
    assert acts[i] == acts[i];
    ApplyIsNoted(tr[i], acts[i], n, k);
    RunGrows(tr, acts, i + 1, j);
  }

  /** State machine safety: no two nodes of a run ever apply different entries as the same number. */
  lemma StateMachineSafety(tr: seq<Cluster>, acts: seq<Action>, i: nat, j: nat, n: NodeName, m: NodeName,
          k: int, e: Entry, f: Entry)
    requires IsRun(tr, acts) && Applies(tr, i, n, k, e) && Applies(tr, j, m, k, f)
    ensures e == f
  {
    var last := |tr| - 1;
    AppliesIsNoted(tr, acts, i, n, k, e, last);
    AppliesIsNoted(tr, acts, j, m, k, f, last);
    RunInv(tr, acts, last);
    AppliedAgree(tr[last].hist, Applied(n, k, e), Applied(m, k, f));
  }

  /** Leader completeness: a leader of a later term than the applier's holds every applied entry. */
  lemma LeaderHoldsApplied(tr: seq<Cluster>, acts: seq<Action>, i: nat, j: nat, n: NodeName, m: NodeName,
          k: int, e: Entry, t: nat)
    requires IsRun(tr, acts) && Applies(tr, i, n, k, e) && LeadsAt(tr, j, m, t) && t > tr[i + 1].nodes[n].term
    ensures 0 <= k < |tr[j].nodes[m].log| && tr[j].nodes[m].log[k] == e
  {
    RunInv(tr, acts, i + 1);
    RunInv(tr, acts, j);
    assert LeaderOk(tr[j], m);
    var cp := AppliedPoint(tr, acts, i, n, k, e);
    var last := |tr| - 1;
    RunGrows(tr, acts, i + 1, last);
    RunGrows(tr, acts, j, last);
    RunInv(tr, acts, last);
    LeaderCompleteness(tr[last].hist, cp, t);
    assert TermLogOk(tr[j].hist, t);
  }

  /** The commit decision, of the applier's term or an earlier one, that an applied entry rests on. */
  lemma AppliedPoint(tr: seq<Cluster>, acts: seq<Action>, i: nat, n: NodeName, k: int, e: Entry)
    returns (cp: CommitPoint)
    requires IsRun(tr, acts) && Applies(tr, i, n, k, e)
    ensures k > 0 && cp in tr[i + 1].hist.commits && cp.term <= tr[i + 1].nodes[n].term
    ensures cp.term in tr[i + 1].hist.tlog && k <= cp.index < |tr[i + 1].hist.tlog[cp.term]|
    ensures tr[i + 1].hist.tlog[cp.term][k] == e
  {
    RunInv(tr, acts, i);
    RunInv(tr, acts, i + 1);
    var s := tr[i + 1];
    assert NodeShape(s, n) && NodeShape(tr[i], n);
    var x := s.nodes[n];
    cp :| cp in s.hist.commits && cp.term <= x.term && cp.index >= x.commit;
    AppliesIsNoted(tr, acts, i, n, k, e, i + 1);
    assert AppliedOk(s.hist, Applied(n, k, e)) && CommitOk(s.hist, cp);
    var d :| d in s.hist.commits && d.term in s.hist.tlog && 0 <= k <= d.index < |s.hist.tlog[d.term]|
             && s.hist.tlog[d.term][k] == e;
    if cp.index <= d.index { CommitPointsNest(s.hist, cp, d); } else { CommitPointsNest(s.hist, d, cp); }
  }

  /** A leader's broadcast never reads outside its log, whatever positions its peers reported. */
  lemma LeaderCanAlwaysSend(tr: seq<Cluster>, acts: seq<Action>, i: nat, n: NodeName, t: nat)
    requires IsRun(tr, acts) && LeadsAt(tr, i, n, t)
    ensures Contiguous(tr[i].nodes[n].log) && CanSend(tr[i].nodes[n])
    ensures tr[i].nodes[n].commit <= LastIndex(tr[i].nodes[n].log)
  {
    RunInv(tr, acts, i);
    LeaderReady(tr[i], n);
    assert LeaderOk(tr[i], n) && NodeShape(tr[i], n);
    LogIndex(tr[i].hist, tr[i].nodes[n].log);
  }

  // ---------- the handlers' preconditions ----------

  /** The requests under way list entries that follow their previous index. */
  lemma RequestFollows(s: Cluster, m: Message)
    requires Inv(s) && m in s.net && m.AppendRequest?
    ensures EntriesFollow(m)
  {
    assert MessageOk(s, m);
    assert TermLogOk(s.hist, m.term);
    LogIndex(s.hist, s.hist.tlog[m.term]);
  }

  /** In every state of a run, a node and the requests under way meet what the node's handlers ask for: no log is
      compacted, so that no search leaves it. */
  lemma HandlersApply(tr: seq<Cluster>, acts: seq<Action>, i: nat, n: NodeName, m: Message)
    requires IsRun(tr, acts) && i < |tr| && n in tr[i].nodes
    ensures var x := tr[i].nodes[n];
            && ValidNode(x) && x.commit >= BaseIndex(x.log) - 1
            && (m in tr[i].net && m.AppendRequest? ==> EntriesFollow(m) && ScansInside(x.log, m.prevIndex, m.prevTerm))
  {
    RunInv(tr, acts, i);
    assert NodeShape(tr[i], n);
    LogIndex(tr[i].hist, tr[i].nodes[n].log);
    if m in tr[i].net && m.AppendRequest? { RequestFollows(tr[i], m); }
  }
}
