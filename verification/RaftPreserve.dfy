/** What survives a step untouched: every fact of the invariant about an object the step leaves alone. */
module RaftPreserve {
  import opened Collections
  import opened RaftLog
  import opened RaftModel
  import opened RaftHistory
  import opened RaftCluster
  import opened RaftInvariant

  /** The record only grows, and logs of terms only at their end. */
  ghost predicate Grows(h: History, g: History) {
    && g.boot == h.boot && g.members == h.members
    && h.elected.Keys <= g.elected.Keys && h.tlog.Keys <= g.tlog.Keys
    && (forall t :: t in h.elected ==> t in g.elected && g.elected[t] == h.elected[t])
    && (forall t :: t in h.tlog ==> t in g.tlog && Agree(h.tlog[t], g.tlog[t], |h.tlog[t]|))
    && h.votes <= g.votes && h.acks <= g.acks && h.commits <= g.commits && h.applied <= g.applied
  }

  /** A node's term never falls, and within a term a leader stays leader and its counters never fall. */
  ghost predicate Evolves(x: Node, y: Node) {
    && y.term >= x.term
    && (y.term == x.term && x.role == Leader ==>
          && y.role == Leader && y.commit >= x.commit && y.peers.Keys == x.peers.Keys
          && forall p :: p in x.peers ==> y.peers[p].seqNr >= x.peers[p].seqNr)
  }

  lemma GrowsTrans(a: History, b: History, c: History)
    requires Grows(a, b) && Grows(b, c)
    ensures Grows(a, c)
  {
  }

  lemma LogOkGrows(h: History, g: History, log: Log)
    requires Grows(h, g) && LogOk(h, log)
    ensures LogOk(g, log)
  {
    forall i | 0 < i < |log| ensures EntryOk(g, log, i) {
      assert EntryOk(h, log, i);
    }
  }

  lemma CoveredGrows(h: History, g: History, k: int, T: nat, U: nat)
    requires Grows(h, g) && Covered(h, k, T) && T <= U
    ensures Covered(g, k, U)
  {
    if k > 0 {
      var cp :| cp in h.commits && cp.term <= T && cp.index >= k;
      assert cp in g.commits;
    }
  }

  lemma AckedGrows(h: History, g: History, t: nat, m: NodeName, len: int)
    requires Grows(h, g) && Acked(h, t, m, len)
    ensures Acked(g, t, m, len)
  {
    var a :| a in h.acks && a.term == t && a.node == m && a.len >= len;
    assert a in g.acks;
  }

  lemma KeptGrows(h: History, g: History, t: nat, k: nat, log: Log, T: nat, U: nat)
    requires Grows(h, g) && t in h.tlog && k <= |h.tlog[t]| && Kept(h, t, k, log, T) && T <= U
    ensures Kept(g, t, k, log, U)
  {
    if Agree(h.tlog[t], log, k) {
    } else if Overruled(h, t, k, T) {
      var u :| u in h.elected && t < u <= T && !Agree(h.tlog[t], h.elected[u].log, k);
      assert u in g.elected && !Agree(g.tlog[t], g.elected[u].log, k);
    } else {
      CoveredGrows(h, g, k, T, U);
    }
  }

  lemma KeptUpToGrows(h: History, g: History, t: nat, len: nat, log: Log, T: nat, U: nat)
    requires Grows(h, g) && t in h.tlog && len <= |h.tlog[t]| && KeptUpTo(h, t, len, log, T) && T <= U
    ensures KeptUpTo(g, t, len, log, U)
  {
    forall k: nat | k <= len ensures Kept(g, t, k, log, U) {
      assert Kept(h, t, k, log, T);
      KeptGrows(h, g, t, k, log, T, U);
    }
  }

  lemma VotedInGrows(h: History, g: History, t: nat, m: NodeName, c: NodeName, i: int, l: nat)
    requires Grows(h, g) && VotedIn(h, t, m, c, i, l)
    ensures VotedIn(g, t, m, c, i, l)
  {
    var v :| v in h.votes && v.term == t && v.voter == m && v.cand == c && v.lastIndex == i && v.lastTerm == l;
    assert v in g.votes;
  }

  // ---------- records that were there before ----------

  lemma VoteOkGrows(h: History, g: History, v: Vote)
    requires Grows(h, g) && VoteOk(h, v)
    requires forall a :: a in h.acks ==> AckOk(h, a)
    requires forall a :: a in g.acks && a !in h.acks ==> a.node == v.voter ==> a.term >= v.term
    ensures VoteOk(g, v)
  {
    LogOkGrows(h, g, v.log);
    forall a | a in g.acks && a.node == v.voter && a.term < v.term && a.term in g.tlog
      ensures KeptUpTo(g, a.term, a.len, v.log, v.term - 1)
    {
      assert a in h.acks && AckOk(h, a);
      KeptUpToGrows(h, g, a.term, a.len, v.log, v.term - 1, v.term - 1);
    }
  }

  lemma ElectionOkGrows(h: History, g: History, t: nat)
    requires Grows(h, g) && t in h.elected && ElectionOk(h, t)
    ensures ElectionOk(g, t)
  {
    var e := h.elected[t];
    forall m | m in e.quorum ensures VotedIn(g, t, m, e.leader, LastIndex(e.log), LastTerm(e.log)) {
      VotedInGrows(h, g, t, m, e.leader, LastIndex(e.log), LastTerm(e.log));
    }
  }

  lemma CommitOkGrows(h: History, g: History, cp: CommitPoint)
    requires Grows(h, g) && CommitOk(h, cp)
    ensures CommitOk(g, cp)
  {
    forall m | m in cp.quorum ensures Acked(g, cp.term, m, cp.index + 1) {
      AckedGrows(h, g, cp.term, m, cp.index + 1);
    }
  }

  lemma AppliedOkGrows(h: History, g: History, a: Applied)
    requires Grows(h, g) && AppliedOk(h, a)
    ensures AppliedOk(g, a)
  {
    var cp :| cp in h.commits && cp.term in h.tlog && 0 <= a.index <= cp.index < |h.tlog[cp.term]|
              && h.tlog[cp.term][a.index] == a.entry;
    assert cp in g.commits;
  }

  lemma TermLogOkGrows(h: History, g: History, t: nat)
    requires Grows(h, g) && t in h.tlog && t in h.elected && TermLogOk(h, t)
    requires g.tlog[t] == h.tlog[t]
    ensures TermLogOk(g, t)
  {
    LogOkGrows(h, g, h.tlog[t]);
    LogOkGrows(h, g, h.elected[t].log);
  }

  /** The record stays sound when only sound items are added to it. */
  lemma HistOkGrows(h: History, g: History)
    requires HistOk(h) && Grows(h, g)
    requires g.elected.Keys == g.tlog.Keys
    requires forall t :: t in g.tlog && (t !in h.tlog || g.tlog[t] != h.tlog[t]) ==> TermLogOk(g, t)
    requires forall t :: t in g.elected && t !in h.elected ==> ElectionOk(g, t)
    requires forall v :: v in g.votes && v !in h.votes ==> VoteOk(g, v)
    requires VotesUnique(g.votes)
    requires forall a :: a in g.acks && a !in h.acks ==> AckOk(g, a)
    requires forall a, v :: a in g.acks && a !in h.acks && v in h.votes && a.node == v.voter ==> a.term >= v.term
    requires forall cp :: cp in g.commits && cp !in h.commits ==> CommitOk(g, cp)
    requires forall a :: a in g.applied && a !in h.applied ==> AppliedOk(g, a)
    ensures HistOk(g)
  {
    forall t | t in g.tlog ensures TermLogOk(g, t) {
      if t in h.tlog && g.tlog[t] == h.tlog[t] { TermLogOkGrows(h, g, t); }
    }
    forall t | t in g.elected ensures ElectionOk(g, t) {
      if t in h.elected { ElectionOkGrows(h, g, t); }
    }
    forall v | v in g.votes ensures VoteOk(g, v) {
      if v in h.votes { VoteOkGrows(h, g, v); }
    }
    forall a | a in g.acks ensures AckOk(g, a) {
      if a in h.acks { assert AckOk(h, a); }
    }
    forall cp | cp in g.commits ensures CommitOk(g, cp) {
      if cp in h.commits { CommitOkGrows(h, g, cp); }
    }
    forall a | a in g.applied ensures AppliedOk(g, a) {
      if a in h.applied { AppliedOkGrows(h, g, a); }
    }
  }

  // ---------- steps of one node ----------

  /** s became s' by node n changing, messages being added and the record growing. */
  ghost predicate StepOf(s: Cluster, s': Cluster, n: NodeName) {
    && n in s.nodes && s'.nodes.Keys == s.nodes.Keys
    && (forall m :: m in s.nodes && m != n ==> s'.nodes[m] == s.nodes[m])
    && Evolves(s.nodes[n], s'.nodes[n])
    && s.net <= s'.net
    && Grows(s.hist, s'.hist)
  }

  lemma NodeShapeKept(s: Cluster, s': Cluster, n: NodeName, m: NodeName)
    requires StepOf(s, s', n) && m in s.nodes && m != n && NodeShape(s, m)
    ensures NodeShape(s', m)
  {
    LogOkGrows(s.hist, s'.hist, s.nodes[m].log);
    CoveredGrows(s.hist, s'.hist, s.nodes[m].commit, s.nodes[m].term, s.nodes[m].term);
  }

  lemma CandidateKept(s: Cluster, s': Cluster, n: NodeName, m: NodeName)
    requires StepOf(s, s', n) && m in s.nodes && m != n && CandidateOk(s, m)
    ensures CandidateOk(s', m)
  {
    var x := s.nodes[m];
    if x.role == Candidate && x.term !in s.hist.elected {
      VotedInGrows(s.hist, s'.hist, x.term, m, m, LastIndex(x.log), LastTerm(x.log));
    }
  }

  lemma PeerKept(s: Cluster, s': Cluster, x: Node, p: NodeName)
    requires Grows(s.hist, s'.hist) && p in x.peers && PeerOk(s, x, p)
    ensures PeerOk(s', x, p)
  {
    var e := x.peers[p];
    if Acked(s.hist, x.term, p, e.nextIndex) { AckedGrows(s.hist, s'.hist, x.term, p, e.nextIndex); }
    if Acked(s.hist, x.term, p, e.matchIndex + 1) { AckedGrows(s.hist, s'.hist, x.term, p, e.matchIndex + 1); }
  }

  lemma LeaderKept(s: Cluster, s': Cluster, n: NodeName, m: NodeName)
    requires StepOf(s, s', n) && m in s.nodes && m != n && LeaderOk(s, m)
    requires s.nodes[m].role == Leader ==>
               s.nodes[m].term in s'.hist.tlog && s'.hist.tlog[s.nodes[m].term] == s.nodes[m].log
    ensures LeaderOk(s', m)
  {
    var x := s.nodes[m];
    if x.role == Leader {
      AckedGrows(s.hist, s'.hist, x.term, m, |x.log|);
      forall p | p in x.peers ensures PeerOk(s', x, p) {
        PeerKept(s, s', x, p);
      }
    }
  }

  lemma BackedKept(s: Cluster, s': Cluster, a: Ack, seen: nat)
    requires s.net <= s'.net && a.term in s.hist.elected && Grows(s.hist, s'.hist)
    ensures Backed(s, a, seen) ==> Backed(s', a, seen)
  {
  }

  lemma AckHeldKept(s: Cluster, s': Cluster, n: NodeName, a: Ack)
    requires StepOf(s, s', n) && a in s.hist.acks && AckHeld(s, a) && AckOk(s.hist, a) && a.node != n
    ensures AckHeld(s', a)
  {
    var x := s.nodes[a.node];
    KeptUpToGrows(s.hist, s'.hist, a.term, a.len, x.log, x.term, x.term);
    if x.term == a.term && x.role == Follower {
      var b :| b in s.hist.acks && b.term == a.term && b.node == a.node && b.len == |x.log|;
      assert b in s'.hist.acks;
    }
    BackedKept(s, s', a, x.lastSeq);
  }

  lemma VoteRequestKept(s: Cluster, s': Cluster, n: NodeName, r: Message)
    requires StepOf(s, s', n) && r.VoteRequest? && VoteRequestOk(s, r)
    requires n == r.src && s'.nodes[n].term == r.term && r.term !in s'.hist.elected ==>
               && s'.nodes[n].role == s.nodes[n].role
               && s'.nodes[n].term == s.nodes[n].term && s'.nodes[n].log == s.nodes[n].log
    ensures VoteRequestOk(s', r)
  {
  }

  /** A granted vote by a node of the winning quorum was for the winner. */
  ghost predicate RepliesForWinner(e: Election, r: Message) {
    r.VoteReply? && r.granted && r.src in e.quorum ==> r.dst == e.leader
  }

  lemma VoteReplyKept(s: Cluster, s': Cluster, n: NodeName, r: Message)
    requires StepOf(s, s', n) && r.VoteReply? && VoteReplyOk(s, r)
    requires r.term in s'.hist.elected && r.term !in s.hist.elected ==> RepliesForWinner(s'.hist.elected[r.term], r)
    ensures VoteReplyOk(s', r)
  {
    if r.granted && r.term !in s'.hist.elected {
      var v :| v in s.hist.votes && v.term == r.term && v.voter == r.src && v.cand == r.dst;
      assert v in s'.hist.votes;
    }
  }

  lemma AppendRequestKept(s: Cluster, s': Cluster, n: NodeName, r: Message)
    requires StepOf(s, s', n) && r.AppendRequest? && AppendRequestOk(s, r)
    requires forall t :: t in s.hist.elected ==> ElectedOk(s, t)
    ensures AppendRequestOk(s', r)
  {
    assert ElectedOk(s, r.term);
    CoveredGrows(s.hist, s'.hist, r.leaderCommit, r.term, r.term);
    if Acked(s.hist, r.term, r.dst, r.prevIndex + 1) {
      AckedGrows(s.hist, s'.hist, r.term, r.dst, r.prevIndex + 1);
    } else {
      CoveredGrows(s.hist, s'.hist, r.prevIndex, r.term, r.term);
    }
    var tl, tl' := s.hist.tlog[r.term], s'.hist.tlog[r.term];
    assert tl[r.prevIndex + 1..Reach(r)] == tl'[r.prevIndex + 1..Reach(r)];
  }

  lemma AppendReplyKept(s: Cluster, s': Cluster, n: NodeName, r: Message)
    requires StepOf(s, s', n) && r.AppendReply? && AppendReplyOk(s, r)
    requires forall t :: t in s.hist.elected ==> ElectedOk(s, t)
    ensures AppendReplyOk(s', r)
  {
    if r.success {
      AckedGrows(s.hist, s'.hist, r.term, r.src, r.lastIndex + 1);
    } else if r.term == r.asked {
      assert ElectedOk(s, r.asked);
    }
  }

  lemma MessageKept(s: Cluster, s': Cluster, n: NodeName, m: Message)
    requires Inv(s) && StepOf(s, s', n) && m in s.net
    requires Steady(s.nodes[n], s'.nodes[n], s.nodes[n].term in s'.hist.elected)
    requires m.VoteReply? && m.term in s'.hist.elected && m.term !in s.hist.elected ==>
               RepliesForWinner(s'.hist.elected[m.term], m)
    ensures MessageOk(s', m)
  {
    assert MessageOk(s, m);
    match m
    case VoteRequest(_, _, _, _, _, _, _) => VoteRequestKept(s, s', n, m);
    case VoteReply(_, _, _, _, _) => VoteReplyKept(s, s', n, m);
    case AppendRequest(_, _, _, _, _, _, _, _, _) => AppendRequestKept(s, s', n, m);
    case AppendReply(_, _, _, _, _, _, _) => AppendReplyKept(s, s', n, m);
  }

  /** Within a term a follower stays follower and keeps its vote, and a candidate stands still until a leader exists. */
  ghost predicate Steady(x: Node, y: Node, hasLeader: bool) {
    y.term == x.term ==>
      && (x.role == Follower ==> y.role == Follower && (x.votedFor != None ==> y.votedFor == x.votedFor))
      && (x.role == Candidate && !hasLeader ==> y.role == Candidate && y.log == x.log && y.votedFor == x.votedFor)
  }

  lemma ElectedKept(s: Cluster, s': Cluster, n: NodeName, t: nat)
    requires StepOf(s, s', n) && t in s.hist.elected && ElectedOk(s, t)
    requires Steady(s.nodes[n], s'.nodes[n], s.nodes[n].term in s'.hist.elected)
    ensures ElectedOk(s', t)
  {
  }

  lemma OpenVoteKept(s: Cluster, s': Cluster, n: NodeName, v: Vote)
    requires StepOf(s, s', n) && OpenVoteOk(s, v) && LeaderOk(s, n)
    requires Steady(s.nodes[n], s'.nodes[n], s.nodes[n].term in s'.hist.elected)
    ensures OpenVoteOk(s', v)
  {
  }

  /** Node n is sound after its step. */
  ghost predicate NodeSound(s: Cluster, s': Cluster, n: NodeName)
    requires n in s.nodes && n in s'.nodes
  {
    && NodeShape(s', n) && CandidateOk(s', n) && LeaderOk(s', n)
    && Steady(s.nodes[n], s'.nodes[n], s.nodes[n].term in s'.hist.elected)
  }

  /** Only the log of a term that n leads grew, and a term's new winner stands. */
  ghost predicate TermsSound(s: Cluster, s': Cluster, n: NodeName) {
    && (forall t :: t in s.hist.tlog && t in s'.hist.tlog && s'.hist.tlog[t] != s.hist.tlog[t] ==>
          t in s.hist.elected && s.hist.elected[t].leader == n)
    && (forall t :: t in s'.hist.elected && t !in s.hist.elected ==> ElectedOk(s', t))
    && (forall t, r :: t in s'.hist.elected && t !in s.hist.elected && r in s.net && r.VoteReply? && r.term == t ==>
          RepliesForWinner(s'.hist.elected[t], r))
  }

  /** The votes, acknowledgements and messages that a step of n added or touched are sound. */
  ghost predicate AddedSound(s: Cluster, s': Cluster, n: NodeName) {
    && (forall v :: v in s'.hist.votes && v !in s.hist.votes ==> OpenVoteOk(s', v))
    && (forall a :: a in s'.hist.acks && (a !in s.hist.acks || a.node == n) ==> AckHeld(s', a))
    && (forall m :: m in s'.net && m !in s.net ==> MessageOk(s', m))
    && RequestsGrow(s'.net)
  }

  /** The invariant after a step of node n, given it for what the step touched. */
  lemma StepKeepsInv(s: Cluster, s': Cluster, n: NodeName)
    requires Inv(s) && StepOf(s, s', n)
    requires HistOk(s'.hist) && NodeSound(s, s', n) && TermsSound(s, s', n) && AddedSound(s, s', n)
    ensures Inv(s')
  {
    forall m | m in s'.nodes ensures NodeShape(s', m) && CandidateOk(s', m) && LeaderOk(s', m) {
      if m != n {
        assert NodeShape(s, m) && CandidateOk(s, m) && LeaderOk(s, m);
        NodeShapeKept(s, s', n, m);
        CandidateKept(s, s', n, m);
        LeaderKept(s, s', n, m);
      }
    }
    forall t | t in s'.hist.elected ensures ElectedOk(s', t) {
      if t in s.hist.elected { ElectedKept(s, s', n, t); }
    }
    forall v | v in s'.hist.votes ensures OpenVoteOk(s', v) {
      if v in s.hist.votes { OpenVoteKept(s, s', n, v); }
    }
    forall a | a in s'.hist.acks ensures AckHeld(s', a) {
      if a in s.hist.acks && a.node != n {
        assert AckOk(s.hist, a);
        AckHeldKept(s, s', n, a);
      }
    }
    forall m | m in s'.net ensures MessageOk(s', m) {
      if m in s.net { MessageKept(s, s', n, m); }
    }
  }
}
