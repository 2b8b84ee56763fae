/** The small steps that the handlers are made of, each shown to keep the invariant. */
module RaftSteps {
  import opened Collections
  import opened RaftLog
  import opened RaftModel
  import opened RaftHistory
  import opened RaftCluster
  import opened RaftInvariant
  import opened RaftPreserve

  // ---------- stepping down ----------

  lemma AckHeldLater(s: Cluster, s': Cluster, n: NodeName, a: Ack)
    requires StepOf(s, s', n) && a in s.hist.acks && AckHeld(s, a) && AckOk(s.hist, a) && a.node == n
    requires s'.nodes[n].log == s.nodes[n].log && s'.nodes[n].term > a.term
    ensures AckHeld(s', a)
  {
    KeptUpToGrows(s.hist, s'.hist, a.term, a.len, s.nodes[n].log, s.nodes[n].term, s'.nodes[n].term);
  }

  /** Entering a newer term with the same log leaves every acknowledgement held. */
  lemma AcksHeldLater(s: Cluster, s': Cluster, n: NodeName)
    requires StepOf(s, s', n) && RecordOk(s) && HistOk(s.hist)
    requires s'.nodes[n].log == s.nodes[n].log
    requires s'.nodes[n].term > s.nodes[n].term || s.nodes[n].role == Candidate
    ensures forall a :: a in s.hist.acks && a.node == n ==> AckHeld(s', a)
  {
    forall a | a in s.hist.acks && a.node == n ensures AckHeld(s', a) {
      assert AckHeld(s, a) && AckOk(s.hist, a);
      AckHeldLater(s, s', n, a);
    }
  }

  lemma AckHeldSame(s: Cluster, s': Cluster, n: NodeName, a: Ack)
    requires StepOf(s, s', n) && a in s.hist.acks && AckHeld(s, a) && AckOk(s.hist, a) && a.node == n
    requires var x, y := s.nodes[n], s'.nodes[n];
             y.log == x.log && y.term == x.term && y.role == x.role && y.lastSeq == x.lastSeq
    requires s'.hist.tlog == s.hist.tlog
    ensures AckHeld(s', a)
  {
    var x := s.nodes[n];
    KeptUpToGrows(s.hist, s'.hist, a.term, a.len, x.log, x.term, x.term);
    if x.term == a.term && x.role == Follower {
      BackedKept(s, s', a, x.lastSeq);
      var b :| b in s.hist.acks && b.term == a.term && b.node == a.node && b.len == |x.log|;
      assert b in s'.hist.acks;
    }
  }

  /** So does a step after which the node has the same log, term, role and sequence number. */
  lemma AcksHeldSame(s: Cluster, s': Cluster, n: NodeName)
    requires StepOf(s, s', n) && RecordOk(s) && HistOk(s.hist)
    requires var x, y := s.nodes[n], s'.nodes[n];
             y.log == x.log && y.term == x.term && y.role == x.role && y.lastSeq == x.lastSeq
    requires s'.hist.tlog == s.hist.tlog
    ensures forall a :: a in s.hist.acks && a.node == n ==> AckHeld(s', a)
  {
    forall a | a in s.hist.acks && a.node == n ensures AckHeld(s', a) {
      assert AckHeld(s, a) && AckOk(s.hist, a);
      AckHeldSame(s, s', n, a);
    }
  }

  /** A step that only changes node n keeps the invariant when n and its acknowledgements stay sound. */
  lemma PutKeeps(s: Cluster, n: NodeName, y: Node)
    requires Inv(s) && n in s.nodes && y.name == n && Evolves(s.nodes[n], y)
    requires NodeSound(s, Put(s, y), n)
    requires forall a :: a in s.hist.acks && a.node == n ==> AckHeld(Put(s, y), a)
    ensures Inv(Put(s, y))
  {
    StepKeepsInv(s, Put(s, y), n);
  }

  /** Becoming follower of a newer term, or, as a candidate, of the leader of its own term. */
  lemma StepDownKeeps(s: Cluster, n: NodeName, y: Node)
    requires Inv(s) && n in s.nodes
    requires y == BecomeFollower(s.nodes[n], y.term).(leaderName := y.leaderName, peers := y.peers)
    requires || y.term > s.nodes[n].term
             || (y.term == s.nodes[n].term && s.nodes[n].role == Candidate && y.term in s.hist.elected)
    requires y.peers.Keys == s.nodes[n].peers.Keys
    requires forall p :: p in y.peers ==> y.peers[p].seqNr == s.nodes[n].peers[p].seqNr
    ensures Inv(Put(s, y))
  {
    var x := s.nodes[n];
    var s' := Put(s, y);
    assert NodeShape(s, n);
    CoveredGrows(s.hist, s.hist, x.commit, x.term, y.term);
    AcksHeldLater(s, s', n);
    PutKeeps(s, n, y);
  }

  lemma NoteLeaderKeeps(s: Cluster, n: NodeName, leader: Option<NodeName>)
    requires Inv(s) && n in s.nodes
    ensures Inv(Put(s, s.nodes[n].(leaderName := leader)))
  {
    var s' := Put(s, s.nodes[n].(leaderName := leader));
    assert NodeShape(s, n) && CandidateOk(s, n) && LeaderOk(s, n);
    forall p | p in s.nodes[n].peers && s.nodes[n].role == Leader ensures PeerOk(s', s'.nodes[n], p) {
      assert PeerOk(s, s.nodes[n], p);
    }
    AcksHeldSame(s, s', n);
    PutKeeps(s, n, s'.nodes[n]);
  }

  // ---------- elections ----------

  /** Recording a sound vote of a term without a leader, by a node that has not voted for another in it. */
  lemma VoteNoted(h: History, v: Vote)
    requires HistOk(h)
    requires v.term !in h.elected ==> VoteOk(h.(votes := h.votes + {v}), v)
    requires v.term !in h.elected ==>
               forall w :: w in h.votes && w.term == v.term && w.voter == v.voter ==> w.cand == v.cand
    ensures HistOk(NoteVote(h, v)) && Grows(h, NoteVote(h, v))
  {
    HistOkGrows(h, NoteVote(h, v));
  }

  lemma ElectHistory(s: Cluster, n: NodeName)
    requires Inv(s) && n in s.nodes && s.nodes[n].role != Leader
    ensures HistOk(DoElect(s, n).hist) && Grows(s.hist, DoElect(s, n).hist)
    ensures VoteIsCast(DoElect(s, n), s.nodes[n].term + 1, n)
  {
    var x := s.nodes[n];
    var v := Vote(x.term + 1, n, n, x.log, LastIndex(x.log), LastTerm(x.log));
    assert NodeShape(s, n);
    OwnVoteOk(s, n, s.hist.(votes := s.hist.votes + {v}), v);
    forall w | w in s.hist.votes && w.voter == n ensures w.term < v.term {
      assert OpenVoteOk(s, w);
    }
    VoteNoted(s.hist, v);
    assert v.term !in s.hist.elected ==> v in NoteVote(s.hist, v).votes;
  }

  /** n has voted for itself in term t, unless t has a leader. */
  ghost predicate VoteIsCast(s: Cluster, t: nat, n: NodeName)
    requires n in s.nodes
  {
    t in s.hist.elected || VotedIn(s.hist, t, n, n, LastIndex(s.nodes[n].log), LastTerm(s.nodes[n].log))
  }

  lemma OwnVoteOk(s: Cluster, n: NodeName, g: History, v: Vote)
    requires Inv(s) && n in s.nodes && Grows(s.hist, g) && g.acks == s.hist.acks
    requires var x := s.nodes[n]; v == Vote(x.term + 1, n, n, x.log, LastIndex(x.log), LastTerm(x.log))
    ensures VoteOk(g, v)
  {
    var x := s.nodes[n];
    assert NodeShape(s, n);
    LogOkGrows(s.hist, g, x.log);
    forall a | a in g.acks && a.node == n && a.term < v.term && a.term in g.tlog
      ensures KeptUpTo(g, a.term, a.len, v.log, v.term - 1)
    {
      assert AckHeld(s, a) && AckOk(s.hist, a);
      KeptUpToGrows(s.hist, g, a.term, a.len, x.log, x.term, x.term);
    }
  }

  /** The node after it has stood for election and asked its peers. */
  lemma Stood(x: Node)
    ensures var y := CountSent(StartElection(x));
            && y == x.(role := Candidate, term := x.term + 1, votedFor := Some(x.name), leaderName := None,
                       peers := y.peers)
            && y.peers.Keys == x.peers.Keys
            && forall p :: p in x.peers ==> !y.peers[p].votedForMe && y.peers[p].seqNr == x.peers[p].seqNr + 1
  {
  }

  lemma ElectNode(s: Cluster, n: NodeName)
    requires n in s.nodes && NodeShape(s, n) && s.nodes[n].role != Leader
    requires Grows(s.hist, DoElect(s, n).hist) && VoteIsCast(DoElect(s, n), s.nodes[n].term + 1, n)
    ensures StepOf(s, DoElect(s, n), n)
    ensures NodeShape(DoElect(s, n), n) && CandidateOk(DoElect(s, n), n)
  {
    var x := s.nodes[n];
    var s' := DoElect(s, n);
    Stood(x);
    CoveredGrows(s.hist, s'.hist, x.commit, x.term, x.term + 1);
    LogOkGrows(s.hist, s'.hist, x.log);
  }

  lemma ElectNet(s: Cluster, n: NodeName)
    requires Inv(s) && n in s.nodes && s.nodes[n].role != Leader
    ensures forall m :: m in DoElect(s, n).net && m !in s.net ==> MessageOk(DoElect(s, n), m)
    ensures RequestsGrow(DoElect(s, n).net)
  {
    assert NodeShape(s, n);
    ElectHistory(s, n);
  }

  lemma ElectVote(s: Cluster, n: NodeName)
    requires n in s.nodes && NodeShape(s, n)
    ensures forall v :: v in DoElect(s, n).hist.votes && v !in s.hist.votes ==> OpenVoteOk(DoElect(s, n), v)
  {
  }

  lemma ElectKeeps(s: Cluster, n: NodeName)
    requires Inv(s) && n in s.nodes && s.nodes[n].role != Leader
    ensures Inv(DoElect(s, n))
  {
    var s' := DoElect(s, n);
    assert NodeShape(s, n);
    ElectHistory(s, n);
    ElectNode(s, n);
    ElectNet(s, n);
    ElectVote(s, n);
    AcksHeldLater(s, s', n);
    StepKeepsInv(s, s', n);
  }

  /** Before a term has a leader, what was kept up to that term was kept up to the one before. */
  lemma KeptBefore(h: History, t: nat, len: nat, log: Log, T: nat)
    requires HistOk(h) && t in h.tlog && T > 0 && T !in h.elected && KeptUpTo(h, t, len, log, T)
    ensures KeptUpTo(h, t, len, log, T - 1)
  {
    var U: nat := T - 1;
    forall k: nat | k <= len ensures Kept(h, t, k, log, U) {
      assert Kept(h, t, k, log, T);
      if Agree(h.tlog[t], log, k) {
      } else if Overruled(h, t, k, T) {
        var u :| u in h.elected && t < u <= T && !Agree(h.tlog[t], h.elected[u].log, k);
        assert u <= T - 1;
      } else {
        var cp :| cp in h.commits && cp.term <= T && cp.index >= k;
        assert CommitOk(h, cp);
      }
    }
  }

  ghost function DoGrant(s: Cluster, m: Message): Cluster
    requires m.VoteRequest? && m.dst in s.nodes
  {
    var x := s.nodes[m.dst];
    Send(Put(s, x.(lastSeq := m.seqNr, leaderName := None, votedFor := Some(m.src))),
         {VoteReply(m.dst, m.src, m.term, true, m.term)}).(hist :=
      NoteVote(s.hist, Vote(m.term, m.dst, m.src, x.log, m.lastIndex, m.lastTerm)))
  }

  /** A node that may grant a vote in term t has no entry of term t, so that what it acknowledged in t is no more
      than the leader of t started with. */
  lemma VoterHasNone(s: Cluster, m: Message, a: Ack)
    requires Inv(s) && m in s.net && m.VoteRequest? && m.dst in s.nodes && MayVote(s.nodes[m.dst], m)
    requires a in s.hist.acks && a.node == m.dst && a.term == m.term
    ensures a.term in s.hist.elected && a.len <= |s.hist.elected[a.term].log|
  {
    var x := s.nodes[m.dst];
    assert AckHeld(s, a) && MessageOk(s, m) && NodeShape(s, m.dst);
    assert TermLogOk(s.hist, m.term);
    assert x.log[|x.log| - 1] == s.hist.tlog[m.term][|x.log| - 1];
  }

  lemma GrantHistory(s: Cluster, m: Message)
    requires Inv(s) && m in s.net && m.VoteRequest? && m.dst in s.nodes
    requires MayVote(s.nodes[m.dst], m)
    ensures HistOk(DoGrant(s, m).hist) && Grows(s.hist, DoGrant(s, m).hist)
  {
    var n, x := m.dst, s.nodes[m.dst];
    var v := Vote(m.term, n, m.src, x.log, m.lastIndex, m.lastTerm);
    assert NodeShape(s, n) && MessageOk(s, m);
    if m.term !in s.hist.elected {
      GrantedVoteOk(s, m, s.hist.(votes := s.hist.votes + {v}));
      forall w | w in s.hist.votes && w.term == v.term && w.voter == n ensures w.cand == v.cand {
        assert OpenVoteOk(s, w);
      }
    }
    VoteNoted(s.hist, v);
  }

  lemma GrantedVoteOk(s: Cluster, m: Message, g: History)
    requires Inv(s) && m in s.net && m.VoteRequest? && m.dst in s.nodes && MayVote(s.nodes[m.dst], m)
    requires m.term !in s.hist.elected && m.term > 0 && Grows(s.hist, g) && g.acks == s.hist.acks
    ensures VoteOk(g, Vote(m.term, m.dst, m.src, s.nodes[m.dst].log, m.lastIndex, m.lastTerm))
  {
    var x := s.nodes[m.dst];
    assert NodeShape(s, m.dst);
    LogOkGrows(s.hist, g, x.log);
    var U: nat := m.term - 1;
    forall a | a in g.acks && a.node == m.dst && a.term < m.term && a.term in g.tlog
      ensures KeptUpTo(g, a.term, a.len, x.log, U)
    {
      assert AckHeld(s, a) && AckOk(s.hist, a);
      KeptBefore(s.hist, a.term, a.len, x.log, m.term);
      KeptUpToGrows(s.hist, g, a.term, a.len, x.log, U, U);
    }
  }

  lemma GrantAck(s: Cluster, m: Message, a: Ack)
    requires Inv(s) && m in s.net && m.VoteRequest? && m.dst in s.nodes && s.nodes[m.dst].role == Follower
    requires MayVote(s.nodes[m.dst], m)
    requires Grows(s.hist, DoGrant(s, m).hist) && a in s.hist.acks && a.node == m.dst && a.term == s.nodes[m.dst].term
    ensures AckHeld(DoGrant(s, m), a)
  {
    var x := s.nodes[m.dst];
    var s' := DoGrant(s, m);
    assert AckHeld(s, a) && AckOk(s.hist, a);
    VoterHasNone(s, m, a);
    KeptUpToGrows(s.hist, s'.hist, a.term, a.len, x.log, x.term, x.term);
    var b :| b in s.hist.acks && b.term == a.term && b.node == a.node && b.len == |x.log|;
    assert b in s'.hist.acks;
  }

  lemma GrantNode(s: Cluster, m: Message)
    requires m.VoteRequest? && m.dst in s.nodes && NodeShape(s, m.dst) && s.nodes[m.dst].role == Follower
    requires Grows(s.hist, DoGrant(s, m).hist)
    ensures StepOf(s, DoGrant(s, m), m.dst) && NodeShape(DoGrant(s, m), m.dst)
  {
    var x := s.nodes[m.dst];
    var s' := DoGrant(s, m);
    LogOkGrows(s.hist, s'.hist, x.log);
    CoveredGrows(s.hist, s'.hist, x.commit, x.term, x.term);
  }

  /** The reply that grants a vote is backed by the vote on record, or by the election it came too late for. */
  lemma GrantReply(s: Cluster, m: Message)
    requires Inv(s) && m in s.net && m.VoteRequest? && m.dst in s.nodes && s.nodes[m.dst].role == Follower
    requires MayVote(s.nodes[m.dst], m) && StepOf(s, DoGrant(s, m), m.dst)
    ensures MessageOk(DoGrant(s, m), VoteReply(m.dst, m.src, m.term, true, m.term))
    ensures forall v :: v in DoGrant(s, m).hist.votes && v !in s.hist.votes ==> OpenVoteOk(DoGrant(s, m), v)
  {
    var s' := DoGrant(s, m);
    assert MessageOk(s, m) && NodeShape(s, m.dst) && NodeShape(s, m.src);
    if m.term in s.hist.elected {
      assert ElectedOk(s, m.term);
    } else {
      assert Vote(m.term, m.dst, m.src, s.nodes[m.dst].log, m.lastIndex, m.lastTerm) in s'.hist.votes;
    }
  }

  lemma GrantKeeps(s: Cluster, m: Message)
    requires Inv(s) && m in s.net && m.VoteRequest? && m.dst in s.nodes
    requires MayVote(s.nodes[m.dst], m)
    ensures Inv(DoGrant(s, m))
  {
    var n := m.dst;
    var x := s.nodes[n];
    var s' := DoGrant(s, m);
    GrantHistory(s, m);
    assert NodeShape(s, n) && LeaderOk(s, n) && MessageOk(s, m);
    assert x.role == Follower;
    GrantNode(s, m);
    GrantReply(s, m);
    GrantAcks(s, m);
    assert AddedSound(s, s', n);
    StepKeepsInv(s, s', n);
  }

  lemma GrantAcks(s: Cluster, m: Message)
    requires Inv(s) && m in s.net && m.VoteRequest? && m.dst in s.nodes && s.nodes[m.dst].role == Follower
    requires MayVote(s.nodes[m.dst], m)
    requires StepOf(s, DoGrant(s, m), m.dst)
    ensures forall a :: a in s.hist.acks && a.node == m.dst ==> AckHeld(DoGrant(s, m), a)
  {
    forall a | a in s.hist.acks && a.node == m.dst ensures AckHeld(DoGrant(s, m), a) {
      assert AckHeld(s, a) && AckOk(s.hist, a);
      if a.term == s.nodes[m.dst].term {
        GrantAck(s, m, a);
      } else {
        AckHeldLater(s, DoGrant(s, m), m.dst, a);
      }
    }
  }

  lemma CountVoteKeeps(s: Cluster, m: Message)
    requires Inv(s) && m in s.net && m.VoteReply? && m.dst in s.nodes && m.src in s.nodes[m.dst].peers
    requires s.nodes[m.dst].role == Candidate && TimelyReply(s, m)
    ensures Inv(Put(s, CountVote(s.nodes[m.dst], m)))
  {
    var n := m.dst;
    var y := CountVote(s.nodes[n], m);
    assert NodeShape(s, n) && CandidateOk(s, n) && MessageOk(s, m);
    CountVoteNode(s, m);
    AcksHeldSame(s, Put(s, y), n);
    PutKeeps(s, n, y);
  }

  lemma CountVoteNode(s: Cluster, m: Message)
    requires m in s.net && m.VoteReply? && m.dst in s.nodes && m.src in s.nodes[m.dst].peers
    requires s.nodes[m.dst].role == Candidate && TimelyReply(s, m)
    requires NodeShape(s, m.dst) && CandidateOk(s, m.dst) && VoteReplyOk(s, m)
    ensures var y := CountVote(s.nodes[m.dst], m);
            && y.name == m.dst && Evolves(s.nodes[m.dst], y)
            && StepOf(s, Put(s, y), m.dst) && NodeSound(s, Put(s, y), m.dst)
  {
  }

  // ---------- winning ----------

  lemma MajorityOf(s: Cluster, n: NodeName, q: set<NodeName>)
    requires Inv(s) && n in s.nodes && q <= {s.nodes[n].name} + s.nodes[n].peers.Keys && EnoughVotes(|q|, s.nodes[n])
    ensures Majority(q, s.hist.members)
  {
    assert NodeShape(s, n);
    assert s.hist.members == s.nodes[n].peers.Keys + {n};
  }

  /** No supporter of a candidate is in the quorum that elected the winner of its term. */
  lemma QuorumBacksWinner(s: Cluster, n: NodeName, m: NodeName)
    requires Inv(s) && n in s.nodes && s.nodes[n].role == Candidate && s.nodes[n].term in s.hist.elected
    requires m in Supporters(s.nodes[n])
    ensures m !in s.hist.elected[s.nodes[n].term].quorum
  {
    var x := s.nodes[n];
    assert NodeShape(s, n) && CandidateOk(s, n) && ElectedOk(s, x.term);
    if m != n {
      assert MessageOk(s, VoteReply(m, n, x.term, true, x.term));
    }
  }

  /** A candidate with enough votes is the first winner of its term. */
  lemma NoRival(s: Cluster, n: NodeName)
    requires Inv(s) && n in s.nodes && s.nodes[n].role == Candidate && WinsElection(s.nodes[n])
    ensures s.nodes[n].term !in s.hist.elected
  {
    var x := s.nodes[n];
    MajorityOf(s, n, Supporters(x));
    if x.term in s.hist.elected {
      assert ElectionOk(s.hist, x.term);
      var m := QuorumsIntersect(Supporters(x), s.hist.elected[x.term].quorum, s.hist.members);
      QuorumBacksWinner(s, n, m);
    }
  }

  lemma SupportersVoted(s: Cluster, n: NodeName, m: NodeName)
    requires Inv(s) && n in s.nodes && s.nodes[n].role == Candidate && s.nodes[n].term !in s.hist.elected
    requires m in Supporters(s.nodes[n])
    ensures VotedIn(s.hist, s.nodes[n].term, m, n, LastIndex(s.nodes[n].log), LastTerm(s.nodes[n].log))
  {
    var x := s.nodes[n];
    assert NodeShape(s, n) && CandidateOk(s, n);
    if m != n {
      assert MessageOk(s, VoteReply(m, n, x.term, true, x.term));
      var v :| v in s.hist.votes && v.term == x.term && v.voter == m && v.cand == n;
      assert OpenVoteOk(s, v);
    }
  }

  ghost function DoWin(s: Cluster, n: NodeName): Cluster
    requires n in s.nodes
  {
    var x := BecomeLeader(s.nodes[n]);
    Put(s, x).(hist := NoteElection(s.hist, s.nodes[n], x))
  }

  lemma SameSupporters(x: Node)
    ensures Supporters(BecomeLeader(x)) == Supporters(x)
  {
  }

  lemma SupportersElect(s: Cluster, n: NodeName)
    requires Inv(s) && n in s.nodes && s.nodes[n].role == Candidate && WinsElection(s.nodes[n])
    ensures var x := s.nodes[n];
            && Majority(Supporters(x), s.hist.members)
            && forall m :: m in Supporters(x) ==> VotedIn(s.hist, x.term, m, n, LastIndex(x.log), LastTerm(x.log))
  {
    var x := s.nodes[n];
    NoRival(s, n);
    MajorityOf(s, n, Supporters(x));
    forall m | m in Supporters(x) ensures VotedIn(s.hist, x.term, m, n, LastIndex(x.log), LastTerm(x.log)) {
      SupportersVoted(s, n, m);
    }
  }

  lemma ElectionNoted(h: History, x: Node)
    requires x.role == Candidate && x.term !in h.elected && x.term !in h.tlog
    ensures var g := NoteElection(h, x, BecomeLeader(x));
            && Grows(h, g) && g.elected == h.elected[x.term := Election(x.name, Supporters(x), x.log)]
            && g.tlog == h.tlog[x.term := x.log] && g.votes == h.votes
  {
    SameSupporters(x);
  }

  lemma ElectionSound(h: History, g: History, t: nat, e: Election)
    requires Grows(h, g) && t in g.elected && g.elected[t] == e && e.leader in h.members
    requires Majority(e.quorum, h.members)
    requires forall m :: m in e.quorum ==> VotedIn(h, t, m, e.leader, LastIndex(e.log), LastTerm(e.log))
    ensures ElectionOk(g, t)
  {
    forall m | m in e.quorum ensures VotedIn(g, t, m, e.leader, LastIndex(e.log), LastTerm(e.log)) {
      VotedInGrows(h, g, t, m, e.leader, LastIndex(e.log), LastTerm(e.log));
    }
  }

  lemma WinElection(s: Cluster, n: NodeName)
    requires Inv(s) && n in s.nodes && s.nodes[n].role == Candidate && WinsElection(s.nodes[n])
    ensures var g := DoWin(s, n).hist;
            s.nodes[n].term in g.elected && ElectionOk(g, s.nodes[n].term) && Grows(s.hist, g)
  {
    var x := s.nodes[n];
    assert NodeShape(s, n);
    NoRival(s, n);
    ElectionNoted(s.hist, x);
    SupportersElect(s, n);
    ElectionSound(s.hist, DoWin(s, n).hist, x.term, Election(n, Supporters(x), x.log));
  }

  lemma ElectionRecorded(h: History, y: Node, x: Node)
    requires HistOk(h) && y.role != Leader && x.role == Leader && x.term !in h.elected
    requires Grows(h, NoteElection(h, y, x)) && LogOk(h, x.log)
    requires ElectionOk(NoteElection(h, y, x), x.term)
    requires forall i :: 0 <= i < |x.log| ==> x.log[i].term < x.term
    requires forall v :: v in h.votes && v.voter == x.name ==> x.term >= v.term
    ensures HistOk(NoteElection(h, y, x))
  {
    LogOkGrows(h, NoteElection(h, y, x), x.log);
    HistOkGrows(h, NoteElection(h, y, x));
  }

  lemma WinHistory(s: Cluster, n: NodeName)
    requires Inv(s) && n in s.nodes && s.nodes[n].role == Candidate && WinsElection(s.nodes[n])
    ensures HistOk(DoWin(s, n).hist) && Grows(s.hist, DoWin(s, n).hist)
  {
    var x := s.nodes[n];
    NoRival(s, n);
    WinElection(s, n);
    assert NodeShape(s, n) && CandidateOk(s, n);
    forall v | v in s.hist.votes && v.voter == n ensures x.term >= v.term {
      assert OpenVoteOk(s, v);
    }
    ElectionRecorded(s.hist, x, BecomeLeader(x));
  }

  /** What a candidate knows to be committed is in its log by the time it wins. */
  lemma WinnerHoldsCommit(s: Cluster, n: NodeName)
    requires Inv(s) && n in s.nodes && s.nodes[n].role == Candidate && WinsElection(s.nodes[n])
    ensures s.nodes[n].commit < |s.nodes[n].log|
  {
    var x := s.nodes[n];
    NoRival(s, n);
    SupportersElect(s, n);
    assert NodeShape(s, n) && CandidateOk(s, n);
    if x.commit > 0 {
      var cp :| cp in s.hist.commits && cp.term <= x.term && cp.index >= x.commit;
      assert CommitOk(s.hist, cp);
      QuorumCompleteness(s.hist, cp, x.term, n, Supporters(x), x.log);
    }
  }

  lemma WinnerStands(s: Cluster, n: NodeName)
    requires Inv(s) && n in s.nodes && s.nodes[n].role == Candidate && WinsElection(s.nodes[n])
    ensures s.nodes[n].term in DoWin(s, n).hist.elected && ElectedOk(DoWin(s, n), s.nodes[n].term)
    ensures forall r :: r in s.net && r.VoteReply? && r.term == s.nodes[n].term ==>
              RepliesForWinner(DoWin(s, n).hist.elected[s.nodes[n].term], r)
  {
    var x := s.nodes[n];
    var t := x.term;
    var e := DoWin(s, n).hist.elected[t];
    NoRival(s, n);
    assert NodeShape(s, n);
    SameSupporters(x);
    forall m | m in e.quorum && m in s.nodes && m != n
      ensures s.nodes[m].term >= t
      ensures s.nodes[m].term == t ==> s.nodes[m].votedFor == Some(n) && s.nodes[m].role == Follower
    {
      SupportersVoted(s, n, m);
      var v :| v in s.hist.votes && v.term == t && v.voter == m && v.cand == n;
      assert OpenVoteOk(s, v) && NodeShape(s, m);
    }
    forall r | r in s.net && r.VoteReply? && r.term == t ensures RepliesForWinner(e, r) {
      if r.granted && r.src in e.quorum {
        assert MessageOk(s, r);
        var v :| v in s.hist.votes && v.term == t && v.voter == r.src && v.cand == r.dst;
        SupportersVoted(s, n, r.src);
        var w :| w in s.hist.votes && w.term == t && w.voter == r.src && w.cand == n;
      }
    }
  }

  lemma WinNode(s: Cluster, n: NodeName)
    requires n in s.nodes && NodeShape(s, n) && s.nodes[n].role == Candidate && s.nodes[n].term !in s.hist.elected
    requires Grows(s.hist, DoWin(s, n).hist) && s.nodes[n].commit < |s.nodes[n].log|
    ensures StepOf(s, DoWin(s, n), n)
    ensures NodeShape(DoWin(s, n), n) && LeaderOk(DoWin(s, n), n)
    ensures forall a :: a in DoWin(s, n).hist.acks && a !in s.hist.acks ==> AckHeld(DoWin(s, n), a)
  {
    var x := s.nodes[n];
    var s' := DoWin(s, n);
    LogOkGrows(s.hist, s'.hist, x.log);
    CoveredGrows(s.hist, s'.hist, x.commit, x.term, x.term);
    assert Ack(x.term, n, |x.log|) in s'.hist.acks;
    assert forall k: nat :: k <= |x.log| ==> Kept(s'.hist, x.term, k, x.log, x.term);
  }

  lemma WinSound(s: Cluster, n: NodeName)
    requires Inv(s) && n in s.nodes && s.nodes[n].role == Candidate && WinsElection(s.nodes[n])
    ensures StepOf(s, DoWin(s, n), n) && NodeSound(s, DoWin(s, n), n)
    ensures forall a :: a in DoWin(s, n).hist.acks && (a !in s.hist.acks || a.node == n) ==> AckHeld(DoWin(s, n), a)
  {
    NoRival(s, n);
    WinHistory(s, n);
    WinnerHoldsCommit(s, n);
    assert NodeShape(s, n);
    WinNode(s, n);
    AcksHeldLater(s, DoWin(s, n), n);
  }

  lemma WinTerms(s: Cluster, n: NodeName)
    requires Inv(s) && n in s.nodes && s.nodes[n].role == Candidate && WinsElection(s.nodes[n])
    ensures TermsSound(s, DoWin(s, n), n)
  {
    NoRival(s, n);
    ElectionNoted(s.hist, s.nodes[n]);
    WinnerStands(s, n);
  }

  lemma WinKeeps(s: Cluster, n: NodeName)
    requires Inv(s) && n in s.nodes && s.nodes[n].role == Candidate && WinsElection(s.nodes[n])
    ensures Inv(DoWin(s, n))
  {
    var s' := DoWin(s, n);
    NoRival(s, n);
    ElectionNoted(s.hist, s.nodes[n]);
    WinHistory(s, n);
    WinSound(s, n);
    WinTerms(s, n);
    assert AddedSound(s, s', n);
    StepKeepsInv(s, s', n);
  }
}
