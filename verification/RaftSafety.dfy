/** Safety of every run of a cluster: elections, logs and applied entries. */
module RaftSafety {
  import opened RaftLog
  import opened RaftModel
  import opened RaftHistory
  import opened RaftCluster
  import opened RaftInvariant
  import opened RaftPreserve
  import opened RaftSteps
  import opened RaftReplicate
  import opened RaftFollow

  // ---------- a leader reads a reply ----------

  lemma NotePeerKeeps(s: Cluster, n: NodeName, p: NodeName, last: int)
    requires Inv(s) && n in s.nodes && s.nodes[n].role == Leader && p in s.nodes[n].peers
    requires 0 <= last < |s.nodes[n].log|
    requires last <= s.nodes[n].commit || Acked(s.hist, s.nodes[n].term, p, last + 1)
    ensures Inv(Put(s, NotePeer(s.nodes[n], p, last)))
  {
    var y := NotePeer(s.nodes[n], p, last);
    assert NodeShape(s, n) && CandidateOk(s, n) && LeaderOk(s, n);
    NotePeerNode(s, n, p, last);
    AcksHeldSame(s, Put(s, y), n);
    PutKeeps(s, n, y);
  }

  lemma NotePeerNode(s: Cluster, n: NodeName, p: NodeName, last: int)
    requires n in s.nodes && s.nodes[n].role == Leader && p in s.nodes[n].peers && 0 <= last < |s.nodes[n].log|
    requires NodeShape(s, n) && CandidateOk(s, n) && LeaderOk(s, n)
    requires last <= s.nodes[n].commit || Acked(s.hist, s.nodes[n].term, p, last + 1)
    ensures var y := NotePeer(s.nodes[n], p, last);
            && y.name == n && Evolves(s.nodes[n], y) && StepOf(s, Put(s, y), n) && NodeSound(s, Put(s, y), n)
  {
    var x := s.nodes[n];
    var y := NotePeer(x, p, last);
    forall q | q in y.peers ensures PeerOk(Put(s, y), y, q) {
      assert PeerOk(s, x, q);
    }
  }

  ghost function DoCommit(s: Cluster, n: NodeName, i: int): Cluster
    requires n in s.nodes && Contiguous(s.nodes[n].log)
  {
    var x := s.nodes[n];
    var y := TryCommit(x, i);
    Put(s, y).(hist := NoteApplied(NoteCommit(s.hist, x, y), x, y))
  }

  ghost predicate Commits(s: Cluster, n: NodeName, i: int) {
    n in s.nodes && Contiguous(s.nodes[n].log) && s.nodes[n].role == Leader && MayCommit(s.nodes[n], i)
  }

  lemma CommitPointOk(s: Cluster, n: NodeName, i: int)
    requires Inv(s) && Commits(s, n, i)
    ensures i > 0 && CommitOk(s.hist, CommitPoint(s.nodes[n].term, i, Holders(s.nodes[n], i)))
  {
    var x := s.nodes[n];
    assert NodeShape(s, n) && LeaderOk(s, n);
    LogIndex(s.hist, x.log);
    MajorityOf(s, n, Holders(x, i));
    forall m | m in Holders(x, i) ensures Acked(s.hist, x.term, m, i + 1) {
      if m != n { assert PeerOk(s, x, m); }
    }
  }

  lemma CommitRecorded(h: History, x: Node, i: int)
    requires HistOk(h) && Contiguous(x.log) && x.role == Leader && MayCommit(x, i) && i > 0
    requires x.term in h.tlog && x.log == h.tlog[x.term] && x.log[0].index == 0 && 0 <= x.commit == x.applied
    requires CommitOk(h, CommitPoint(x.term, i, Holders(x, i)))
    ensures var g := NoteApplied(NoteCommit(h, x, TryCommit(x, i)), x, TryCommit(x, i));
            HistOk(g) && Grows(h, g) && Covered(g, i, x.term)
  {
    var y := TryCommit(x, i);
    var g := NoteApplied(NoteCommit(h, x, y), x, y);
    var cp := CommitPoint(x.term, i, Holders(x, i));
    assert Holders(y, i) == Holders(x, i);
    assert cp in g.commits;
    CommitOkGrows(h, g, cp);
    forall a | a in g.applied && a !in h.applied ensures AppliedOk(g, a) {
      assert h.tlog[x.term][a.index] == a.entry;
    }
    HistOkGrows(h, g);
  }

  lemma CommitHistory(s: Cluster, n: NodeName, i: int)
    requires Inv(s) && Commits(s, n, i)
    ensures HistOk(DoCommit(s, n, i).hist) && Grows(s.hist, DoCommit(s, n, i).hist)
    ensures i > 0 && Covered(DoCommit(s, n, i).hist, i, s.nodes[n].term)
  {
    CommitPointOk(s, n, i);
    assert NodeShape(s, n) && LeaderOk(s, n);
    LogIndex(s.hist, s.nodes[n].log);
    CommitRecorded(s.hist, s.nodes[n], i);
  }

  lemma CommitNode(s: Cluster, n: NodeName, i: int)
    requires Commits(s, n, i) && NodeShape(s, n) && CandidateOk(s, n) && LeaderOk(s, n)
    requires i > 0 && Covered(DoCommit(s, n, i).hist, i, s.nodes[n].term) && Grows(s.hist, DoCommit(s, n, i).hist)
    requires s.hist.boot.index == 0
    ensures StepOf(s, DoCommit(s, n, i), n)
    ensures NodeShape(DoCommit(s, n, i), n) && CandidateOk(DoCommit(s, n, i), n) && LeaderOk(DoCommit(s, n, i), n)
  {
    var x := s.nodes[n];
    var s' := DoCommit(s, n, i);
    LogIndex(s.hist, x.log);
    LogOkGrows(s.hist, s'.hist, x.log);
    AckedGrows(s.hist, s'.hist, x.term, n, |x.log|);
    forall p | p in x.peers ensures PeerOk(s', s'.nodes[n], p) {
      assert PeerOk(s, x, p);
      PeerKept(s, s', x, p);
    }
  }

  lemma CommitKeeps(s: Cluster, n: NodeName, i: int)
    requires Inv(s) && Commits(s, n, i)
    ensures Inv(DoCommit(s, n, i))
  {
    var s' := DoCommit(s, n, i);
    assert NodeShape(s, n) && CandidateOk(s, n) && LeaderOk(s, n);
    CommitHistory(s, n, i);
    CommitNode(s, n, i);
    forall a | a in s.hist.acks && a.node == n ensures AckHeld(s', a) {
      assert AckHeld(s, a) && AckOk(s.hist, a);
      KeptUpToGrows(s.hist, s'.hist, a.term, a.len, s.nodes[n].log, s.nodes[n].term, s.nodes[n].term);
    }
    StepKeepsInv(s, s', n);
  }

  lemma ReplyBounds(s: Cluster, m: Message)
    requires Inv(s) && m in s.net && m.dst in s.nodes && m.AppendReply? && TimelyReply(s, m)
    requires s.nodes[m.dst].role == Leader
    requires m.term == s.nodes[m.dst].term
    ensures 0 <= m.lastIndex < |s.nodes[m.dst].log|
    ensures m.success ==> Acked(s.hist, m.term, m.src, m.lastIndex + 1)
    ensures !m.success ==> m.lastIndex <= s.nodes[m.dst].commit
  {
    assert MessageOk(s, m) && LeaderOk(s, m.dst);
    if m.success {
      var a :| a in s.hist.acks && a.term == m.term && a.node == m.src && a.len >= m.lastIndex + 1;
      assert AckOk(s.hist, a);
    }
  }

  lemma AppendReplyKeeps(s: Cluster, m: Message)
    requires Inv(s) && m in s.net && m.dst in s.nodes && m.AppendReply? && TimelyReply(s, m)
    requires Contiguous(s.nodes[m.dst].log)
    ensures Inv(DoAppendReply(s, m))
  {
    var n := m.dst;
    var x := s.nodes[n];
    assert NodeShape(s, n) && MessageOk(s, m);
    if x.role != Leader || m.term < x.term {
      assert DoAppendReply(s, m) == s;
    } else if m.term > x.term {
      var y := OnAppendReply(x, m);
      StepDownKeeps(s, n, y);
      assert DoAppendReply(s, m) == Put(s, y);
    } else {
      ReplyBounds(s, m);
      LogIndex(s.hist, x.log);
      if m.src !in x.peers {
        assert DoAppendReply(s, m) == s;
      } else {
        NotePeerKeeps(s, n, m.src, m.lastIndex);
        ReadReply(s, m);
      }
    }
  }

  lemma ReadReply(s: Cluster, m: Message)
    requires m.dst in s.nodes && m.AppendReply? && Contiguous(s.nodes[m.dst].log)
    requires var x := s.nodes[m.dst];
             && x.role == Leader && x.term == m.term && m.src in x.peers && m.lastIndex <= LastIndex(x.log)
             && x.applied == x.commit && x.commit >= 0 && x.name == m.dst
    requires Inv(Put(s, NotePeer(s.nodes[m.dst], m.src, m.lastIndex)))
    ensures Inv(DoAppendReply(s, m))
  {
    var n := m.dst;
    var y := NotePeer(s.nodes[n], m.src, m.lastIndex);
    var s1 := Put(s, y);
    if m.success && MayCommit(y, m.lastIndex) {
      CommitKeeps(s1, n, m.lastIndex);
      assert DoAppendReply(s, m) == DoCommit(s1, n, m.lastIndex);
    } else {
      assert DoAppendReply(s, m) == s1;
    }
  }

  // ---------- the other handlers ----------

  lemma AdoptLeaderKeeps(s: Cluster, m: Message)
    requires Inv(s) && m in s.net && m.AppendRequest? && m.dst in s.nodes && m.term >= s.nodes[m.dst].term
    requires FirstReaches(s, m)
    ensures m.src in s.nodes[m.dst].peers && s.nodes[m.dst].name == m.dst
    ensures AcceptLeader(s.nodes[m.dst], m.term, m.src).Some?
    ensures var y := AcceptLeader(s.nodes[m.dst], m.term, m.src).value;
            && Inv(Put(s, y)) && y.term == m.term && y.role == Follower && y.log == s.nodes[m.dst].log
            && FirstReaches(Put(s, y), m)
  {
    var n := m.dst;
    var x := s.nodes[n];
    assert NodeShape(s, n) && LeaderOk(s, n) && MessageOk(s, m);
    forall a | a in s.hist.acks && a.node == n ensures a.term <= x.term {
      assert AckHeld(s, a);
    }
    var y := AcceptLeader(x, m.term, m.src).value;
    if m.term > x.term || x.role == Candidate {
      StepDownKeeps(s, n, y);
    } else {
      NoteLeaderKeeps(s, n, y.leaderName);
    }
  }

  lemma AppendRequestKeeps(s: Cluster, m: Message)
    requires Inv(s) && m in s.net && m.AppendRequest? && m.dst in s.nodes && Contiguous(s.nodes[m.dst].log)
    requires FirstReaches(s, m)
    ensures Inv(DoAppendRequest(s, m))
  {
    if m.term < s.nodes[m.dst].term {
      StaleRequestKeeps(s, m);
    } else {
      AdoptLeaderKeeps(s, m);
      FreshRequestKeeps(s, m);
    }
  }

  lemma FreshRequestKeeps(s: Cluster, m: Message)
    requires m in s.net && m.AppendRequest? && m.dst in s.nodes && Contiguous(s.nodes[m.dst].log)
    requires m.src in s.nodes[m.dst].peers && s.nodes[m.dst].name == m.dst
    requires AcceptLeader(s.nodes[m.dst], m.term, m.src).Some?
    requires var y := AcceptLeader(s.nodes[m.dst], m.term, m.src).value;
             && Inv(Put(s, y)) && y.term == m.term && y.role == Follower && y.log == s.nodes[m.dst].log
             && FirstReaches(Put(s, y), m)
    ensures Inv(DoAppendRequest(s, m))
  {
    var y := AcceptLeader(s.nodes[m.dst], m.term, m.src).value;
    var s1 := Put(s, y);
    assert y.name == m.dst && y.applied == s.nodes[m.dst].applied;
    if ValidSeq(y.lastSeq, m.seqNr, m.initial) {
      ProcessKeeps(s1, m);
      assert DoAppendRequest(s, m) == DoProcess(s1, m);
    } else {
      assert DoAppendRequest(s, m) == s1;
    }
  }

  /** A request of an old term changes nothing but the reply it gets. */
  lemma StaleRequestKeeps(s: Cluster, m: Message)
    requires Inv(s) && m in s.net && m.AppendRequest? && m.dst in s.nodes && m.term < s.nodes[m.dst].term
    requires Contiguous(s.nodes[m.dst].log)
    ensures Inv(DoAppendRequest(s, m))
  {
    var x := s.nodes[m.dst];
    assert NodeShape(s, m.dst) && MessageOk(s, m);
    var r := AppendReply(m.dst, m.src, x.term, false, LastIndex(x.log), LastTerm(x.log), m.term);
    ReplyKeeps(s, m.dst, r);
    assert DoAppendRequest(s, m) == Send(s, {r});
  }

  lemma ReplyKeeps(s: Cluster, n: NodeName, r: Message)
    requires Inv(s) && n in s.nodes && (r.VoteReply? || r.AppendReply?) && MessageOk(s, r)
    ensures Inv(Send(s, {r}))
  {
    var s' := Send(s, {r});
    assert NodeShape(s, n) && CandidateOk(s, n) && LeaderOk(s, n);
    SentNode(s, n, r);
    AcksHeldSame(s, s', n);
    assert AddedSound(s, s', n);
    StepKeepsInv(s, s', n);
  }

  lemma SentNode(s: Cluster, n: NodeName, r: Message)
    requires n in s.nodes && NodeShape(s, n) && CandidateOk(s, n) && LeaderOk(s, n)
    ensures StepOf(s, Send(s, {r}), n) && NodeSound(s, Send(s, {r}), n)
  {
    forall p | p in s.nodes[n].peers && s.nodes[n].role == Leader ensures PeerOk(Send(s, {r}), s.nodes[n], p) {
      assert PeerOk(s, s.nodes[n], p);
    }
  }

  /** What answering a vote request comes to, once its term is adopted. */
  lemma VoteAnswered(s: Cluster, m: Message)
    requires m.VoteRequest? && m.dst in s.nodes && s.nodes[m.dst].name == m.dst && m.src in s.nodes[m.dst].peers
    ensures var y := AdoptTerm(s.nodes[m.dst], m.term);
            DoVoteRequest(s, m) ==
              if !MayVote(y, m) then Send(Put(s, y), {VoteReply(m.dst, m.src, y.term, false, m.term)})
              else if !ValidSeq(y.lastSeq, m.seqNr, m.initial) then Put(s, y)
              else DoGrant(Put(s, y), m)
  {
  }

  lemma VoteRequestKeeps(s: Cluster, m: Message)
    requires Inv(s) && m in s.net && m.VoteRequest? && m.dst in s.nodes
    ensures Inv(DoVoteRequest(s, m))
  {
    var n := m.dst;
    var x := s.nodes[n];
    assert NodeShape(s, n) && MessageOk(s, m);
    var y := AdoptTerm(x, m.term);
    var s1 := Put(s, y);
    if m.term > x.term {
      StepDownKeeps(s, n, y);
    } else {
      assert s1 == s;
    }
    VoteAnswered(s, m);
    if !MayVote(y, m) {
      ReplyKeeps(s1, n, VoteReply(n, m.src, y.term, false, m.term));
    } else if ValidSeq(y.lastSeq, m.seqNr, m.initial) {
      GrantKeeps(s1, m);
    }
  }

  lemma VoteReplyKeeps(s: Cluster, m: Message)
    requires Inv(s) && m in s.net && m.dst in s.nodes && m.VoteReply? && TimelyReply(s, m)
    ensures Inv(DoVoteReply(s, m))
  {
    var n := m.dst;
    var x := s.nodes[n];
    assert NodeShape(s, n);
    if x.role != Candidate || m.src !in x.peers {
      assert DoVoteReply(s, m) == s;
    } else if m.term > x.term {
      var y := OnVoteReply(x, m);
      StepDownKeeps(s, n, y);
      assert DoVoteReply(s, m) == Put(s, y);
    } else {
      CountVoteKeeps(s, m);
      CountedVoteKeeps(s, m);
    }
  }

  /** Counting a vote that decides the election is counting it and then winning. */
  lemma CountedVote(s: Cluster, m: Message)
    requires m.VoteReply? && m.dst in s.nodes && m.src in s.nodes[m.dst].peers && m.term <= s.nodes[m.dst].term
    requires s.nodes[m.dst].role == Candidate && s.nodes[m.dst].name == m.dst
    ensures var y := CountVote(s.nodes[m.dst], m);
            DoVoteReply(s, m) == if WinsElection(y) then DoWin(Put(s, y), m.dst) else Put(s, y)
  {
  }

  lemma CountedVoteKeeps(s: Cluster, m: Message)
    requires m.VoteReply? && m.dst in s.nodes && m.src in s.nodes[m.dst].peers && m.term <= s.nodes[m.dst].term
    requires s.nodes[m.dst].role == Candidate && s.nodes[m.dst].name == m.dst
    requires Inv(Put(s, CountVote(s.nodes[m.dst], m)))
    ensures Inv(DoVoteReply(s, m))
  {
    var y := CountVote(s.nodes[m.dst], m);
    CountedVote(s, m);
    if WinsElection(y) {
      WinKeeps(Put(s, y), m.dst);
    }
  }

  lemma ElectionTimeoutKeeps(s: Cluster, n: NodeName)
    requires Inv(s) && n in s.nodes && s.nodes[n].role == Candidate
    ensures Inv(DoElectionTimeout(s, n))
  {
    assert NodeShape(s, n);
    if WinsElection(s.nodes[n]) {
      WinKeeps(s, n);
      assert DoElectionTimeout(s, n) == DoWin(s, n);
    } else {
      assert DoElectionTimeout(s, n) == s;
    }
  }

  // ---------- the invariant of every run ----------

  lemma InitInv(s: Cluster)
    requires Init(s)
    ensures Inv(s)
  {
    forall n | n in s.nodes ensures NodeShape(s, n) && CandidateOk(s, n) && LeaderOk(s, n) {
      InitNodeOk(s, n);
    }
    assert HistOk(s.hist) && RecordOk(s) && NetOk(s);
  }

  lemma InitNodeOk(s: Cluster, n: NodeName)
    requires Init(s) && n in s.nodes
    ensures NodeShape(s, n) && CandidateOk(s, n) && LeaderOk(s, n)
  {
    assert InitNode(s, n);
  }

  lemma NextInv(s: Cluster, a: Action)
    requires Inv(s) && Enabled(s, a)
    ensures Inv(Next(s, a))
  {
    match a
    case Elect(n) => ElectKeeps(s, n);
    case ElectionTimeout(n) => ElectionTimeoutKeeps(s, n);
    case Heartbeat(n) => SendKeeps(s, n);
    case ClientLog(n, kind, data) =>
      AppendLocalKeeps(s, n, kind, data);
      SendKeeps(DoAppendLocal(s, n, kind, data), n);
    case Deliver(m) =>
      match m
      case VoteRequest(_, _, _, _, _, _, _) => VoteRequestKeeps(s, m);
      case VoteReply(_, _, _, _, _) => VoteReplyKeeps(s, m);
      case AppendRequest(_, _, _, _, _, _, _, _, _) => AppendRequestKeeps(s, m);
      case AppendReply(_, _, _, _, _, _, _) => AppendReplyKeeps(s, m);
  }
}
