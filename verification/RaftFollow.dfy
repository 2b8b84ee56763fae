/** A follower answering an append request, and a leader reading the answer. */
module RaftFollow {
  import opened RaftLog
  import opened RaftModel
  import opened RaftHistory
  import opened RaftCluster
  import opened RaftInvariant
  import opened RaftPreserve
  import opened RaftSteps

  ghost function DoProcess(s: Cluster, m: Message): Cluster
    requires m.AppendRequest? && m.dst in s.nodes && Contiguous(s.nodes[m.dst].log)
  {
    var (y, r) := ProcessAppend(s.nodes[m.dst], m);
    var h := if r.Some? && r.value.success
             then s.hist.(acks := s.hist.acks + {Ack(m.term, m.dst, |y.log|)}) else s.hist;
    Reply(Put(s, y), r).(hist := NoteApplied(h, s.nodes[m.dst], y))
  }

  /** What a follower about to process m, a request of its term's leader, relies on. */
  ghost predicate Receives(s: Cluster, m: Message) {
    && m.AppendRequest? && m in s.net && m.dst in s.nodes
    && s.nodes[m.dst].term == m.term && s.nodes[m.dst].role == Follower
    && ValidSeq(s.nodes[m.dst].lastSeq, m.seqNr, m.initial) && FirstReaches(s, m)
  }

  /** The part of the follower's situation that its log depends on. */
  ghost predicate Situation(s: Cluster, m: Message) {
    && Receives(s, m)
    && HistOk(s.hist)
    && NodeShape(s, m.dst)
    && AppendRequestOk(s, m)
  }

  lemma SituationOf(s: Cluster, m: Message)
    requires Inv(s) && Receives(s, m)
    ensures Situation(s, m) && Contiguous(s.nodes[m.dst].log)
    ensures BaseIndex(s.nodes[m.dst].log) == 0 && LastIndex(s.nodes[m.dst].log) == |s.nodes[m.dst].log| - 1
  {
    assert NodeShape(s, m.dst) && MessageOk(s, m);
    LogIndex(s.hist, s.nodes[m.dst].log);
  }

  /** A follower that acknowledged the previous entry in this term still has it. */
  lemma AckedPrevious(s: Cluster, m: Message)
    requires Inv(s) && Receives(s, m) && Acked(s.hist, m.term, m.dst, m.prevIndex + 1)
    ensures 0 <= m.prevIndex < |s.nodes[m.dst].log| && m.term in s.hist.tlog && m.prevIndex < |s.hist.tlog[m.term]|
    ensures s.nodes[m.dst].log[m.prevIndex] == s.hist.tlog[m.term][m.prevIndex]
  {
    var a :| a in s.hist.acks && a.term == m.term && a.node == m.dst && a.len >= m.prevIndex + 1;
    assert AckHeld(s, a);
    assert AckOk(s.hist, a);
    assert MessageOk(s, m);
  }

  // ---------- the request fails ----------

  lemma FailedReplyOk(s: Cluster, m: Message, last: int, s': Cluster, r: Message)
    requires Inv(s) && Receives(s, m) && !Acked(s.hist, m.term, m.dst, m.prevIndex + 1)
    requires 0 <= last < m.prevIndex
    requires StepOf(s, s', m.dst) && s'.hist == s.hist
    requires s'.nodes[m.dst].term == m.term
    requires r.AppendReply? && r.src == m.dst && r.term == m.term && r.asked == m.term && !r.success
    requires r.lastIndex == last
    ensures AppendReplyOk(s', r)
  {
    assert MessageOk(s, m) && ElectedOk(s, m.term);
  }

  /** Entries a follower drops on a conflict were overruled, or lie below a commit point. */
  lemma ConflictKept(s: Cluster, m: Message, a: Ack, keep: nat)
    requires Situation(s, m) && !Acked(s.hist, m.term, m.dst, m.prevIndex + 1)
    requires a.term in s.hist.tlog && a.term < m.term && a.len <= |s.hist.tlog[a.term]|
    requires KeptUpTo(s.hist, a.term, a.len, s.nodes[m.dst].log, m.term)
    requires 0 < m.prevIndex < |s.nodes[m.dst].log| && keep <= |s.nodes[m.dst].log|
    requires s.nodes[m.dst].log[m.prevIndex].term != m.prevTerm
    ensures KeptUpTo(s.hist, a.term, a.len, s.nodes[m.dst].log[..keep], m.term)
  {
    var h, t, log := s.hist, m.term, s.nodes[m.dst].log;
    assert TermLogOk(h, t);
    forall k: nat | k <= a.len ensures Kept(h, a.term, k, log[..keep], t) {
      assert Kept(h, a.term, k, log, t);
      if Agree(h.tlog[a.term], log, k) && k > keep {
        if !Agree(h.tlog[a.term], h.elected[t].log, k) {
          assert Overruled(h, a.term, k, t);
        } else {
          assert m.prevIndex >= k;
          var cp :| cp in h.commits && cp.term <= t && cp.index >= m.prevIndex;
        }
      }
    }
  }

  lemma ConflictKeepsBase(s: Cluster, m: Message)
    requires Situation(s, m) && 0 < m.prevIndex < |s.nodes[m.dst].log|
    ensures 0 < BeforeRun(s.nodes[m.dst].log, m.prevIndex, s.nodes[m.dst].log[m.prevIndex].term)
  {
    var log := s.nodes[m.dst].log;
    assert EntryOk(s.hist, log, m.prevIndex);
    assert TermLogOk(s.hist, log[m.prevIndex].term);
  }

  lemma PrefixOk(h: History, log: Log, k: nat)
    requires LogOk(h, log) && 0 < k <= |log|
    ensures LogOk(h, log[..k])
  {
    forall i | 0 < i < k ensures EntryOk(h, log[..k], i) {
      assert EntryOk(h, log, i);
    }
  }

  // ---------- the request succeeds ----------

  /** A matching follower ends with the leader's log at the time of the request. */
  lemma AcceptedLog(s: Cluster, m: Message)
    requires Situation(s, m) && Contiguous(s.nodes[m.dst].log)
    requires AppendTo(s.nodes[m.dst].log, m.prevIndex, m.prevTerm, m.entries).1
    ensures AppendTo(s.nodes[m.dst].log, m.prevIndex, m.prevTerm, m.entries).0 == s.hist.tlog[m.term][..Reach(m)]
  {
    var log, tl := s.nodes[m.dst].log, s.hist.tlog[m.term];
    var new_ := AppendTo(log, m.prevIndex, m.prevTerm, m.entries).0;
    LogIndex(s.hist, log);
    assert TermLogOk(s.hist, m.term);
    Matching(s.hist, log, tl, m.prevIndex);
    assert log[..m.prevIndex + 1] == tl[..m.prevIndex + 1];
    assert new_ == tl[..m.prevIndex + 1] + tl[m.prevIndex + 1..Reach(m)];
  }

  /** Taking over the leader's log overrules, or keeps, what the follower acknowledged before. */
  lemma AcceptKept(s: Cluster, m: Message, a: Ack)
    requires Situation(s, m)
    requires a.term in s.hist.tlog && a.term < m.term && a.len <= |s.hist.tlog[a.term]|
    requires KeptUpTo(s.hist, a.term, a.len, s.nodes[m.dst].log, m.term)
    ensures KeptUpTo(s.hist, a.term, a.len, s.hist.tlog[m.term][..Reach(m)], m.term)
  {
    var h, t := s.hist, m.term;
    assert TermLogOk(h, t);
    forall k: nat | k <= a.len ensures Kept(h, a.term, k, h.tlog[t][..Reach(m)], t) {
      assert Kept(h, a.term, k, s.nodes[m.dst].log, t);
      if !Agree(h.tlog[a.term], h.elected[t].log, k) {
        assert Overruled(h, a.term, k, t);
      }
    }
  }

  /** Earlier acknowledgements of this term are shorter. */
  lemma AckGrows(s: Cluster, m: Message, a: Ack)
    requires Inv(s) && Receives(s, m) && a in s.hist.acks && a.node == m.dst && a.term == m.term
    ensures a.len <= Reach(m)
  {
    assert AckHeld(s, a) && MessageOk(s, m);
    if !m.initial && a.len > |s.hist.elected[a.term].log| {
      var r :| r in s.net && Brings(r, a, s.nodes[m.dst].lastSeq);
      assert Ordered(r, m);
    }
  }

  /** Whatever a term's log shares with a commit point is that commit point's log. */
  lemma CommittedPrefix(h: History, t: nat, k: int) returns (cp: CommitPoint)
    requires HistOk(h) && t in h.tlog && k > 0 && Covered(h, k, t)
    ensures cp in h.commits && cp.index >= k && cp.term in h.tlog && Agree(h.tlog[cp.term], h.tlog[t], cp.index + 1)
  {
    cp :| cp in h.commits && cp.term <= t && cp.index >= k;
    assert CommitOk(h, cp) && TermLogOk(h, t);
    if cp.term < t {
      LeaderCompleteness(h, cp, t);
    }
  }

  // ---------- the follower's step ----------

  /** The follower after rejecting m with its first `keep` entries left. */
  ghost function DoReject(s: Cluster, m: Message, keep: nat): Cluster
    requires m.dst in s.nodes && keep <= |s.nodes[m.dst].log| && m.AppendRequest?
  {
    var x := s.nodes[m.dst];
    var log := x.log[..keep];
    Send(Put(s, x.(log := log, lastSeq := m.seqNr)),
         {AppendReply(m.dst, m.src, m.term, false, LastIndex(log), LastTerm(log), m.term)})
  }

  ghost predicate Rejects(s: Cluster, m: Message, keep: nat)
    requires m.AppendRequest? && m.dst in s.nodes
  {
    var log := s.nodes[m.dst].log;
    && 0 < keep <= |log| && keep <= m.prevIndex
    && (m.prevIndex < |log| ==> log[m.prevIndex].term != m.prevTerm)
    && (m.prevIndex >= |log| ==> keep == |log|)
  }

  lemma RejectedNotAcked(s: Cluster, m: Message, keep: nat)
    requires Inv(s) && Receives(s, m) && Rejects(s, m, keep)
    ensures !Acked(s.hist, m.term, m.dst, m.prevIndex + 1)
    ensures m.prevIndex < |s.nodes[m.dst].log| ==>
              forall a :: a in s.hist.acks && a.node == m.dst ==> a.term != m.term
  {
    assert MessageOk(s, m);
    if Acked(s.hist, m.term, m.dst, m.prevIndex + 1) {
      AckedPrevious(s, m);
    }
    forall a | a in s.hist.acks && a.node == m.dst && m.prevIndex < |s.nodes[m.dst].log|
      ensures a.term != m.term
    {
      assert AckHeld(s, a) && MessageOk(s, m);
    }
  }

  lemma RejectNode(s: Cluster, m: Message, keep: nat)
    requires Situation(s, m) && Rejects(s, m, keep) && CandidateOk(s, m.dst)
    ensures StepOf(s, DoReject(s, m, keep), m.dst)
    ensures NodeShape(DoReject(s, m, keep), m.dst) && CandidateOk(DoReject(s, m, keep), m.dst)
    ensures LastIndex(DoReject(s, m, keep).nodes[m.dst].log) == keep - 1
  {
    PrefixOk(s.hist, s.nodes[m.dst].log, keep);
    LogIndex(s.hist, s.nodes[m.dst].log[..keep]);
  }

  lemma RejectAck(s: Cluster, m: Message, keep: nat, a: Ack)
    requires Inv(s) && Receives(s, m) && Rejects(s, m, keep)
    requires a in s.hist.acks && a.node == m.dst
    ensures AckHeld(DoReject(s, m, keep), a)
  {
    var x := s.nodes[m.dst];
    SituationOf(s, m);
    RejectedNotAcked(s, m, keep);
    assert AckHeld(s, a) && AckOk(s.hist, a);
    if m.prevIndex < |x.log| {
      ConflictKept(s, m, a, keep);
    } else {
      assert x.log[..keep] == x.log;
      if a.term == m.term {
        AckGrows(s, m, a);
        assert Brings(m, a, m.seqNr);
      }
    }
  }

  lemma RejectKeeps(s: Cluster, m: Message, keep: nat)
    requires Inv(s) && Receives(s, m) && Rejects(s, m, keep)
    ensures Inv(DoReject(s, m, keep))
  {
    var s' := DoReject(s, m, keep);
    SituationOf(s, m);
    RejectedNotAcked(s, m, keep);
    assert CandidateOk(s, m.dst);
    RejectNode(s, m, keep);
    forall a | a in s.hist.acks && a.node == m.dst ensures AckHeld(s', a) {
      RejectAck(s, m, keep, a);
    }
    forall r | r in s'.net && r !in s.net ensures MessageOk(s', r) {
      FailedReplyOk(s, m, keep - 1, s', r);
    }
    StepKeepsInv(s, s', m.dst);
  }

  /** The follower after taking over the leader's log from m. */
  ghost function DoAccept(s: Cluster, m: Message): Cluster
    requires m.AppendRequest? && m.dst in s.nodes && m.term in s.hist.tlog && 0 <= Reach(m) <= |s.hist.tlog[m.term]|
  {
    var x := s.nodes[m.dst];
    var log := s.hist.tlog[m.term][..Reach(m)];
    var y := FollowCommit(x.(log := log, lastSeq := m.seqNr), m.leaderCommit);
    var h := s.hist.(acks := s.hist.acks + {Ack(m.term, m.dst, |log|)});
    Send(Put(s, y), {AppendReply(m.dst, m.src, m.term, true, LastIndex(log), LastTerm(log), m.term)}).(
      hist := NoteApplied(h, x, y))
  }

  lemma AcceptedFacts(s: Cluster, m: Message)
    requires Situation(s, m)
    ensures LogOk(s.hist, s.hist.tlog[m.term][..Reach(m)])
    ensures LastIndex(s.hist.tlog[m.term][..Reach(m)]) == Reach(m) - 1
    ensures forall i :: 0 <= i < Reach(m) ==> s.hist.tlog[m.term][i].term <= m.term
  {
    assert TermLogOk(s.hist, m.term);
    PrefixOk(s.hist, s.hist.tlog[m.term], Reach(m));
    LogIndex(s.hist, s.hist.tlog[m.term][..Reach(m)]);
  }

  lemma AcceptHistory(s: Cluster, m: Message)
    requires Inv(s) && Receives(s, m) && Situation(s, m)
    ensures HistOk(DoAccept(s, m).hist) && Grows(s.hist, DoAccept(s, m).hist)
  {
    var h, g := s.hist, DoAccept(s, m).hist;
    var x := s.nodes[m.dst];
    AcceptedFacts(s, m);
    forall v | v in h.votes && v.voter == m.dst ensures m.term >= v.term {
      assert OpenVoteOk(s, v);
    }
    forall a | a in g.applied && a !in h.applied ensures AppliedOk(g, a) {
      assert x.commit < a.index <= m.leaderCommit && a.entry == h.tlog[m.term][a.index];
      var cp := CommittedPrefix(h, m.term, m.leaderCommit);
      assert CommitOk(h, cp);
      assert AppliedOk(h, a);
      AppliedOkGrows(h, g, a);
    }
    HistOkGrows(h, g);
  }

  lemma AcceptNode(s: Cluster, m: Message)
    requires Situation(s, m) && CandidateOk(s, m.dst) && Grows(s.hist, DoAccept(s, m).hist)
    ensures StepOf(s, DoAccept(s, m), m.dst)
    ensures NodeShape(DoAccept(s, m), m.dst) && CandidateOk(DoAccept(s, m), m.dst)
  {
    var s' := DoAccept(s, m);
    var x := s.nodes[m.dst];
    AcceptedFacts(s, m);
    LogOkGrows(s.hist, s'.hist, s.hist.tlog[m.term][..Reach(m)]);
    CoveredGrows(s.hist, s'.hist, x.commit, x.term, x.term);
    CoveredGrows(s.hist, s'.hist, m.leaderCommit, x.term, x.term);
  }

  lemma AcceptNewAck(s: Cluster, m: Message, a: Ack)
    requires Situation(s, m) && Grows(s.hist, DoAccept(s, m).hist)
    requires a == Ack(m.term, m.dst, Reach(m))
    ensures AckHeld(DoAccept(s, m), a)
  {
    var s' := DoAccept(s, m);
    var log := s.hist.tlog[m.term][..Reach(m)];
    assert forall k: nat :: k <= a.len ==> Kept(s'.hist, m.term, k, log, m.term);
    assert m in s'.net && Brings(m, a, m.seqNr);
    assert a in s'.hist.acks;
  }

  lemma AcceptOldAck(s: Cluster, m: Message, a: Ack)
    requires Inv(s) && Receives(s, m) && Situation(s, m) && Grows(s.hist, DoAccept(s, m).hist)
    requires a in s.hist.acks && a.node == m.dst
    ensures AckHeld(DoAccept(s, m), a)
  {
    var s' := DoAccept(s, m);
    var log := s.hist.tlog[m.term][..Reach(m)];
    assert AckHeld(s, a) && AckOk(s.hist, a);
    if a.term == m.term {
      AckGrows(s, m, a);
      assert Brings(m, a, m.seqNr);
      assert forall k: nat :: k <= a.len ==> Kept(s'.hist, m.term, k, log, m.term);
      assert Ack(m.term, m.dst, Reach(m)) in s'.hist.acks;
    } else {
      AcceptKept(s, m, a);
      KeptUpToGrows(s.hist, s'.hist, a.term, a.len, log, m.term, m.term);
    }
  }

  lemma AcceptAcks(s: Cluster, m: Message)
    requires Inv(s) && Receives(s, m) && Situation(s, m) && Grows(s.hist, DoAccept(s, m).hist)
    ensures forall a :: a in DoAccept(s, m).hist.acks && (a !in s.hist.acks || a.node == m.dst) ==>
              AckHeld(DoAccept(s, m), a)
  {
    forall a | a in DoAccept(s, m).hist.acks && (a !in s.hist.acks || a.node == m.dst)
      ensures AckHeld(DoAccept(s, m), a)
    {
      if a in s.hist.acks { AcceptOldAck(s, m, a); } else { AcceptNewAck(s, m, a); }
    }
  }

  lemma AcceptReplyOk(s: Cluster, m: Message)
    requires Situation(s, m)
    ensures forall r :: r in DoAccept(s, m).net && r !in s.net ==> MessageOk(DoAccept(s, m), r)
    ensures RequestsGrow(s.net) ==> RequestsGrow(DoAccept(s, m).net)
  {
    AcceptedFacts(s, m);
    assert Ack(m.term, m.dst, Reach(m)) in DoAccept(s, m).hist.acks;
  }

  lemma AcceptAdds(s: Cluster, m: Message)
    requires Inv(s) && Receives(s, m) && Situation(s, m) && Grows(s.hist, DoAccept(s, m).hist)
    ensures AddedSound(s, DoAccept(s, m), m.dst)
  {
    AcceptAcks(s, m);
    AcceptReplyOk(s, m);
  }

  lemma AcceptKeeps(s: Cluster, m: Message)
    requires Inv(s) && Receives(s, m) && Situation(s, m)
    ensures Inv(DoAccept(s, m))
  {
    var s' := DoAccept(s, m);
    assert CandidateOk(s, m.dst);
    AcceptHistory(s, m);
    AcceptNode(s, m);
    AcceptAdds(s, m);
    assert s'.hist.tlog == s.hist.tlog && s'.hist.elected == s.hist.elected;
    StepKeepsInv(s, s', m.dst);
  }

  /** Processing a request is a rejection or a takeover. */
  lemma ProcessKeeps(s: Cluster, m: Message)
    requires Inv(s) && Receives(s, m) && Contiguous(s.nodes[m.dst].log)
    ensures Inv(DoProcess(s, m))
  {
    var x := s.nodes[m.dst];
    var (log, ok) := AppendTo(x.log, m.prevIndex, m.prevTerm, m.entries);
    SituationOf(s, m);
    if ok {
      AcceptedLog(s, m);
      AcceptedFacts(s, m);
      AcceptKeeps(s, m);
      assert DoProcess(s, m) == DoAccept(s, m);
    } else {
      var keep := if m.prevIndex >= |x.log| then |x.log| else BeforeRun(x.log, m.prevIndex, x.log[m.prevIndex].term);
      if m.prevIndex < |x.log| { ConflictKeepsBase(s, m); }
      assert log == x.log[..keep];
      RejectKeeps(s, m, keep);
      assert DoProcess(s, m) == DoReject(s, m, keep);
    }
  }
}
