/** The steps of replication - a leader's append, its broadcast, a follower's answer, a leader's count -
    each shown to keep the invariant. */
module RaftReplicate {
  import opened RaftLog
  import opened RaftModel
  import opened RaftHistory
  import opened RaftCluster
  import opened RaftInvariant
  import opened RaftPreserve
  import opened RaftSteps

  // ---------- the leader's own append ----------

  lemma LeaderReady(s: Cluster, n: NodeName)
    requires Inv(s) && n in s.nodes && s.nodes[n].role == Leader
    ensures Contiguous(s.nodes[n].log) && CanSend(s.nodes[n])
  {
    assert NodeShape(s, n) && LeaderOk(s, n);
    LogIndex(s.hist, s.nodes[n].log);
    forall p | p in s.nodes[n].peers ensures 1 <= s.nodes[n].peers[p].nextIndex <= |s.nodes[n].log| {
      assert PeerOk(s, s.nodes[n], p);
    }
  }

  /** The record once the leader of term t has added an entry to its log. */
  ghost function NoteAppend(h: History, t: nat, n: NodeName, log: Log): History {
    h.(tlog := h.tlog[t := log], acks := h.acks + {Ack(t, n, |log|)})
  }

  lemma AppendRecorded(h: History, t: nat, n: NodeName, e: Entry)
    requires HistOk(h) && t in h.tlog && n in h.members && e.term == t && e.index == |h.tlog[t]|
    requires forall v :: v in h.votes && v.voter == n ==> t >= v.term
    ensures var g := NoteAppend(h, t, n, h.tlog[t] + [e]); HistOk(g) && Grows(h, g) && LogOk(g, h.tlog[t] + [e])
  {
    var log := h.tlog[t] + [e];
    var g := NoteAppend(h, t, n, log);
    assert TermLogOk(h, t);
    LogOkGrows(h, g, h.tlog[t]);
    forall i | 0 < i < |log| ensures EntryOk(g, log, i) {
      if i < |h.tlog[t]| { assert EntryOk(g, h.tlog[t], i); }
    }
    LogOkGrows(h, g, h.elected[t].log);
    HistOkGrows(h, g);
  }

  lemma AppendLocalHistory(s: Cluster, n: NodeName, kind: CommandKind, data: string)
    requires Inv(s) && n in s.nodes && s.nodes[n].role == Leader && s.nodes[n].name == n
    requires Contiguous(s.nodes[n].log) && CanSend(s.nodes[n])
    ensures HistOk(DoAppendLocal(s, n, kind, data).hist) && Grows(s.hist, DoAppendLocal(s, n, kind, data).hist)
    ensures LogOk(DoAppendLocal(s, n, kind, data).hist, AppendLocal(s.nodes[n], kind, data).log)
  {
    var x := s.nodes[n];
    assert NodeShape(s, n) && LeaderOk(s, n);
    LogIndex(s.hist, x.log);
    forall v | v in s.hist.votes && v.voter == n ensures x.term >= v.term {
      assert OpenVoteOk(s, v);
    }
    AppendRecorded(s.hist, x.term, n, Entry(|x.log|, x.term, kind, data));
  }

  lemma AppendLocalNode(s: Cluster, n: NodeName, kind: CommandKind, data: string)
    requires n in s.nodes && NodeShape(s, n) && LeaderOk(s, n) && s.nodes[n].role == Leader
    requires Contiguous(s.nodes[n].log) && CanSend(s.nodes[n])
    requires Grows(s.hist, DoAppendLocal(s, n, kind, data).hist)
    requires LogOk(DoAppendLocal(s, n, kind, data).hist, AppendLocal(s.nodes[n], kind, data).log)
    ensures StepOf(s, DoAppendLocal(s, n, kind, data), n)
    ensures NodeShape(DoAppendLocal(s, n, kind, data), n) && LeaderOk(DoAppendLocal(s, n, kind, data), n)
  {
    var x := s.nodes[n];
    var s' := DoAppendLocal(s, n, kind, data);
    var y := s'.nodes[n];
    CoveredGrows(s.hist, s'.hist, x.commit, x.term, x.term);
    assert Ack(x.term, n, |y.log|) in s'.hist.acks;
    forall p | p in x.peers ensures PeerOk(s', y, p) {
      assert PeerOk(s, x, p);
      PeerKept(s, s', x, p);
    }
  }

  lemma AppendLocalAck(s: Cluster, n: NodeName, kind: CommandKind, data: string, a: Ack)
    requires n in s.nodes && NodeShape(s, n) && LeaderOk(s, n) && s.nodes[n].role == Leader
    requires Contiguous(s.nodes[n].log) && CanSend(s.nodes[n])
    requires StepOf(s, DoAppendLocal(s, n, kind, data), n)
    requires a in s.hist.acks && a.node == n && AckHeld(s, a) && AckOk(s.hist, a)
    ensures AckHeld(DoAppendLocal(s, n, kind, data), a)
  {
    var x := s.nodes[n];
    var s' := DoAppendLocal(s, n, kind, data);
    var y := s'.nodes[n];
    forall k: nat | k <= a.len ensures Kept(s'.hist, a.term, k, y.log, y.term) {
      assert Kept(s.hist, a.term, k, x.log, x.term);
      KeptGrows(s.hist, s'.hist, a.term, k, x.log, x.term, x.term);
    }
  }

  lemma AppendLocalKeeps(s: Cluster, n: NodeName, kind: CommandKind, data: string)
    requires Inv(s) && n in s.nodes && s.nodes[n].role == Leader && s.nodes[n].name == n
    requires Contiguous(s.nodes[n].log) && CanSend(s.nodes[n])
    ensures Inv(DoAppendLocal(s, n, kind, data))
  {
    var s' := DoAppendLocal(s, n, kind, data);
    assert NodeShape(s, n) && LeaderOk(s, n);
    AppendLocalHistory(s, n, kind, data);
    AppendLocalNode(s, n, kind, data);
    forall a | a in s'.hist.acks && (a !in s.hist.acks || a.node == n) ensures AckHeld(s', a) {
      if a in s.hist.acks {
        assert AckHeld(s, a) && AckOk(s.hist, a);
        AppendLocalAck(s, n, kind, data, a);
      } else {
        assert forall k: nat :: k <= a.len ==> Kept(s'.hist, a.term, k, s'.nodes[n].log, s'.nodes[n].term);
      }
    }
    StepKeepsInv(s, s', n);
  }

  // ---------- broadcast ----------

  lemma CoveredBelow(h: History, k: int, j: int, T: nat)
    requires Covered(h, k, T) && j <= k
    ensures Covered(h, j, T)
  {
    if j > 0 {
      var cp :| cp in h.commits && cp.term <= T && cp.index >= k;
    }
  }

  lemma BroadcastOk(s: Cluster, n: NodeName, p: NodeName)
    requires Inv(s) && n in s.nodes && s.nodes[n].role == Leader && p in s.nodes[n].peers
    requires Contiguous(s.nodes[n].log) && CanSend(s.nodes[n])
    ensures MessageOk(DoSend(s, n), AppendRequestFor(s.nodes[n], p))
    ensures Reach(AppendRequestFor(s.nodes[n], p)) == |s.nodes[n].log|
  {
    var x := s.nodes[n];
    assert NodeShape(s, n) && LeaderOk(s, n) && PeerOk(s, x, p);
    LogIndex(s.hist, x.log);
    assert TermLogOk(s.hist, x.term);
    RequestOf(x, p);
    if x.peers[p].nextIndex - 1 <= x.commit { CoveredBelow(s.hist, x.commit, x.peers[p].nextIndex - 1, x.term); }
  }

  lemma RequestOf(x: Node, p: NodeName)
    requires p in x.peers && Contiguous(x.log) && BaseIndex(x.log) == 0 && CanSendTo(x, p)
    ensures var r := AppendRequestFor(x, p);
            && r.src == x.name && r.dst == p && r.term == x.term && r.leaderCommit == x.commit
            && r.prevIndex == x.peers[p].nextIndex - 1 && 0 <= r.prevIndex < |x.log|
            && r.prevTerm == x.log[r.prevIndex].term
            && Reach(r) == |x.log| && r.entries == x.log[r.prevIndex + 1..Reach(r)]
            && r.seqNr == x.peers[p].seqNr && (r.initial <==> r.seqNr == SEQ_START)
  {
    LastOf(x.log);
  }

  /** A request already sent is ordered only after requests already sent. */
  lemma NewestLast(s: Cluster, n: NodeName, r: Message, q: Message)
    requires Inv(s) && n in s.nodes && s.nodes[n].role == Leader
    requires Contiguous(s.nodes[n].log) && CanSend(s.nodes[n])
    requires r in DoSend(s, n).net && q in s.net && Ordered(r, q)
    ensures r in s.net
  {
    assert NodeShape(s, n) && LeaderOk(s, n) && MessageOk(s, q);
  }

  lemma BroadcastGrows(s: Cluster, n: NodeName)
    requires Inv(s) && n in s.nodes && s.nodes[n].role == Leader
    requires Contiguous(s.nodes[n].log) && CanSend(s.nodes[n])
    ensures RequestsGrow(DoSend(s, n).net)
  {
    var x := s.nodes[n];
    var s' := DoSend(s, n);
    assert LeaderOk(s, n);
    forall r, q | r in s'.net && q in s'.net && Ordered(r, q) ensures Reach(r) <= Reach(q) {
      if q in s.net {
        NewestLast(s, n, r, q);
      } else {
        var p :| p in x.peers && q == AppendRequestFor(x, p);
        BroadcastOk(s, n, p);
        if r in s.net {
          assert NodeShape(s, n) && MessageOk(s, r);
        } else {
          var p' :| p' in x.peers && r == AppendRequestFor(x, p');
        }
      }
    }
  }

  lemma SendNode(s: Cluster, n: NodeName)
    requires n in s.nodes && NodeShape(s, n) && CandidateOk(s, n) && LeaderOk(s, n) && s.nodes[n].role == Leader
    requires Contiguous(s.nodes[n].log) && CanSend(s.nodes[n])
    ensures StepOf(s, DoSend(s, n), n)
    ensures NodeShape(DoSend(s, n), n) && CandidateOk(DoSend(s, n), n) && LeaderOk(DoSend(s, n), n)
  {
    var x := s.nodes[n];
    var y := CountSent(x);
    assert y.peers.Keys == x.peers.Keys;
    forall p | p in y.peers ensures PeerOk(DoSend(s, n), y, p) {
      assert PeerOk(s, x, p);
    }
  }

  lemma SendKeeps(s: Cluster, n: NodeName)
    requires Inv(s) && n in s.nodes && s.nodes[n].role == Leader
    requires Contiguous(s.nodes[n].log) && CanSend(s.nodes[n])
    ensures Inv(DoSend(s, n))
  {
    var s' := DoSend(s, n);
    assert NodeShape(s, n) && CandidateOk(s, n) && LeaderOk(s, n);
    SendNode(s, n);
    BroadcastGrows(s, n);
    forall m | m in s'.net && m !in s.net ensures MessageOk(s', m) {
      var p :| p in s.nodes[n].peers && m == AppendRequestFor(s.nodes[n], p);
      BroadcastOk(s, n, p);
    }
    AcksHeldSame(s, s', n);
    StepKeepsInv(s, s', n);
  }
}
