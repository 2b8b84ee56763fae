/** The invariant of a cluster: what nodes and messages tell about the recorded history. */
module RaftInvariant {
  import opened Collections
  import opened RaftLog
  import opened RaftModel
  import opened RaftHistory
  import opened RaftCluster

  // ---------- nodes ----------

  ghost predicate NodeShape(s: Cluster, n: NodeName)
    requires n in s.nodes
  {
    var x := s.nodes[n];
    && x.name == n
    && x.peers.Keys == s.nodes.Keys - {n}
    && (forall p :: p in x.peers ==> x.peers[p].seqNr >= SEQ_START)
    && LogOk(s.hist, x.log)
    && x.term >= s.hist.boot.term
    && (forall i :: 0 <= i < |x.log| ==> x.log[i].term <= x.term)
    && 0 <= x.commit && x.applied == x.commit
    && Covered(s.hist, x.commit, x.term)
    && (x.role != Follower ==> x.votedFor == Some(n))
  }

  ghost predicate CandidateOk(s: Cluster, n: NodeName)
    requires n in s.nodes
  {
    var x := s.nodes[n];
    x.role == Candidate ==>
      && (forall i :: 0 <= i < |x.log| ==> x.log[i].term < x.term)
      && x.term > s.hist.boot.term
      && (x.term in s.hist.elected || VotedIn(s.hist, x.term, n, n, LastIndex(x.log), LastTerm(x.log)))
      && forall p :: p in x.peers && x.peers[p].votedForMe ==> VoteReply(p, n, x.term, true, x.term) in s.net
  }

  /** A peer's recorded position is below the commit index or acknowledged in this term. */
  ghost predicate PeerOk(s: Cluster, x: Node, p: NodeName)
    requires p in x.peers
  {
    var e := x.peers[p];
    && 1 <= e.nextIndex <= |x.log|
    && e.matchIndex < |x.log|
    && (e.nextIndex - 1 <= x.commit || Acked(s.hist, x.term, p, e.nextIndex))
    && (e.matchIndex <= x.commit || Acked(s.hist, x.term, p, e.matchIndex + 1))
  }

  ghost predicate LeaderOk(s: Cluster, n: NodeName)
    requires n in s.nodes
  {
    var x := s.nodes[n];
    x.role == Leader ==>
      && x.term in s.hist.elected && s.hist.elected[x.term].leader == n
      && x.term in s.hist.tlog && x.log == s.hist.tlog[x.term]
      && Acked(s.hist, x.term, n, |x.log|)
      && x.commit < |x.log|
      && forall p {:trigger PeerOk(s, x, p)} :: p in x.peers ==> PeerOk(s, x, p)
  }

  /** The elected leader still leads its term, and its voters still stand by their votes. */
  ghost predicate ElectedOk(s: Cluster, t: nat)
    requires t in s.hist.elected
  {
    var e := s.hist.elected[t];
    && e.leader in s.nodes
    && s.nodes[e.leader].term >= t
    && (s.nodes[e.leader].term == t ==> s.nodes[e.leader].role == Leader)
    && forall m :: m in e.quorum && m in s.nodes && m != e.leader ==>
         && s.nodes[m].term >= t
         && (s.nodes[m].term == t ==> s.nodes[m].votedFor == Some(e.leader) && s.nodes[m].role == Follower)
  }

  ghost predicate OpenVoteOk(s: Cluster, v: Vote) {
    && v.voter in s.nodes && s.nodes[v.voter].term >= v.term
    && v.cand in s.nodes && s.nodes[v.cand].term >= v.term
    && (v.term !in s.hist.elected ==>
          && (s.nodes[v.voter].term == v.term ==> s.nodes[v.voter].votedFor == Some(v.cand))
          && (s.nodes[v.cand].term == v.term ==>
                && s.nodes[v.cand].role == Candidate
                && LastIndex(s.nodes[v.cand].log) == v.lastIndex && LastTerm(s.nodes[v.cand].log) == v.lastTerm))
  }

  ghost predicate AckHeld(s: Cluster, a: Ack) {
    && a.node in s.nodes && a.term in s.hist.tlog && a.term in s.hist.elected
    && var x := s.nodes[a.node];
    && x.term >= a.term
    && KeptUpTo(s.hist, a.term, a.len, x.log, x.term)
    && (x.term == a.term ==>
          && x.role != Candidate
          && Agree(x.log, s.hist.tlog[a.term], |x.log|)
          && a.len <= |x.log|
          && (x.role == Follower ==>
                && Backed(s, a, x.lastSeq)
                && exists b :: b in s.hist.acks && b.term == a.term && b.node == a.node && b.len == |x.log|))
  }

  /** What a acknowledges is no more than the leader started with, or no more than a request brought whose number
      the filter at `seen` does not let through again. */
  ghost predicate Backed(s: Cluster, a: Ack, seen: nat)
    requires a.term in s.hist.elected
  {
    a.len <= |s.hist.elected[a.term].log| || exists r :: r in s.net && Brings(r, a, seen)
  }

  predicate Brings(r: Message, a: Ack, seen: nat) {
    r.AppendRequest? && r.term == a.term && r.dst == a.node && r.seqNr <= seen && a.len <= Reach(r)
  }

  // ---------- messages ----------

  ghost predicate VoteRequestOk(s: Cluster, r: Message)
    requires r.VoteRequest?
  {
    && r.src in s.nodes && r.dst in s.nodes && r.src != r.dst
    && r.term > s.hist.boot.term && r.term > r.lastTerm
    && s.nodes[r.src].term >= r.term
    && (s.nodes[r.src].term == r.term && r.term !in s.hist.elected ==>
          && s.nodes[r.src].role == Candidate
          && LastIndex(s.nodes[r.src].log) == r.lastIndex && LastTerm(s.nodes[r.src].log) == r.lastTerm)
  }

  ghost predicate VoteReplyOk(s: Cluster, r: Message)
    requires r.VoteReply?
  {
    r.granted ==>
      && r.term == r.asked
      && r.src in s.nodes && s.nodes[r.src].term >= r.term
      && (r.term !in s.hist.elected ==>
            exists v :: v in s.hist.votes && v.term == r.term && v.voter == r.src && v.cand == r.dst)
      && (r.term in s.hist.elected && r.src in s.hist.elected[r.term].quorum ==> r.dst == s.hist.elected[r.term].leader)
  }

  ghost predicate AppendRequestOk(s: Cluster, r: Message)
    requires r.AppendRequest?
  {
    && r.term in s.hist.elected && r.term in s.hist.tlog
    && r.src == s.hist.elected[r.term].leader && r.src in s.nodes && r.dst in s.nodes && r.dst != r.src
    && var tl := s.hist.tlog[r.term];
    && 0 <= r.prevIndex
    && |s.hist.elected[r.term].log| <= Reach(r) <= |tl|
    && r.prevTerm == tl[r.prevIndex].term
    && r.entries == tl[r.prevIndex + 1..Reach(r)]
    && 0 <= r.leaderCommit < Reach(r)
    && Covered(s.hist, r.leaderCommit, r.term)
    && r.seqNr >= SEQ_START && (r.initial <==> r.seqNr == SEQ_START)
    && (Acked(s.hist, r.term, r.dst, r.prevIndex + 1) || Covered(s.hist, r.prevIndex, r.term))
    && (s.nodes[r.src].term == r.term ==>
          && r.dst in s.nodes[r.src].peers
          && r.seqNr < s.nodes[r.src].peers[r.dst].seqNr
          && (Acked(s.hist, r.term, r.dst, r.prevIndex + 1) || r.prevIndex <= s.nodes[r.src].commit))
  }

  ghost predicate AppendReplyOk(s: Cluster, r: Message)
    requires r.AppendReply?
  {
    && r.src in s.nodes
    && s.nodes[r.src].term >= r.term >= r.asked
    && (r.success ==>
          && r.term == r.asked && r.lastIndex >= 0
          && Acked(s.hist, r.term, r.src, r.lastIndex + 1))
    && (!r.success && r.term == r.asked ==>
          && r.asked in s.hist.elected && s.hist.elected[r.asked].leader in s.nodes
          && 0 <= r.lastIndex
          && (s.nodes[s.hist.elected[r.asked].leader].term == r.asked ==>
                r.lastIndex <= s.nodes[s.hist.elected[r.asked].leader].commit))
  }

  ghost predicate MessageOk(s: Cluster, m: Message) {
    match m
    case VoteRequest(_, _, _, _, _, _, _) => VoteRequestOk(s, m)
    case VoteReply(_, _, _, _, _) => VoteReplyOk(s, m)
    case AppendRequest(_, _, _, _, _, _, _, _, _) => AppendRequestOk(s, m)
    case AppendReply(_, _, _, _, _, _, _) => AppendReplyOk(s, m)
  }

  /** Of two requests of one leader to one follower, the later reaches at least as far. */
  ghost predicate RequestsGrow(net: set<Message>) {
    forall r, q {:trigger Ordered(r, q)} :: r in net && q in net && Ordered(r, q) ==> Reach(r) <= Reach(q)
  }

  predicate Ordered(r: Message, q: Message) {
    r.AppendRequest? && q.AppendRequest? && r.term == q.term && r.dst == q.dst && r.seqNr <= q.seqNr
  }

  // ---------- the whole ----------

  ghost predicate NodesOk(s: Cluster) {
    && (forall n {:trigger NodeShape(s, n)} :: n in s.nodes ==> NodeShape(s, n))
    && (forall n {:trigger CandidateOk(s, n)} :: n in s.nodes ==> CandidateOk(s, n))
    && (forall n {:trigger LeaderOk(s, n)} :: n in s.nodes ==> LeaderOk(s, n))
  }

  ghost predicate RecordOk(s: Cluster) {
    && (forall t {:trigger ElectedOk(s, t)} :: t in s.hist.elected ==> ElectedOk(s, t))
    && (forall v {:trigger OpenVoteOk(s, v)} :: v in s.hist.votes ==> OpenVoteOk(s, v))
    && (forall a {:trigger AckHeld(s, a)} :: a in s.hist.acks ==> AckHeld(s, a))
  }

  ghost predicate NetOk(s: Cluster) {
    && (forall m {:trigger MessageOk(s, m)} :: m in s.net ==> MessageOk(s, m))
    && RequestsGrow(s.net)
  }

  ghost predicate Inv(s: Cluster) {
    && s.nodes.Keys == s.hist.members
    && HistOk(s.hist)
    && NodesOk(s)
    && RecordOk(s)
    && NetOk(s)
  }
}
