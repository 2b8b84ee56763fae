/** A cluster of Raft nodes as a state machine: handlers run one at a time, on messages that the
    network may lose, duplicate, delay and reorder. */
module RaftCluster {
  import opened Collections
  import opened RaftLog
  import opened RaftModel
  import opened RaftHistory

  datatype Cluster = Cluster(nodes: map<NodeName, Node>, net: set<Message>, hist: History)

  datatype Action =
    | Elect(n: NodeName)
    | ElectionTimeout(n: NodeName)
    | Heartbeat(n: NodeName)
    | ClientLog(n: NodeName, kind: CommandKind, data: string)
    | Deliver(msg: Message)

  ghost predicate Init(s: Cluster) {
    && s.nodes.Keys == s.hist.members
    && s.net == {}
    && s.hist == History(s.hist.boot, s.hist.members, map[], map[], {}, {}, {}, {})
    && s.hist.boot.index == 0
    && forall n :: n in s.nodes ==> InitNode(s, n)
  }

  /** Every log starts with the same committed bootstrap entry, whose term no election can reach. */
  ghost predicate InitNode(s: Cluster, n: NodeName)
    requires n in s.nodes
  {
    var x := s.nodes[n];
    && x.name == n
    && x.term >= s.hist.boot.term
    && x.votedFor == None
    && x.role == Follower
    && x.log == [s.hist.boot]
    && x.commit == 0
    && x.applied == 0
    && x.lastSeq == 0
    && x.peers.Keys == s.nodes.Keys - {n}
    && forall p :: p in x.peers ==> !x.peers[p].votedForMe && x.peers[p].seqNr == SEQ_START
  }

  // ---------- hypotheses on deliveries ----------

  /** A granted vote reaches a candidate in the term it was asked for, and a failure of the leader's own term
      answers a request of that term, or names an index that the leader has committed. */
  predicate TimelyReply(s: Cluster, m: Message)
    requires m.dst in s.nodes && (m.VoteReply? || m.AppendReply?)
  {
    var x := s.nodes[m.dst];
    if m.VoteReply? then x.role == Candidate && m.granted ==> m.asked == x.term
    else x.role == Leader && m.term == x.term && !m.success ==> m.asked == x.term || 0 <= m.lastIndex <= x.commit
  }

  /** The length of the leader's log when it sent r. */
  function Reach(r: Message): int
    requires r.AppendRequest?
  {
    r.prevIndex + 1 + |r.entries|
  }

  /** A leader's first request of a term, when it comes late, reaches as far as what its receiver, still in that
      term, has acknowledged in it. */
  predicate FirstReaches(s: Cluster, m: Message)
    requires m.dst in s.nodes && m.AppendRequest?
  {
    m.initial && s.nodes[m.dst].term == m.term ==>
      forall a :: a in s.hist.acks && a.term == m.term && a.node == m.dst ==> a.len <= Reach(m)
  }

  ghost predicate Enabled(s: Cluster, a: Action) {
    match a
    case Elect(n) => n in s.nodes && s.nodes[n].role != Leader
    case ElectionTimeout(n) => n in s.nodes && s.nodes[n].role == Candidate
    case Heartbeat(n) => n in s.nodes && s.nodes[n].role == Leader && Contiguous(s.nodes[n].log) && CanSend(s.nodes[n])
    case ClientLog(n, kind, data) =>
      && n in s.nodes && s.nodes[n].name == n && s.nodes[n].role == Leader
      && Contiguous(s.nodes[n].log) && CanSend(s.nodes[n])
    case Deliver(m) =>
      && m in s.net && m.dst in s.nodes
      && Contiguous(s.nodes[m.dst].log)
      && (m.VoteReply? || m.AppendReply? ==> TimelyReply(s, m))
      && (m.AppendRequest? ==> FirstReaches(s, m))
  }

  // ---------- steps of one node ----------

  ghost function Put(s: Cluster, n: Node): Cluster {
    s.(nodes := s.nodes[n.name := n])
  }

  ghost function Send(s: Cluster, ms: set<Message>): Cluster {
    s.(net := s.net + ms)
  }

  ghost function Reply(s: Cluster, m: Option<Message>): Cluster {
    if m.Some? then Send(s, {m.value}) else s
  }

  /** Record what x has applied since it was y. */
  ghost function NoteApplied(h: History, y: Node, x: Node): History {
    h.(applied := h.applied + set i | y.applied < i <= x.applied && 0 <= i < |x.log| :: Applied(x.name, i, x.log[i]))
  }

  ghost function NoteVote(h: History, v: Vote): History {
    if v.term in h.elected then h else h.(votes := h.votes + {v})
  }

  /** Record that x leads its term, if it just became its leader. */
  ghost function NoteElection(h: History, y: Node, x: Node): History {
    if y.role != Leader && x.role == Leader then
      h.(elected := h.elected[x.term := Election(x.name, Supporters(x), x.log)],
         tlog := h.tlog[x.term := x.log],
         acks := h.acks + {Ack(x.term, x.name, |x.log|)})
    else h
  }

  ghost function NoteCommit(h: History, y: Node, x: Node): History {
    if x.role == Leader && x.commit > Max(y.commit, 0) then
      h.(commits := h.commits + {CommitPoint(x.term, x.commit, Holders(x, x.commit))})
    else h
  }

  ghost function DoElect(s: Cluster, n: NodeName): Cluster
    requires n in s.nodes
  {
    var x := StartElection(s.nodes[n]);
    Send(Put(s, CountSent(x)), VoteRequests(x)).(hist :=
      NoteVote(s.hist, Vote(x.term, n, n, x.log, LastIndex(x.log), LastTerm(x.log))))
  }

  ghost function DoElectionTimeout(s: Cluster, n: NodeName): Cluster
    requires n in s.nodes
  {
    var x := OnElectionTimeout(s.nodes[n]);
    Put(s, x).(hist := NoteElection(s.hist, s.nodes[n], x))
  }

  ghost function DoSend(s: Cluster, n: NodeName): Cluster
    requires n in s.nodes && Contiguous(s.nodes[n].log) && CanSend(s.nodes[n])
  {
    Send(Put(s, CountSent(s.nodes[n])), AppendRequests(s.nodes[n]))
  }

  ghost function DoAppendLocal(s: Cluster, n: NodeName, kind: CommandKind, data: string): (s': Cluster)
    requires n in s.nodes && s.nodes[n].name == n && Contiguous(s.nodes[n].log) && CanSend(s.nodes[n])
    ensures n in s'.nodes && Contiguous(s'.nodes[n].log) && CanSend(s'.nodes[n])
  {
    var x := AppendLocal(s.nodes[n], kind, data);
    Put(s, x).(hist := s.hist.(tlog := s.hist.tlog[x.term := x.log],
                               acks := s.hist.acks + {Ack(x.term, n, |x.log|)}))
  }

  ghost function DoVoteRequest(s: Cluster, m: Message): Cluster
    requires m.VoteRequest? && m.dst in s.nodes
  {
    var (x, r) := OnVoteRequest(s.nodes[m.dst], m);
    var h := if r.Some? && r.value.granted
             then NoteVote(s.hist, Vote(m.term, m.dst, m.src, x.log, m.lastIndex, m.lastTerm)) else s.hist;
    Reply(Put(s, x), r).(hist := h)
  }

  ghost function DoVoteReply(s: Cluster, m: Message): Cluster
    requires m.VoteReply? && m.dst in s.nodes
  {
    var x := OnVoteReply(s.nodes[m.dst], m);
    Put(s, x).(hist := NoteElection(s.hist, s.nodes[m.dst], x))
  }

  ghost function DoAppendRequest(s: Cluster, m: Message): Cluster
    requires m.AppendRequest? && m.dst in s.nodes && Contiguous(s.nodes[m.dst].log)
  {
    var (x, r) := OnAppendRequest(s.nodes[m.dst], m);
    var h := if r.Some? && r.value.success
             then s.hist.(acks := s.hist.acks + {Ack(m.term, m.dst, |x.log|)}) else s.hist;
    Reply(Put(s, x), r).(hist := NoteApplied(h, s.nodes[m.dst], x))
  }

  ghost function DoAppendReply(s: Cluster, m: Message): Cluster
    requires m.AppendReply? && m.dst in s.nodes && Contiguous(s.nodes[m.dst].log)
  {
    var y := s.nodes[m.dst];
    var x := OnAppendReply(y, m);
    Put(s, x).(hist := NoteApplied(NoteCommit(s.hist, y, x), y, x))
  }

  ghost function Next(s: Cluster, a: Action): Cluster
    requires Enabled(s, a)
  {
    match a
    case Elect(n) => DoElect(s, n)
    case ElectionTimeout(n) => DoElectionTimeout(s, n)
    case Heartbeat(n) => DoSend(s, n)
    case ClientLog(n, kind, data) => DoSend(DoAppendLocal(s, n, kind, data), n)
    case Deliver(m) =>
      match m
      case VoteRequest(_, _, _, _, _, _, _) => DoVoteRequest(s, m)
      case VoteReply(_, _, _, _, _) => DoVoteReply(s, m)
      case AppendRequest(_, _, _, _, _, _, _, _, _) => DoAppendRequest(s, m)
      case AppendReply(_, _, _, _, _, _, _) => DoAppendReply(s, m)
  }
}
