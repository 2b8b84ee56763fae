/** What the handlers make of one message, in terms of indices, terms and counts: when a vote is granted, when an
    index is committed, and what a follower commits and applies. */
module RaftEffects {
  import opened Collections
  import opened RaftLog
  import opened RaftModel
  import opened RaftHistory
  import opened RaftCluster
  import opened RaftInvariant
  import opened RaftTheorems
  import opened RaftProbe

  // ---------- votes ----------

  /** The candidate's last entry comes before the end of the log: an older term, or the same and a lower index. */
  predicate Older(lastTerm: nat, lastIndex: int, log: Log) {
    lastTerm < LastTerm(log) || (lastTerm == LastTerm(log) && lastIndex < LastIndex(log))
  }

  /** What the node's vote is in the request's term: a newer term is one in which it has not voted. */
  function VoteIn(n: Node, term: nat): Option<NodeName> {
    if term > n.term then None else n.votedFor
  }

  /** A peer's request is granted exactly when it is of no older term, the vote of that term is free or already the
      candidate's, and the candidate's log is not older; unless its number has been seen, when nothing is said. Every
      other request is refused. The vote is then the candidate's, or what it was in that term. */
  lemma VoteGrantedIff(n: Node, r: Message)
    requires r.VoteRequest? && r.src in n.peers
    ensures var (x, reply) := OnVoteRequest(n, r);
            var free := r.term >= n.term && (VoteIn(n, r.term) == None || VoteIn(n, r.term) == Some(r.src))
                        && !Older(r.lastTerm, r.lastIndex, n.log);
            var unseen := r.initial || r.seqNr > if r.term > n.term then 0 else n.lastSeq;
            && (reply == None <==> free && !unseen)
            && (reply.Some? ==> reply.value == VoteReply(n.name, r.src, x.term, free, r.term))
            && x.term == Max(n.term, r.term)
            && x.votedFor == (if free && unseen then Some(r.src) else VoteIn(n, r.term))
            && (r.term > n.term ==> x.role == Follower)
            && x.leaderName == (if (free && unseen) || r.term > n.term then None else n.leaderName)
            && x.log == n.log && x.commit == n.commit && x.applied == n.applied
  {
  }

  /** A candidate that has been granted the vote is granted it again when it asks under a later number, and gets no
      answer under the same one. */
  lemma VoteRepeats(n: Node, src: NodeName, term: nat, lastIndex: int, lastTerm: nat, seqNr: nat, later: nat)
    requires seqNr < later
    requires var r := VoteRequest(src, n.name, term, lastIndex, lastTerm, seqNr, false);
             OnVoteRequest(n, r).1 == Some(VoteReply(n.name, src, term, true, term))
    ensures var x := OnVoteRequest(n, VoteRequest(src, n.name, term, lastIndex, lastTerm, seqNr, false)).0;
            && OnVoteRequest(x, VoteRequest(src, n.name, term, lastIndex, lastTerm, later, false)).1
                 == Some(VoteReply(n.name, src, term, true, term))
            && OnVoteRequest(x, VoteRequest(src, n.name, term, lastIndex, lastTerm, seqNr, false)).1 == None
  {
  }

  /** Of two logs, at least one is as recent as the other. */
  lemma OneIsAsRecent(a: Log, b: Log)
    ensures !Older(LastTerm(a), LastIndex(a), b) || !Older(LastTerm(b), LastIndex(b), a)
    ensures Older(LastTerm(a), LastIndex(a), b) ==> UpToDate(LastTerm(b), LastIndex(b), a)
    ensures UpToDate(LastTerm(a), LastIndex(a), b) <==> !Older(LastTerm(a), LastIndex(a), b)
  {
  }

  // ---------- elections ----------

  /** Standing for election: the node is a candidate of the next term with its own vote only, knows no leader, and
      asks every peer under a new number, with the end of its log. */
  lemma StandsForElection(s: Cluster, n: NodeName)
    requires Enabled(s, Elect(n)) && s.nodes[n].name == n
    ensures n in Next(s, Elect(n)).nodes
    ensures var y, x, s' := s.nodes[n], Next(s, Elect(n)).nodes[n], Next(s, Elect(n));
            && x.role == Candidate && x.term == y.term + 1 && x.votedFor == Some(n) && x.leaderName == None
            && x.log == y.log && x.commit == y.commit && x.peers.Keys == y.peers.Keys
            && forall p {:trigger x.peers[p]} :: p in y.peers ==>
                 && !x.peers[p].votedForMe && x.peers[p].seqNr == y.peers[p].seqNr + 1
                 && VoteRequest(n, p, x.term, LastIndex(y.log), LastTerm(y.log), y.peers[p].seqNr,
                                y.peers[p].seqNr == SEQ_START) in s'.net
  {
    var x := StartElection(s.nodes[n]);
    forall p | p in s.nodes[n].peers ensures VoteRequestFor(x, p) in Next(s, Elect(n)).net {
      assert VoteRequestFor(x, p) in VoteRequests(x);
    }
  }

  /** A leader's command: the entry follows the log, and each peer's next request has a new number. */
  lemma LogsCommand(s: Cluster, n: NodeName, kind: CommandKind, data: string)
    requires Enabled(s, ClientLog(n, kind, data))
    ensures n in Next(s, ClientLog(n, kind, data)).nodes
    ensures var y, x := s.nodes[n], Next(s, ClientLog(n, kind, data)).nodes[n];
            && x.log == y.log + [Entry(LastIndex(y.log) + 1, y.term, kind, data)]
            && x == y.(log := x.log, peers := x.peers) && x.peers.Keys == y.peers.Keys
            && forall p :: p in y.peers ==> x.peers[p] == y.peers[p].(seqNr := y.peers[p].seqNr + 1)
  {
  }

  /** Each peer is sent the log from its next index on, the new entry included, with the commit index. */
  lemma SendsCommand(s: Cluster, n: NodeName, kind: CommandKind, data: string, p: NodeName)
    requires Enabled(s, ClientLog(n, kind, data)) && p in s.nodes[n].peers
    ensures CanSendTo(s.nodes[n], p)
    ensures var y := s.nodes[n];
            var e := Entry(LastIndex(y.log) + 1, y.term, kind, data);
            var next := y.peers[p].nextIndex - BaseIndex(y.log);
            AppendRequest(n, p, y.term, y.peers[p].nextIndex - 1, y.log[next - 1].term, y.log[next..] + [e], y.commit,
                          y.peers[p].seqNr, y.peers[p].seqNr == SEQ_START) in Next(s, ClientLog(n, kind, data)).net
  {
    var y, x := s.nodes[n], AppendLocal(s.nodes[n], kind, data);
    assert CanSendTo(y, p) && CanSendTo(x, p);
    var next := y.peers[p].nextIndex - BaseIndex(y.log);
    LastOf(y.log);
    assert x.log[next..] == y.log[next..] + [Entry(LastIndex(y.log) + 1, y.term, kind, data)];
    assert AppendRequestFor(x, p) in AppendRequests(x);
  }

  /** The nodes that vote for n once it has counted reply r. */
  ghost function VotersWith(n: Node, r: Message): set<NodeName>
    requires r.VoteReply?
  {
    {n.name} + (set p | p in n.peers && n.peers[p].votedForMe) + if r.granted then {r.src} else {}
  }

  /** The next request to each peer is a first one and carries the entries past the commit index. */
  ghost predicate FirstRequests(n: Node)
    requires Contiguous(n.log)
  {
    forall p {:trigger CanSendTo(n, p)} :: p in n.peers && CanSendTo(n, p) ==>
      var r := AppendRequestFor(n, p);
      r.initial && r.prevIndex == n.commit && r.entries == n.log[n.commit + 1 - BaseIndex(n.log)..]
  }

  lemma WinsIff(n: Node)
    ensures WinsElection(n) <==> 2 * |Supporters(n)| > |n.peers| + 1
  {
  }

  lemma CountedVoters(n: Node, r: Message)
    requires r.VoteReply? && r.src in n.peers
    ensures var y := CountVote(n, r);
            && Supporters(y) == VotersWith(n, r) && y == n.(peers := y.peers)
            && y.peers.Keys == n.peers.Keys && |y.peers| == |n.peers|
  {
    var y := CountVote(n, r);
    assert |y.peers| == |y.peers.Keys| == |n.peers.Keys|;
  }

  /** A candidate that hears a peer of no newer term leads exactly when the nodes that vote for it, itself and the
      sender of a granted vote included, are more than half. */
  lemma LeadsIff(n: Node, r: Message)
    requires r.VoteReply? && n.role == Candidate && r.src in n.peers && r.term <= n.term
    ensures var x := OnVoteReply(n, r);
            && x.role == (if 2 * |VotersWith(n, r)| > |n.peers| + 1 then Leader else Candidate)
            && x.term == n.term && x.log == n.log && x.commit == n.commit && x.peers.Keys == n.peers.Keys
            && (x.role == Candidate ==> Supporters(x) == VotersWith(n, r))
  {
    CountedVoters(n, r);
    WinsIff(CountVote(n, r));
  }

  /** A node that has just become leader names itself, and starts each peer behind its commit index. */
  lemma LeaderStarts(n: Node, r: Message)
    requires r.VoteReply? && n.role == Candidate && OnVoteReply(n, r).role == Leader && Contiguous(n.log)
    ensures var x := OnVoteReply(n, r);
            && x.log == n.log && x.leaderName == Some(n.name) && FirstRequests(x)
            && forall p :: p in x.peers ==> x.peers[p].matchIndex == NO_INDEX
  {
    var y := CountVote(n, r);
    assert OnVoteReply(n, r) == BecomeLeader(y);
  }

  // ---------- commits ----------

  /** A request that succeeds takes the follower's commit index to the leader's, or the end of the log, when the
      leader's is ahead, and the node applies up to there. Any other outcome leaves both indices alone. */
  lemma FollowsCommit(n: Node, r: Message)
    requires r.AppendRequest? && Contiguous(n.log)
    ensures var (x, reply) := OnAppendRequest(n, r);
            var follows := reply.Some? && reply.value.success && r.leaderCommit > n.commit;
            && x.commit == (if follows then Min(r.leaderCommit, LastIndex(x.log)) else n.commit)
            && x.applied == if follows then Max(n.applied, x.commit) else n.applied
  {
  }

  /** The commit index of a follower never falls below what it was, except that it does exactly when its log ends
      before it and the leader's is ahead of it. */
  lemma CommitFallsIff(n: Node, r: Message)
    requires r.AppendRequest? && Contiguous(n.log)
    ensures var (x, reply) := OnAppendRequest(n, r);
            x.commit < n.commit <==> reply.Some? && reply.value.success && LastIndex(x.log) < n.commit < r.leaderCommit
  {
    FollowsCommit(n, r);
  }

  /** The leader, the sender of reply r, and the other peers known to hold entry i. */
  ghost function HoldersWith(n: Node, r: Message, i: int): set<NodeName>
    requires r.AppendReply?
  {
    {n.name, r.src} + set p | p in n.peers && n.peers[p].matchIndex >= i
  }

  /** The log has an entry of this index and term. */
  predicate HasEntry(log: Log, i: int, t: nat)
    requires Contiguous(log)
  {
    log != [] && BaseIndex(log) <= i <= LastIndex(log) && log[i - BaseIndex(log)].term == t
  }

  lemma NotedHolders(n: Node, r: Message)
    requires r.AppendReply? && r.src in n.peers
    ensures var y := NotePeer(n, r.src, r.lastIndex);
            && Holders(y, r.lastIndex) == HoldersWith(n, r, r.lastIndex)
            && y.peers.Keys == n.peers.Keys && |y.peers| == |n.peers|
  {
    var y := NotePeer(n, r.src, r.lastIndex);
    assert |y.peers| == |y.peers.Keys| == |n.peers.Keys|;
  }

  /** A success that names any index commits exactly that index, when it is past the commit index, its entry is of the
      reply's term, and with the sender more than half of the nodes are known to hold it; otherwise it commits
      nothing. What is committed is applied. A reply of a newer term is judged in that term, although the leader steps
      down on it first. */
  lemma CommitsIff(n: Node, r: Message)
    requires r.AppendReply? && r.success && n.role == Leader && r.term >= n.term && r.src in n.peers
    requires Contiguous(n.log)
    ensures var x, i := OnAppendReply(n, r), r.lastIndex;
            var held := n.commit < i && HasEntry(n.log, i, r.term) && 2 * |HoldersWith(n, r, i)| > |n.peers| + 1;
            && x.commit == (if held then i else n.commit)
            && x.applied == (if held then Max(n.applied, i) else n.applied)
            && x.log == n.log && x.term == r.term
            && (r.term == n.term ==> x == n.(commit := x.commit, applied := x.applied, peers := x.peers))
  {
    if r.lastIndex <= LastIndex(n.log) { NotedHolders(n, r); }
  }

  /** A reply of no older term sets what the leader takes the sender to hold, to the index it names but at most its own
      last one, and where the next request to it starts; a failure commits nothing. */
  lemma NotesPosition(n: Node, r: Message)
    requires r.AppendReply? && n.role == Leader && r.term >= n.term && r.src in n.peers && Contiguous(n.log)
    ensures var x := OnAppendReply(n, r);
            var held := if r.success then Min(r.lastIndex, LastIndex(n.log)) else r.lastIndex;
            && x.peers == n.peers[r.src := n.peers[r.src].(matchIndex := held, nextIndex := held + 1)]
            && (!r.success ==> x.commit == n.commit && x.applied == n.applied)
  {
  }

  // ---------- terms ----------

  /** What a node makes of a message. */
  function Handled(n: Node, m: Message): Node
    requires Contiguous(n.log)
  {
    if m.VoteRequest? then OnVoteRequest(n, m).0
    else if m.VoteReply? then OnVoteReply(n, m)
    else if m.AppendRequest? then OnAppendRequest(n, m).0
    else OnAppendReply(n, m)
  }

  /** A candidate listens to votes, a leader to append replies, and every node to the requests of its peers. */
  predicate Listens(n: Node, m: Message) {
    if m.VoteReply? then n.role == Candidate && m.src in n.peers
    else if m.AppendReply? then n.role == Leader
    else m.src in n.peers
  }

  /** A node that listens to a message of a newer term follows in that term, with no vote but one it grants on the
      spot; the message of an older term, or one it does not listen to, never changes its term. */
  lemma NewerTermFollows(n: Node, m: Message)
    requires Contiguous(n.log)
    ensures var x := Handled(n, m);
            && x.term == (if Listens(n, m) then Max(n.term, m.term) else n.term)
            && (x.term > n.term ==>
                  && x.role == Follower && (x.votedFor == None || (m.VoteRequest? && x.votedFor == Some(m.src)))
                  && x.leaderName ==
                       if m.AppendRequest? then Some(m.src) else if m.VoteReply? then n.leaderName else None)
            && (!Listens(n, m) ==> x == n)
  {
  }

  /** A peer that asks to append in the node's own term is its leader: a candidate gives up, and a follower that knew
      no leader knows one. In an older term it is told so. */
  lemma HearsLeader(n: Node, r: Message)
    requires r.AppendRequest? && r.src in n.peers && Contiguous(n.log)
    ensures var (x, reply) := OnAppendRequest(n, r);
            && (r.term < n.term ==>
                  && x == n && reply.Some?
                  && reply.value ==
                       AppendReply(n.name, r.src, n.term, false, LastIndex(n.log), LastTerm(n.log), r.term))
            && (r.term >= n.term && n.role != Leader ==> x.role == Follower)
            && (r.term > n.term || (r.term == n.term && n.role == Candidate) ==> x.leaderName == Some(r.src))
            && (r.term == n.term && n.role == Follower && n.leaderName == None ==> x.leaderName == Some(r.src))
            && var seen := if r.term > n.term || (r.term == n.term && n.role == Candidate) then 0 else n.lastSeq;
            (reply == None <==> r.term >= n.term && !r.initial && r.seqNr <= seen)
  {
  }

  // ---------- in runs ----------

  /** A request under way that its receiver accepts leaves the receiver's log as long as the leader's was. */
  lemma AcceptedReaches(s: Cluster, m: Message)
    requires Inv(s) && m in s.net && m.AppendRequest? && m.dst in s.nodes && Contiguous(s.nodes[m.dst].log)
    requires var reply := OnAppendRequest(s.nodes[m.dst], m).1; reply.Some? && reply.value.success
    ensures var x := OnAppendRequest(s.nodes[m.dst], m).0;
            |x.log| == Reach(m) && LastIndex(x.log) == |x.log| - 1 && 0 <= m.leaderCommit < |x.log|
  {
    var y := s.nodes[m.dst];
    assert NodeShape(s, m.dst) && MessageOk(s, m);
    LogIndex(s.hist, y.log);
    RequestFollows(s, m);
    LastOf(y.log);
    assert TermLogOk(s.hist, m.term);
    AcceptedLog(y, m);
  }

  lemma AcceptedLog(n: Node, r: Message)
    requires r.AppendRequest? && Contiguous(n.log) && n.log != [] && BaseIndex(n.log) == 0 <= r.prevIndex
    requires EntriesFollow(r)
    requires var reply := OnAppendRequest(n, r).1; reply.Some? && reply.value.success
    ensures var x := OnAppendRequest(n, r).0;
            r.prevIndex < |n.log| && x.log == n.log[..r.prevIndex + 1] + r.entries && LastIndex(x.log) == Reach(r) - 1
  {
    LastOf(n.log);
    if r.prevIndex == LastIndex(n.log) { assert n.log[..r.prevIndex + 1] == n.log; }
    var x := OnAppendRequest(n, r).0;
    assert x.log == n.log[..r.prevIndex + 1] + r.entries;
    assert x.log[|x.log| - 1].index == Reach(r) - 1;
  }

  ghost predicate Accepted(n: Node, m: Message)
    requires m.AppendRequest? && Contiguous(n.log)
  {
    var reply := OnAppendRequest(n, m).1;
    reply.Some? && reply.value.success
  }

  lemma AcceptedCommits(s: Cluster, m: Message)
    requires Inv(s) && Enabled(s, Deliver(m)) && m.AppendRequest? && Accepted(s.nodes[m.dst], m)
    ensures var x := OnAppendRequest(s.nodes[m.dst], m).0;
            x.commit == x.applied == Max(s.nodes[m.dst].commit, m.leaderCommit) && 0 <= m.leaderCommit < |x.log|
  {
    assert NodeShape(s, m.dst);
    FollowsCommit(s.nodes[m.dst], m);
    AcceptedReaches(s, m);
  }

  /** In every run, a node that accepts an append request has then committed and applied exactly up to the larger of
      its own commit index and the request's, and has handed over each entry on the way. */
  lemma FollowerCommits(tr: seq<Cluster>, acts: seq<Action>, i: nat, m: Message)
    requires IsRun(tr, acts) && i < |acts| && acts[i] == Deliver(m) && m.AppendRequest?
    requires m.dst in tr[i].nodes && Contiguous(tr[i].nodes[m.dst].log) && Accepted(tr[i].nodes[m.dst], m)
    ensures m.dst in tr[i + 1].nodes
    ensures var y, z := tr[i].nodes[m.dst], tr[i + 1].nodes[m.dst];
            && z.commit == z.applied == Max(y.commit, m.leaderCommit)
            && forall k :: y.commit < k <= m.leaderCommit ==> 0 <= k < |z.log| && Applies(tr, i, m.dst, k, z.log[k])
  {
    RunInv(tr, acts, i);
    assert acts[i] == acts[i];
    assert NodeShape(tr[i], m.dst);
    AcceptedCommits(tr[i], m);
  }

  /** Any other outcome leaves both indices what they were. */
  lemma RefusalCommitsNothing(tr: seq<Cluster>, acts: seq<Action>, i: nat, m: Message)
    requires IsRun(tr, acts) && i < |acts| && acts[i] == Deliver(m) && m.AppendRequest?
    requires m.dst in tr[i].nodes && Contiguous(tr[i].nodes[m.dst].log) && !Accepted(tr[i].nodes[m.dst], m)
    ensures m.dst in tr[i + 1].nodes
    ensures tr[i + 1].nodes[m.dst].commit == tr[i].nodes[m.dst].commit
    ensures tr[i + 1].nodes[m.dst].applied == tr[i].nodes[m.dst].applied
  {
    RunInv(tr, acts, i);
    assert acts[i] == acts[i];
    assert NodeShape(tr[i], m.dst);
    FollowsCommit(tr[i].nodes[m.dst], m);
  }

  /** An exchange that succeeds makes the follower commit and apply what the leader has committed, entries of the
      leader's log all of them. */
  lemma RoundCommits(n: Node, f: Node, p: NodeName)
    requires n.role == Leader && p in n.peers && f.name == p && f.term == n.term
    requires f.commit == f.applied && n.commit <= LastIndex(n.log)
    requires CanSendTo(n, p) && Probing(n.log, f.log, n.peers[p].nextIndex)
    ensures var (y, reply) := ProcessAppend(f, AppendRequestFor(n, p));
            && reply.Some?
            && if reply.value.success then y.log == n.log && y.commit == y.applied == Max(f.commit, n.commit)
               else y.commit == f.commit && y.applied == f.applied
  {
    RoundInModel(n, f, p);
    if Round(n.log, f.log, n.peers[p].nextIndex).1 { SucceedingRound(n.log, f.log, n.peers[p].nextIndex); }
  }
}
