/** The value of a Raft node, the RPC messages, and what each handler of the node makes of them. */
module RaftModel {
  import opened Collections
  import opened RaftLog

  const SEQ_START: nat := 1

  datatype Role = Follower | Candidate | Leader

  datatype Peer = Peer(votedForMe: bool, nextIndex: int, matchIndex: int, seqNr: nat)

  datatype Node = Node(
    name: NodeName,
    term: nat,
    votedFor: Option<NodeName>,
    role: Role,
    log: Log,
    commit: int,
    applied: int,
    leaderName: Option<NodeName>,
    lastSeq: nat,
    peers: map<NodeName, Peer>)

  /** `asked` in a reply is the term of the request it answers. */
  datatype Message =
    | VoteRequest(src: NodeName, dst: NodeName, term: nat, lastIndex: int, lastTerm: nat, seqNr: nat, initial: bool)
    | VoteReply(src: NodeName, dst: NodeName, term: nat, granted: bool, asked: nat)
    | AppendRequest(src: NodeName, dst: NodeName, term: nat, prevIndex: int, prevTerm: nat, entries: Log,
                    leaderCommit: int, seqNr: nat, initial: bool)
    | AppendReply(src: NodeName, dst: NodeName, term: nat, success: bool, lastIndex: int, lastTerm: nat, asked: nat)

  /** What every node keeps about itself. */
  ghost predicate ValidNode(n: Node) {
    && n.name !in n.peers
    && Contiguous(n.log)
    && n.applied >= NO_INDEX
    && (n.log != [] ==> n.log[0].index <= n.applied + 1)
  }

  // ---------- role changes (node_state.cpp) ----------

  function BecomeFollower(n: Node, newTerm: nat): Node {
    n.(role := Follower, term := newTerm, votedFor := None, lastSeq := 0)
  }

  function BecomeLeader(n: Node): Node {
    n.(role := Leader, leaderName := Some(n.name),
       peers := map p | p in n.peers ::
                  n.peers[p].(matchIndex := NO_INDEX, nextIndex := n.commit + 1, seqNr := SEQ_START))
  }

  // ---------- shared request checks (node.h, node.cpp) ----------

  /** What a node makes of the term and sender of a request of a leader; None when the request is too old. */
  function AcceptLeader(n: Node, term: nat, src: NodeName): Option<Node> {
    if term < n.term then None
    else if term > n.term || n.role == Candidate then Some(BecomeFollower(n, term).(leaderName := Some(src)))
    else if n.role == Follower && n.leaderName == None then Some(n.(leaderName := Some(src)))
    else Some(n)
  }

  predicate ValidSeq(lastSeq: nat, seqNr: nat, initial: bool) {
    initial || seqNr > lastSeq
  }

  // ---------- elections (node_rpc_r.cpp, node_conf.cpp) ----------

  function VoteRequestFor(n: Node, p: NodeName): Message
    requires p in n.peers
  {
    VoteRequest(n.name, p, n.term, LastIndex(n.log), LastTerm(n.log), n.peers[p].seqNr, n.peers[p].seqNr == SEQ_START)
  }

  function StartElection(n: Node): Node {
    n.(role := Candidate, term := n.term + 1, votedFor := Some(n.name), leaderName := None,
       peers := map p | p in n.peers :: n.peers[p].(votedForMe := false))
  }

  /** The sequence number of every peer moves on by one with each broadcast. */
  function CountSent(n: Node): Node {
    n.(peers := map p | p in n.peers :: n.peers[p].(seqNr := n.peers[p].seqNr + 1))
  }

  function VoteRequests(n: Node): set<Message> {
    set p | p in n.peers :: VoteRequestFor(n, p)
  }

  function Supporters(n: Node): set<NodeName> {
    {n.name} + set p | p in n.peers && n.peers[p].votedForMe
  }

  /** A vote count meets the threshold of a cluster of all peers and the node itself. */
  predicate EnoughVotes(votes: nat, n: Node) {
    votes > (|n.peers| + 1) / 2
  }

  predicate WinsElection(n: Node) {
    EnoughVotes(|Supporters(n)|, n)
  }

  /** The node after adopting the request's term, when that is newer. */
  function AdoptTerm(n: Node, term: nat): Node {
    if term > n.term then BecomeFollower(n, term).(leaderName := None) else n
  }

  predicate MayVote(n: Node, r: Message)
    requires r.VoteRequest?
  {
    && r.term == n.term
    && (n.votedFor == None || n.votedFor == Some(r.src))
    && UpToDate(r.lastTerm, r.lastIndex, n.log)
  }

  function OnVoteRequest(n: Node, r: Message): (Node, Option<Message>)
    requires r.VoteRequest?
  {
    if r.src !in n.peers then (n, None) else
    var n1 := AdoptTerm(n, r.term);
    if !MayVote(n1, r) then (n1, Some(VoteReply(n.name, r.src, n1.term, false, r.term)))
    else if !ValidSeq(n1.lastSeq, r.seqNr, r.initial) then (n1, None)
    else (n1.(lastSeq := r.seqNr, leaderName := None, votedFor := Some(r.src)),
          Some(VoteReply(n.name, r.src, n1.term, true, r.term)))
  }

  function CountVote(n: Node, r: Message): Node
    requires r.VoteReply? && r.src in n.peers
  {
    if r.granted then n.(peers := n.peers[r.src := n.peers[r.src].(votedForMe := true)]) else n
  }

  function OnVoteReply(n: Node, r: Message): Node
    requires r.VoteReply?
  {
    if n.role != Candidate || r.src !in n.peers then n
    else if r.term > n.term then BecomeFollower(n, r.term)
    else
      var n1 := CountVote(n, r);
      if WinsElection(n1) then BecomeLeader(n1) else n1
  }

  function OnElectionTimeout(n: Node): Node {
    if n.role == Candidate && WinsElection(n) then BecomeLeader(n) else n
  }

  // ---------- replication (node_rpc_a.cpp) ----------

  /** The entry before the next one for p, which a request reads, exists. */
  predicate CanSendTo(n: Node, p: NodeName)
    requires p in n.peers
  {
    0 <= BaseIndex(n.log) < n.peers[p].nextIndex <= LastIndex(n.log) + 1
  }

  predicate CanSend(n: Node) {
    forall p {:trigger CanSendTo(n, p)} :: p in n.peers ==> CanSendTo(n, p)
  }

  function AppendRequestFor(n: Node, p: NodeName): Message
    requires p in n.peers && Contiguous(n.log) && CanSendTo(n, p)
  {
    var next := n.peers[p].nextIndex - BaseIndex(n.log);
    AppendRequest(n.name, p, n.term, n.peers[p].nextIndex - 1, n.log[next - 1].term, n.log[next..], n.commit,
                  n.peers[p].seqNr, n.peers[p].seqNr == SEQ_START)
  }

  function AppendRequests(n: Node): set<Message>
    requires Contiguous(n.log) && CanSend(n)
  {
    set p | p in n.peers :: AppendRequestFor(n, p)
  }

  function AppendLocal(n: Node, kind: CommandKind, data: string): (x: Node)
    ensures Contiguous(n.log) ==> Contiguous(x.log)
    ensures CanSend(n) ==> CanSend(x)
  {
    assert CanSend(n) ==> forall p :: p in n.peers ==> CanSendTo(n, p);
    n.(log := n.log + [Entry(LastIndex(n.log) + 1, n.term, kind, data)])
  }

  /** How many of the first `end` entries stay when the run of entries of term `t` ending there goes. */
  function BeforeRun(log: Log, end: nat, t: nat): (k: nat)
    requires end <= |log|
    ensures k <= end
    ensures k > 0 ==> log[k - 1].term != t
    ensures forall i :: k <= i < end ==> log[i].term == t
  {
    if end == 0 || log[end - 1].term != t then end else BeforeRun(log, end - 1, t)
  }

  /** The search from entry i back for one of another term than t, as the source does it by index: how many entries
      stay, or None when it reads in front of the log's first entry. */
  function ScanBack(log: Log, i: int, t: nat): Option<nat>
    requires Contiguous(log) && NO_INDEX <= i <= LastIndex(log)
    decreases i - NO_INDEX
  {
    if i == NO_INDEX then Some(0)
    else if i < BaseIndex(log) then None
    else if log[i - BaseIndex(log)].term != t then Some(i + 1 - BaseIndex(log))
    else ScanBack(log, i - 1, t)
  }

  /** The request's previous entry is in the log, past its first entry, with another term. */
  predicate Conflicts(log: Log, prev: int, prevTerm: nat)
    requires Contiguous(log)
  {
    BaseIndex(log) < prev <= LastIndex(log) && log[prev - BaseIndex(log)].term != prevTerm
  }

  /** Where the request conflicts, the entries of the conflicting term do not start at a compacted log's first entry. */
  predicate ScansInside(log: Log, prev: int, prevTerm: nat)
    requires Contiguous(log)
  {
    Conflicts(log, prev, prevTerm) ==>
      BaseIndex(log) == 0 || BeforeRun(log, prev - BaseIndex(log), log[prev - BaseIndex(log)].term) > 0
  }

  lemma {:induction false} ScanIsBeforeRun(log: Log, i: int, t: nat)
    requires Contiguous(log) && log != [] && BaseIndex(log) - 1 <= i <= LastIndex(log)
    ensures var k := BeforeRun(log, i + 1 - BaseIndex(log), t);
            ScanBack(log, i, t) == if BaseIndex(log) == 0 || k > 0 then Some(k) else None
    decreases i - NO_INDEX
  {
    if i >= BaseIndex(log) && log[i - BaseIndex(log)].term == t { ScanIsBeforeRun(log, i - 1, t); }
  }

  /** The search keeps what the model keeps, except that it leaves the log exactly when the log is compacted and
      all its entries up to the conflicting one have the same term. */
  lemma ScanBackIff(log: Log, prev: int)
    requires Contiguous(log) && BaseIndex(log) < prev <= LastIndex(log)
    ensures var p, t := prev - BaseIndex(log), log[prev - BaseIndex(log)].term;
            && (ScanBack(log, prev - 1, t) == None <==>
                  BaseIndex(log) > 0 && forall j :: 0 <= j <= p ==> log[j].term == t)
            && (ScanBack(log, prev - 1, t) != None ==> ScanBack(log, prev - 1, t) == Some(BeforeRun(log, p, t)))
  {
    ScanIsBeforeRun(log, prev - 1, log[prev - BaseIndex(log)].term);
  }

  /** A follower whose snapshot ends with entry 5 of term 2 holds entry 6 of term 2, and the leader of term 3, which
      has another entry 6, asks about that one. */
  lemma ScanLeavesLog(state: string, kind: CommandKind, data: string)
    ensures var log := [Entry(5, 2, Snapshot, state), Entry(6, 2, kind, data)];
            Contiguous(log) && Conflicts(log, 6, 3) && ScanBack(log, 5, 2) == None
  {
    var log := [Entry(5, 2, Snapshot, state), Entry(6, 2, kind, data)];
    assert log[0].index == 5;
    ScanBackIff(log, 6);
  }

  /** The follower's log after an append request, and whether the request succeeded. */
  function AppendTo(log: Log, prev: int, prevTerm: nat, entries: Log): (Log, bool)
    requires Contiguous(log)
  {
    var base := BaseIndex(log);
    if prev >= 0 && prev > LastIndex(log) then (log, false)
    else if prev != NO_INDEX && prev > base && log[prev - base].term != prevTerm then
      (log[..BeforeRun(log, prev - base, log[prev - base].term)], false)
    else if prev < base then (log, true)
    else if prev < LastIndex(log) then (log[..prev - base + 1] + entries, true)
    else (log + entries, true)
  }

  /** A follower's commit index moves to the leader's, at most to its own last entry, and it applies up to there. */
  function FollowCommit(n: Node, leaderCommit: int): Node {
    if leaderCommit > n.commit then
      var c := Min(leaderCommit, LastIndex(n.log));
      n.(commit := c, applied := Max(n.applied, c))
    else n
  }

  /** The term and sequence checks let the request through. */
  predicate Processes(n: Node, r: Message)
    requires r.AppendRequest?
  {
    && r.src in n.peers
    && AcceptLeader(n, r.term, r.src).Some?
    && ValidSeq(AcceptLeader(n, r.term, r.src).value.lastSeq, r.seqNr, r.initial)
  }

  /** The entries of the request follow its previous index. */
  predicate EntriesFollow(r: Message)
    requires r.AppendRequest?
  {
    forall i :: 0 <= i < |r.entries| ==> r.entries[i].index == r.prevIndex + 1 + i
  }

  /** The part of the append handler after the term and sequence checks. */
  function ProcessAppend(n: Node, r: Message): (Node, Option<Message>)
    requires r.AppendRequest? && Contiguous(n.log)
  {
    var (log, ok) := AppendTo(n.log, r.prevIndex, r.prevTerm, r.entries);
    var n1 := n.(log := log, lastSeq := r.seqNr);
    var n2 := if ok then FollowCommit(n1, r.leaderCommit) else n1;
    (n2, Some(AppendReply(n.name, r.src, n.term, ok, LastIndex(log), LastTerm(log), r.term)))
  }

  function OnAppendRequest(n: Node, r: Message): (Node, Option<Message>)
    requires r.AppendRequest? && Contiguous(n.log)
  {
    if r.src !in n.peers then (n, None) else
    match AcceptLeader(n, r.term, r.src)
    case None => (n, Some(AppendReply(n.name, r.src, n.term, false, LastIndex(n.log), LastTerm(n.log), r.term)))
    case Some(n1) => if ValidSeq(n1.lastSeq, r.seqNr, r.initial) then ProcessAppend(n1, r) else (n1, None)
  }

  /** The nodes known to hold entry i: the leader and the peers whose match index reaches it. */
  function Holders(n: Node, i: int): set<NodeName> {
    {n.name} + set p | p in n.peers && n.peers[p].matchIndex >= i
  }

  /** Where the next request to p starts and what p is taken to hold, after a reply. */
  function NotePeer(n: Node, p: NodeName, last: int): Node
    requires p in n.peers
  {
    n.(peers := n.peers[p := n.peers[p].(nextIndex := last + 1, matchIndex := last)])
  }

  /** Entry i is of the leader's own term and a majority holds it. */
  predicate MayCommit(n: Node, i: int)
    requires Contiguous(n.log)
  {
    && n.log != []
    && n.commit < i <= LastIndex(n.log)
    && BaseIndex(n.log) <= i
    && n.log[i - BaseIndex(n.log)].term == n.term
    && EnoughVotes(|Holders(n, i)|, n)
  }

  function TryCommit(n: Node, i: int): Node
    requires Contiguous(n.log)
  {
    if MayCommit(n, i) then n.(commit := i, applied := Max(n.applied, i)) else n
  }

  function OnAppendReply(n: Node, r: Message): Node
    requires r.AppendReply? && Contiguous(n.log)
  {
    if n.role != Leader || r.term < n.term then n else
    var n1 := AdoptTerm(n, r.term);
    if r.src !in n1.peers then n1
    else if !r.success then NotePeer(n1, r.src, r.lastIndex)
    else if r.lastIndex > LastIndex(n1.log) then NotePeer(n1, r.src, LastIndex(n1.log))
    else TryCommit(NotePeer(n1, r.src, r.lastIndex), r.lastIndex)
  }
}
