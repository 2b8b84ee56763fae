/** The node itself: its fields and the handlers that update them in place, each proved to compute
    what RaftModel says it does. */
module RaftServer {
  import opened Collections
  import opened RaftLog
  import opened RaftModel
  import opened Compaction

  /** What logging a command returns on a node that does not lead. */
  const NOT_LEADER := -3

  class RaftNode {
    const name: NodeName
    var currentTerm: nat
    var voteFor: Option<NodeName>
    var state: Role
    var logs: Log
    var commitIndex: int
    var lastApplied: int
    var leaderName: Option<NodeName>
    var lastSeq: nat
    var peers: map<NodeName, Peer>
    /** Every entry handed to the state machine so far, in order. */
    var handed: seq<Entry>

    ghost function Value(): Node
      reads this
    {
      Node(name, currentTerm, voteFor, state, logs, commitIndex, lastApplied, leaderName, lastSeq, peers)
    }

    ghost predicate Valid()
      reads this
    {
      ValidNode(Value())
    }

    constructor (name: NodeName)
      ensures Valid() && this.name == name && handed == []
      ensures Value() == Node(name, NO_TERM, None, Follower, [], NO_INDEX, NO_INDEX, None, 0, map[])
    {
      this.name := name;
      currentTerm, voteFor, state := NO_TERM, None, Follower;
      logs, commitIndex, lastApplied := [], NO_INDEX, NO_INDEX;
      leaderName, lastSeq, peers, handed := None, 0, map[], [];
    }

    method BecomeFollower(newTerm: nat)
      requires Valid()
      modifies this
      ensures Valid()
      ensures Value() == RaftModel.BecomeFollower(old(Value()), newTerm) && handed == old(handed)
    {
      state := Follower;
      currentTerm := newTerm;
      voteFor := None;
      lastSeq := 0;
    }

    method BecomeLeader()
      requires Valid()
      modifies this
      ensures Valid()
      ensures Value() == RaftModel.BecomeLeader(old(Value())) && handed == old(handed)
    {
      state := Leader;
      leaderName := Some(name);
      var todo := peers.Keys;
      while todo != {}
        invariant todo <= old(peers.Keys)
        invariant peers == Reset(old(peers), todo, old(commitIndex))
        invariant Value() == old(Value()).(role := Leader, leaderName := Some(name), peers := peers)
        invariant handed == old(handed)
        decreases |todo|
      {
        var p := Pick(todo);
        OneMoreReset(old(peers), todo, old(commitIndex), p);
        peers := peers[p := peers[p].(matchIndex := NO_INDEX, nextIndex := commitIndex + 1, seqNr := SEQ_START)];
        todo := todo - {p};
      }
      assert peers == RaftModel.BecomeLeader(old(Value())).peers;
    }

    method HandleRequestRoutine(term: nat, src: NodeName) returns (ok: bool)
      requires Valid()
      modifies this
      ensures Valid()
      ensures ok <==> AcceptLeader(old(Value()), term, src).Some?
      ensures Value() == (if ok then AcceptLeader(old(Value()), term, src).value else old(Value()))
      ensures handed == old(handed)
    {
      if term < currentTerm {
        return false;
      }
      if term > currentTerm {
        BecomeFollower(term);
        leaderName := Some(src);
      }
      if term == currentTerm && state == Follower && leaderName == None {
        leaderName := Some(src);
      }
      if term == currentTerm && state == Candidate {
        BecomeFollower(term);
        leaderName := Some(src);
      }
      return true;
    }

    /** The sequence filter: what passes raises last_seq, except that an initial request resets it. */
    method ValidSequence(seqNr: nat, initial: bool) returns (ok: bool)
      requires Valid()
      modifies this
      ensures Valid()
      ensures ok == ValidSeq(old(lastSeq), seqNr, initial)
      ensures Value() == (if ok then old(Value()).(lastSeq := seqNr) else old(Value())) && handed == old(handed)
    {
      if initial || seqNr > lastSeq {
        lastSeq := seqNr;
        return true;
      }
      return false;
    }

    // ---------- elections ----------

    method DoElection() returns (sent: set<Message>)
      requires Valid()
      modifies this
      ensures Valid()
      ensures var x := StartElection(old(Value())); Value() == CountSent(x) && sent == VoteRequests(x)
      ensures handed == old(handed)
    {
      state := Candidate;
      currentTerm := currentTerm + 1;
      voteFor := Some(name);
      leaderName := None;
      ghost var x := Value();
      sent := RequestVotes();
      AskedAll(old(Value()));
      VotesAside(x, StartElection(old(Value())));
    }

    /** Ask every peer for its vote, and forget the votes of earlier elections. */
    method RequestVotes() returns (sent: set<Message>)
      modifies this`peers
      ensures peers == Asked(old(peers), {})
      ensures sent == VoteRequests(old(Value()))
    {
      ghost var x := Value();
      sent := {};
      var todo := peers.Keys;
      while todo != {}
        invariant todo <= x.peers.Keys
        invariant peers == Asked(x.peers, todo)
        invariant sent == VoteRequestsBut(x, todo)
        decreases |todo|
      {
        var p := Pick(todo);
        OneMoreVoteRequest(x, todo, p);
        sent := sent + {VoteRequest(name, p, currentTerm, LastIndex(logs), LastTerm(logs),
                                    peers[p].seqNr, peers[p].seqNr == SEQ_START)};
        peers := peers[p := peers[p].(votedForMe := false, seqNr := peers[p].seqNr + 1)];
        todo := todo - {p};
      }
      assert VoteRequestsBut(x, {}) == VoteRequests(x);
    }

    method TestElection() returns (won: bool)
      requires Valid()
      ensures won == WinsElection(Value())
    {
      var voteGot := 1;
      var todo := peers.Keys;
      ghost var counted := {name};
      while todo != {}
        invariant todo <= peers.Keys
        invariant counted == {name} + set p | p in peers && p !in todo && peers[p].votedForMe
        invariant voteGot == |counted|
        decreases |todo|
      {
        var p := Pick(todo);
        if peers[p].votedForMe {
          voteGot := voteGot + 1;
          counted := counted + {p};
        }
        todo := todo - {p};
      }
      assert counted == Supporters(Value());
      won := voteGot > (|peers| + 1) / 2;
    }

    method OnVoteRequest(r: Message) returns (reply: Option<Message>)
      requires r.VoteRequest? && Valid()
      modifies this
      ensures Valid()
      ensures (Value(), reply) == RaftModel.OnVoteRequest(old(Value()), r) && handed == old(handed)
    {
      if r.src !in peers {
        return None;
      }
      if r.term > currentTerm {
        BecomeFollower(r.term);
        leaderName := None;
      } else if r.term < currentTerm {
        return Some(VoteReply(name, r.src, currentTerm, false, r.term));
      }
      if voteFor != None && voteFor != Some(r.src) {
        return Some(VoteReply(name, r.src, currentTerm, false, r.term));
      }
      if r.lastTerm < LastTerm(logs) {
        return Some(VoteReply(name, r.src, currentTerm, false, r.term));
      }
      if r.lastTerm == LastTerm(logs) && r.lastIndex < LastIndex(logs) {
        return Some(VoteReply(name, r.src, currentTerm, false, r.term));
      }
      var ok := ValidSequence(r.seqNr, r.initial);
      if !ok {
        return None;
      }
      leaderName := None;
      voteFor := Some(r.src);
      return Some(VoteReply(name, r.src, currentTerm, true, r.term));
    }

    method OnVoteReply(r: Message)
      requires r.VoteReply? && Valid()
      modifies this
      ensures Valid()
      ensures Value() == RaftModel.OnVoteReply(old(Value()), r) && handed == old(handed)
    {
      if state != Candidate || r.src !in peers {
        return;
      }
      if r.term > currentTerm {
        BecomeFollower(r.term);
      } else {
        if !peers[r.src].votedForMe && r.granted {
          peers := peers[r.src := peers[r.src].(votedForMe := true)];
        }
        assert Value() == CountVote(old(Value()), r);
        var won := TestElection();
        if won {
          BecomeLeader();
        }
      }
    }

    // ---------- replication ----------

    method DoAppendEntries() returns (sent: set<Message>)
      requires Valid() && CanSend(Value())
      modifies this`peers
      ensures Valid()
      ensures Value() == CountSent(old(Value())) && sent == AppendRequests(old(Value()))
    {
      ghost var x := Value();
      sent := {};
      var todo := peers.Keys;
      while todo != {}
        invariant todo <= x.peers.Keys
        invariant peers == Sent(x.peers, todo)
        invariant sent == AppendRequestsBut(x, todo)
        decreases |todo|
      {
        var p := Pick(todo);
        OneMoreAppendRequest(x, todo, p);
        var r := SendTo(p, x, todo);
        sent := sent + {r};
        todo := todo - {p};
      }
      SentAll(x);
    }

    /** Node x has sent to all peers but those in `todo`, and now sends to p. */
    method SendTo(p: NodeName, ghost x: Node, ghost todo: set<NodeName>) returns (r: Message)
      requires Contiguous(x.log) && CanSend(x) && p in x.peers && p in todo
      requires Value() == x.(peers := Sent(x.peers, todo))
      modifies this`peers
      ensures r == AppendRequestFor(x, p)
      ensures peers == Sent(x.peers, todo - {p})
    {
      UnsentRequest(x, todo, p);
      var prevLogIndex := peers[p].nextIndex - 1;
      var at := prevLogIndex - BaseIndex(logs);
      r := AppendRequest(name, p, currentTerm, prevLogIndex, logs[at].term, logs[at + 1..], commitIndex,
                         peers[p].seqNr, peers[p].seqNr == SEQ_START);
      peers := peers[p := peers[p].(seqNr := peers[p].seqNr + 1)];
    }

    method DoLog(kind: CommandKind, data: string) returns (index: int, sent: set<Message>)
      requires Valid() && CanSend(Value())
      modifies this
      ensures Valid()
      ensures old(state) != Leader ==> index == NOT_LEADER && sent == {} && Value() == old(Value())
      ensures old(state) == Leader ==>
                var x := AppendLocal(old(Value()), kind, data);
                index == LastIndex(x.log) && Value() == CountSent(x) && CanSend(x) && sent == AppendRequests(x)
      ensures handed == old(handed)
    {
      if state != Leader {
        return NOT_LEADER, {};
      }
      index := LastIndex(logs) + 1;
      ghost var x := AppendLocal(Value(), kind, data);
      logs := logs + [Entry(index, currentTerm, kind, data)];
      assert Value() == x;
      sent := DoAppendEntries();
    }

    /** Hand over the entries after last_applied, up to the commit index. */
    method DoApply()
      requires Valid() && commitIndex <= LastIndex(logs)
      modifies this`lastApplied, this`handed
      ensures Valid()
      ensures lastApplied == Max(old(lastApplied), commitIndex)
      ensures handed == old(handed) + HandedBy(old(lastApplied), Value())
    {
      if logs != [] { LastOf(logs); }
      var base := BaseIndex(logs);
      ghost var from := lastApplied + 1 - base;
      var i := lastApplied + 1;
      while i <= commitIndex
        invariant old(lastApplied) < i <= Max(old(lastApplied), commitIndex) + 1
        invariant lastApplied == i - 1
        invariant handed == old(handed) + if i - base <= |logs| then logs[from..i - base] else []
      {
        assert logs[from..i + 1 - base] == logs[from..i - base] + [logs[i - base]];
        handed := handed + [logs[i - base]];
        lastApplied := i;
        i := i + 1;
      }
    }

    /** Reject the run of entries that ends at the conflicting index, as far back as its term reaches. */
    method RevokeRun(prev: int)
      requires Valid() && BaseIndex(logs) < prev <= LastIndex(logs)
      requires ScanBack(logs, prev - 1, logs[prev - BaseIndex(logs)].term).Some?
      modifies this`logs
      ensures Valid()
      ensures var l := old(logs); var p := prev - BaseIndex(l);
              Some(|logs|) == ScanBack(l, prev - 1, l[p].term) && logs == l[..BeforeRun(l, p, l[p].term)]
    {
      var base := BaseIndex(logs);
      var localTerm := logs[prev - base].term;
      ScanBackIff(logs, prev);
      ghost var keep := BeforeRun(logs, prev - base, localTerm);
      var i := prev - 1;
      while i != NO_INDEX && logs[i - base].term == localTerm
        invariant NO_INDEX <= i < prev && ScanBack(logs, i, localTerm) == Some(keep)
        decreases i
      {
        i := i - 1;
      }
      if i == NO_INDEX {
        logs := [];
      } else {
        logs := logs[..i + 1 - base];
      }
    }

    method OnAppendEntriesRequest(r: Message) returns (reply: Option<Message>)
      requires r.AppendRequest? && Valid() && EntriesFollow(r)
      requires Processes(Value(), r) ==> ScansInside(logs, r.prevIndex, r.prevTerm)
      modifies this
      ensures Valid()
      ensures (Value(), reply) == OnAppendRequest(old(Value()), r)
      ensures handed == old(handed) + HandedBy(old(lastApplied), Value())
    {
      if r.src !in peers {
        return None;
      }
      var ok := HandleRequestRoutine(r.term, r.src);
      if !ok {
        return Some(AppendReply(name, r.src, currentTerm, false, LastIndex(logs), LastTerm(logs), r.term));
      }
      ok := ValidSequence(r.seqNr, r.initial);
      if !ok {
        return None;
      }
      reply := ProcessAppendEntries(r);
    }

    /** The follower's log and commit index after a request that passed the checks. */
    method ProcessAppendEntries(r: Message) returns (reply: Option<Message>)
      requires r.AppendRequest? && Valid() && lastSeq == r.seqNr && EntriesFollow(r)
      requires ScansInside(logs, r.prevIndex, r.prevTerm)
      modifies this`logs, this`commitIndex, this`lastApplied, this`handed
      ensures Valid()
      ensures (Value(), reply) == ProcessAppend(old(Value()), r)
      ensures handed == old(handed) + HandedBy(old(lastApplied), Value())
    {
      if r.prevIndex >= 0 && r.prevIndex > LastIndex(logs) {
        return Some(AppendReply(name, r.src, currentTerm, false, LastIndex(logs), LastTerm(logs), r.term));
      }
      var base := BaseIndex(logs);
      if r.prevIndex != NO_INDEX && r.prevIndex > base && logs[r.prevIndex - base].term != r.prevTerm {
        reply := RefuseConflict(r);
      } else {
        reply := AcceptEntries(r);
      }
    }

    method RefuseConflict(r: Message) returns (reply: Option<Message>)
      requires r.AppendRequest? && Valid() && lastSeq == r.seqNr && logs != []
      requires Conflicts(logs, r.prevIndex, r.prevTerm) && ScansInside(logs, r.prevIndex, r.prevTerm)
      modifies this`logs
      ensures Valid()
      ensures (Value(), reply) == ProcessAppend(old(Value()), r)
      ensures handed == old(handed) + HandedBy(old(lastApplied), Value())
    {
      ghost var x := Value();
      AppendCuts(logs, r.prevIndex, r.prevTerm, r.entries);
      ScanIsBeforeRun(logs, r.prevIndex - 1, logs[r.prevIndex - BaseIndex(logs)].term);
      RevokeRun(r.prevIndex);
      ProcessIs(x, r, logs, false);
      return Some(AppendReply(name, r.src, currentTerm, false, LastIndex(logs), LastTerm(logs), r.term));
    }

    method AcceptEntries(r: Message) returns (reply: Option<Message>)
      requires r.AppendRequest? && Valid() && lastSeq == r.seqNr && EntriesFollow(r)
      requires !(r.prevIndex >= 0 && r.prevIndex > LastIndex(logs)) && !Conflicts(logs, r.prevIndex, r.prevTerm)
      modifies this`logs, this`commitIndex, this`lastApplied, this`handed
      ensures Valid()
      ensures (Value(), reply) == ProcessAppend(old(Value()), r)
      ensures handed == old(handed) + HandedBy(old(lastApplied), Value())
    {
      ghost var x := Value();
      if r.prevIndex >= BaseIndex(logs) {
        TakeEntries(r.prevIndex, r.entries);
      }
      ProcessIs(x, r, logs, true);
      FollowLeaderCommit(r.leaderCommit);
      return Some(AppendReply(name, r.src, currentTerm, true, LastIndex(logs), LastTerm(logs), r.term));
    }

    /** Erase everything past the previous index, then append the entries. */
    method TakeEntries(prev: int, entries: Log)
      requires Valid() && BaseIndex(logs) <= prev <= LastIndex(logs)
      requires forall i :: 0 <= i < |entries| ==> entries[i].index == prev + 1 + i
      modifies this`logs
      ensures Valid()
      ensures var l := old(logs); logs == (if prev < LastIndex(l) then l[..prev - BaseIndex(l) + 1] else l) + entries
    {
      if prev + 1 <= LastIndex(logs) {
        logs := logs[..prev + 1 - BaseIndex(logs)];
      }
      logs := logs + entries;
    }

    method FollowLeaderCommit(leaderCommit: int)
      requires Valid()
      modifies this`commitIndex, this`lastApplied, this`handed
      ensures Valid()
      ensures Value() == FollowCommit(old(Value()), leaderCommit)
      ensures handed == old(handed) + HandedBy(old(lastApplied), Value())
    {
      if leaderCommit > commitIndex {
        commitIndex := Min(leaderCommit, LastIndex(logs));
        DoApply();
      }
    }

    method CountHolders(i: int) returns (votes: nat)
      requires Valid()
      ensures votes == |Holders(Value(), i)|
    {
      votes := 1;
      var todo := peers.Keys;
      ghost var counted := {name};
      while todo != {}
        invariant todo <= peers.Keys
        invariant counted == {name} + set p | p in peers && p !in todo && peers[p].matchIndex >= i
        invariant votes == |counted|
        decreases |todo|
      {
        var p := Pick(todo);
        if peers[p].matchIndex >= i {
          votes := votes + 1;
          counted := counted + {p};
        }
        todo := todo - {p};
      }
      assert counted == Holders(Value(), i);
    }

    method OnAppendEntriesReply(r: Message)
      requires r.AppendReply? && Valid()
      requires commitIndex >= BaseIndex(logs) - 1
      modifies this
      ensures Valid()
      ensures Value() == OnAppendReply(old(Value()), r)
      ensures handed == old(handed) + HandedBy(old(lastApplied), Value())
    {
      if state != Leader {
        return;
      }
      if r.term > currentTerm {
        BecomeFollower(r.term);
        leaderName := None;
      } else if r.term != currentTerm {
        return;
      }
      if r.src !in peers {
        return;
      }
      if !r.success {
        NotePeer(r.src, r.lastIndex);
        return;
      }
      if r.lastIndex > LastIndex(logs) {
        NotePeer(r.src, LastIndex(logs));
        return;
      }
      NotePeer(r.src, r.lastIndex);
      CommitIfHeld(r.lastIndex);
    }

    method NotePeer(p: NodeName, last: int)
      requires Valid() && p in peers
      modifies this`peers
      ensures Valid()
      ensures Value() == RaftModel.NotePeer(old(Value()), p, last)
    {
      peers := peers[p := peers[p].(nextIndex := last + 1, matchIndex := last)];
    }

    /** Advance the commit index to i if i is an entry of this term that a majority holds. */
    method CommitIfHeld(i: int)
      requires Valid() && i <= LastIndex(logs) && commitIndex >= BaseIndex(logs) - 1
      modifies this`commitIndex, this`lastApplied, this`handed
      ensures Valid()
      ensures Value() == TryCommit(old(Value()), i)
      ensures handed == old(handed) + HandedBy(old(lastApplied), Value())
    {
      if commitIndex >= i || logs == [] {
        return;
      }
      if currentTerm != logs[i - BaseIndex(logs)].term {
        return;
      }
      var votes := CountHolders(i);
      if votes > (|peers| + 1) / 2 {
        commitIndex := i;
        DoApply();
      }
    }

    // ---------- compaction ----------

    method FindEntry(index: int, term: nat) returns (i: int)
      ensures i == Compaction.FindEntry(logs, index, term)
    {
      i := |logs| - 1;
      assert logs[..|logs|] == logs;
      while i >= 0
        invariant -1 <= i < |logs|
        invariant Compaction.FindEntry(logs, index, term) == Compaction.FindEntry(logs[..i + 1], index, term)
      {
        if logs[i].term == term && logs[i].index == index {
          return;
        }
        assert logs[..i + 1][..i] == logs[..i];
        i := i - 1;
      }
    }

    method TruncateLog(index: int, term: nat, data: string)
      modifies this`logs
      ensures logs == Compaction.TruncateLog(old(logs), index, term, data)
    {
      var newEntries := [Entry(index, term, Snapshot, data)];
      var i := FindEntry(index, term);
      if i != -1 && i + 1 < |logs| {
        newEntries := newEntries + logs[i + 1..];
      }
      logs := newEntries;
    }

    /** A snapshot of the node's own state, which it may only take when everything in its log is applied. */
    method DoInstallSnapshot(index: int, state: string) returns (ok: bool)
      requires Valid() && (MayCompact(logs, lastApplied) ==> BaseIndex(logs) <= index <= LastIndex(logs))
      modifies this`logs
      ensures Valid()
      ensures ok <==> BaseIndex(old(logs)) < LastIndex(old(logs)) <= lastApplied
      ensures logs == if ok then Compact(old(logs), index, state) else old(logs)
    {
      if LastIndex(logs) <= BaseIndex(logs) {
        return false;
      }
      if LastIndex(logs) > lastApplied {
        return false;
      }
      CompactKeeps(logs, index, state);
      logs := logs[index - BaseIndex(logs)..];
      logs := logs[0 := Entry(index, logs[0].term, Snapshot, state)];
      assert logs == Compact(old(logs), index, state);
      return true;
    }

    method OnInstallSnapshotRequest(r: InstallRequest) returns (reply: Option<InstallReply>)
      requires Valid() && r.index >= 0
      modifies this
      ensures Valid()
      ensures (Value(), reply) == OnInstall(old(Value()), r)
      ensures handed == old(handed) + if reply.Some? && reply.value.success then [logs[0]] else []
    {
      if r.src !in peers {
        return None;
      }
      var ok := HandleRequestRoutine(r.term, r.src);
      if !ok {
        return Some(InstallReply(false, currentTerm, BaseIndex(logs), BaseTerm(logs)));
      }
      ok := ValidSequence(r.seqNr, r.initial);
      if !ok {
        return None;
      }
      InstallReceived(r);
      return Some(InstallReply(true, currentTerm, BaseIndex(logs), BaseTerm(logs)));
    }

    /** Replace what the snapshot covers, and apply the snapshot, whatever was applied before. */
    method InstallReceived(r: InstallRequest)
      requires Valid() && r.index >= 0
      modifies this`logs, this`commitIndex, this`lastApplied, this`handed
      ensures Valid() && logs != [] && logs[0] == Entry(r.index, r.indexTerm, Snapshot, r.data)
      ensures logs == Compaction.TruncateLog(old(logs), r.index, r.indexTerm, r.data)
      ensures commitIndex == lastApplied == r.index
      ensures handed == old(handed) + [logs[0]]
    {
      TruncateStarts(logs, r.index, r.indexTerm, r.data);
      TruncateLog(r.index, r.indexTerm, r.data);
      commitIndex := r.index;
      lastApplied := commitIndex - 1;
      LastOf(logs);
      DoApply();
      HandsFirst(Value());
    }
  }

  /** The entries node x gave to its state machine since its applied index was `from`. */
  ghost function HandedBy(from: int, x: Node): seq<Entry> {
    var lo, hi := from + 1 - BaseIndex(x.log), x.applied + 1 - BaseIndex(x.log);
    if 0 <= lo <= hi <= |x.log| then x.log[lo..hi] else []
  }

  lemma AppendCuts(log: Log, prev: int, prevTerm: nat, entries: Log)
    requires Contiguous(log) && log != [] && Conflicts(log, prev, prevTerm)
    ensures var p := prev - BaseIndex(log);
            AppendTo(log, prev, prevTerm, entries) == (log[..BeforeRun(log, p, log[p].term)], false)
  {
  }

  lemma ProcessIs(x: Node, r: Message, log: Log, ok: bool)
    requires r.AppendRequest? && Contiguous(x.log) && x.lastSeq == r.seqNr
    requires AppendTo(x.log, r.prevIndex, r.prevTerm, r.entries) == (log, ok)
    ensures ProcessAppend(x, r) == (if ok then FollowCommit(x.(log := log), r.leaderCommit) else x.(log := log),
                                    Some(AppendReply(x.name, r.src, x.term, ok, LastIndex(log), LastTerm(log), r.term)))
  {
  }

  /** The peers after the requests of an election, or of a broadcast, went to all but those in `todo`. */
  ghost function Asked(peers: map<NodeName, Peer>, todo: set<NodeName>): map<NodeName, Peer> {
    map p | p in peers :: if p in todo then peers[p] else peers[p].(votedForMe := false, seqNr := peers[p].seqNr + 1)
  }

  /** The peers of a new leader, reset but for those in `todo`. */
  ghost function Reset(peers: map<NodeName, Peer>, todo: set<NodeName>, commit: int): map<NodeName, Peer> {
    map p | p in peers ::
      if p in todo then peers[p] else peers[p].(matchIndex := NO_INDEX, nextIndex := commit + 1, seqNr := SEQ_START)
  }

  lemma OneMoreReset(peers: map<NodeName, Peer>, todo: set<NodeName>, commit: int, p: NodeName)
    requires p in peers && p in todo
    ensures Reset(peers, todo, commit)[p] == peers[p]
    ensures Reset(peers, todo - {p}, commit) == Reset(peers, todo, commit)
              [p := peers[p].(matchIndex := NO_INDEX, nextIndex := commit + 1, seqNr := SEQ_START)]
  {
  }

  ghost function Sent(peers: map<NodeName, Peer>, todo: set<NodeName>): map<NodeName, Peer> {
    map p | p in peers :: if p in todo then peers[p] else peers[p].(seqNr := peers[p].seqNr + 1)
  }

  ghost function VoteRequestsBut(x: Node, todo: set<NodeName>): set<Message> {
    set p | p in x.peers && p !in todo :: VoteRequestFor(x, p)
  }

  ghost function AppendRequestsBut(x: Node, todo: set<NodeName>): set<Message>
    requires Contiguous(x.log) && CanSend(x)
  {
    set p | p in x.peers && p !in todo :: AppendRequestFor(x, p)
  }

  lemma OneMoreVoteRequest(x: Node, todo: set<NodeName>, p: NodeName)
    requires p in x.peers && p in todo
    ensures VoteRequestsBut(x, todo - {p}) == VoteRequestsBut(x, todo) + {VoteRequestFor(x, p)}
    ensures Asked(x.peers, todo)[p] == x.peers[p]
    ensures Asked(x.peers, todo - {p}) ==
            Asked(x.peers, todo)[p := x.peers[p].(votedForMe := false, seqNr := x.peers[p].seqNr + 1)]
  {
  }

  lemma OneMoreAppendRequest(x: Node, todo: set<NodeName>, p: NodeName)
    requires Contiguous(x.log) && CanSend(x) && p in x.peers && p in todo
    ensures AppendRequestsBut(x, todo - {p}) == AppendRequestsBut(x, todo) + {AppendRequestFor(x, p)}
  {
  }

  lemma UnsentRequest(x: Node, todo: set<NodeName>, p: NodeName)
    requires Contiguous(x.log) && CanSend(x) && p in x.peers && p in todo
    ensures Sent(x.peers, todo)[p] == x.peers[p] && CanSendTo(x, p)
    ensures Sent(x.peers, todo - {p}) == Sent(x.peers, todo)[p := x.peers[p].(seqNr := x.peers[p].seqNr + 1)]
  {
  }

  /** A broadcast to all peers is complete. */
  lemma SentAll(x: Node)
    requires Contiguous(x.log) && CanSend(x)
    ensures AppendRequestsBut(x, {}) == AppendRequests(x)
    ensures Sent(x.peers, {}) == CountSent(x).peers
  {
  }

  /** Clearing the votes and counting the requests in one pass is what an election does to the peers. */
  lemma AskedAll(x: Node)
    ensures Asked(x.peers, {}) == CountSent(StartElection(x)).peers
  {
  }

  /** A vote request does not depend on the votes noted so far. */
  lemma VotesAside(x: Node, y: Node)
    requires y == x.(peers := map p | p in x.peers :: x.peers[p].(votedForMe := false))
    ensures VoteRequests(x) == VoteRequests(y)
  {
    assert forall p :: p in x.peers ==> VoteRequestFor(x, p) == VoteRequestFor(y, p);
  }

  /** What is handed over when just the first entry is applied. */
  lemma HandsFirst(x: Node)
    requires x.log != [] && x.applied == BaseIndex(x.log)
    ensures HandedBy(x.applied - 1, x) == [x.log[0]]
  {
  }
}
