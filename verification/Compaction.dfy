/** Log compaction: what a snapshot replaces, and what stays the same about the log and the state it stands for. */
module Compaction {
  import opened Collections
  import opened RaftLog
  import opened RaftModel

  /** The last position that holds an entry of this index and term; -1 if there is none. */
  function FindEntry(log: Log, index: int, term: nat): (i: int)
    ensures -1 <= i < |log|
    ensures i >= 0 ==> log[i].index == index && log[i].term == term
    ensures forall j :: i < j < |log| ==> !(log[j].index == index && log[j].term == term)
  {
    if log == [] then -1
    else if log[|log| - 1].term == term && log[|log| - 1].index == index then |log| - 1
    else FindEntry(log[..|log| - 1], index, term)
  }

  /** A received snapshot: its entry, and what follows the entry it includes if the log has that. */
  function TruncateLog(log: Log, index: int, term: nat, data: string): Log {
    var i := FindEntry(log, index, term);
    [Entry(index, term, Snapshot, data)] + if i != -1 && i + 1 < |log| then log[i + 1..] else []
  }

  datatype InstallRequest = InstallRequest(src: NodeName, term: nat, index: int, indexTerm: nat, data: string,
                                           seqNr: nat, initial: bool)

  datatype InstallReply = InstallReply(success: bool, term: nat, base: int, baseTerm: nat)

  function BaseTerm(log: Log): nat {
    if log == [] then NO_TERM else log[0].term
  }

  /** A node takes over the leader's snapshot: its log, commit index and applied index start from there. */
  function OnInstall(n: Node, r: InstallRequest): (Node, Option<InstallReply>) {
    if r.src !in n.peers then (n, None) else
    match AcceptLeader(n, r.term, r.src)
    case None => (n, Some(InstallReply(false, n.term, BaseIndex(n.log), BaseTerm(n.log))))
    case Some(n1) =>
      if !ValidSeq(n1.lastSeq, r.seqNr, r.initial) then (n1, None)
      else (n1.(lastSeq := r.seqNr, log := TruncateLog(n1.log, r.index, r.indexTerm, r.data),
                commit := r.index, applied := r.index),
            Some(InstallReply(true, n1.term, r.index, r.indexTerm)))
  }

  /** A local snapshot is taken only of a log that has been applied to its end, and has not been compacted to it. */
  predicate MayCompact(log: Log, applied: int) {
    BaseIndex(log) < LastIndex(log) <= applied
  }

  /** The guards do not look at the index asked for: of two applied entries, a snapshot up to a third gets through
      them, and there is no such entry to take the term from. */
  lemma SnapshotPastEnd(first: Entry, second: Entry)
    requires first.index >= 0 && second.index == first.index + 1
    ensures var log := [first, second];
            Contiguous(log) && MayCompact(log, second.index) && Lookup(log, second.index + 1) == None
  {
    var log := [first, second];
    assert log[0].index == first.index;
  }

  /** The included entry turns into the snapshot; everything before it goes. */
  function Compact(log: Log, index: int, data: string): Log
    requires Contiguous(log) && log != [] && BaseIndex(log) <= index <= LastIndex(log)
  {
    var i := index - BaseIndex(log);
    [Entry(index, log[i].term, Snapshot, data)] + log[i + 1..]
  }

  function Lookup(log: Log, i: int): Option<Entry>
    requires Contiguous(log)
  {
    if log != [] && BaseIndex(log) <= i <= LastIndex(log) then Some(log[i - BaseIndex(log)]) else None
  }

  /** The log has the entry that the snapshot includes. */
  predicate Holds(log: Log, index: int, term: nat)
    requires Contiguous(log)
  {
    Lookup(log, index).Some? && Lookup(log, index).value.term == term
  }

  /** Both logs have the same entries from index `from` on. */
  ghost predicate SameFrom(a: Log, b: Log, from: int)
    requires Contiguous(a) && Contiguous(b)
  {
    forall i :: i >= from ==> Lookup(a, i) == Lookup(b, i)
  }

  lemma FoundIffHeld(log: Log, index: int, term: nat)
    requires Contiguous(log)
    ensures FindEntry(log, index, term) == if Holds(log, index, term) then index - BaseIndex(log) else -1
  {
    var i := FindEntry(log, index, term);
    if i >= 0 { assert log[i].index == BaseIndex(log) + i; }
    if Holds(log, index, term) {
      var j := index - BaseIndex(log);
      assert log[j].index == BaseIndex(log) + j;
    }
  }

  /** When the log has the included entry, a received snapshot is what a local one would be. */
  lemma TruncateIsCompact(log: Log, index: int, term: nat, data: string)
    requires Contiguous(log) && Holds(log, index, term)
    ensures TruncateLog(log, index, term, data) == Compact(log, index, data)
  {
    FoundIffHeld(log, index, term);
  }

  /** A local snapshot keeps the indices contiguous, the entries above it, the last index and the last term, and
      starts the log at the entry it includes. */
  lemma CompactKeeps(log: Log, index: int, data: string)
    requires Contiguous(log) && log != [] && 0 <= BaseIndex(log) <= index <= LastIndex(log)
    ensures var c := Compact(log, index, data);
            && Contiguous(c) && BaseIndex(c) == index && LastIndex(c) == LastIndex(log) && LastTerm(c) == LastTerm(log)
            && SameFrom(c, log, index + 1)
            && c[0].term == log[index - BaseIndex(log)].term
  {
    var c := Compact(log, index, data);
    var k := index - BaseIndex(log);
    assert log[|log| - 1].index == BaseIndex(log) + |log| - 1;
    forall i | 0 <= i < |c| ensures c[i].index == c[0].index + i {
      if i > 0 { assert c[i] == log[k + i]; }
    }
    assert c[|c| - 1].index == index + |c| - 1;
  }

  lemma TruncateStarts(log: Log, index: int, term: nat, data: string)
    requires Contiguous(log) && index >= 0
    ensures var t := TruncateLog(log, index, term, data); Contiguous(t) && t[0] == Entry(index, term, Snapshot, data)
  {
    FoundIffHeld(log, index, term);
    if Holds(log, index, term) {
      TruncateIsCompact(log, index, term, data);
      CompactKeeps(log, index, data);
    }
  }

  /** A received snapshot leaves a contiguous log that starts at the included entry, and keeps the entries above
      it exactly when the log had the included entry, or nothing above it. */
  lemma TruncateKeepsIff(log: Log, index: int, term: nat, data: string)
    requires Contiguous(log) && index >= 0
    ensures var t := TruncateLog(log, index, term, data);
            && Contiguous(t) && t[0] == Entry(index, term, Snapshot, data)
            && (SameFrom(t, log, index + 1) <==> Holds(log, index, term) || LastIndex(log) <= index)
  {
    var t := TruncateLog(log, index, term, data);
    TruncateStarts(log, index, term, data);
    FoundIffHeld(log, index, term);
    if Holds(log, index, term) {
      TruncateIsCompact(log, index, term, data);
      CompactKeeps(log, index, data);
    } else {
      assert t == [Entry(index, term, Snapshot, data)];
      if log != [] && LastIndex(log) > index {
        assert log[|log| - 1].index == BaseIndex(log) + |log| - 1;
        assert Lookup(log, LastIndex(log)).Some? && Lookup(t, LastIndex(log)).None?;
      }
    }
  }

  // ---------- installing a snapshot ----------

  /** A peer's snapshot is installed exactly when its term is no older and its number not seen. Then the log starts
      with it and keeps what it can of the rest, and the node has committed and applied up to it, neither more nor
      less; otherwise log and indices are untouched. */
  lemma InstallsIff(n: Node, r: InstallRequest)
    requires Contiguous(n.log) && r.index >= 0
    ensures var (x, reply) := OnInstall(n, r);
            var seen := if r.term > n.term || n.role == Candidate then 0 else n.lastSeq;
            var installs := r.src in n.peers && r.term >= n.term && (r.initial || r.seqNr > seen);
            && (installs <==> reply.Some? && reply.value.success)
            && (installs ==>
                  && reply.value == InstallReply(true, r.term, r.index, r.indexTerm) && x.term == r.term
                  && Contiguous(x.log) && x.log[0] == Entry(r.index, r.indexTerm, Snapshot, r.data)
                  && x.commit == x.applied == r.index
                  && (SameFrom(x.log, n.log, r.index + 1) <==>
                        Holds(n.log, r.index, r.indexTerm) || LastIndex(n.log) <= r.index))
            && (!installs ==> x.log == n.log && x.commit == n.commit && x.applied == n.applied)
            && (r.src in n.peers && r.term < n.term ==>
                  x == n && reply == Some(InstallReply(false, n.term, BaseIndex(n.log), BaseTerm(n.log))))
  {
    InstallOutcome(n, r);
    TruncateKeepsIff(n.log, r.index, r.indexTerm, r.data);
  }

  lemma InstallOutcome(n: Node, r: InstallRequest)
    ensures var (x, reply) := OnInstall(n, r);
            var seen := if r.term > n.term || n.role == Candidate then 0 else n.lastSeq;
            var installs := r.src in n.peers && r.term >= n.term && (r.initial || r.seqNr > seen);
            && (installs <==> reply.Some? && reply.value.success)
            && (installs ==>
                  && reply.value == InstallReply(true, r.term, r.index, r.indexTerm) && x.term == r.term
                  && x.log == TruncateLog(n.log, r.index, r.indexTerm, r.data) && x.commit == x.applied == r.index)
            && (!installs ==> x.log == n.log && x.commit == n.commit && x.applied == n.applied)
            && (r.src in n.peers && r.term < n.term ==>
                  x == n && reply == Some(InstallReply(false, n.term, BaseIndex(n.log), BaseTerm(n.log))))
  {
  }

  /** A follower that has installed the snapshot accepts what the leader sends from there on, and has nothing else. */
  lemma InstallThenAppend(n: Node, r: InstallRequest, prevTerm: nat, entries: Log, leaderCommit: int, seqNr: nat)
    requires Contiguous(n.log) && r.index >= 0 && r.seqNr < seqNr && n.role != Leader
    requires var reply := OnInstall(n, r).1; reply.Some? && reply.value.success
    ensures var x := OnInstall(n, r).0;
            var a := AppendRequest(r.src, n.name, r.term, r.index, prevTerm, entries, leaderCommit, seqNr, false);
            && Contiguous(x.log)
            && var (y, reply) := OnAppendRequest(x, a);
            && reply.Some? && reply.value.success
            && y.log == [Entry(r.index, r.indexTerm, Snapshot, r.data)] + entries
            && (leaderCommit <= r.index ==> y.commit == y.applied == r.index)
  {
    InstallsIff(n, r);
    var x := OnInstall(n, r).0;
    assert x.term == r.term && x.role == Follower && x.lastSeq == r.seqNr && r.src in x.peers && x.commit == r.index;
    AppendsAtBase(x, AppendRequest(r.src, n.name, r.term, r.index, prevTerm, entries, leaderCommit, seqNr, false));
  }

  /** A request that follows the first entry is accepted, whatever term it names, and leaves that entry and its own.
      */
  lemma AppendsAtBase(x: Node, a: Message)
    requires a.AppendRequest? && Contiguous(x.log) && x.log != [] && a.prevIndex == BaseIndex(x.log)
    requires a.src in x.peers && a.term == x.term && x.role == Follower && a.seqNr > x.lastSeq
    ensures var (y, reply) := OnAppendRequest(x, a);
            && reply.Some? && reply.value.success && y.log == [x.log[0]] + a.entries
            && (a.leaderCommit <= x.commit ==> y.commit == x.commit && y.applied == x.applied)
  {
    LastOf(x.log);
    assert x.log[..1] == [x.log[0]];
    if |x.log| == 1 { assert x.log == [x.log[0]]; }
  }

  // ---------- what a log stands for ----------

  /** The state reached from s by applying a log, where a snapshot entry replaces the state by its data. */
  function Replay<S>(log: Log, s: S, step: (S, Entry) -> S, load: string -> S): S {
    if log == [] then s else
    var before := Replay(log[..|log| - 1], s, step, load);
    var e := log[|log| - 1];
    if e.kind == Snapshot then load(e.data) else step(before, e)
  }

  lemma {:induction false} ReplaySplits<S>(a: Log, b: Log, s: S, step: (S, Entry) -> S, load: string -> S)
    ensures Replay(a + b, s, step, load) == Replay(b, Replay(a, s, step, load), step, load)
  {
    if b == [] {
      assert a + b == a;
    } else {
      assert (a + b)[..|a + b| - 1] == a + b[..|b| - 1];
      ReplaySplits(a, b[..|b| - 1], s, step, load);
    }
  }

  /** Replaying the compacted log, from any state at all, gives the state of the full log. */
  lemma CompactMeansTheSame<S>(log: Log, index: int, data: string, s: S, any: S, step: (S, Entry) -> S,
          load: string -> S)
    requires Contiguous(log) && log != [] && BaseIndex(log) <= index <= LastIndex(log)
    requires load(data) == Replay(log[..index - BaseIndex(log) + 1], s, step, load)
    ensures Replay(Compact(log, index, data), any, step, load) == Replay(log, s, step, load)
  {
    var k := index - BaseIndex(log);
    assert log[|log| - 1].index == BaseIndex(log) + |log| - 1;
    var head := [Entry(index, log[k].term, Snapshot, data)];
    assert head[..0] == [];
    assert Replay(head, any, step, load) == load(data);
    ReplaySplits(head, log[k + 1..], any, step, load);
    ReplaySplits(log[..k + 1], log[k + 1..], s, step, load);
    assert log == log[..k + 1] + log[k + 1..];
  }

  /** The log holds the end of the full log, with its first entry of the same index and term. */
  ghost predicate Aligned(log: Log, full: Log) {
    && Contiguous(log) && Contiguous(full) && log != [] && full != []
    && var k := BaseIndex(log) - BaseIndex(full);
    && 0 <= k < |full| && log[0].term == full[k].term && log[1..] == full[k + 1..]
  }

  /** The state that the full log reaches with the entry of this index. */
  ghost function StateAt<S>(full: Log, index: int, s: S, step: (S, Entry) -> S, load: string -> S): S
    requires full != [] && 0 <= index - BaseIndex(full) < |full|
  {
    Replay(full[..index - BaseIndex(full) + 1], s, step, load)
  }

  /** The log is what compactions have left of the full log: it starts with a snapshot of the state there. */
  ghost predicate Compacted<S(!new)>(log: Log, full: Log, s: S, step: (S, Entry) -> S, load: string -> S) {
    && Aligned(log, full)
    && log[0].kind == Snapshot && load(log[0].data) == StateAt(full, log[0].index, s, step, load)
  }

  /** A compacted log stands for the full one: replaying it, from any state, gives the full log's state. */
  lemma CompactedMeansTheSame<S(!new)>(log: Log, full: Log, s: S, any: S, step: (S, Entry) -> S, load: string -> S)
    requires Compacted(log, full, s, step, load)
    ensures Replay(log, any, step, load) == Replay(full, s, step, load)
  {
    var k := log[0].index - BaseIndex(full);
    assert log == [log[0]] + log[1..] && full == full[..k + 1] + full[k + 1..];
    assert [log[0]][..0] == [];
    assert Replay([log[0]], any, step, load) == load(log[0].data);
    ReplaySplits([log[0]], log[1..], any, step, load);
    ReplaySplits(full[..k + 1], full[k + 1..], s, step, load);
  }

  /** What a log holds of a term at an index, the full log holds there, and from there on they are the same. */
  lemma HeldInFull(log: Log, full: Log, index: int, term: nat)
    requires Aligned(log, full) && Holds(log, index, term)
    ensures var i, k := index - BaseIndex(log), index - BaseIndex(full);
            0 <= i < |log| && 0 <= k < |full| && full[k].term == term && log[i + 1..] == full[k + 1..]
  {
    var d := BaseIndex(log) - BaseIndex(full);
    var i := index - BaseIndex(log);
    LastOf(log);
    if i > 0 { assert log[i] == log[1..][i - 1] == full[d + 1..][i - 1] == full[d + i]; }
    assert log[i + 1..] == log[1..][i..] && full[d + i + 1..] == full[d + 1..][i..];
  }

  /** A snapshot of the state at an entry that the log holds leaves the log standing for the same full log. */
  lemma TruncateStands<S(!new)>(log: Log, full: Log, index: int, term: nat, data: string, s: S,
                                step: (S, Entry) -> S, load: string -> S)
    requires Aligned(log, full) && Holds(log, index, term) && index >= 0
    requires load(data) == StateAt(full, index, s, step, load)
    ensures Compacted(TruncateLog(log, index, term, data), full, s, step, load)
  {
    TruncateIsCompact(log, index, term, data);
    TruncateStarts(log, index, term, data);
    HeldInFull(log, full, index, term);
  }

  /** A follower and a leader may have compacted their logs at different points. When the follower holds the entry
      that the leader's log starts with, and the full logs that the two stand for agree up to there, installing the
      leader's snapshot leaves a log that still stands for the follower's full log. */
  lemma TruncateMeansTheSame<S(!new)>(log: Log, full: Log, leader: Log, leaderFull: Log, s: S, any: S,
                                      step: (S, Entry) -> S, load: string -> S)
    requires log == full || Compacted(log, full, s, step, load)
    requires Contiguous(log) && log != [] && Compacted(leader, leaderFull, s, step, load)
    requires Holds(log, leader[0].index, leader[0].term)
    requires BaseIndex(full) == BaseIndex(leaderFull)
    requires Agree(leaderFull, full, leader[0].index - BaseIndex(full) + 1)
    ensures var t := TruncateLog(log, leader[0].index, leader[0].term, leader[0].data);
            Compacted(t, full, s, step, load) && Replay(t, any, step, load) == Replay(full, s, step, load)
  {
    var index, n := leader[0].index, leader[0].index - BaseIndex(full) + 1;
    assert leaderFull[..n] == full[..n];
    assert Aligned(log, full);
    TruncateStands(log, full, index, leader[0].term, leader[0].data, s, step, load);
    CompactedMeansTheSame(TruncateLog(log, index, leader[0].term, leader[0].data), full, s, any, step, load);
  }
}
