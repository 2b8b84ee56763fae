/** What a run has done so far: elections, votes, acknowledgements, commit decisions and applied
    entries. Leader completeness is a statement about this record alone. */
module RaftHistory {
  import opened RaftLog

  /** `log` is the winner's log when it won; `quorum` the nodes whose votes it counted. */
  datatype Election = Election(leader: NodeName, quorum: set<NodeName>, log: Log)

  /** A vote cast before its term had a leader, with the voter's log and the request's last entry. */
  datatype Vote = Vote(term: nat, voter: NodeName, cand: NodeName, log: Log, lastIndex: int, lastTerm: nat)

  /** `node` held the first `len` entries of the term's log while in `term`. */
  datatype Ack = Ack(term: nat, node: NodeName, len: nat)

  /** The leader of `term` advanced its commit index to `index`, counting `quorum`. */
  datatype CommitPoint = CommitPoint(term: nat, index: nat, quorum: set<NodeName>)

  /** `node` handed `entry` to its state machine as number `index`. */
  datatype Applied = Applied(node: NodeName, index: int, entry: Entry)

  /** `tlog[t]` is the log of the leader of term t, as far as it has grown. */
  datatype History = History(
    boot: Entry,
    members: set<NodeName>,
    elected: map<nat, Election>,
    tlog: map<nat, Log>,
    votes: set<Vote>,
    acks: set<Ack>,
    commits: set<CommitPoint>,
    applied: set<Applied>)

  predicate Majority(q: set<NodeName>, members: set<NodeName>) {
    q <= members && 2 * |q| > |members|
  }

  lemma QuorumsIntersect(q: set<NodeName>, p: set<NodeName>, members: set<NodeName>) returns (m: NodeName)
    requires Majority(q, members) && Majority(p, members)
    ensures m in q && m in p
  {
    if q * p == {} {
      assert |q + p| == |q| + |p|;
      SubsetSize(q + p, members);
      assert false;
    }
    m :| m in q * p;
  }

  lemma SubsetSize<T>(a: set<T>, b: set<T>)
    requires a <= b
    ensures |a| <= |b|
    decreases |a|
  {
    if a != {} {
      var x :| x in a;
      SubsetSize(a - {x}, b - {x});
    }
  }

  // ---------- well-formed logs ----------

  /** Every entry above the bootstrap entry comes, with everything before it, from its term's leader. */
  ghost predicate LogOk(h: History, log: Log) {
    && |log| > 0
    && log[0] == h.boot
    && forall i {:trigger EntryOk(h, log, i)} :: 0 < i < |log| ==> EntryOk(h, log, i)
  }

  ghost predicate EntryOk(h: History, log: Log, i: nat)
    requires i < |log|
  {
    log[i].index == i && log[i].term in h.tlog && Agree(log, h.tlog[log[i].term], i + 1)
  }

  ghost predicate TermLogOk(h: History, t: nat)
    requires t in h.tlog && t in h.elected
  {
    var l0 := h.elected[t].log;
    && t > h.boot.term
    && LogOk(h, h.tlog[t])
    && LogOk(h, l0)
    && Agree(l0, h.tlog[t], |l0|)
    && (forall i :: 0 <= i < |l0| ==> l0[i].term < t)
    && (forall i :: |l0| <= i < |h.tlog[t]| ==> h.tlog[t][i].term == t)
  }

  /** Some commit point of a term up to T reaches index k (index 0 needs none). */
  ghost predicate Covered(h: History, k: int, T: nat) {
    k <= 0 || exists cp :: cp in h.commits && cp.term <= T && cp.index >= k
  }

  /** A later leader was elected with a log that lacks the first k entries of term t's log. */
  ghost predicate Overruled(h: History, t: nat, k: nat, T: nat)
    requires t in h.tlog
  {
    exists u :: u in h.elected && t < u <= T && !Agree(h.tlog[t], h.elected[u].log, k)
  }

  /** What became, by term T, of k entries of term t's log that were once in `log`. */
  ghost predicate Kept(h: History, t: nat, k: nat, log: Log, T: nat)
    requires t in h.tlog
  {
    Agree(h.tlog[t], log, k) || Overruled(h, t, k, T) || (k > 0 && Covered(h, k, T))
  }

  ghost predicate KeptUpTo(h: History, t: nat, len: nat, log: Log, T: nat)
    requires t in h.tlog
  {
    forall k: nat :: k <= len ==> Kept(h, t, k, log, T)
  }

  ghost predicate VoteOk(h: History, v: Vote) {
    && v.voter in h.members
    && LogOk(h, v.log)
    && UpToDate(v.lastTerm, v.lastIndex, v.log)
    && v.term > 0
    && (forall a {:trigger KeptUpTo(h, a.term, a.len, v.log, v.term - 1)} ::
          a in h.acks && a.node == v.voter && a.term < v.term && a.term in h.tlog ==>
            KeptUpTo(h, a.term, a.len, v.log, v.term - 1))
  }

  ghost predicate VotedIn(h: History, t: nat, m: NodeName, c: NodeName, lastIndex: int, lastTerm: nat) {
    exists v :: v in h.votes && v.term == t && v.voter == m && v.cand == c
                && v.lastIndex == lastIndex && v.lastTerm == lastTerm
  }

  ghost predicate ElectionOk(h: History, t: nat)
    requires t in h.elected
  {
    var e := h.elected[t];
    && e.leader in h.members
    && Majority(e.quorum, h.members)
    && forall m {:trigger VotedIn(h, t, m, e.leader, LastIndex(e.log), LastTerm(e.log))} :: m in e.quorum ==>
         VotedIn(h, t, m, e.leader, LastIndex(e.log), LastTerm(e.log))
  }

  ghost predicate AckOk(h: History, a: Ack) {
    a.term in h.tlog && a.node in h.members && a.len <= |h.tlog[a.term]|
  }

  ghost predicate Acked(h: History, t: nat, m: NodeName, len: int) {
    exists a :: a in h.acks && a.term == t && a.node == m && a.len >= len
  }

  ghost predicate CommitOk(h: History, cp: CommitPoint) {
    && cp.term in h.tlog
    && 0 < cp.index < |h.tlog[cp.term]|
    && h.tlog[cp.term][cp.index].term == cp.term
    && Majority(cp.quorum, h.members)
    && forall m {:trigger Acked(h, cp.term, m, cp.index + 1)} :: m in cp.quorum ==> Acked(h, cp.term, m, cp.index + 1)
  }

  ghost predicate AppliedOk(h: History, a: Applied) {
    exists cp :: cp in h.commits && cp.term in h.tlog && 0 <= a.index <= cp.index < |h.tlog[cp.term]|
                 && h.tlog[cp.term][a.index] == a.entry
  }

  /** Nobody votes twice in a term that has no leader yet. */
  ghost predicate VotesUnique(votes: set<Vote>) {
    forall v, w :: v in votes && w in votes && v.term == w.term && v.voter == w.voter ==> v.cand == w.cand
  }

  ghost predicate HistOk(h: History) {
    && h.boot.index == 0
    && h.elected.Keys == h.tlog.Keys
    && (forall t {:trigger TermLogOk(h, t)} :: t in h.tlog ==> TermLogOk(h, t))
    && (forall t {:trigger ElectionOk(h, t)} :: t in h.elected ==> ElectionOk(h, t))
    && (forall v {:trigger VoteOk(h, v)} :: v in h.votes ==> VoteOk(h, v))
    && VotesUnique(h.votes)
    && (forall a {:trigger AckOk(h, a)} :: a in h.acks ==> AckOk(h, a))
    && (forall cp {:trigger CommitOk(h, cp)} :: cp in h.commits ==> CommitOk(h, cp))
    && (forall a {:trigger AppliedOk(h, a)} :: a in h.applied ==> AppliedOk(h, a))
  }

  // ---------- facts about well-formed logs ----------

  lemma LogIndex(h: History, log: Log)
    requires LogOk(h, log) && h.boot.index == 0
    ensures Contiguous(log) && BaseIndex(log) == 0 && LastIndex(log) == |log| - 1
  {
    forall i | 0 < i < |log|
      ensures log[i].index == i
    {
      assert EntryOk(h, log, i);
    }
  }

  /** Terms never decrease along a log. */
  lemma TermsSorted(h: History, log: Log, i: nat, j: nat)
    requires HistOk(h) && LogOk(h, log) && i <= j < |log|
    ensures log[i].term <= log[j].term
  {
    if i < j {
      var t := log[j].term;
      assert EntryOk(h, log, j);
      assert TermLogOk(h, t);
      assert log[i] == h.tlog[t][i];
    }
  }

  /** Log matching: equal terms at one index force equal prefixes. */
  lemma Matching(h: History, a: Log, b: Log, i: nat)
    requires LogOk(h, a) && LogOk(h, b) && i < |a| && i < |b| && a[i].term == b[i].term
    ensures Agree(a, b, i + 1)
  {
    if i > 0 {
      assert EntryOk(h, a, i) && EntryOk(h, b, i);
    }
  }

  // ---------- leader completeness ----------

  ghost function IndexBound(s: set<CommitPoint>): (b: nat)
    ensures forall cp :: cp in s ==> cp.index < b
  {
    if s == {} then 0 else
      var cp :| cp in s;
      var b := IndexBound(s - {cp});
      if b > cp.index then b else cp.index + 1
  }

  /** The log of every leader holds everything committed in earlier terms, although a follower may
      have discarded entries it acknowledged. */
  lemma {:induction false} LeaderCompleteness(h: History, cp: CommitPoint, t: nat)
    requires HistOk(h) && cp in h.commits && t in h.elected && cp.term < t
    ensures cp.term in h.tlog && Agree(h.tlog[cp.term], h.elected[t].log, cp.index + 1)
    decreases t, IndexBound(h.commits) - cp.index, 1
  {
    var e := h.elected[t];
    assert ElectionOk(h, t) && TermLogOk(h, t) && CommitOk(h, cp);
    QuorumCompleteness(h, cp, t, e.leader, e.quorum, e.log);
  }

  lemma {:induction false} QuorumCompleteness(h: History, cp: CommitPoint, t: nat, c: NodeName,
          q: set<NodeName>, log: Log)
    requires HistOk(h) && cp in h.commits && cp.term < t
    requires Majority(q, h.members)
    requires forall m :: m in q ==> VotedIn(h, t, m, c, LastIndex(log), LastTerm(log))
    requires LogOk(h, log) && forall i :: 0 <= i < |log| ==> log[i].term < t
    ensures cp.term in h.tlog && Agree(h.tlog[cp.term], log, cp.index + 1)
    decreases t, IndexBound(h.commits) - cp.index, 0
  {
    var k := cp.index + 1;
    var v := CommonVoter(h, cp, t, c, q, log);
    if Agree(h.tlog[cp.term], v.log, k) {
      RecentLogHolds(h, cp, t, v.log, log);
    } else if Overruled(h, cp.term, k, t - 1) {
      var u :| u in h.elected && cp.term < u <= t - 1 && !Agree(h.tlog[cp.term], h.elected[u].log, k);
      LeaderCompleteness(h, cp, u);
      assert false;
    } else {
      var up :| up in h.commits && up.term <= t - 1 && up.index >= k;
      assert up.index < IndexBound(h.commits);
      QuorumCompleteness(h, up, t, c, q, log);
      CommitPointsNest(h, cp, up);
    }
  }

  /** A vote for c by a node that had acknowledged the commit point. */
  lemma CommonVoter(h: History, cp: CommitPoint, t: nat, c: NodeName, q: set<NodeName>, log: Log) returns (v: Vote)
    requires CommitOk(h, cp) && cp.term < t
    requires forall v :: v in h.votes ==> VoteOk(h, v)
    requires Majority(q, h.members)
    requires forall m :: m in q ==> VotedIn(h, t, m, c, LastIndex(log), LastTerm(log))
    ensures cp.term in h.tlog && LogOk(h, v.log) && UpToDate(LastTerm(log), LastIndex(log), v.log)
    ensures Kept(h, cp.term, cp.index + 1, v.log, t - 1)
  {
    var m := QuorumsIntersect(q, cp.quorum, h.members);
    assert VotedIn(h, t, m, c, LastIndex(log), LastTerm(log));
    v :| v in h.votes && v.term == t && v.voter == m && v.lastIndex == LastIndex(log) && v.lastTerm == LastTerm(log);
    assert Acked(h, cp.term, m, cp.index + 1);
    var a :| a in h.acks && a.term == cp.term && a.node == m && a.len >= cp.index + 1;
    assert VoteOk(h, v) && KeptUpTo(h, a.term, a.len, v.log, v.term - 1);
  }

  /** The usual comparison of last entries, once the voter still held the committed prefix. */
  lemma {:induction false} RecentLogHolds(h: History, cp: CommitPoint, t: nat, voterLog: Log, log: Log)
    requires HistOk(h) && cp in h.commits && cp.term < t
    requires LogOk(h, log) && LogOk(h, voterLog) && forall i :: 0 <= i < |log| ==> log[i].term < t
    requires cp.term in h.tlog && Agree(h.tlog[cp.term], voterLog, cp.index + 1)
    requires UpToDate(LastTerm(log), LastIndex(log), voterLog)
    ensures Agree(h.tlog[cp.term], log, cp.index + 1)
    decreases t, IndexBound(h.commits) - cp.index, -1
  {
    assert CommitOk(h, cp) && TermLogOk(h, cp.term);
    TermsSorted(h, voterLog, cp.index, |voterLog| - 1);
    LogIndex(h, voterLog);
    LogIndex(h, log);
    var u := LastTerm(log);
    assert u >= cp.term;
    assert |log| > 1;
    assert EntryOk(h, log, |log| - 1);
    assert TermLogOk(h, u);
    if u > cp.term {
      LeaderCompleteness(h, cp, u);
    }
  }

  /** Of two commit points, the one with the larger index extends the other. */
  lemma {:induction false} CommitPointsNest(h: History, cp: CommitPoint, up: CommitPoint)
    requires HistOk(h) && cp in h.commits && up in h.commits && cp.index <= up.index
    ensures cp.term in h.tlog && up.term in h.tlog && Agree(h.tlog[cp.term], h.tlog[up.term], cp.index + 1)
    decreases if cp.term < up.term then up.term else cp.term, IndexBound(h.commits), 2
  {
    assert CommitOk(h, cp) && CommitOk(h, up) && TermLogOk(h, cp.term) && TermLogOk(h, up.term);
    if cp.term < up.term {
      LeaderCompleteness(h, cp, up.term);
    } else if up.term < cp.term {
      LeaderCompleteness(h, up, cp.term);
    }
  }
}
