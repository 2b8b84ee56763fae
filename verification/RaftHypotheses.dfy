/** What goes wrong without each of the delivery hypotheses, and exactly when. */
module RaftHypotheses {
  import opened Collections
  import opened RaftLog
  import opened RaftModel
  import opened RaftHistory
  import opened RaftCluster
  import opened RaftTheorems
  import opened RaftScenes

  // ---------- replies are handled in the term of their request ----------

  /** The vote of a reply is counted whatever its term, so a vote of an old term elects a candidate of three. */
  lemma VoteElects(n: Node, p: NodeName, q: NodeName, term: nat)
    requires n.role == Candidate && n.peers.Keys == {p, q} && p != q && n.name !in n.peers
    requires !n.peers[p].votedForMe && !n.peers[q].votedForMe && term <= n.term
    ensures !WinsElection(n)
    ensures OnVoteReply(n, VoteReply(p, n.name, term, true, term)).role == Leader
    ensures OnVoteReply(n, VoteReply(p, n.name, term, true, term)).term == n.term
    ensures OnVoteReply(n, VoteReply(p, n.name, term, true, term)).name == n.name
  {
    var r := VoteReply(p, n.name, term, true, term);
    assert Supporters(n) == {n.name};
    assert |n.peers| == |n.peers.Keys| == 2;
    var x := CountVote(n, r);
    assert Supporters(x) == {n.name, p};
    assert x.peers.Keys == n.peers.Keys && |x.peers| == |x.peers.Keys|;
  }

  /** Three nodes: `late` is b's vote for a in term t + 1, still under way while a stands in term t + 2. */
  ghost predicate LateVote(s: Cluster, a: NodeName, b: NodeName, c: NodeName, t: nat, late: Message) {
    && s.nodes.Keys == {a, b, c} && a != b && b != c && a != c
    && late == VoteReply(b, a, t + 1, true, t + 1) && late in s.net
    && Known(s.nodes[a], a, t + 2, [s.hist.boot], {b, c}) && HasVotes(s.nodes[a], {})
    && Known(s.nodes[b], b, t + 1, [s.hist.boot], {a, c})
    && Known(s.nodes[c], c, t, [s.hist.boot], {a, b}) && s.nodes[c].role == Follower
  }

  lemma FirstElections(s: Cluster, a: NodeName, b: NodeName, c: NodeName, t: nat) returns (s': Cluster, late: Message)
    requires Init(s) && s.nodes.Keys == {a, b, c} && a != b && b != c && a != c
    requires s.nodes[a].term == t && s.nodes[b].term == t && s.nodes[c].term == t
    ensures RunsTo(s, s') && LateVote(s', a, b, c, t, late)
  {
    AllKnown(s, a, t);
    AllKnown(s, b, t);
    AllKnown(s, c, t);
    assert s.nodes.Keys - {a} == {b, c} && s.nodes.Keys - {b} == {a, c} && s.nodes.Keys - {c} == {a, b};
    Starts(s);
    var boot := [s.hist.boot];
    var s1 := StandsUp(s, s, a, t, boot, {b, c});
    var s2 := GrantsVote(s, s1, a, b, t + 1, boot, t, boot, {a, c});
    late := VoteReply(b, a, t + 1, true, t + 1);
    s' := StandsUp(s, s2, a, t + 1, boot, {b, c});
  }

  lemma SecondElections(s0: Cluster, s: Cluster, a: NodeName, b: NodeName, c: NodeName, t: nat, late: Message)
    returns (s': Cluster)
    requires RunsTo(s0, s) && LateVote(s, a, b, c, t, late)
    ensures RunsTo(s0, s') && s'.nodes.Keys == {a, b, c} && late in s'.net
    ensures Known(s'.nodes[a], a, t + 2, [s'.hist.boot], {b, c}) && HasVotes(s'.nodes[a], {})
    ensures s'.nodes[c].role == Leader && s'.nodes[c].term == t + 2
  {
    var boot := [s.hist.boot];
    var s1 := StandsUp(s0, s, c, t, boot, {a, b});
    var s2 := StandsUp(s0, s1, c, t + 1, boot, {a, b});
    var s3 := GrantsVote(s0, s2, c, b, t + 2, boot, t + 1, boot, {a, c});
    s' := CountsVote(s0, s3, c, b, t + 2, boot, {a, b}, {});
  }

  /** A run in which b votes for a in one term, a and c stand in the next, and c wins that with b's vote. Handling
      the first reply of b only now makes a leader of c's term as well. */
  lemma StaleVoteTwoLeaders(s: Cluster, a: NodeName, b: NodeName, c: NodeName, t: nat)
    returns (last: Cluster, late: Message)
    requires Init(s) && s.nodes.Keys == {a, b, c} && a != b && b != c && a != c
    requires s.nodes[a].term == t && s.nodes[b].term == t && s.nodes[c].term == t
    ensures RunsTo(s, last) && late in last.net && late.VoteReply? && late.dst in last.nodes && !TimelyReply(last, late)
    ensures var end := DoVoteReply(last, late).nodes;
            a in end && c in end && end[a].role == Leader && end[c].role == Leader && end[a].term == end[c].term
  {
    var s3, vote := FirstElections(s, a, b, c, t);
    late := vote;
    last := SecondElections(s, s3, a, b, c, t, late);
    VoteElects(last.nodes[a], b, c, t + 1);
  }

  // ---------- the same for the replies to append requests ----------

  /** A failed reply moves the next request to just past the last index it names. In the leader's own term, the
      requests after it stay within the leader's log exactly when that index does. */
  lemma StaleFailureIff(n: Node, r: Message)
    requires n.role == Leader && Contiguous(n.log) && CanSend(n)
    requires r.AppendReply? && !r.success && r.term == n.term && r.src in n.peers
    ensures CanSend(OnAppendReply(n, r)) <==> 0 <= BaseIndex(n.log) <= r.lastIndex <= LastIndex(n.log)
  {
    var x := OnAppendReply(n, r);
    forall p | p in n.peers && p != r.src ensures CanSendTo(x, p) {
      assert CanSendTo(n, p);
    }
    assert CanSendTo(x, r.src) <==> 0 <= BaseIndex(n.log) <= r.lastIndex <= LastIndex(n.log);
  }

  /** It also counts its sender as holding everything up to that index. */
  lemma FailureCounts(n: Node, r: Message, i: int)
    requires n.role == Leader && Contiguous(n.log) && n.name !in n.peers
    requires r.AppendReply? && !r.success && r.term == n.term && r.src in n.peers
    ensures Holders(OnAppendReply(n, r), i) == Holders(n, i) - {r.src} + if r.lastIndex >= i then {r.src} else {}
  {
  }

  /** A success at the end of the leader's log commits that entry just when its holders are enough. */
  lemma TriesCommit(n: Node, ok: Message, holders: set<NodeName>)
    requires n.role == Leader && Contiguous(n.log) && n.log != [] && n.commit < LastIndex(n.log)
    requires LastTerm(n.log) == n.term
    requires ok.AppendReply? && ok.success && ok.term == n.term && ok.src in n.peers && ok.lastIndex == LastIndex(n.log)
    requires holders == Holders(n, ok.lastIndex) + {ok.src}
    ensures OnAppendReply(n, ok).commit == if EnoughVotes(|holders|, n) then ok.lastIndex else n.commit
  {
    LastOf(n.log);
    var x := NotePeer(n, ok.src, ok.lastIndex);
    assert Holders(x, ok.lastIndex) == holders;
    assert |x.peers| == |x.peers.Keys| == |n.peers.Keys|;
  }

  /** The leader of a cluster of five that alone is known to hold its last entry, which is of its term. */
  ghost predicate AloneOfFive(n: Node) {
    && n.role == Leader && Contiguous(n.log) && n.name !in n.peers && |n.peers| == 4
    && n.log != [] && n.commit < LastIndex(n.log) && LastTerm(n.log) == n.term
    && Holders(n, LastIndex(n.log)) == {n.name}
  }

  lemma AfterFailure(n: Node, r: Message)
    requires AloneOfFive(n) && r.AppendReply? && !r.success && r.term == n.term && r.src in n.peers
    ensures var x, i := OnAppendReply(n, r), LastIndex(n.log);
            && x == n.(peers := x.peers) && x.peers.Keys == n.peers.Keys && |x.peers| == 4
            && Holders(x, i) == {n.name} + if r.lastIndex >= i then {r.src} else {}
  {
    var x := OnAppendReply(n, r);
    FailureCounts(n, r, LastIndex(n.log));
    assert |x.peers| == |x.peers.Keys| == |n.peers.Keys|;
  }

  /** After a failed reply of p, the success of q commits the entry exactly when p's reply names an index as high,
      whatever p holds there; without the failed reply it does not. */
  lemma StaleMatchCommitsIff(n: Node, failed: Message, ok: Message)
    requires AloneOfFive(n)
    requires failed.AppendReply? && !failed.success && failed.term == n.term && failed.src in n.peers
    requires ok.AppendReply? && ok.success && ok.term == n.term && ok.src in n.peers && ok.src != failed.src
    requires ok.lastIndex == LastIndex(n.log)
    ensures OnAppendReply(n, ok).commit == n.commit
    ensures OnAppendReply(OnAppendReply(n, failed), ok).commit
         == if failed.lastIndex >= LastIndex(n.log) then LastIndex(n.log) else n.commit
  {
    var two, three := {n.name, ok.src}, {n.name, failed.src, ok.src};
    assert |two| == 2 && |three| == 3;
    TriesCommit(n, ok, two);
    AfterFailure(n, failed);
    TriesCommit(OnAppendReply(n, failed), ok, if failed.lastIndex >= LastIndex(n.log) then three else two);
  }

  // ---------- a leader's first request is not delivered after a later one ----------

  /** The sequence numbers a follower accepts, of those delivered in a term; SEQ_START marks the first request. */
  function Accepted(numbers: seq<nat>, lastSeq: nat): seq<nat> {
    if numbers == [] then []
    else if ValidSeq(lastSeq, numbers[0], numbers[0] == SEQ_START) then
      [numbers[0]] + Accepted(numbers[1..], numbers[0])
    else Accepted(numbers[1..], lastSeq)
  }

  /** Strictly increasing, from above `low` on. */
  ghost predicate Rises(s: seq<nat>, low: nat) {
    s == [] || (s[0] > low && Rises(s[1..], s[0]))
  }

  /** From position k on, no delivery is of the leader's first request. */
  ghost predicate NoFirstFrom(numbers: seq<nat>, k: nat) {
    forall j :: k <= j < |numbers| ==> numbers[j] != SEQ_START
  }

  lemma NoFirstShift(numbers: seq<nat>, k: nat)
    requires numbers != []
    ensures NoFirstFrom(numbers[1..], k) <==> NoFirstFrom(numbers, k + 1)
  {
    if NoFirstFrom(numbers[1..], k) {
      forall j | k + 1 <= j < |numbers| ensures numbers[j] != SEQ_START {
        assert numbers[1..][j - 1] != SEQ_START;
      }
    }
  }

  lemma {:induction false} AcceptedAboveIff(numbers: seq<nat>, lastSeq: nat)
    requires lastSeq >= SEQ_START && forall j :: 0 <= j < |numbers| ==> numbers[j] >= SEQ_START
    ensures Rises(Accepted(numbers, lastSeq), lastSeq) <==> NoFirstFrom(numbers, 0)
  {
    if numbers != [] {
      var x, rest := numbers[0], numbers[1..];
      NoFirstShift(numbers, 0);
      if ValidSeq(lastSeq, x, x == SEQ_START) {
        AcceptedAboveIff(rest, x);
        assert Accepted(numbers, lastSeq)[1..] == Accepted(rest, x);
      } else {
        AcceptedAboveIff(rest, lastSeq);
      }
    }
  }

  /** However the requests of a leader are lost, repeated and reordered, those a follower accepts come in order
      exactly when none after the first delivered is the leader's first. */
  lemma AcceptedInOrderIff(numbers: seq<nat>)
    requires forall j :: 0 <= j < |numbers| ==> numbers[j] >= SEQ_START
    ensures Rises(Accepted(numbers, 0), 0) <==> NoFirstFrom(numbers, 1)
  {
    if numbers != [] {
      var x, rest := numbers[0], numbers[1..];
      assert Accepted(numbers, 0) == [x] + Accepted(rest, x);
      assert Accepted(numbers, 0)[1..] == Accepted(rest, x);
      AcceptedAboveIff(rest, x);
      NoFirstShift(numbers, 0);
    }
  }

  /** When a request delivered late is accepted, it takes the entries past its own reach off a log that already
      had them; it leaves the log as it was exactly when it reaches as far as the log. */
  lemma LateRequestErasesIff(f: Node, r: Message)
    requires r.AppendRequest? && Contiguous(f.log) && f.log != [] && f.log[0].index <= r.prevIndex
    requires r.prevIndex + |r.entries| <= LastIndex(f.log)
    requires var k := r.prevIndex - f.log[0].index;
             k + |r.entries| < |f.log| && f.log[k].term == r.prevTerm && r.entries == f.log[k + 1..k + 1 + |r.entries|]
    ensures var x := ProcessAppend(f, r).0;
            && x.log == f.log[..r.prevIndex - f.log[0].index + 1 + |r.entries|]
            && (x.log == f.log <==> r.prevIndex + |r.entries| == LastIndex(f.log))
  {
    assert f.log[|f.log| - 1].index == f.log[0].index + |f.log| - 1;
    var k := r.prevIndex - f.log[0].index;
    assert f.log[..k + 1] + r.entries == f.log[..k + 1 + |r.entries|];
    assert k == |f.log| - 1 ==> f.log[..k + 1] == f.log;
  }

  // ---------- all logs start with the same entry ----------

  /** At the start of the follower's log no term is compared: the request succeeds in any case, and gives the
      leader's log just when both logs start with the same entry. */
  lemma BaseNotCompared(l: Log, f: Log)
    requires Contiguous(l) && Contiguous(f) && l != [] && f != [] && BaseIndex(l) == BaseIndex(f)
    ensures var (g, ok) := AppendTo(f, BaseIndex(f), l[0].term, l[1..]);
            ok && (g == l <==> f[0] == l[0])
  {
    assert f[|f| - 1].index == f[0].index + |f| - 1;
    assert l == [l[0]] + l[1..];
    assert f[..1] == [f[0]];
    if |f| == 1 { assert f == [f[0]]; }
  }

  /** Before the start of the follower's log nothing is compared and nothing is appended, and the request succeeds. */
  lemma BelowBaseAccepted(f: Log, prev: int, prevTerm: nat, entries: Log)
    requires Contiguous(f) && f != [] && prev < BaseIndex(f)
    ensures AppendTo(f, prev, prevTerm, entries) == (f, true)
  {
    assert f[|f| - 1].index == f[0].index + |f| - 1;
  }
}
