/** Runs to messages that come too late: a failed reply that makes a leader commit an entry most nodes do not have,
    and a leader's first request that takes an acknowledged entry off a follower's log. */
module RaftLateMessages {
  import opened Collections
  import opened RaftLog
  import opened RaftModel
  import opened RaftHistory
  import opened RaftCluster
  import opened RaftTheorems
  import opened RaftScenes
  import opened RaftHypotheses

  ghost predicate FourNodes(s: Cluster, a: NodeName, p: NodeName, q: NodeName, r: NodeName) {
    s.nodes.Keys == {a, p, q, r} && a !in {p, q, r} && p !in {q, r} && q != r
  }

  /** Four nodes, of which at most a and p have acknowledged anything. */
  ghost predicate Four(s: Cluster, a: NodeName, p: NodeName, q: NodeName, r: NodeName) {
    FourNodes(s, a, p, q, r) && forall k :: k in s.hist.acks ==> k.node in {a, p}
  }

  lemma ThreePeers(x: NodeName, y: NodeName, z: NodeName)
    requires x !in {y, z} && y != z
    ensures |{x, y, z}| == 3
  {
  }

  /** All are followers of term t. */
  ghost predicate AllFollow(s: Cluster, a: NodeName, p: NodeName, q: NodeName, r: NodeName, t: nat) {
    var boot := [s.hist.boot];
    && Four(s, a, p, q, r) && s.hist.boot.term <= t
    && Known(s.nodes[a], a, t, boot, {p, q, r}) && s.nodes[a].role == Follower
    && Known(s.nodes[p], p, t, boot, {a, q, r}) && s.nodes[p].role == Follower
    && Known(s.nodes[q], q, t, boot, {a, p, r}) && Known(s.nodes[r], r, t, boot, {a, p, q})
  }

  lemma PeersOf(s: Cluster, n: NodeName, t: nat, x: NodeName, y: NodeName, z: NodeName)
    requires Init(s) && n in s.nodes && s.nodes[n].term == t && s.nodes.Keys == {n, x, y, z} && n !in {x, y, z}
    ensures Known(s.nodes[n], n, t, [s.hist.boot], {x, y, z}) && s.nodes[n].role == Follower && s.hist.boot.term <= t
  {
    AllKnown(s, n, t);
    assert s.nodes.Keys - {n} == {x, y, z};
    assert InitNode(s, n);
  }

  lemma FourFollow(s: Cluster, a: NodeName, p: NodeName, q: NodeName, r: NodeName, t: nat)
    requires Init(s) && FourNodes(s, a, p, q, r) && forall n :: n in s.nodes ==> s.nodes[n].term == t
    ensures AllFollow(s, a, p, q, r, t) && RunsTo(s, s)
  {
    Starts(s);
    PeersOf(s, a, t, p, q, r);
    PeersOf(s, p, t, a, q, r);
    PeersOf(s, q, t, a, p, r);
    PeersOf(s, r, t, a, p, q);
  }

  /** a has led term t + 1, and its request `old` to p is under way. */
  ghost predicate ALed(s: Cluster, a: NodeName, p: NodeName, q: NodeName, r: NodeName, t: nat, stray: Message) {
    var boot := [s.hist.boot];
    && Four(s, a, p, q, r)
    && Known(s.nodes[a], a, t + 1, boot, {p, q, r})
    && Known(s.nodes[p], p, t, boot, {a, q, r}) && s.nodes[p].role == Follower
    && Known(s.nodes[q], q, t + 1, boot, {a, p, r}) && Known(s.nodes[r], r, t + 1, boot, {a, p, q})
    && s.hist.boot.term <= t
    && stray in s.net && stray.AppendRequest? && stray.src == a && stray.dst == p && stray.term == t + 1
  }

  lemma ALeads(s0: Cluster, s: Cluster, a: NodeName, p: NodeName, q: NodeName, r: NodeName, t: nat)
    returns (s': Cluster, stray: Message)
    requires RunsTo(s0, s) && AllFollow(s, a, p, q, r, t)
    ensures RunsTo(s0, s') && ALed(s', a, p, q, r, t, stray)
  {
    var boot := [s.hist.boot];
    ThreePeers(p, q, r);
    var s1 := WinsTerm(s0, s, a, q, r, t, boot, {p, q, r}, t, boot, {a, p, r}, t, boot, {a, p, q});
    s', stray := Beats(s0, s1, a, p, t + 1, boot, {p, q, r});
  }

  /** Then p has led term t + 2 and holds an entry of it that no other node has. */
  ghost predicate PLed(s: Cluster, a: NodeName, p: NodeName, q: NodeName, r: NodeName, t: nat, e: Entry,
          stray: Message)
  {
    var boot := [s.hist.boot];
    && Four(s, a, p, q, r) && e.index == 1 && e.term == t + 2 && s.hist.boot.term <= t
    && Known(s.nodes[a], a, t + 2, boot, {p, q, r}) && s.nodes[a].role == Follower
    && Known(s.nodes[p], p, t + 2, boot + [e], {a, q, r})
    && Known(s.nodes[q], q, t + 2, boot, {a, p, r}) && Known(s.nodes[r], r, t + 1, boot, {a, p, q})
    && stray in s.net && stray.AppendRequest? && stray.src == a && stray.dst == p && stray.term == t + 1
  }

  lemma PWinsSecond(s0: Cluster, s: Cluster, a: NodeName, p: NodeName, q: NodeName, r: NodeName, t: nat, stray: Message)
    returns (s': Cluster)
    requires RunsTo(s0, s) && ALed(s, a, p, q, r, t, stray)
    ensures RunsTo(s0, s') && Elsewhere(s, s', {a, p, q}) && Four(s', a, p, q, r)
    ensures Known(s'.nodes[p], p, t + 2, [s.hist.boot], {a, q, r}) && JustLeads(s'.nodes[p])
    ensures Known(s'.nodes[a], a, t + 2, [s.hist.boot], {p, q, r}) && s'.nodes[a].role == Follower
    ensures Known(s'.nodes[q], q, t + 2, [s.hist.boot], {a, p, r})
  {
    var boot := [s.hist.boot];
    ThreePeers(a, q, r);
    var s1 := StandsUp(s0, s, p, t, boot, {a, q, r});
    s' := WinsTerm(s0, s1, p, a, q, t + 1, boot, {a, q, r}, t + 1, boot, {p, q, r}, t + 1, boot, {a, p, r});
  }

  lemma PLeads(s0: Cluster, s: Cluster, a: NodeName, p: NodeName, q: NodeName, r: NodeName, t: nat, stray: Message,
          kind: CommandKind, data: string)
    returns (s': Cluster, e: Entry)
    requires RunsTo(s0, s) && ALed(s, a, p, q, r, t, stray)
    ensures RunsTo(s0, s') && PLed(s', a, p, q, r, t, e, stray)
  {
    var boot := [s.hist.boot];
    var s1 := PWinsSecond(s0, s, a, p, q, r, t, stray);
    var request;
    s', e, request := Logs(s0, s1, p, q, t + 2, boot, {a, q, r}, kind, data);
  }

  /** Then a leads term t + 3, which p is in as well, and p's answer to the stray request is under way. */
  ghost predicate ALeadsAgain(s: Cluster, a: NodeName, p: NodeName, q: NodeName, r: NodeName, t: nat, e: Entry,
          stale: Message)
  {
    var boot := [s.hist.boot];
    && Four(s, a, p, q, r) && e.term == t + 2
    && Known(s.nodes[a], a, t + 3, boot, {p, q, r}) && JustLeads(s.nodes[a]) && NothingSent(s.nodes[a])
    && Known(s.nodes[q], q, t + 3, boot, {a, p, r}) && s.nodes[q].role == Follower
    && s.nodes[p].log == boot + [e] && s.nodes[r].log == boot
    && stale == AppendReply(p, a, t + 3, false, 1, t + 2, t + 1) && stale in s.net
  }

  lemma AWinsThird(s0: Cluster, s: Cluster, a: NodeName, p: NodeName, q: NodeName, r: NodeName, t: nat, e: Entry,
          stray: Message)
    returns (s': Cluster)
    requires RunsTo(s0, s) && PLed(s, a, p, q, r, t, e, stray)
    ensures RunsTo(s0, s') && Elsewhere(s, s', {a, q, r}) && Four(s', a, p, q, r)
    ensures Known(s'.nodes[a], a, t + 3, [s.hist.boot], {p, q, r}) && JustLeads(s'.nodes[a])
    ensures NothingSent(s'.nodes[a]) && Asked(s', a, p, t + 3, [s.hist.boot])
    ensures Known(s'.nodes[q], q, t + 3, [s.hist.boot], {a, p, r}) && s'.nodes[q].role == Follower
    ensures s'.nodes[r].log == [s.hist.boot]
  {
    var boot := [s.hist.boot];
    ThreePeers(p, q, r);
    s' := WinsTerm(s0, s, a, q, r, t + 2, boot, {p, q, r}, t + 2, boot, {a, p, r}, t + 1, boot, {a, p, q});
  }

  lemma AWinsAgain(s0: Cluster, s: Cluster, a: NodeName, p: NodeName, q: NodeName, r: NodeName, t: nat, e: Entry,
          stray: Message)
    returns (s': Cluster, stale: Message)
    requires RunsTo(s0, s) && PLed(s, a, p, q, r, t, e, stray)
    ensures RunsTo(s0, s') && ALeadsAgain(s', a, p, q, r, t, e, stale)
  {
    var boot := [s.hist.boot];
    var s1 := AWinsThird(s0, s, a, p, q, r, t, e, stray);
    var s2 := RefusesVote(s0, s1, a, p, t + 3, boot, t + 2, boot + [e], {a, q, r});
    s' := RefusesRequest(s0, s2, stray, t + 3, boot + [e], {a, q, r});
    stale := AppendReply(p, a, t + 3, false, 1, t + 2, t + 1);
  }

  /** Last, a has sent an entry of its own to q, whose answer is under way too. */
  ghost predicate QHolds(s: Cluster, a: NodeName, p: NodeName, q: NodeName, r: NodeName, t: nat, e: Entry, f: Entry,
          stale: Message, ok: Message)
  {
    var boot := s.hist.boot;
    && FourNodes(s, a, p, q, r) && e.term == t + 2 && f.term == t + 3 && f.index == 1
    && Known(s.nodes[a], a, t + 3, [boot, f], {p, q, r}) && JustLeads(s.nodes[a])
    && s.nodes[p].log == [boot, e] && s.nodes[q].log == [boot, f] && s.nodes[r].log == [boot]
    && stale == AppendReply(p, a, t + 3, false, 1, t + 2, t + 1) && stale in s.net
    && ok == AppendReply(q, a, t + 3, true, 1, t + 3, t + 3) && ok in s.net
  }

  lemma ALogs(s0: Cluster, s: Cluster, a: NodeName, p: NodeName, q: NodeName, r: NodeName, t: nat, e: Entry,
          stale: Message, kind: CommandKind, data: string)
    returns (s': Cluster, f: Entry, request: Message)
    requires RunsTo(s0, s) && ALeadsAgain(s, a, p, q, r, t, e, stale)
    ensures RunsTo(s0, s') && Elsewhere(s, s', {a}) && forall k :: k in s'.hist.acks ==> k.node != q
    ensures Known(s'.nodes[a], a, t + 3, [s.hist.boot, f], {p, q, r}) && JustLeads(s'.nodes[a])
    ensures f.term == t + 3 && f.index == 1 && request in s'.net && request.AppendRequest? && request.initial
    ensures request.src == a && request.dst == q && request.term == t + 3 && request.prevIndex == 0
    ensures request.entries == [f] && request.leaderCommit == 0
    ensures s'.nodes[p].log == [s.hist.boot, e]
  {
    var boot := s.hist.boot;
    s', f, request := Logs(s0, s, a, q, t + 3, [boot], {p, q, r}, kind, data);
    assert [boot] + [f] == [boot, f] && [boot] + [e] == [boot, e] && [boot, f][1..] == [f];
    assert forall k :: k in s'.hist.acks ==> k.node in {a, p};
  }

  lemma QTakes(s0: Cluster, s: Cluster, a: NodeName, p: NodeName, q: NodeName, r: NodeName, t: nat, e: Entry,
          stale: Message, kind: CommandKind, data: string)
    returns (s': Cluster, f: Entry, ok: Message)
    requires RunsTo(s0, s) && ALeadsAgain(s, a, p, q, r, t, e, stale)
    ensures RunsTo(s0, s') && QHolds(s', a, p, q, r, t, e, f, stale, ok)
  {
    var s1, request;
    s1, f, request := ALogs(s0, s, a, p, q, r, t, e, stale, kind, data);
    s' := TakesOne(s0, s1, request, s.hist.boot, f, {a, p, r});
    ok := AppendReply(q, a, t + 3, true, 1, t + 3, t + 3);
  }

  /** The stale reply and then q's commit the entry, which is one node short of a majority without p. */
  lemma BothReplies(x: Node, p: NodeName, q: NodeName, stale: Message, ok: Message)
    requires x.role == Leader && Contiguous(x.log) && BaseIndex(x.log) == 0 && LastIndex(x.log) == 1
    requires LastTerm(x.log) == x.term && x.commit == 0 && x.applied == 0
    requires x.name !in x.peers && |x.peers| == 3 && p in x.peers && q in x.peers && p != q
    requires forall v :: v in x.peers ==> x.peers[v].matchIndex == NO_INDEX
    requires stale.AppendReply? && !stale.success && stale.term == x.term && stale.src == p && stale.lastIndex == 1
    requires ok.AppendReply? && ok.success && ok.term == x.term && ok.src == q && ok.lastIndex == 1
    ensures OnAppendReply(x, ok).commit == 0
    ensures OnAppendReply(x, stale) == NotePeer(x, p, 1) && OnAppendReply(OnAppendReply(x, stale), ok).commit == 1
  {
    LastOf(x.log);
    var two, three := {x.name, q}, {x.name, p, q};
    assert |two| == 2 && |three| == 3;
    assert Holders(x, 1) == {x.name};
    TriesCommit(x, ok, two);
    FailureCounts(x, stale, 1);
    var y := OnAppendReply(x, stale);
    assert |y.peers| == |y.peers.Keys| == |x.peers.Keys|;
    TriesCommit(y, ok, three);
  }

  /** The late reply is not timely, and with it ok makes a commit its second entry, which p and r do not have;
      without it ok does not. */
  ghost predicate CommitsUnheld(s: Cluster, a: NodeName, p: NodeName, r: NodeName, stale: Message, ok: Message)
    requires a in s.nodes && p in s.nodes && r in s.nodes && a != p && a != r
    requires stale.AppendReply? && ok.AppendReply? && stale.dst == a && ok.dst == a
  {
    var x := s.nodes[a];
    && !TimelyReply(s, stale) && TimelyReply(s, ok)
    && Contiguous(x.log) && |x.log| == 2
    && (forall n :: n in {p, r} ==> |s.nodes[n].log| < 2 || s.nodes[n].log[1] != x.log[1])
    && OnAppendReply(x, ok).commit == 0
    && var y := OnAppendReply(x, stale);
    && Contiguous(y.log) && OnAppendReply(y, ok).commit == 1
  }

  lemma StaleCommits(s: Cluster, a: NodeName, p: NodeName, q: NodeName, r: NodeName, t: nat, e: Entry, f: Entry,
          stale: Message, ok: Message)
    requires QHolds(s, a, p, q, r, t, e, f, stale, ok)
    ensures CommitsUnheld(s, a, p, r, stale, ok)
  {
    ThreePeers(p, q, r);
    var x := s.nodes[a];
    assert |x.peers| == |x.peers.Keys|;
    BothReplies(x, p, q, stale, ok);
  }

  /** A run of four nodes in which a leads a term, then p leads the next and holds an entry alone, then a leads the
      one after, logs an entry and brings it to q. Handling p's late answer to a request of a's first term, and then
      q's, commits a's entry, which only a and q hold; without the late answer it is not committed. */
  lemma StaleFailureCommits(s: Cluster, a: NodeName, p: NodeName, q: NodeName, r: NodeName, t: nat,
          kind: CommandKind, data: string)
    returns (last: Cluster, stale: Message, ok: Message)
    requires Init(s) && FourNodes(s, a, p, q, r) && forall n :: n in s.nodes ==> s.nodes[n].term == t
    ensures RunsTo(s, last) && last.nodes.Keys == s.nodes.Keys && stale in last.net && ok in last.net
    ensures stale.AppendReply? && ok.AppendReply? && stale.dst == a && ok.dst == a
    ensures CommitsUnheld(last, a, p, r, stale, ok)
  {
    FourFollow(s, a, p, q, r, t);
    var s1, stray := ALeads(s, s, a, p, q, r, t);
    var s2, e := PLeads(s, s1, a, p, q, r, t, stray, kind, data);
    var s3, late := AWinsAgain(s, s2, a, p, q, r, t, e, stray);
    var f;
    last, f, ok := QTakes(s, s3, a, p, q, r, t, e, late, kind, data);
    stale := late;
    StaleCommits(last, a, p, q, r, t, e, f, stale, ok);
  }

  // ---------- a late first request ----------

  /** A node that enters the leader's term with a request takes its entry. */
  lemma TakesNew(s0: Cluster, s: Cluster, m: Message, t: nat, boot: Entry, e: Entry, ps: set<NodeName>)
    returns (s': Cluster)
    requires RunsTo(s0, s) && m in s.net && m.AppendRequest? && m.dst in s.nodes && m.src in ps
    requires Known(s.nodes[m.dst], m.dst, t, [boot], ps) && t < m.term
    requires m.seqNr > 0 && m.prevIndex == 0 && m.entries == [e] && e.index == 1 && m.leaderCommit == 0
    ensures RunsTo(s0, s') && m.dst in s'.nodes && s.net <= s'.net
    ensures Ack(m.term, m.dst, 2) in s'.hist.acks
    ensures var y := s'.nodes[m.dst];
            y.term == m.term && y.role == Follower && y.log == [boot, e] && y.peers.Keys == ps && y.name == m.dst
  {
    assert [boot] + [e] == [boot, e];
    Then(s0, s, Deliver(m));
    s' := Next(s, Deliver(m));
  }

  /** a leads, has sent q an empty first request that is still under way, and then one with an entry. */
  lemma TwoRequests(s0: Cluster, s: Cluster, a: NodeName, p: NodeName, q: NodeName, r: NodeName, t: nat,
          kind: CommandKind, data: string)
    returns (s': Cluster, f: Entry, first: Message, second: Message)
    requires RunsTo(s0, s) && AllFollow(s, a, p, q, r, t)
    ensures RunsTo(s0, s') && q in s'.nodes && first in s'.net && second in s'.net
    ensures Known(s'.nodes[q], q, t, [s.hist.boot], {a, p, r}) && f.index == 1 && s.hist.boot.index == 0
    ensures first.AppendRequest? && first.src == a && first.dst == q && first.term == t + 1 && first.initial
    ensures first.prevIndex == 0 && first.entries == []
    ensures second.AppendRequest? && second.src == a && second.dst == q && second.term == t + 1 && second.seqNr > 0
    ensures second.prevIndex == 0 && second.entries == [f] && second.leaderCommit == 0
  {
    var boot := [s.hist.boot];
    ThreePeers(p, q, r);
    var s1 := WinsTerm(s0, s, a, p, r, t, boot, {p, q, r}, t, boot, {a, q, r}, t, boot, {a, p, q});
    var s2;
    s2, first := Beats(s0, s1, a, q, t + 1, boot, {p, q, r});
    s', f, second := Logs(s0, s2, a, q, t + 1, boot, {p, q, r}, kind, data);
    assert (boot + [f])[1..] == [f];
  }

  lemma FirstErases(s: Cluster, m: Message, boot: Entry, e: Entry)
    requires m.AppendRequest? && m.initial && m.prevIndex == 0 && m.entries == [] && m.dst in s.nodes
    requires boot.index == 0 && e.index == 1 && Ack(m.term, m.dst, 2) in s.hist.acks
    requires var y := s.nodes[m.dst];
             y.term == m.term && y.role == Follower && y.log == [boot, e] && m.src in y.peers
    ensures !FirstReaches(s, m) && Contiguous(s.nodes[m.dst].log)
    ensures OnAppendRequest(s.nodes[m.dst], m).0.log == s.nodes[m.dst].log[..1]
  {
    assert Reach(m) == 1;
    assert [boot, e][..1] + [] == [boot, e][..1];
  }

  /** A run of four nodes in which q acknowledges an entry of a's second request. Handling a's first request only
      then takes the entry off q's log again. */
  lemma LateFirstErases(s: Cluster, a: NodeName, p: NodeName, q: NodeName, r: NodeName, t: nat,
          kind: CommandKind, data: string)
    returns (last: Cluster, first: Message)
    requires Init(s) && FourNodes(s, a, p, q, r) && forall n :: n in s.nodes ==> s.nodes[n].term == t
    ensures RunsTo(s, last) && first in last.net && first.AppendRequest? && first.dst == q && q in last.nodes
    ensures !FirstReaches(last, first) && Contiguous(last.nodes[q].log) && |last.nodes[q].log| == 2
    ensures Ack(t + 1, q, 2) in last.hist.acks && last.nodes[q].term == t + 1
    ensures OnAppendRequest(last.nodes[q], first).0.log == last.nodes[q].log[..1]
  {
    FourFollow(s, a, p, q, r, t);
    var s1, f, second;
    s1, f, first, second := TwoRequests(s, s, a, p, q, r, t, kind, data);
    last := TakesNew(s, s1, second, t, s.hist.boot, f, {a, p, r});
    FirstErases(last, first, s.hist.boot, f);
  }
}
