/** A majority of nodes can always elect a leader: from every state that satisfies the invariant there are steps,
    taken by these nodes alone, to a state in which one of them leads and the others follow it. */
module RaftElects {
  import opened Collections
  import opened RaftLog
  import opened RaftModel
  import opened RaftHistory
  import opened RaftCluster
  import opened RaftInvariant
  import opened RaftReplicate
  import opened RaftTheorems
  import opened RaftScenes
  import opened RaftEffects

  // ---------- going on with a run ----------

  /** The run goes on to s. */
  ghost predicate Reaches(tr: seq<Cluster>, acts: seq<Action>, s: Cluster) {
    exists tr', acts' :: IsRun(tr', acts') && tr <= tr' && acts <= acts' && tr'[|acts'|] == s
  }

  lemma ReachesInv(tr: seq<Cluster>, acts: seq<Action>, s: Cluster)
    requires Reaches(tr, acts, s)
    ensures Inv(s)
  {
    var tr', acts' :| IsRun(tr', acts') && tr <= tr' && acts <= acts' && tr'[|acts'|] == s;
    RunInv(tr', acts', |acts'|);
  }

  /** What the invariant says of one node. */
  ghost predicate Sound(s: Cluster, n: NodeName)
    requires n in s.nodes
  {
    var x := s.nodes[n];
    && x.name == n && x.peers.Keys == s.nodes.Keys - {n} && (forall p :: p in x.peers ==> x.peers[p].seqNr >= SEQ_START)
    && x.log != [] && Contiguous(x.log) && BaseIndex(x.log) == 0 && LastIndex(x.log) == |x.log| - 1
    && 0 <= x.commit == x.applied
  }

  lemma NodeSound(tr: seq<Cluster>, acts: seq<Action>, s: Cluster, n: NodeName)
    requires Reaches(tr, acts, s) && n in s.nodes
    ensures Sound(s, n)
  {
    ReachesInv(tr, acts, s);
    assert NodeShape(s, n);
    LogIndex(s.hist, s.nodes[n].log);
  }

  lemma GoesOn(tr: seq<Cluster>, acts: seq<Action>, s: Cluster, a: Action)
    requires Reaches(tr, acts, s) && Enabled(s, a)
    ensures Reaches(tr, acts, Next(s, a))
  {
    var tr1, acts1 :| IsRun(tr1, acts1) && tr <= tr1 && acts <= acts1 && tr1[|acts1|] == s;
    var tr2, acts2 := tr1 + [Next(s, a)], acts1 + [a];
    forall i: nat | i < |acts2| ensures StepOk(tr2, acts2, i) {
      if i < |acts1| { assert acts1[i] == acts2[i] && tr2[i] == tr1[i] && tr2[i + 1] == tr1[i + 1]; }
    }
    StepsMakeRun(tr2, acts2);
    assert tr2[|acts2|] == Next(s, a);
  }

  // ---------- who can win ----------

  ghost predicate MostRecent(s: Cluster, c: NodeName, q: set<NodeName>)
    requires c in s.nodes
  {
    forall v :: v in q && v in s.nodes ==> !Older(LastTerm(s.nodes[c].log), LastIndex(s.nodes[c].log), s.nodes[v].log)
  }

  /** One node of a set has a log that is as recent as that of every other. */
  lemma {:induction false} SomeMostRecent(s: Cluster, q: set<NodeName>) returns (c: NodeName)
    requires q != {} && q <= s.nodes.Keys
    ensures c in q && MostRecent(s, c, q)
  {
    var x := SomeElement(q);
    if q - {x} == {} {
      c := x;
      assert forall v :: v in q ==> v == x || v in q - {x};
    } else {
      var d := SomeMostRecent(s, q - {x});
      c := if Older(LastTerm(s.nodes[d].log), LastIndex(s.nodes[d].log), s.nodes[x].log) then x else d;
      forall v | v in q && v in s.nodes
        ensures !Older(LastTerm(s.nodes[c].log), LastIndex(s.nodes[c].log), s.nodes[v].log)
      {
        assert v != x ==> v in q - {x};
      }
    }
  }

  lemma {:induction false} TopTerm(s: Cluster, q: set<NodeName>) returns (t: nat)
    requires q <= s.nodes.Keys
    ensures forall v :: v in q ==> s.nodes[v].term <= t
  {
    if q == {} {
      t := 0;
    } else {
      var x := SomeElement(q);
      t := TopTerm(s, q - {x});
      t := Max(t, s.nodes[x].term);
      forall v | v in q ensures s.nodes[v].term <= t {
        assert v != x ==> v in q - {x};
      }
    }
  }

  // ---------- standing for election ----------

  /** The candidate has asked every peer for its vote, with the end of its log. */
  ghost predicate Stands(s: Cluster, c: NodeName, t: nat, log: Log) {
    && c in s.nodes && s.nodes[c].role == Candidate && s.nodes[c].term == t && s.nodes[c].log == log
    && forall p :: p in s.nodes && p != c ==> RaftScenes.Asked(s, c, p, t, log)
  }

  lemma Standing(tr: seq<Cluster>, acts: seq<Action>, s: Cluster, c: NodeName) returns (s': Cluster)
    requires Reaches(tr, acts, s) && c in s.nodes && s.nodes[c].role != Leader
    ensures Reaches(tr, acts, s') && Elsewhere(s, s', {c}) && Stands(s', c, s.nodes[c].term + 1, s.nodes[c].log)
  {
    NodeSound(tr, acts, s, c);
    GoesOn(tr, acts, s, Elect(c));
    s' := Next(s, Elect(c));
    var x := StartElection(s.nodes[c]);
    forall p | p in s.nodes && p != c ensures RaftScenes.Asked(s', c, p, x.term, x.log) {
      assert VoteRequestFor(x, p) in VoteRequests(x);
      assert Asks(VoteRequestFor(x, p), c, p, x.term, x.log);
    }
  }

  /** The node stands until its term is past t. */
  lemma {:induction false} StandsPast(tr: seq<Cluster>, acts: seq<Action>, s: Cluster, c: NodeName, t: nat)
    returns (s': Cluster)
    requires Reaches(tr, acts, s) && c in s.nodes && s.nodes[c].role != Leader
    ensures Reaches(tr, acts, s') && Elsewhere(s, s', {c})
    ensures c in s'.nodes && s'.nodes[c].term > t && Stands(s', c, s'.nodes[c].term, s.nodes[c].log)
    decreases if s.nodes[c].term <= t then t + 1 - s.nodes[c].term else 0
  {
    var s1 := Standing(tr, acts, s, c);
    if s1.nodes[c].term > t {
      s' := s1;
    } else {
      s' := StandsPast(tr, acts, s1, c, t);
    }
  }

  // ---------- the votes ----------

  /** Node v is in term t as a follower, and its vote for c is under way. */
  ghost predicate Voted(s: Cluster, c: NodeName, t: nat, v: NodeName, log: Log) {
    && v in s.nodes && s.nodes[v].term == t && s.nodes[v].role == Follower && s.nodes[v].log == log
    && VoteReply(v, c, t, true, t) in s.net
  }

  lemma Votes(tr: seq<Cluster>, acts: seq<Action>, s: Cluster, c: NodeName, t: nat, log: Log, v: NodeName)
    returns (s': Cluster)
    requires Reaches(tr, acts, s) && Stands(s, c, t, log) && v in s.nodes && v != c && s.nodes[v].term < t
    requires !Older(LastTerm(log), LastIndex(log), s.nodes[v].log)
    ensures Reaches(tr, acts, s') && Elsewhere(s, s', {v}) && Stands(s', c, t, log)
    ensures Voted(s', c, t, v, s.nodes[v].log)
  {
    NodeSound(tr, acts, s, v);
    NodeSound(tr, acts, s, c);
    assert RaftScenes.Asked(s, c, v, t, log);
    var m :| m in s.net && Asks(m, c, v, t, log);
    VoteGrantedIff(s.nodes[v], m);
    GoesOn(tr, acts, s, Deliver(m));
    s' := Next(s, Deliver(m));
    forall p | p in s'.nodes && p != c ensures RaftScenes.Asked(s', c, p, t, log) {
      AskedStill(s, s', c, p, t, log);
    }
  }

  lemma {:induction false} AllVote(tr: seq<Cluster>, acts: seq<Action>, s: Cluster, c: NodeName, t: nat, log: Log,
          todo: set<NodeName>)
    returns (s': Cluster)
    requires Reaches(tr, acts, s) && Stands(s, c, t, log) && todo <= s.nodes.Keys - {c}
    requires forall v :: v in todo ==> s.nodes[v].term < t && !Older(LastTerm(log), LastIndex(log), s.nodes[v].log)
    ensures Reaches(tr, acts, s') && Elsewhere(s, s', todo) && Stands(s', c, t, log)
    ensures forall v :: v in todo ==> Voted(s', c, t, v, s.nodes[v].log)
    decreases todo
  {
    if todo == {} {
      s' := s;
    } else {
      var v := SomeElement(todo);
      var s1 := Votes(tr, acts, s, c, t, log, v);
      s' := AllVote(tr, acts, s1, c, t, log, todo - {v});
    }
  }

  /** A node of term t with this log that leads, or stands with at least these votes. */
  ghost predicate Counting(s: Cluster, c: NodeName, t: nat, log: Log, yes: set<NodeName>) {
    && c in s.nodes && s.nodes[c].term == t && s.nodes[c].log == log
    && (s.nodes[c].role == Leader || (s.nodes[c].role == Candidate && yes <= Supporters(s.nodes[c])))
  }

  lemma Counts(tr: seq<Cluster>, acts: seq<Action>, s: Cluster, c: NodeName, t: nat, log: Log, yes: set<NodeName>,
          v: NodeName)
    returns (s': Cluster)
    requires Reaches(tr, acts, s) && Counting(s, c, t, log, yes) && v in s.nodes && v != c
    requires VoteReply(v, c, t, true, t) in s.net
    ensures Reaches(tr, acts, s') && Elsewhere(s, s', {c}) && Counting(s', c, t, log, yes + {v})
  {
    if s.nodes[c].role == Leader {
      s' := s;
    } else {
      NodeSound(tr, acts, s, c);
      var m := VoteReply(v, c, t, true, t);
      LeadsIff(s.nodes[c], m);
      GoesOn(tr, acts, s, Deliver(m));
      s' := Next(s, Deliver(m));
    }
  }

  lemma {:induction false} AllCount(tr: seq<Cluster>, acts: seq<Action>, s: Cluster, c: NodeName, t: nat, log: Log,
          yes: set<NodeName>, todo: set<NodeName>)
    returns (s': Cluster)
    requires Reaches(tr, acts, s) && Counting(s, c, t, log, yes) && todo <= s.nodes.Keys - {c}
    requires forall v :: v in todo ==> VoteReply(v, c, t, true, t) in s.net
    ensures Reaches(tr, acts, s') && Elsewhere(s, s', {c}) && Counting(s', c, t, log, yes + todo)
    decreases todo
  {
    if todo == {} {
      s' := s;
      assert yes + todo == yes;
    } else {
      var v := SomeElement(todo);
      var s1 := Counts(tr, acts, s, c, t, log, yes, v);
      s' := AllCount(tr, acts, s1, c, t, log, yes + {v}, todo - {v});
      assert yes + {v} + (todo - {v}) == yes + todo;
    }
  }

  /** With the votes of a majority the candidate leads, at the latest when its election times out. */
  lemma Wins(tr: seq<Cluster>, acts: seq<Action>, s: Cluster, c: NodeName, t: nat, log: Log, yes: set<NodeName>)
    returns (s': Cluster)
    requires Reaches(tr, acts, s) && Counting(s, c, t, log, yes) && Majority(yes, s.nodes.Keys)
    ensures Reaches(tr, acts, s') && Elsewhere(s, s', {c}) && Counting(s', c, t, log, {})
    ensures s'.nodes[c].role == Leader
  {
    if s.nodes[c].role == Leader {
      s' := s;
    } else {
      NodeSound(tr, acts, s, c);
      assert |s.nodes[c].peers.Keys| == |s.nodes.Keys| - 1;
      SubsetSize(yes, Supporters(s.nodes[c]));
      GoesOn(tr, acts, s, ElectionTimeout(c));
      s' := Next(s, ElectionTimeout(c));
    }
  }

  /** Node c leads term t with this log, and the others of q are in that term or an older one. */
  ghost predicate Leads(s: Cluster, c: NodeName, q: set<NodeName>) {
    && c in s.nodes && s.nodes[c].role == Leader && q <= s.nodes.Keys
    && forall v :: v in q ==> s.nodes[v].term <= s.nodes[c].term
  }

  /** The most recent node of a majority is elected by it, when it does not lead already. */
  lemma Elected(tr: seq<Cluster>, acts: seq<Action>, s: Cluster, c: NodeName, q: set<NodeName>) returns (s': Cluster)
    requires Reaches(tr, acts, s) && c in q && Majority(q, s.nodes.Keys) && s.nodes[c].role != Leader
    requires MostRecent(s, c, q)
    ensures Reaches(tr, acts, s') && Elsewhere(s, s', q) && Leads(s', c, q)
    ensures s'.nodes[c].log == s.nodes[c].log
  {
    var s1 := Polled(tr, acts, s, c, q);
    s' := Tallied(tr, acts, s1, c, q, s1.nodes[c].term, s.nodes[c].log);
  }

  /** The candidate stands, with the votes of the others of q under way. */
  ghost predicate Chosen(s: Cluster, c: NodeName, q: set<NodeName>, t: nat, log: Log) {
    && Stands(s, c, t, log) && c in q && q <= s.nodes.Keys
    && forall v :: v in q && v != c ==> s.nodes[v].term == t && VoteReply(v, c, t, true, t) in s.net
  }

  lemma Polled(tr: seq<Cluster>, acts: seq<Action>, s: Cluster, c: NodeName, q: set<NodeName>) returns (s': Cluster)
    requires Reaches(tr, acts, s) && c in q && q <= s.nodes.Keys && s.nodes[c].role != Leader && MostRecent(s, c, q)
    ensures Reaches(tr, acts, s') && Elsewhere(s, s', q)
    ensures c in s'.nodes && Chosen(s', c, q, s'.nodes[c].term, s.nodes[c].log)
  {
    var top := TopTerm(s, q);
    var log := s.nodes[c].log;
    var s1 := StandsPast(tr, acts, s, c, top);
    var t := s1.nodes[c].term;
    s' := AllVote(tr, acts, s1, c, t, log, q - {c});
    forall v | v in q && v != c ensures s'.nodes[v].term == t && VoteReply(v, c, t, true, t) in s'.net {
      assert Voted(s', c, t, v, s1.nodes[v].log);
    }
  }

  lemma Tallied(tr: seq<Cluster>, acts: seq<Action>, s: Cluster, c: NodeName, q: set<NodeName>, t: nat, log: Log)
    returns (s': Cluster)
    requires Reaches(tr, acts, s) && Majority(q, s.nodes.Keys) && Chosen(s, c, q, t, log)
    ensures Reaches(tr, acts, s') && Elsewhere(s, s', {c}) && Leads(s', c, q) && s'.nodes[c].log == log
  {
    NodeSound(tr, acts, s, c);
    var s1 := AllCount(tr, acts, s, c, t, log, {c}, q - {c});
    assert {c} + (q - {c}) == q;
    s' := Wins(tr, acts, s1, c, t, log, q);
  }

  // ---------- a leader of an old term ----------

  lemma LeaderSound(tr: seq<Cluster>, acts: seq<Action>, s: Cluster, c: NodeName)
    requires Reaches(tr, acts, s) && c in s.nodes && s.nodes[c].role == Leader
    ensures Sound(s, c) && CanSend(s.nodes[c]) && s.nodes[c].commit < |s.nodes[c].log|
  {
    NodeSound(tr, acts, s, c);
    ReachesInv(tr, acts, s);
    LeaderReady(s, c);
    assert LeaderOk(s, c);
  }

  /** The leader's request to v, which carries the rest of its log. */
  ghost predicate RequestTo(r: Message, x: Node, v: NodeName)
    requires v in x.peers && Contiguous(x.log)
  {
    && CanSendTo(x, v) && r == AppendRequestFor(x, v) && Reach(r) == |x.log| && r.dst == v && r.src == x.name
    && r.term == x.term && r.seqNr == x.peers[v].seqNr
  }

  lemma SendsTo(tr: seq<Cluster>, acts: seq<Action>, s: Cluster, c: NodeName, v: NodeName)
    returns (s': Cluster, r: Message)
    requires Reaches(tr, acts, s) && c in s.nodes && s.nodes[c].role == Leader && v in s.nodes && v != c
    ensures Reaches(tr, acts, s') && Elsewhere(s, s', {c}) && s'.nodes[c] == CountSent(s.nodes[c]) && Sound(s, c)
    ensures r in s'.net && RequestTo(r, s.nodes[c], v)
  {
    LeaderSound(tr, acts, s, c);
    GoesOn(tr, acts, s, Heartbeat(c));
    s' := Next(s, Heartbeat(c));
    assert CanSendTo(s.nodes[c], v);
    r := AppendRequestFor(s.nodes[c], v);
    assert r in AppendRequests(s.nodes[c]);
  }

  /** A leader that asks a node of a newer term is told so, and follows. */
  lemma StepsDown(tr: seq<Cluster>, acts: seq<Action>, s: Cluster, c: NodeName, v: NodeName) returns (s': Cluster)
    requires Reaches(tr, acts, s) && c in s.nodes && s.nodes[c].role == Leader
    requires v in s.nodes && v != c && s.nodes[v].term > s.nodes[c].term
    ensures Reaches(tr, acts, s') && Elsewhere(s, s', {c})
    ensures c in s'.nodes && s'.nodes[c].role == Follower && s'.nodes[c].log == s.nodes[c].log
  {
    var s1, r := SendsTo(tr, acts, s, c, v);
    NodeSound(tr, acts, s1, v);
    HearsLeader(s.nodes[v], r);
    GoesOn(tr, acts, s1, Deliver(r));
    var s2 := Next(s1, Deliver(r));
    assert s2.nodes == s1.nodes;
    var no := AppendReply(v, c, s.nodes[v].term, false, LastIndex(s.nodes[v].log), LastTerm(s.nodes[v].log), r.term);
    NodeSound(tr, acts, s2, c);
    NewerTermFollows(s2.nodes[c], no);
    GoesOn(tr, acts, s2, Deliver(no));
    s' := Next(s2, Deliver(no));
  }

  /** Of every majority, a node with a most recent log can become leader, with nothing done by any other node. */
  lemma MajorityElects(tr: seq<Cluster>, acts: seq<Action>, s: Cluster, q: set<NodeName>)
    returns (s': Cluster, c: NodeName)
    requires Reaches(tr, acts, s) && Majority(q, s.nodes.Keys)
    ensures Reaches(tr, acts, s') && Elsewhere(s, s', q) && c in q && Leads(s', c, q)
    ensures s'.nodes[c].log == s.nodes[c].log && MostRecent(s, c, q)
  {
    c := SomeMostRecent(s, q);
    if s.nodes[c].role != Leader {
      s' := Elected(tr, acts, s, c, q);
    } else if v :| v in q && s.nodes[v].term > s.nodes[c].term {
      var s1 := StepsDown(tr, acts, s, c, v);
      s' := Elected(tr, acts, s1, c, q);
    } else {
      s' := s;
    }
  }
}
