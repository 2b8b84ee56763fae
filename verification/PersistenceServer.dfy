/** The node's side of dumping and loading: the loops that copy the log and rebuild the peers. */
module PersistenceServer {
  import opened Collections
  import opened RaftLog
  import opened RaftModel
  import opened JointConsensus
  import opened Persistence

  class PersistedNode {
    var name: NodeName
    var currentTerm: nat
    var voteFor: Option<NodeName>
    var lastSeq: nat
    var logs: Log
    var peers: map<NodeName, Peer>
    var transConf: Option<Configuration>

    ghost function Value(): Saved
      reads this
    {
      Saved(name, currentTerm, voteFor, lastSeq, logs, peers, transConf)
    }

    constructor (name: NodeName)
      ensures Value() == Saved(name, NO_TERM, None, 0, [], map[], None)
    {
      this.name, currentTerm, voteFor, lastSeq := name, NO_TERM, None, 0;
      logs, peers, transConf := [], map[], None;
    }

    method Dump(order: seq<NodeName>) returns (record: Record)
      requires Elements(order) == peers.Keys
      ensures record == DumpOf(Value(), order)
    {
      var entries: Log := [];
      for i := 0 to |logs|
        invariant entries == logs[..i]
      {
        entries := entries + [logs[i]];
      }
      assert logs[..|logs|] == logs;
      var conf;
      if transConf.Some? {
        var c := transConf.value;
        conf := ConfRecord(Print(c.added, c.removed, c.before), c.index, c.index2, c.state);
      } else {
        var before: seq<NodeName> := [];
        for i := 0 to |order|
          invariant before == order[..i]
        {
          before := before + [order[i]];
        }
        assert order[..|order|] == order;
        conf := ConfRecord(Print([], [], before + [name]), -1, -1, Blank);
      }
      return Record(currentTerm, name, voteFor, lastSeq, entries, conf);
    }

    method Load(record: Record)
      requires Loadable(record)
      modifies this
      ensures Value() == LoadInto(old(Value()), record)
    {
      currentTerm, name, voteFor := record.term, record.name, record.voteFor;
      CopyLog(record.entries);
      LoadConfiguration(ReadConf(record.conf).value);
    }

    method CopyLog(entries: Log)
      modifies this`logs
      ensures logs == entries
    {
      logs := [];
      for i := 0 to |entries|
        invariant logs == entries[..i]
      {
        logs := logs + [entries[i]];
      }
      assert entries[..|entries|] == entries;
    }

    method LoadConfiguration(c: Configuration)
      requires NoneEmpty(LoadedPeers(c, name).Keys)
      modifies this`peers, this`transConf
      ensures peers == LoadedPeers(c, name) && transConf == if c.state == Blank then old(transConf) else Some(c)
    {
      peers := map[];
      if c.state == Blank {
        var self := name;
        var others := p => p != self;
        assert LoadedPeers(c, name).Keys == Wanted(c.before, others);
        AddPeers(c.before, others);
      } else {
        transConf := Some(c);
        ApplyConf(c);
      }
    }

    method ApplyConf(c: Configuration)
      requires c.state != Blank && peers == map[] && NoneEmpty(LoadedPeers(c, name).Keys)
      modifies this`peers
      ensures peers == LoadedPeers(c, name)
    {
      var self := name;
      var stays := p => p != self && !(Rank(c.state) >= Rank(JointNew) && p in c.removed);
      var joins := p => p != self && Rank(c.state) >= Rank(OldJoint);
      BothLists(c, self, stays, joins);
      AddPeers(c.before, stays);
      AddPeers(c.added, joins);
    }

    /** Every name of the list that is wanted becomes a peer, unless it is one already. */
    method AddPeers(names: seq<NodeName>, wanted: NodeName -> bool)
      requires NoneEmpty(Wanted(names, wanted))
      requires forall p :: p in peers ==> peers[p] == NEW_PEER
      modifies this`peers
      ensures peers == old(peers) + NewPeers(Wanted(names, wanted))
      ensures forall p :: p in peers ==> peers[p] == NEW_PEER
    {
      for i := 0 to |names|
        invariant peers == old(peers) + NewPeers(Wanted(names[..i], wanted))
      {
        WantedMore(names, wanted, i);
        if wanted(names[i]) && names[i] !in peers {
          peers := peers[names[i] := NEW_PEER];
        }
      }
      assert names[..|names|] == names;
    }
  }

  function Wanted(names: seq<NodeName>, wanted: NodeName -> bool): set<NodeName> {
    set p | p in Elements(names) && wanted(p)
  }

  function NewPeers(names: set<NodeName>): map<NodeName, Peer> {
    map p | p in names :: NEW_PEER
  }

  lemma WantedMore(names: seq<NodeName>, wanted: NodeName -> bool, k: nat)
    requires k < |names|
    ensures Wanted(names[..k + 1], wanted) == Wanted(names[..k], wanted) + if wanted(names[k]) then {names[k]} else {}
  {
    ElementsTake(names, k);
  }

  /** Adding the old names and then the added ones gives the peers of the phase. */
  lemma BothLists(c: Configuration, name: NodeName, stays: NodeName -> bool, joins: NodeName -> bool)
    requires c.state != Blank
    requires forall p :: stays(p) <==> p != name && !(Rank(c.state) >= Rank(JointNew) && p in c.removed)
    requires forall p :: joins(p) <==> p != name && Rank(c.state) >= Rank(OldJoint)
    ensures LoadedPeers(c, name).Keys == Wanted(c.before, stays) + Wanted(c.added, joins)
    ensures NewPeers(Wanted(c.before, stays)) + NewPeers(Wanted(c.added, joins)) == LoadedPeers(c, name)
  {
    forall p ensures (p in c.before <==> p in Elements(c.before)) && (p in c.added <==> p in Elements(c.added)) {
      ElementsIn(c.before, p);
      ElementsIn(c.added, p);
    }
  }
}
