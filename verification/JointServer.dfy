/** The vote count of a node while its cluster's membership changes. */
module JointServer {
  import opened Collections
  import opened RaftLog
  import opened RaftModel
  import opened JointConsensus

  class VoteCounter {
    const name: NodeName
    var peers: map<NodeName, Peer>
    var transConf: Option<Configuration>
    var oldVote: nat
    var newVote: nat

    constructor (name: NodeName, peers: map<NodeName, Peer>, transConf: Option<Configuration>)
      ensures this.name == name && this.peers == peers && this.transConf == transConf
    {
      this.name, this.peers, this.transConf := name, peers, transConf;
      oldVote, newVote := 0, 0;
    }

    /** The peers that f holds of, but for those in `todo`. */
    ghost function Agreeing(f: Peer -> bool, todo: set<NodeName>): set<NodeName>
      reads this
    {
      set p | p in peers && p !in todo && f(peers[p])
    }

    /** What the node decides about a vote, or an index, that the peers for which f holds agree with. */
    method EnoughVotesTransConf(f: Peer -> bool) returns (ans: int)
      requires transConf.Some? && (transConf.value.state == OldJoint || transConf.value.state == Joint) ==>
                 transConf.value.oldThres > 0 && transConf.value.newThres > 0
      modifies this`oldVote, this`newVote
      ensures ans == if transConf.Some? then Decision(transConf.value, name, Agreeing(f, {})) else 0
    {
      oldVote, newVote := 0, 0;
      if transConf == None {
        return 0;
      }
      var c := transConf.value;
      if c.state == OldJoint || c.state == Joint {
        CountBoth(c, f);
        return if oldVote > c.oldThres / 2 && newVote > c.newThres / 2 then 1 else -1;
      } else if c.state == New || c.state == JointNew {
        CountNewOnly(c, f);
        return if newVote > c.newThres / 2 then 1 else -1;
      }
      return 0;
    }

    /** Count the votes of C_old and of C_new. */
    method CountBoth(c: Configuration, f: Peer -> bool)
      modifies this`oldVote, this`newVote
      ensures oldVote == OldVotes(c, Agreeing(f, {})) && newVote == NewVotes(c, name, Agreeing(f, {}))
    {
      oldVote := 1;
      newVote := if IsInNew(c, name) then 1 else 0;
      NoneAgrees(c, f);
      var todo := peers.Keys;
      while todo != {}
        invariant todo <= peers.Keys
        invariant oldVote == OldVotes(c, Agreeing(f, todo)) && newVote == NewVotes(c, name, Agreeing(f, todo))
        decreases |todo|
      {
        var p := Pick(todo);
        OneMoreAgrees(c, f, todo, p);
        if f(peers[p]) {
          CountVote(c, p);
        }
        todo := todo - {p};
      }
    }

    method CountVote(c: Configuration, p: NodeName)
      modifies this`oldVote, this`newVote
      ensures oldVote == old(oldVote) + if IsInOld(c, p) then 1 else 0
      ensures newVote == old(newVote) + if IsInNew(c, p) then 1 else 0
    {
      if IsInOld(c, p) {
        oldVote := oldVote + 1;
      }
      if IsInNew(c, p) {
        newVote := newVote + 1;
      }
    }

    /** Count the votes of C_new. */
    method CountNewOnly(c: Configuration, f: Peer -> bool)
      modifies this`newVote
      ensures newVote == NewVotes(c, name, Agreeing(f, {}))
    {
      newVote := if IsInNew(c, name) then 1 else 0;
      NoneAgrees(c, f);
      var todo := peers.Keys;
      while todo != {}
        invariant todo <= peers.Keys
        invariant newVote == NewVotes(c, name, Agreeing(f, todo))
        decreases |todo|
      {
        var p := Pick(todo);
        OneMoreAgrees(c, f, todo, p);
        if f(peers[p]) {
          if IsInNew(c, p) {
            newVote := newVote + 1;
          }
        }
        todo := todo - {p};
      }
    }

    lemma NoneAgrees(c: Configuration, f: Peer -> bool)
      ensures OldVotes(c, Agreeing(f, peers.Keys)) == 1
      ensures NewVotes(c, name, Agreeing(f, peers.Keys)) == if IsInNew(c, name) then 1 else 0
    {
      assert Agreeing(f, peers.Keys) == {};
    }

    /** A further peer that agrees counts once in each membership it belongs to. */
    lemma OneMoreAgrees(c: Configuration, f: Peer -> bool, todo: set<NodeName>, p: NodeName)
      requires p in todo && p in peers
      ensures OldVotes(c, Agreeing(f, todo - {p})) ==
                OldVotes(c, Agreeing(f, todo)) + if f(peers[p]) && IsInOld(c, p) then 1 else 0
      ensures NewVotes(c, name, Agreeing(f, todo - {p}))
           == NewVotes(c, name, Agreeing(f, todo)) + if f(peers[p]) && IsInNew(c, p) then 1 else 0
    {
      var s := Agreeing(f, todo);
      assert Agreeing(f, todo - {p}) == s + if f(peers[p]) then {p} else {};
      CommonMore(s, p, OldMembers(c));
      CommonMore(s, p, NewMembers(c));
      ElementsIn(c.before, p);
    }
  }
}
