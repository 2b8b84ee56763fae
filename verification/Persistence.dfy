/** A configuration as text, and what a node writes to its record and reads back from it. */
module Persistence {
  import opened Collections
  import opened RaftLog
  import opened RaftModel
  import opened JointConsensus
  import opened Codec

  // ---------- the text of a configuration ----------

  function Addrs(names: seq<NodeName>): (r: seq<string>)
    ensures |r| == |names| && forall i :: 0 <= i < |names| ==> r[i] == names[i].addr
  {
    seq(|names|, i requires 0 <= i < |names| => names[i].addr)
  }

  function Names(addrs: seq<string>): (r: seq<NodeName>)
    ensures |r| == |addrs| && forall i :: 0 <= i < |addrs| ==> r[i] == NodeName(addrs[i])
  {
    seq(|addrs|, i requires 0 <= i < |addrs| => NodeName(addrs[i]))
  }

  function PrintNames(names: seq<NodeName>): string {
    Join(Addrs(names), ';')
  }

  function ReadNames(s: string): seq<NodeName> {
    Names(Split(s, ';'))
  }

  function Print(added: seq<NodeName>, removed: seq<NodeName>, before: seq<NodeName>): string {
    PrintNames(added) + "\n" + PrintNames(removed) + "\n" + PrintNames(before) + "\n"
  }

  /** None when there are fewer than three lines. */
  function FromString(s: string): Option<Configuration> {
    var v := Split(s, '\n');
    if |v| < 3 then None else Some(Configure(ReadNames(v[0]), ReadNames(v[1]), ReadNames(v[2])))
  }

  /** Names that survive being printed and read: no separator in them, and the first not empty. */
  predicate Printable(names: seq<NodeName>) {
    Codable(Addrs(names), ';') && forall n :: n in names ==> '\n' !in n.addr
  }

  lemma {:induction false} PiecesFreeOf(s: string, c: char, start: nat, d: char)
    requires start <= |s| && d !in s
    ensures forall x :: x in Pieces(s, c, start) ==> d !in x
    decreases |s| - start
  {
    var p := Find(s, c, start);
    if p < |s| { PiecesFreeOf(s, c, p + 1, d); }
  }

  lemma {:induction false} JoinFreeOf(l: seq<string>, c: char, d: char)
    requires d != c && forall x :: x in l ==> d !in x
    ensures d !in Join(l, c)
  {
    if l != [] { JoinFreeOf(l[..|l| - 1], c, d); }
  }

  /** The lists are read back from their lines just when they are printable. */
  lemma ReadPrintedIff(names: seq<NodeName>)
    requires forall n :: n in names ==> '\n' !in n.addr
    ensures ReadNames(PrintNames(names)) == names <==> Printable(names)
  {
    SplitJoinIff(Addrs(names), ';');
    var got := Split(PrintNames(names), ';');
    if Names(got) == names {
      forall i | 0 <= i < |got| ensures got[i] == Addrs(names)[i] {
        assert Names(got)[i] == names[i];
      }
      assert got == Addrs(names);
    }
    if got == Addrs(names) {
      assert Names(got) == names;
    }
  }

  /** Three lines without a newline in them come back as lines. */
  lemma LinesApart(a: string, b: string, c: string)
    requires '\n' !in a && '\n' !in b && '\n' !in c
    ensures Split(a + "\n" + b + "\n" + c + "\n", '\n') == [a, b, c, ""]
  {
    var l := [a, b, c, ""];
    assert l[1..] == [b, c, ""] && l[1..][1..] == [c, ""] && l[1..][1..][1..] == [""];
    assert JoinAll([c, ""], '\n') == c + "\n";
    assert JoinAll([b, c, ""], '\n') == b + "\n" + c + "\n";
    assert JoinAll(l, '\n') == a + "\n" + b + "\n" + c + "\n";
    SplitOfJoinAll(l, '\n');
  }

  lemma PrintedLines(added: seq<NodeName>, removed: seq<NodeName>, before: seq<NodeName>)
    requires forall n :: n in added || n in removed || n in before ==> '\n' !in n.addr
    ensures FromString(Print(added, removed, before)) == Some(Configure(
              ReadNames(PrintNames(added)), ReadNames(PrintNames(removed)), ReadNames(PrintNames(before))))
  {
    JoinFreeOf(Addrs(added), ';', '\n');
    JoinFreeOf(Addrs(removed), ';', '\n');
    JoinFreeOf(Addrs(before), ';', '\n');
    LinesApart(PrintNames(added), PrintNames(removed), PrintNames(before));
  }

  /** Nothing read from a text has a newline in it. */
  lemma ReadHasNoNewline(s: string, i: nat)
    requires i < |Split(s, '\n')|
    ensures forall n :: n in ReadNames(Split(s, '\n')[i]) ==> '\n' !in n.addr
  {
    PiecesAreFree(s, '\n', 0);
    PiecesFreeOf(Split(s, '\n')[i], ';', 0, '\n');
  }

  /** Printing and reading restores the lists, and with them the thresholds, exactly when all three lists are
      printable. */
  lemma ConfigurationRoundTripIff(added: seq<NodeName>, removed: seq<NodeName>, before: seq<NodeName>)
    ensures FromString(Print(added, removed, before)) == Some(Configure(added, removed, before))
       <==> Printable(added) && Printable(removed) && Printable(before)
  {
    var s := Print(added, removed, before);
    if FromString(s) == Some(Configure(added, removed, before)) {
      ReadHasNoNewline(s, 0);
      ReadHasNoNewline(s, 1);
      ReadHasNoNewline(s, 2);
    }
    if forall n :: n in added || n in removed || n in before ==> '\n' !in n.addr {
      PrintedLines(added, removed, before);
      ReadPrintedIff(added);
      ReadPrintedIff(removed);
      ReadPrintedIff(before);
    }
  }

  // ---------- the record ----------

  datatype ConfRecord = ConfRecord(peers: string, index: int, index2: int, state: Phase)

  datatype Record = Record(
    term: nat,
    name: NodeName,
    voteFor: Option<NodeName>,
    lastSeq: nat,
    entries: Log,
    conf: ConfRecord)

  /** The part of a node that dumping and loading touch. */
  datatype Saved = Saved(
    name: NodeName,
    term: nat,
    voteFor: Option<NodeName>,
    lastSeq: nat,
    log: Log,
    peers: map<NodeName, Peer>,
    conf: Option<Configuration>)

  const NEW_PEER := Peer(false, NO_INDEX + 1, NO_INDEX, SEQ_START)

  /** `order` is the iteration order of the peers. */
  function DumpOf(x: Saved, order: seq<NodeName>): Record {
    Record(x.term, x.name, x.voteFor, x.lastSeq, x.log,
           if x.conf.Some? then
             var c := x.conf.value;
             ConfRecord(Print(c.added, c.removed, c.before), c.index, c.index2, c.state)
           else
             ConfRecord(Print([], [], order + [x.name]), -1, -1, Blank))
  }

  function Rank(p: Phase): nat {
    match p
    case Blank => 0
    case Staging => 1
    case OldJoint => 2
    case Joint => 3
    case JointNew => 4
    case New => 5
  }

  /** The peers that a configuration in its phase gives to a node. */
  predicate Applies(c: Configuration, name: NodeName, p: NodeName) {
    || (p in c.before && p != name && !(Rank(c.state) >= Rank(JointNew) && p in c.removed))
    || (p in c.added && ((p != name && Rank(c.state) >= Rank(OldJoint)) || c.state == Blank))
  }

  function ReadConf(r: ConfRecord): Option<Configuration> {
    match FromString(r.peers)
    case None => None
    case Some(c) => Some(c.(index := r.index, index2 := r.index2, state := r.state))
  }

  /** The peers a node ends up with: outside a change all servers but itself, else those its phase gives it. */
  function LoadedPeers(c: Configuration, name: NodeName): map<NodeName, Peer> {
    if c.state == Blank then map p | p in Elements(c.before) && p != name :: NEW_PEER
    else map p | p in Elements(c.before) + Elements(c.added) && Applies(c, name, p) :: NEW_PEER
  }

  /** The text has its three lines, and no name that becomes a peer is empty. */
  predicate Loadable(r: Record) {
    ReadConf(r.conf).Some? && NoneEmpty(LoadedPeers(ReadConf(r.conf).value, r.name).Keys)
  }

  predicate NoneEmpty(names: set<NodeName>) {
    forall p :: p in names ==> p.addr != ""
  }

  function LoadInto(y: Saved, r: Record): Saved
    requires ReadConf(r.conf).Some?
  {
    var c := ReadConf(r.conf).value;
    y.(name := r.name, term := r.term, voteFor := r.voteFor, log := r.entries,
       conf := if c.state == Blank then y.conf else Some(c),
       peers := LoadedPeers(c, r.name))
  }

  lemma LoadedInPhase(c: Configuration, name: NodeName)
    ensures var keys := LoadedPeers(c, name).Keys;
            && (c.state == Blank || c.state == Staging ==> keys == OldMembers(c) - {name})
            && (c.state == OldJoint || c.state == Joint ==> keys == OldMembers(c) + Elements(c.added) - {name})
            && (c.state == JointNew || c.state == New ==> keys == NewMembers(c) - {name})
  {
    forall p ensures (p in c.before <==> p in Elements(c.before)) && (p in c.added <==> p in Elements(c.added)) {
      ElementsIn(c.before, p);
      ElementsIn(c.added, p);
    }
  }

  lemma DumpReads(x: Saved, order: seq<NodeName>)
    requires x.conf == None && Printable(order + [x.name])
    ensures ReadConf(DumpOf(x, order).conf) == Some(Configure([], [], order + [x.name]).(state := Blank))
  {
    ConfigurationRoundTripIff([], [], order + [x.name]);
  }

  /** The configuration of a change has its thresholds from its lists, and can be printed. */
  predicate Savable(c: Configuration) {
    && c == Configure(c.added, c.removed, c.before).(index := c.index, index2 := c.index2, state := c.state)
    && Printable(c.added) && Printable(c.removed) && Printable(c.before)
    && c.state != Blank
  }

  lemma DumpReadsTrans(x: Saved, order: seq<NodeName>)
    requires x.conf.Some? && Savable(x.conf.value)
    ensures ReadConf(DumpOf(x, order).conf) == x.conf
  {
    var c := x.conf.value;
    ConfigurationRoundTripIff(c.added, c.removed, c.before);
  }

  /** Outside a change of membership, a node that loads what it dumped has its term, vote, log, name and peers
      back; the last sequence number is written but not read. */
  lemma ReloadBlank(x: Saved, order: seq<NodeName>, y: Saved)
    requires x.conf == None && x.name !in x.peers && Elements(order) == x.peers.Keys
    requires Printable(order + [x.name]) && NoneEmpty(x.peers.Keys)
    ensures Loadable(DumpOf(x, order))
    ensures var z := LoadInto(y, DumpOf(x, order));
            && z.term == x.term && z.voteFor == x.voteFor && z.log == x.log && z.name == x.name
            && z.peers.Keys == x.peers.Keys
            && z.lastSeq == y.lastSeq && z.conf == y.conf
  {
    DumpReads(x, order);
    var c := ReadConf(DumpOf(x, order).conf).value;
    LoadedInPhase(c, x.name);
    ElementsMore(order + [x.name]);
    assert (order + [x.name])[..|order|] == order;
  }

  /** During a change of membership the configuration comes back with its phase and thresholds; the peers are
      those its phase makes of its lists, so that servers still being staged are not among them. */
  lemma ReloadTrans(x: Saved, order: seq<NodeName>, y: Saved)
    requires x.conf.Some? && Savable(x.conf.value)
    requires NoneEmpty(LoadedPeers(x.conf.value, x.name).Keys)
    ensures Loadable(DumpOf(x, order))
    ensures var c, z := x.conf.value, LoadInto(y, DumpOf(x, order));
            && z.term == x.term && z.voteFor == x.voteFor && z.log == x.log && z.name == x.name
            && z.conf == x.conf
            && (c.state == Staging ==> z.peers.Keys == OldMembers(c) - {x.name})
            && (c.state == OldJoint || c.state == Joint ==>
                  z.peers.Keys == OldMembers(c) + Elements(c.added) - {x.name})
            && (c.state == JointNew || c.state == New ==> z.peers.Keys == NewMembers(c) - {x.name})
  {
    DumpReadsTrans(x, order);
    LoadedInPhase(x.conf.value, x.name);
  }
}
