/** What handling a packet comes to: who is told what, who is known afterwards, and when a member starts afresh. */
module Handling {
  import opened Statuses
  import opened Packets
  import opened NodeStates
  import opened WorkerStates
  import opened Finds

  /** The source of a packet as the node knows it: its own name always stands for itself. */
  function Seen(w: WorkerState, source: Source): Source
    requires w.node.name in w.node.table
  {
    if source.name == w.node.name then LocalSource(w) else source
  }

  /** How often the message is the Ack that a listener for the source of `p` is owed. */
  function Owed(w: WorkerState, p: Packet, m: Message): nat
    requires w.node.name in w.node.table
  {
    if m.to in Listeners(w, p.source.name) && m.packet == Ack(Seen(w, p.source)) then 1 else 0
  }

  /** Beyond what listeners are owed: a ping is answered to its source, a ping-req has its target pinged, gossip is
      acknowledged to its source, each exactly once, and nothing else is sent. */
  lemma HandleSends(w: WorkerState, p: Packet, seed: Validity, seed': Validity, m: Message)
    requires w.node.name in w.node.table
    ensures Handle(w, p, seed, seed').sends[m] == Owed(w, p, m) + match p
              case Ping(source) => if m == Message(source.name, Ack(LocalSource(w))) then 1 else 0
              case PingReq(_, target) => if m == Message(target, Ping(LocalSource(w))) then 1 else 0
              case Gossip(source, n, clock, _, _) =>
                if m == Message(source.name, GossipAck(LocalSource(w), n, clock)) then 1 else 0
              case _ => 0
  {
    hide Answer;
    var heard := Hear(w, p.source, seed);
    assert Source(p.source.name, heard.state.node.table[p.source.name].validity) == Seen(w, p.source);
    assert m in RelayedAcks(Listeners(w, p.source.name), Seen(w, p.source)) <==> Owed(w, p, m) == 1;
    assert LocalSource(heard.state) == LocalSource(w);
    AnswerOnce(heard.state, p, seed', m);
  }

  lemma AnswerOnce(w: WorkerState, p: Packet, seed: Validity, m: Message)
    requires w.node.name in w.node.table && p.source.name in w.node.table
    ensures Answer(w, p, seed).sends[m] == match p
              case Ping(source) => if m == Message(source.name, Ack(LocalSource(w))) then 1 else 0
              case PingReq(_, target) => if m == Message(target, Ping(LocalSource(w))) then 1 else 0
              case Gossip(source, n, clock, _, _) =>
                if m == Message(source.name, GossipAck(LocalSource(w), n, clock)) then 1 else 0
              case _ => 0
  {
  }

  /** The members that a packet speaks of, besides its source. */
  function Mentioned(p: Packet): set<Name> {
    match p
    case PingReq(_, target) => {target}
    case Gossip(_, n, _, _, _) => {n}
    case GossipAck(_, n, _) => {n}
    case _ => {}
  }

  /** Handling a packet makes exactly its source and whom it mentions known. A remote source then has the packet's
      validity, newly mentioned members a random one, and everyone else the one that they had. */
  lemma HandleMembers(w: WorkerState, p: Packet, seed: Validity, seed': Validity)
    requires w.node.name in w.node.table
    ensures var before, after := w.node, Handle(w, p, seed, seed').state.node;
            && after.name == before.name
            && after.table.Keys == before.table.Keys + {p.source.name} + Mentioned(p)
            && forall n :: n in after.table ==>
                 after.table[n].validity == if n == p.source.name && n != before.name then p.source.validity
                                            else if n in before.table then before.table[n].validity
                                            else seed'
  {
  }

  /** The other actions neither add a member nor change a validity. */
  lemma ActMembers(w: WorkerState, a: Action)
    requires Ready(w, a) && !a.Receive?
    ensures var before, after := w.node, Act(w, a).state.node;
            && after.name == before.name && after.table.Keys == before.table.Keys
            && forall n :: n in after.table ==> after.table[n].validity == before.table[n].validity
    ensures Act(w, a).state.listening == w.listening && Act(w, a).state.requests == w.requests
  {
  }

  /** A member that comes with another validity than before, because it was restarted or its name is used twice, starts
      afresh: nothing is taken to be known to it but what the packet itself acknowledges, so that it is again to be
      gossiped about all others whose metadata is known. */
  lemma RestartIsNoticed(w: WorkerState, p: Packet, seed: Validity, seed': Validity)
    requires w.node.name in w.node.table && p.source.name in w.node.table && p.source.name != w.node.name
    requires p.source.validity != w.node.table[p.source.name].validity
    ensures var t, after := p.source.name, Handle(w, p, seed, seed').state.node;
            && t in after.table && after.table[t].validity == p.source.validity
            && (forall n :: Known(after, t, n) == if p.GossipAck? && n == p.name then p.clock else -1)
            && (forall n :: n in after.table && !(p.GossipAck? && n == p.name) ==>
                  (n in GetGossip(after, t) <==> n == after.name || Lookup(after, n).metadata.Some?))
  {
    hide Answer;
    HandleMembers(w, p, seed, seed');
    var heard := Hear(w, p.source, seed).state;
    HearTable(w, p.source, seed);
    assert heard.node.table[p.source.name].known == map[];
    var after := Handle(w, p, seed, seed').state.node;
    forall n ensures Known(after, p.source.name, n) == if p.GossipAck? && n == p.name then p.clock else -1 {
      AnswerKnown(heard, p, seed', p.source.name, n);
    }
  }

  /** What each action other than handling a packet sends: a check's ping goes to its target, the gossip that is needed
      to whom it is needed by, and each ping-req names the target of the check; every one of them exactly once. */
  lemma ActSendsOnce(w: WorkerState, a: Action, m: Message)
    requires Ready(w, a) && !a.Receive?
    ensures Act(w, a).sends[m] == match a
              case Disseminate(target) =>
                if m.to == target && m.packet.Gossip? && m.packet.name in GetGossip(w.node, target)
                   && m.packet == BuildGossip(w.node, m.packet.name) then 1 else 0
              case StartCheck(target) => if m == Message(target, Ping(LocalSource(w))) then 1 else 0
              case PingTimeout(check, indirects) =>
                if m.to in indirects && m.packet == PingReq(LocalSource(w), w.checks[check].target) then 1 else 0
              case _ => 0
  {
    match a
    case PingTimeout(check, indirects) =>
      if indirects != {} {
        var target := w.checks[check].target;
        assert m in (set i | i in indirects :: Message(i, PingReq(LocalSource(w), target))) <==>
               m.to in indirects && m.packet == PingReq(LocalSource(w), target);
      }
    case Disseminate(target) =>
      assert m in (set n | n in GetGossip(w.node, target) :: Message(target, BuildGossip(w.node, n))) <==>
             m.to == target && m.packet.Gossip? && m.packet.name in GetGossip(w.node, target)
             && m.packet == BuildGossip(w.node, m.packet.name);
    case _ =>
  }

  /** How many members are asked for a ping of the target: as many as are wanted, or all that are not OFFLINE besides
      the target if those are fewer. */
  lemma AskedMembers(w: WorkerState, check: nat, indirects: set<Name>)
    requires Ready(w, PingTimeout(check, indirects))
    ensures var others := set n | n in w.node.table && n != w.node.name && n != w.checks[check].target
                                  && Lookup(w.node, n).status != Offline;
            |indirects| == if w.requests < 0 then 0 else if |others| < w.requests then |others| else w.requests
    ensures forall n :: n in indirects ==> n in w.node.table && n != w.node.name
  {
    var target := w.checks[check].target;
    var available := WithStatus(w.node, Available);
    FindCountMeaning(available, {target}, w.requests);
    forall s: RealStatus ensures Shares(s, Available) <==> s != Offline {
      MaskMeaning(s);
    }
    var others := set n | n in w.node.table && n != w.node.name && n != target && Lookup(w.node, n).status != Offline;
    assert others == available - {target};
  }
}
