/** Runs of two nodes, in one of which packets arrive out of order, that show what is not to be relied upon. */
module SelfNewsRun {
  import opened Wrappers
  import opened Statuses
  import opened Packets
  import opened NodeStates
  import opened WorkerStates
  import opened Clusters
  import opened Quiescence
  import opened Runs

  /** `a` has this fact about itself, and `b` on record, which acknowledged `clock` of it. */
  ghost predicate Teller(w: WorkerState, a: Name, b: Name, own: Fact, clock: int, v: Drawn) {
    && w.node.name == a && a in w.node.table && b in w.node.table
    && w.node.table[a].validity == v.own(a)
    && Lookup(w.node, a) == own && Known(w.node, b, a) == clock && w.node.next == own.clock + 1
  }

  /** `b` has this fact about `a`, and this sequence clock. */
  ghost predicate Listener(w: WorkerState, a: Name, b: Name, f: Fact, next: nat, v: Drawn) {
    && w.node.name == b && b in w.node.table && w.node.table[b].validity == v.own(b)
    && Lookup(w.node, a) == f && w.node.next == next
  }

  lemma NewcomersTalk(a: Name, b: Name, v: Drawn)
    requires a != b
    ensures Teller(Newcomer(a, b, v), a, b, Fact(1, Online, Some(map[])), -1, v)
    ensures Listener(Newcomer(b, a, v), a, b, UNHEARD, 2, v)
  {
  }

  function SelfGossip(a: Name, own: Fact, v: Drawn): Packet {
    Gossip(Source(a, v.own(a)), a, own.clock, own.status, own.metadata)
  }

  /** `a` tells `b` about itself. */
  lemma Told(c: Cluster, a: Name, b: Name, own: Fact, clock: int, v: Drawn)
    requires a != b && a in c.nodes && Teller(c.nodes[a], a, b, own, clock, v) && clock < own.clock
    ensures var e := Local(a, Disseminate(b));
            && Enabled(c, e) && Step(c, e).nodes == c.nodes
            && c.net + {Message(b, SelfGossip(a, own, v))} <= Step(c, e).net
  {
    hide Act;
    Disseminated(c, a, b, a);
  }

  /** `a` changes its metadata. */
  lemma Changed(c: Cluster, a: Name, b: Name, own: Fact, md: Metadata, v: Drawn)
    requires a != b && a in c.nodes && Teller(c.nodes[a], a, b, own, -1, v) && own.metadata != Some(md)
    ensures var e := Local(a, SetMetadata(md));
            && Enabled(c, e) && a in Step(c, e).nodes
            && Step(c, e).nodes == c.nodes[a := Step(c, e).nodes[a]] && c.net <= Step(c, e).net
            && Teller(Step(c, e).nodes[a], a, b, Fact(own.clock + 1, own.status, Some(md)), -1, v)
  {
    var w := c.nodes[a];
    assert Wanted(Lookup(w.node, a), OwnReport(w.node, a, None, Some(md))) == (own.status, Some(md));
  }

  /** `b` hears what `a` said about itself, merges it, and acknowledges it. */
  lemma Heeded(c: Cluster, a: Name, b: Name, f: Fact, next: nat, own: Fact, v: Drawn)
    requires a != b && b in c.nodes && Listener(c.nodes[b], a, b, f, next, v)
    requires Message(b, SelfGossip(a, own, v)) in c.net
    ensures var e := Local(b, Receive(SelfGossip(a, own, v), [], []));
            var f' := Merge(f, false, Report(a, Some(a), own.clock, Some(own.status), own.metadata), next);
            && Enabled(c, e) && b in Step(c, e).nodes
            && Step(c, e).nodes == c.nodes[b := Step(c, e).nodes[b]]
            && Listener(Step(c, e).nodes[b], a, b, f', if f'.clock >= next then f'.clock + 1 else next, v)
            && c.net + {Message(a, GossipAck(Source(b, v.own(b)), a, own.clock))} <= Step(c, e).net
  {
    hide Act, Merge;
    var p := SelfGossip(a, own, v);
    ReceiveEnabled(c, b, p);
    ActFacts(c.nodes[b], Receive(p, [], []), a);
    ActTable(c.nodes[b], Receive(p, [], []));
    ReceiveNext(c.nodes[b], p);
    AcksGossip(c.nodes[b], p);
  }

  /** What handling a packet does to the sequence clock. */
  lemma ReceiveNext(w: WorkerState, p: Packet)
    requires Ready(w, Receive(p, [], []))
    ensures Act(w, Receive(p, [], [])).state.node.next ==
            if !p.Gossip? then w.node.next
            else var clock := FactAfter(w, Receive(p, [], []), p.name).clock;
                 if clock >= w.node.next then clock + 1 else w.node.next
  {
    hide Merge;
    var heard := Hear(w, p.source, []).state;
    assert p.Gossip? ==> Lookup(heard.node, p.name) == Lookup(w.node, p.name);
  }

  lemma AcksGossip(w: WorkerState, p: Packet)
    requires w.node.name in w.node.table && p.Gossip?
    ensures Message(p.source.name, GossipAck(LocalSource(w), p.name, p.clock)) in Act(w, Receive(p, [], [])).sends
  {
    hide Handle;
    AnswersGossip(w, p, [], []);
  }

  /** Whatever was on record of the source before, an acknowledgement leaves its clock there. */
  lemma AckKnown(w: WorkerState, p: Packet, b: Name)
    requires w.node.name in w.node.table && p.GossipAck? && p.source.name == b
    ensures var node := Act(w, Receive(p, [], [])).state.node; b in node.table && Known(node, b, p.name) == p.clock
  {
    hide Answer;
    var heard := Hear(w, p.source, []).state;
    HearTable(w, p.source, []);
    AnswerKnown(heard, p, [], b, p.name);
    AnswerTable(heard, p, []);
  }

  /** `a` handles an acknowledgement. */
  lemma Noted(c: Cluster, a: Name, b: Name, own: Fact, clock: int, ack: nat, v: Drawn)
    requires a != b && a in c.nodes && Teller(c.nodes[a], a, b, own, clock, v)
    requires Message(a, GossipAck(Source(b, v.own(b)), a, ack)) in c.net
    ensures var e := Local(a, Receive(GossipAck(Source(b, v.own(b)), a, ack), [], []));
            && Enabled(c, e) && a in Step(c, e).nodes
            && Step(c, e).nodes == c.nodes[a := Step(c, e).nodes[a]] && c.net <= Step(c, e).net
            && Teller(Step(c, e).nodes[a], a, b, own, ack, v)
  {
    hide Handle;
    var p := GossipAck(Source(b, v.own(b)), a, ack);
    ReceiveEnabled(c, a, p);
    ActFacts(c.nodes[a], Receive(p, [], []), a);
    ActTable(c.nodes[a], Receive(p, [], []));
    ReceiveNext(c.nodes[a], p);
    AckKnown(c.nodes[a], p, b);
  }

  /** `a` announces itself, changes its metadata, and announces itself again; both announcements are in flight. */
  lemma BothTold(a: Name, b: Name, md: Metadata, v: Drawn) returns (trace: seq<Cluster>, es: seq<Event>)
    requires a != b && md != map[]
    ensures Behavior(trace, es) && es == [Local(a, Disseminate(b)), Local(a, SetMetadata(md)), Local(a, Disseminate(b))]
    ensures |trace| == 4 && trace[3].nodes.Keys == {a, b}
    ensures Teller(trace[3].nodes[a], a, b, Fact(2, Online, Some(md)), -1, v)
    ensures Listener(trace[3].nodes[b], a, b, UNHEARD, 2, v)
    ensures Message(b, SelfGossip(a, Fact(1, Online, Some(map[])), v)) in trace[3].net
    ensures Message(b, SelfGossip(a, Fact(2, Online, Some(md)), v)) in trace[3].net
  {
    hide Step, Newcomer, Behavior, Enabled, Init, GetGossip, Teller, Listener, SelfGossip;
    var c := Cluster(map[a := Newcomer(a, b, v), b := Newcomer(b, a, v)], {});
    InitNewcomers(c, a, b, v);
    NewcomersTalk(a, b, v);
    BehaviorAlone(c);
    Told(c, a, b, Fact(1, Online, Some(map[])), -1, v);
    trace, es := Continued([c], [], Local(a, Disseminate(b)));
    Changed(trace[1], a, b, Fact(1, Online, Some(map[])), md, v);
    trace, es := Continued(trace, es, Local(a, SetMetadata(md)));
    Told(trace[2], a, b, Fact(2, Online, Some(md)), -1, v);
    trace, es := Continued(trace, es, Local(a, Disseminate(b)));
  }

  /** Both announcements arrive, the later one first. */
  lemma BothHeeded(a: Name, b: Name, md: Metadata, v: Drawn) returns (trace: seq<Cluster>, es: seq<Event>)
    requires a != b && md != map[]
    ensures Behavior(trace, es) && |trace| == 6 && |es| == 5
    ensures es == [Local(a, Disseminate(b)), Local(a, SetMetadata(md)), Local(a, Disseminate(b)),
                   Local(b, Receive(SelfGossip(a, Fact(2, Online, Some(md)), v), [], [])),
                   Local(b, Receive(SelfGossip(a, Fact(1, Online, Some(map[])), v), [], []))]
    ensures trace[5].nodes.Keys == {a, b} && Teller(trace[5].nodes[a], a, b, Fact(2, Online, Some(md)), -1, v)
    ensures trace[4].nodes.Keys == {a, b} && Listener(trace[4].nodes[b], a, b, Fact(2, Online, Some(md)), 3, v)
    ensures Listener(trace[5].nodes[b], a, b, Fact(2, Online, Some(map[])), 3, v)
    ensures Message(a, GossipAck(Source(b, v.own(b)), a, 1)) in trace[5].net
    ensures Message(a, GossipAck(Source(b, v.own(b)), a, 2)) in trace[5].net
  {
    hide Step, Behavior, Enabled, Teller, Listener, SelfGossip;
    trace, es := BothTold(a, b, md, v);
    var older, newer := Fact(1, Online, Some(map[])), Fact(2, Online, Some(md));
    Heeded(trace[3], a, b, UNHEARD, 2, newer, v);
    trace, es := Continued(trace, es, Local(b, Receive(SelfGossip(a, newer, v), [], [])));
    Heeded(trace[4], a, b, newer, 3, older, v);
    trace, es := Continued(trace, es, Local(b, Receive(SelfGossip(a, older, v), [], [])));
  }

  /** In this run "b" holds two contents of "a" in turn under the same clock, the older one last; and at the end "a"
      and "b" hold different contents of "a" under that clock. */
  lemma ContentNotDeterminedByClock(md: Metadata, v: Drawn) returns (trace: seq<Cluster>, es: seq<Event>)
    requires md != map[]
    ensures Behavior(trace, es) && |es| == 5 && |trace| == 6
    ensures trace[4].nodes.Keys == trace[5].nodes.Keys == {"a", "b"}
    ensures Belief(trace[4], "b", "a") == Fact(2, Online, Some(md))
    ensures Belief(trace[5], "b", "a") == Fact(2, Online, Some(map[]))
    ensures Belief(trace[5], "a", "a") == Fact(2, Online, Some(md))
  {
    hide Step, Behavior;
    trace, es := BothHeeded("a", "b", md, v);
  }

  /** The documentation has every member eventually aware of changes to the others' metadata. Here node "a"
      announces itself, changes its metadata and announces itself again. Both packets reach "b" and both answers
      reach "a", each once, only not in the order in which they were sent: and "b" is left with the old metadata
      under the newest clock, while "a" has nothing more to tell it. */
  lemma NewsCanBeLost(md: Metadata, v: Drawn) returns (trace: seq<Cluster>, es: seq<Event>)
    requires md != map[]
    ensures Behavior(trace, es) && |es| == 7 && |trace| == 8 && trace[7].nodes.Keys == {"a", "b"}
    ensures forall i, j :: 0 <= i < j < 7 && es[i].Local? && es[i].action.Receive? ==> es[i] != es[j]
    ensures Belief(trace[7], "a", "a") == Fact(2, Online, Some(md))
    ensures Belief(trace[7], "b", "a") == Fact(2, Online, Some(map[]))
    ensures "a" !in GetGossip(trace[7].nodes["a"].node, "b")
  {
    hide Step, Behavior, Enabled;
    var a, b := "a", "b";
    trace, es := BothHeeded(a, b, md, v);
    var own := Fact(2, Online, Some(md));
    Noted(trace[5], a, b, own, -1, 1, v);
    trace, es := Continued(trace, es, Local(a, Receive(GossipAck(Source(b, v.own(b)), a, 1), [], [])));
    Noted(trace[6], a, b, own, 1, 2, v);
    trace, es := Continued(trace, es, Local(a, Receive(GossipAck(Source(b, v.own(b)), a, 2), [], [])));
  }

  /** `a` announces itself to `b`, changes its metadata and changes it back, and announces itself again. */
  lemma ToldTwice(a: Name, b: Name, md: Metadata, v: Drawn) returns (trace: seq<Cluster>, es: seq<Event>)
    requires a != b && md != map[]
    ensures Behavior(trace, es) && |trace| == 6 && |es| == 5 && trace[5].nodes.Keys == {a, b}
    ensures Teller(trace[5].nodes[a], a, b, Fact(3, Online, Some(map[])), -1, v)
    ensures Listener(trace[5].nodes[b], a, b, Fact(1, Online, Some(map[])), 2, v)
    ensures Message(b, SelfGossip(a, Fact(3, Online, Some(map[])), v)) in trace[5].net
  {
    hide Step, Newcomer, Behavior, Enabled, Init, GetGossip, Teller, Listener, SelfGossip;
    var c := Cluster(map[a := Newcomer(a, b, v), b := Newcomer(b, a, v)], {});
    var first, second := Fact(1, Online, Some(map[])), Fact(2, Online, Some(md));
    InitNewcomers(c, a, b, v);
    NewcomersTalk(a, b, v);
    BehaviorAlone(c);
    Told(c, a, b, first, -1, v);
    trace, es := Continued([c], [], Local(a, Disseminate(b)));
    Heeded(trace[1], a, b, UNHEARD, 2, first, v);
    trace, es := Continued(trace, es, Local(b, Receive(SelfGossip(a, first, v), [], [])));
    Changed(trace[2], a, b, first, md, v);
    trace, es := Continued(trace, es, Local(a, SetMetadata(md)));
    Changed(trace[3], a, b, second, map[], v);
    trace, es := Continued(trace, es, Local(a, SetMetadata(map[])));
    Told(trace[4], a, b, Fact(3, Online, Some(map[])), -1, v);
    trace, es := Continued(trace, es, Local(a, Disseminate(b)));
  }

  /** The documentation has a sequence clock above every observed value. In this run node "b" observes clock 3 of
      node "a", finds nothing new in the gossip, and is left with a sequence clock of 2 for its next change. */
  lemma ObservedClockMayBeForgotten(md: Metadata, v: Drawn) returns (trace: seq<Cluster>, es: seq<Event>)
    requires md != map[]
    ensures Behavior(trace, es) && |es| == 6 && |trace| == 7 && "b" in trace[6].nodes
    ensures es[5].Local? && es[5].node == "b" && es[5].action.Receive? && es[5].action.packet.Gossip?
    ensures es[5].action.packet.clock == 3 && trace[6].nodes["b"].node.next == 2
  {
    hide Step, Behavior, Enabled;
    var a, b, first, third := "a", "b", Fact(1, Online, Some(map[])), Fact(3, Online, Some(map[]));
    trace, es := ToldTwice(a, b, md, v);
    Heeded(trace[5], a, b, first, 2, third, v);
    trace, es := Continued(trace, es, Local(b, Receive(SelfGossip(a, third, v), [], [])));
  }
}
