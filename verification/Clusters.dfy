/**
 The cluster: every node's worker and the packets in flight. The network may lose, duplicate and
 reorder packets: receiving a packet leaves it in flight, and dropping it is a step of its own.
 */
module Clusters {
  import opened Packets
  import opened NodeStates
  import opened WorkerStates

  datatype Cluster = Cluster(nodes: map<Name, WorkerState>, net: set<Message>)

  datatype Event =
    | Local(node: Name, action: Action)
    | Drop(message: Message)

  predicate Enabled(c: Cluster, e: Event) {
    match e
    case Local(a, action) =>
      && a in c.nodes && Ready(c.nodes[a], action)
      && (action.Receive? ==> Message(a, action.packet) in c.net)
    case Drop(m) => m in c.net
  }

  function Step(c: Cluster, e: Event): Cluster
    requires Enabled(c, e)
  {
    match e
    case Local(a, action) =>
      var o := Act(c.nodes[a], action);
      Cluster(c.nodes[a := o.state], c.net + set m | m in o.sends)
    case Drop(m) => c.(net := c.net - {m})
  }

  /** A run from any cluster: the states passed through and the events between them. */
  ghost predicate Run(trace: seq<Cluster>, es: seq<Event>) {
    && |trace| == |es| + 1
    && forall i :: 0 <= i < |es| ==> Enabled(trace[i], es[i]) && trace[i + 1] == Step(trace[i], es[i])
  }

  /** A run of newly constructed nodes. */
  ghost predicate Behavior(trace: seq<Cluster>, es: seq<Event>) {
    Run(trace, es) && Init(trace[0])
  }

  /** What node `a` believes about `n`. */
  function Belief(c: Cluster, a: Name, n: Name): Fact
    requires a in c.nodes
  {
    Lookup(c.nodes[a].node, n)
  }

  /** Newly constructed nodes, none of which has acted yet. */
  ghost predicate Init(c: Cluster) {
    && c.net == {}
    && forall a :: a in c.nodes ==>
         && c.nodes[a].node.name == a && Initial(c.nodes[a].node)
         && c.nodes[a].checks == map[] && c.nodes[a].listening == map[] && c.nodes[a].suspect == {}
  }

  /** An action changes beliefs at its own node only, as `FactAfter` says. */
  lemma StepBelief(c: Cluster, e: Event, a: Name, n: Name)
    requires Enabled(c, e) && a in c.nodes
    ensures Step(c, e).nodes.Keys == c.nodes.Keys
    ensures Belief(Step(c, e), a, n) ==
            if e.Local? && e.node == a then FactAfter(c.nodes[a], e.action, n) else Belief(c, a, n)
  {
    if e.Local? && e.node == a {
      ActFacts(c.nodes[a], e.action, n);
    }
  }

  /** Nodes keep their names, their own table entry with its metadata, and an exact sequence clock. */
  ghost predicate WellFormed(c: Cluster) {
    forall a :: a in c.nodes ==>
      && c.nodes[a].node.name == a && a in c.nodes[a].node.table && ClockIsNext(c.nodes[a].node)
      && Belief(c, a, a).metadata.Some?
  }

  /** A packet that names a node as its source carries that node's validity; gossip and acknowledgements
      in flight do name a node, and another one than they are for. */
  ghost predicate Authentic(c: Cluster, m: Message)
    requires WellFormed(c)
  {
    && (m.packet.source.name in c.nodes ==> m.packet.source == LocalSource(c.nodes[m.packet.source.name]))
    && (m.packet.Gossip? || m.packet.GossipAck? ==>
          m.packet.source.name in c.nodes && m.to != m.packet.source.name)
  }

  /** No clock that was gossiped, acknowledged or recorded as known is ahead of the sender's own. */
  ghost predicate HonestPacket(c: Cluster, m: Message) {
    && (m.packet.Gossip? && m.packet.source.name in c.nodes ==>
          m.packet.clock <= Belief(c, m.packet.source.name, m.packet.name).clock)
    && (m.packet.GossipAck? ==>
          m.to in c.nodes && m.packet.clock <= Belief(c, m.to, m.packet.name).clock)
  }

  ghost predicate HonestKnown(c: Cluster) {
    forall a, t, n :: a in c.nodes ==> Known(c.nodes[a].node, t, n) <= Belief(c, a, n).clock
  }

  /** The joint invariant of every reachable cluster. */
  ghost predicate Coherent(c: Cluster) {
    && WellFormed(c)
    && (forall m :: m in c.net ==> Authentic(c, m) && HonestPacket(c, m))
    && HonestKnown(c)
  }

  lemma InitCoherent(c: Cluster)
    requires Init(c)
    ensures Coherent(c)
  {
    forall a | a in c.nodes ensures ClockIsNext(c.nodes[a].node) {
      InitialClock(c.nodes[a].node);
    }
  }

  lemma StepWellFormed(c: Cluster, e: Event)
    requires Enabled(c, e) && WellFormed(c)
    ensures WellFormed(Step(c, e))
    ensures forall a, n :: a in c.nodes ==> Belief(Step(c, e), a, n).clock >= Belief(c, a, n).clock
    ensures forall a :: a in c.nodes ==> LocalSource(Step(c, e).nodes[a]) == LocalSource(c.nodes[a])
  {
    if e.Local? {
      ActTable(c.nodes[e.node], e.action);
      ActClocks(c.nodes[e.node], e.action);
      StepOwnKnown(c, e);
    }
  }

  lemma StepOwnKnown(c: Cluster, e: Event)
    requires Enabled(c, e) && WellFormed(c)
    ensures forall a :: a in c.nodes ==> a in Step(c, e).nodes && Belief(Step(c, e), a, a).metadata.Some?
  {
    hide Step, Ready;
    forall a | a in c.nodes ensures a in Step(c, e).nodes && Belief(Step(c, e), a, a).metadata.Some? {
      StepBelief(c, e, a, a);
    }
  }

  lemma StepClock(c: Cluster, e: Event, a: Name, n: Name)
    requires Enabled(c, e) && Coherent(c) && a in c.nodes
    ensures a in Step(c, e).nodes && Belief(Step(c, e), a, n).clock >= Belief(c, a, n).clock
  {
    StepWellFormed(c, e);
  }

  lemma StepAuthentic(c: Cluster, e: Event, m: Message)
    requires Enabled(c, e) && Coherent(c) && m in Step(c, e).net
    ensures WellFormed(Step(c, e)) && Authentic(Step(c, e), m) && HonestPacket(Step(c, e), m)
  {
    StepWellFormed(c, e);
    if m !in c.net {
      ActSends(c.nodes[e.node], e.action, m);
      if e.action.Receive? {
        assert Authentic(c, Message(e.node, e.action.packet)) && HonestPacket(c, Message(e.node, e.action.packet));
      }
    }
  }

  lemma StepHonestKnown(c: Cluster, e: Event)
    requires Enabled(c, e) && Coherent(c)
    ensures HonestKnown(Step(c, e))
  {
    StepWellFormed(c, e);
    forall a, t, n | a in c.nodes
      ensures Known(Step(c, e).nodes[a].node, t, n) <= Belief(Step(c, e), a, n).clock
    {
      if e.Local? && e.node == a {
        ActKnown(c.nodes[a], e.action, t, n);
        if e.action.Receive? {
          assert HonestPacket(c, Message(a, e.action.packet));
        }
      }
      assert Known(c.nodes[a].node, t, n) <= Belief(c, a, n).clock;
    }
  }

  lemma StepCoherent(c: Cluster, e: Event)
    requires Enabled(c, e) && Coherent(c)
    ensures Coherent(Step(c, e))
  {
    StepWellFormed(c, e);
    StepHonestKnown(c, e);
    forall m | m in Step(c, e).net ensures Authentic(Step(c, e), m) && HonestPacket(Step(c, e), m) {
      StepAuthentic(c, e, m);
    }
  }

  lemma {:induction false} RunCoherent(trace: seq<Cluster>, es: seq<Event>, i: nat)
    requires Run(trace, es) && Coherent(trace[0]) && i <= |es|
    ensures Coherent(trace[i]) && trace[i].nodes.Keys == trace[0].nodes.Keys
  {
    hide Step;
    if i == 0 {
    } else {
      RunCoherent(trace, es, i - 1);
      StepCoherent(trace[i - 1], es[i - 1]);
      StepKeys(trace[i - 1], es[i - 1]);
    }
  }

  lemma StepKeys(c: Cluster, e: Event)
    requires Enabled(c, e)
    ensures Step(c, e).nodes.Keys == c.nodes.Keys
  {
  }

  /** No node ever joins or leaves. */
  lemma {:induction false} RunKeys(trace: seq<Cluster>, es: seq<Event>, i: nat, j: nat)
    requires Run(trace, es) && i <= j <= |es|
    ensures trace[i].nodes.Keys == trace[j].nodes.Keys
  {
    hide Step;
    if i == j {
    } else {
      RunKeys(trace, es, i, j - 1);
      StepKeys(trace[j - 1], es[j - 1]);
    }
  }

  lemma CoherentWellFormed(c: Cluster)
    requires Coherent(c)
    ensures WellFormed(c)
  {
  }

  lemma ReachableWellFormed(trace: seq<Cluster>, es: seq<Event>, i: nat)
    requires Behavior(trace, es) && i <= |es|
    ensures Coherent(trace[i]) && WellFormed(trace[i])
  {
    hide Step;
    InitCoherent(trace[0]);
    RunCoherent(trace, es, i);
  }

  /** In every reachable cluster, everything that a node waits for can happen. */
  lemma {:induction false} NothingIsBlocked(trace: seq<Cluster>, es: seq<Event>, i: nat, a: Name)
    requires Behavior(trace, es) && i <= |es| && a in trace[i].nodes
    ensures Grounded(trace[i].nodes[a]) && Unblocked(trace[i].nodes[a])
  {
    hide Act, Grounded, Unblocked, Coherent;
    if i == 0 {
      InitGrounded(trace[0], a);
    } else {
      StepKeys(trace[i - 1], es[i - 1]);
      NothingIsBlocked(trace, es, i - 1, a);
      if es[i - 1].Local? && es[i - 1].node == a {
        ActGrounded(trace[i - 1].nodes[a], es[i - 1].action);
      }
    }
    ReachableWellFormed(trace, es, i);
    GroundedUnblocked(trace[i].nodes[a]);
  }

  lemma InitGrounded(c: Cluster, a: Name)
    requires Init(c) && a in c.nodes
    ensures Grounded(c.nodes[a])
  {
  }

  /** In every reachable cluster, at every node: the sequence clock is exactly one more than the largest
      clock stored; no known clock and no acknowledgement in flight to the node is ahead of the node's own
      clock for that member. Hence the assertion made when an acknowledgement is handled never fires. */
  lemma AcknowledgedClocksAreHonest(trace: seq<Cluster>, es: seq<Event>, i: nat)
    requires Behavior(trace, es) && i <= |es|
    ensures var c := trace[i];
            forall a :: a in c.nodes ==>
              && ClockIsNext(c.nodes[a].node)
              && (forall t, n :: Known(c.nodes[a].node, t, n) <= Belief(c, a, n).clock)
              && (forall p: Packet :: Message(a, p) in c.net && p.GossipAck? ==>
                    && p.clock <= Belief(c, a, p.name).clock
                    && p.clock <= c.nodes[a].node.next)
  {
    InitCoherent(trace[0]);
    RunCoherent(trace, es, i);
    CoherentIsHonest(trace[i]);
  }

  lemma CoherentIsHonest(d: Cluster)
    requires Coherent(d)
    ensures forall a :: a in d.nodes ==>
              && ClockIsNext(d.nodes[a].node)
              && (forall t, n :: Known(d.nodes[a].node, t, n) <= Belief(d, a, n).clock)
              && (forall p: Packet :: Message(a, p) in d.net && p.GossipAck? ==>
                    && p.clock <= Belief(d, a, p.name).clock
                    && p.clock <= d.nodes[a].node.next)
  {
    forall a, p: Packet | a in d.nodes && Message(a, p) in d.net && p.GossipAck?
      ensures p.clock <= Belief(d, a, p.name).clock < d.nodes[a].node.next
    {
      assert HonestPacket(d, Message(a, p));
    }
  }

  /** Along every run, no node's clock for any member ever falls. */
  lemma {:induction false} ClocksNeverFall(trace: seq<Cluster>, es: seq<Event>, i: nat, j: nat, a: Name, n: Name)
    requires Run(trace, es) && Coherent(trace[0]) && i <= j <= |es| && a in trace[0].nodes
    ensures trace[i].nodes.Keys == trace[j].nodes.Keys == trace[0].nodes.Keys
    ensures Belief(trace[i], a, n).clock <= Belief(trace[j], a, n).clock
  {
    hide Step, Coherent, Belief;
    RunCoherent(trace, es, j);
    if i == j {
    } else {
      ClocksNeverFall(trace, es, i, j - 1, a, n);
      RunCoherent(trace, es, j - 1);
      StepClock(trace[j - 1], es[j - 1], a, n);
    }
  }
}
