/** Gossip is withheld only from targets that have already had exactly that gossip. */
module Suppression {
  import opened Packets
  import opened NodeStates
  import opened WorkerStates
  import opened Clusters

  /** The event is `receiver` processing gossip from `sender` about `n` with this clock. */
  predicate Processes(e: Event, receiver: Name, sender: Name, n: Name, clock: int) {
    && e.Local? && e.node == receiver && e.action.Receive? && e.action.packet.Gossip?
    && e.action.packet.source.name == sender && e.action.packet.name == n && e.action.packet.clock == clock
  }

  /** An acknowledgement in flight was caused by an earlier event `j` at which its source processed that gossip. */
  lemma {:induction false} AckWasEarned(trace: seq<Cluster>, es: seq<Event>, i: nat, m: Message) returns (j: nat)
    requires Behavior(trace, es) && i <= |es| && m in trace[i].net && m.packet.GossipAck?
    ensures j < i && Processes(es[j], m.packet.source.name, m.to, m.packet.name, m.packet.clock)
  {
    hide Step, Coherent, WellFormed;
    ReachableWellFormed(trace, es, i - 1);
    if m in trace[i - 1].net {
      j := AckWasEarned(trace, es, i - 1, m);
    } else {
      j := i - 1;
      NewAck(trace[j], es[j], m);
    }
  }

  lemma NewAck(c: Cluster, e: Event, m: Message)
    requires Enabled(c, e) && WellFormed(c) && m in Step(c, e).net && m !in c.net && m.packet.GossipAck?
    ensures Processes(e, m.packet.source.name, m.to, m.packet.name, m.packet.clock)
  {
    ActSends(c.nodes[e.node], e.action, m);
  }

  /** A known clock was recorded because an earlier event `j` had the target process gossip with that clock. */
  lemma {:induction false} KnownWasEarned(trace: seq<Cluster>, es: seq<Event>, i: nat, a: Name, t: Name, n: Name)
    returns (j: nat)
    requires Behavior(trace, es) && i <= |es| && a in trace[i].nodes
    requires Known(trace[i].nodes[a].node, t, n) >= 0
    ensures j < i && Processes(es[j], t, a, n, Known(trace[i].nodes[a].node, t, n))
  {
    hide Step, Act;
    var c, e := trace[i - 1], es[i - 1];
    StepKnown(c, e, a, t, n);
    if Known(c.nodes[a].node, t, n) == Known(trace[i].nodes[a].node, t, n) {
      j := KnownWasEarned(trace, es, i - 1, a, t, n);
    } else {
      j := AckWasEarned(trace, es, i - 1, Message(a, e.action.packet));
    }
  }

  /** A known clock that an event changes to a clock is one that an acknowledgement in flight carried. */
  lemma StepKnown(c: Cluster, e: Event, a: Name, t: Name, n: Name)
    requires Enabled(c, e) && a in Step(c, e).nodes
    ensures a in c.nodes
    ensures var k := Known(Step(c, e).nodes[a].node, t, n);
            || k == Known(c.nodes[a].node, t, n) || k == -1
            || (&& e.Local? && e.node == a && e.action.Receive? && Message(a, e.action.packet) in c.net
                && e.action.packet.GossipAck? && e.action.packet.source.name == t
                && e.action.packet.name == n && e.action.packet.clock == k)
  {
    StepKeys(c, e);
    if e.Local? && e.node == a {
      ActKnown(c.nodes[a], e.action, t, n);
    }
  }

  /** In every reachable cluster, whatever was lost, duplicated or reordered: if `a` would not gossip to `t`
      about a member whose metadata it knows, then `t` has processed gossip from `a` about that member with
      exactly the clock that `a` now holds. */
  lemma SuppressionIsJustified(trace: seq<Cluster>, es: seq<Event>, i: nat, a: Name, t: Name, n: Name)
    returns (j: nat)
    requires Behavior(trace, es) && i <= |es| && a in trace[i].nodes
    requires n in trace[i].nodes[a].node.table && Belief(trace[i], a, n).metadata.Some?
    requires n !in GetGossip(trace[i].nodes[a].node, t)
    ensures j < i && Processes(es[j], t, a, n, Belief(trace[i], a, n).clock)
  {
    hide Step, Act;
    AcknowledgedClocksAreHonest(trace, es, i);
    assert Known(trace[i].nodes[a].node, t, n) == Belief(trace[i], a, n).clock;
    j := KnownWasEarned(trace, es, i, a, t, n);
  }
}
