/** Where metadata comes from: every value stored or gossiped for a node was once that node's own. */
module Provenance {
  import opened Wrappers
  import opened Packets
  import opened NodeStates
  import opened WorkerStates
  import opened Clusters

  ghost predicate Stored(c: Cluster, b: Name, md: Metadata) {
    exists a :: a in c.nodes && Belief(c, a, b).metadata == Some(md)
  }

  ghost predicate InFlight(c: Cluster, b: Name, md: Metadata) {
    exists m :: m in c.net && m.packet.Gossip? && m.packet.name == b && m.packet.metadata == Some(md)
  }

  /** The application at `b` sets its metadata to `md`. */
  predicate Sets(e: Event, b: Name, md: Metadata) {
    e == Local(b, SetMetadata(md))
  }

  /** Reports carry metadata only from gossip in flight or from the application. */
  lemma ReportedMetadata(c: Cluster, e: Event, r: Report, md: Metadata)
    requires Enabled(c, e) && WellFormed(c) && e.Local? && ReportOf(c.nodes[e.node], e.action) == Some(r)
    requires r.metadata == Some(md)
    ensures InFlight(c, r.subject, md) || Sets(e, r.subject, md)
  {
    if e.action.Receive? {
      var m := Message(e.node, e.action.packet);
      assert m in c.net && m.packet.Gossip? && m.packet.name == r.subject && m.packet.metadata == Some(md);
    }
  }

  /** A belief about `b` gets metadata only from gossip in flight or from the application at `b`. */
  lemma NewlyStored(c: Cluster, e: Event, a: Name, b: Name, md: Metadata)
    requires Enabled(c, e) && WellFormed(c) && a in c.nodes
    requires Belief(Step(c, e), a, b).metadata == Some(md)
    ensures Stored(c, b, md) || InFlight(c, b, md) || Sets(e, b, md)
  {
    hide Step, Ready, ReportOf, WellFormed, InFlight, Sets;
    StepBelief(c, e, a, b);
    if Belief(c, a, b).metadata != Some(md) {
      ReportedMetadata(c, e, ReportOf(c.nodes[a], e.action).value, md);
    }
  }

  lemma NewlyInFlight(c: Cluster, e: Event, b: Name, md: Metadata, m: Message)
    requires Enabled(c, e) && WellFormed(c)
    requires m in Step(c, e).net && m.packet.Gossip? && m.packet.name == b && m.packet.metadata == Some(md)
    ensures Stored(c, b, md) || InFlight(c, b, md)
  {
    if m !in c.net {
      ActSends(c.nodes[e.node], e.action, m);
      assert Belief(c, e.node, b).metadata == Some(md);
    }
  }

  lemma StepProvenance(c: Cluster, e: Event, b: Name, md: Metadata)
    requires Enabled(c, e) && WellFormed(c)
    requires Stored(Step(c, e), b, md) || InFlight(Step(c, e), b, md)
    ensures Stored(c, b, md) || InFlight(c, b, md) || Sets(e, b, md)
  {
    if Stored(Step(c, e), b, md) {
      var a :| a in Step(c, e).nodes && Belief(Step(c, e), a, b).metadata == Some(md);
      StepKeys(c, e);
      NewlyStored(c, e, a, b, md);
    } else {
      var m :| m in Step(c, e).net && m.packet.Gossip? && m.packet.name == b && m.packet.metadata == Some(md);
      NewlyInFlight(c, e, b, md, m);
    }
  }

  /** A node's own metadata changes only when its application sets it, to what was set. Gossip never does. */
  lemma OwnMetadata(c: Cluster, e: Event, b: Name)
    requires Enabled(c, e) && WellFormed(c) && b in c.nodes
    ensures b in Step(c, e).nodes
    ensures Belief(Step(c, e), b, b).metadata ==
            if e.Local? && e.node == b && e.action.SetMetadata? then Some(e.action.metadata)
            else Belief(c, b, b).metadata
  {
    hide Step, Ready;
    StepBelief(c, e, b, b);
    if e.Local? && e.node == b && e.action.SetMetadata? {
      assert Belief(c, b, b).clock < c.nodes[b].node.next;
    }
  }

  /** In every reachable cluster, whatever metadata anyone stores or gossips for `b` was `b`'s own metadata
      at some moment `j` of the run; for a name that is no node, nothing is ever stored or gossiped. */
  lemma {:induction false} MetadataProvenance(trace: seq<Cluster>, es: seq<Event>, i: nat, b: Name, md: Metadata)
    returns (j: nat)
    requires Behavior(trace, es) && i <= |es|
    requires Stored(trace[i], b, md) || InFlight(trace[i], b, md)
    ensures j <= i && b in trace[j].nodes && Belief(trace[j], b, b).metadata == Some(md)
  {
    hide Step, Coherent;
    if i == 0 {
      var a :| a in trace[0].nodes && Belief(trace[0], a, b).metadata == Some(md);
      j := 0;
    } else {
      ReachableWellFormed(trace, es, i - 1);
      StepProvenance(trace[i - 1], es[i - 1], b, md);
      if Sets(es[i - 1], b, md) {
        OwnMetadata(trace[i - 1], es[i - 1], b);
        j := i;
      } else {
        j := MetadataProvenance(trace, es, i - 1, b, md);
      }
    }
  }
}
