/** Once the cluster agrees about a node, gossip and successful checks cannot make it disagree. */
module Agreement {
  import opened Wrappers
  import opened Statuses
  import opened Packets
  import opened NodeStates
  import opened WorkerStates
  import opened Clusters

  /** `b` is ONLINE with metadata `md`; everyone else knows that or has no metadata for `b` at all;
      and all gossip in flight about `b` says so too. */
  ghost predicate Agreed(c: Cluster, b: Name, md: Metadata) {
    && b in c.nodes && Belief(c, b, b).status == Online && Belief(c, b, b).metadata == Some(md)
    && (forall a :: a in c.nodes && Belief(c, a, b).metadata.Some? ==>
          Belief(c, a, b).status == Online && Belief(c, a, b).metadata == Some(md))
    && (forall m :: m in c.net && m.packet.Gossip? && m.packet.name == b ==>
          m.packet.status == Online && m.packet.metadata == Some(md))
  }

  /** Events other than a failed check of `b`, a suspect timer for `b`, and `b` changing its own metadata. */
  predicate Peaceful(c: Cluster, e: Event, b: Name)
    requires Enabled(c, e)
  {
    e.Local? ==>
      var w := c.nodes[e.node];
      match e.action
      case PingTimeout(check, indirects) => indirects == {} ==> w.checks[check].target != b
      case Conclude(check) => w.checks[check].target == b ==> w.checks[check].heard
      case SuspectTimer(target) => target != b
      case SetMetadata(_) => e.node != b
      case _ => true
  }

  /** What a peaceful event reports about `b` is what everyone knows. */
  lemma PeacefulReport(c: Cluster, e: Event, b: Name, md: Metadata, r: Report)
    requires Enabled(c, e) && WellFormed(c) && Agreed(c, b, md) && Peaceful(c, e, b)
    requires e.Local? && ReportOf(c.nodes[e.node], e.action) == Some(r) && r.subject == b
    ensures r.status == Some(Online) && (r.metadata == None || r.metadata == Some(md))
  {
    if e.action.Receive? {
      assert Message(e.node, e.action.packet) in c.net;
    }
  }

  /** One node's belief stays in agreement, and `b`'s belief about itself stands still. */
  lemma StepBeliefAgreed(c: Cluster, e: Event, a: Name, b: Name, md: Metadata)
    requires Enabled(c, e) && WellFormed(c) && Agreed(c, b, md) && Peaceful(c, e, b) && a in c.nodes
    ensures var f := Belief(Step(c, e), a, b);
            && (f.metadata.Some? ==> f.status == Online && f.metadata == Some(md))
            && (a == b ==> f == Belief(c, b, b))
  {
    hide Step, Ready, WellFormed, ReportOf, Peaceful;
    StepBelief(c, e, a, b);
    if e.Local? && e.node == a {
      match ReportOf(c.nodes[a], e.action)
      case None =>
      case Some(r) =>
        if r.subject == b {
          PeacefulReport(c, e, b, md, r);
        }
    }
  }

  lemma StepGossipAgreed(c: Cluster, e: Event, b: Name, md: Metadata, m: Message)
    requires Enabled(c, e) && WellFormed(c) && Agreed(c, b, md)
    requires m in Step(c, e).net && m.packet.Gossip? && m.packet.name == b
    ensures m.packet.status == Online && m.packet.metadata == Some(md)
  {
    if m !in c.net {
      ActSends(c.nodes[e.node], e.action, m);
      assert m.packet == BuildGossip(c.nodes[e.node].node, b);
      assert Belief(c, e.node, b).metadata.Some?;
    }
  }

  lemma StepAgreed(c: Cluster, e: Event, b: Name, md: Metadata)
    requires Enabled(c, e) && WellFormed(c) && Agreed(c, b, md) && Peaceful(c, e, b)
    ensures Agreed(Step(c, e), b, md) && Belief(Step(c, e), b, b) == Belief(c, b, b)
  {
    var c' := Step(c, e);
    StepKeys(c, e);
    forall a | a in c'.nodes
      ensures Belief(c', a, b).metadata.Some? ==>
                Belief(c', a, b).status == Online && Belief(c', a, b).metadata == Some(md)
    {
      StepBeliefAgreed(c, e, a, b, md);
    }
    forall m | m in c'.net && m.packet.Gossip? && m.packet.name == b
      ensures m.packet.status == Online && m.packet.metadata == Some(md)
    {
      StepGossipAgreed(c, e, b, md, m);
    }
    StepBeliefAgreed(c, e, b, b, md);
  }

  /** Agreement about `b` survives every run of peaceful events, from any coherent cluster, and `b` never
      has to advance its own clock meanwhile. */
  lemma {:induction false} AgreementIsStable(trace: seq<Cluster>, es: seq<Event>, i: nat, b: Name, md: Metadata)
    requires Run(trace, es) && Coherent(trace[0]) && Agreed(trace[0], b, md) && i <= |es|
    requires forall j :: 0 <= j < i ==> Peaceful(trace[j], es[j], b)
    ensures Agreed(trace[i], b, md) && Belief(trace[i], b, b) == Belief(trace[0], b, b)
  {
    hide Step, Coherent, Agreed, Peaceful, Belief;
    if i == 0 {
      assert b in trace[0].nodes by { AgreedHasNode(trace[0], b, md); }
    } else {
      AgreementIsStable(trace, es, i - 1, b, md);
      RunCoherent(trace, es, i - 1);
      CoherentWellFormed(trace[i - 1]);
      StepAgreed(trace[i - 1], es[i - 1], b, md);
    }
  }

  lemma AgreedHasNode(c: Cluster, b: Name, md: Metadata)
    requires Agreed(c, b, md)
    ensures b in c.nodes
  {
  }
}
