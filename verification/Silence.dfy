/** A member that has never sent a packet is OFFLINE everywhere else. */
module Silence {
  import opened Wrappers
  import opened Statuses
  import opened Packets
  import opened NodeStates
  import opened WorkerStates
  import opened Clusters

  /** The event makes `d` send something. */
  predicate Sends(c: Cluster, e: Event, d: Name)
    requires Enabled(c, e)
  {
    e.Local? && e.node == d && Act(c.nodes[d], e.action).sends != multiset{}
  }

  /** Nothing anywhere suggests that `d` is up: no packet names it as source, no check has heard from it,
      and nobody believes or gossips that it is other than OFFLINE. */
  ghost predicate Silent(c: Cluster, d: Name) {
    && (forall m :: m in c.net ==> QuietPacket(m.packet, d))
    && (forall a, i :: a in c.nodes && i in c.nodes[a].checks && c.nodes[a].checks[i].target == d ==>
          !c.nodes[a].checks[i].heard)
    && (forall a :: a in c.nodes && a != d ==> Belief(c, a, d).status == Offline)
  }

  predicate QuietPacket(p: Packet, d: Name) {
    p.source.name != d && (p.Gossip? && p.name == d ==> p.status == Offline)
  }

  /** A check is only told of what a packet's source does. */
  lemma ActChecks(w: WorkerState, a: Action, i: nat)
    requires Ready(w, a) && i in Act(w, a).state.checks
    ensures var k := Act(w, a).state.checks[i];
            k.heard ==> (i in w.checks && w.checks[i].heard && w.checks[i].target == k.target)
                        || (a.Receive? && k.target == a.packet.source.name)
  {
    match a
    case Receive(p, seed, seed') =>
      AnswerTables(Hear(w, p.source, seed).state, p, seed');
    case _ =>
  }

  lemma StepQuietNet(c: Cluster, e: Event, d: Name, m: Message)
    requires Enabled(c, e) && WellFormed(c) && Silent(c, d) && !Sends(c, e, d) && m in Step(c, e).net
    ensures QuietPacket(m.packet, d)
  {
    if m !in c.net {
      ActSends(c.nodes[e.node], e.action, m);
      assert e.node != d;
      if e.action.Receive? {
        assert QuietPacket(e.action.packet, d);
      }
    }
  }

  lemma QuietReport(c: Cluster, e: Event, d: Name, r: Report)
    requires Enabled(c, e) && WellFormed(c) && Silent(c, d) && e.Local? && e.node != d
    requires ReportOf(c.nodes[e.node], e.action) == Some(r) && r.subject == d
    ensures r.status == Some(Offline) || r.status == Some(Suspect)
  {
    if e.action.Receive? {
      assert QuietPacket(Message(e.node, e.action.packet).packet, d);
    }
  }

  lemma StepQuietBelief(c: Cluster, e: Event, d: Name, a: Name)
    requires Enabled(c, e) && WellFormed(c) && Silent(c, d) && a in c.nodes && a != d
    ensures Belief(Step(c, e), a, d).status == Offline
  {
    hide Step, Ready, WellFormed, ReportOf;
    StepBelief(c, e, a, d);
    if e.Local? && e.node == a {
      match ReportOf(c.nodes[a], e.action)
      case None =>
      case Some(r) =>
        if r.subject == d {
          QuietReport(c, e, d, r);
        }
    }
  }

  lemma StepSilent(c: Cluster, e: Event, d: Name)
    requires Enabled(c, e) && WellFormed(c) && Silent(c, d) && !Sends(c, e, d)
    ensures Silent(Step(c, e), d)
  {
    var c' := Step(c, e);
    forall m | m in c'.net ensures QuietPacket(m.packet, d) {
      StepQuietNet(c, e, d, m);
    }
    forall a | a in c'.nodes && a != d ensures Belief(c', a, d).status == Offline {
      StepQuietBelief(c, e, d, a);
    }
    forall a, i | a in c'.nodes && i in c'.nodes[a].checks && c'.nodes[a].checks[i].target == d
      ensures !c'.nodes[a].checks[i].heard
    {
      if e.Local? && e.node == a {
        ActChecks(c.nodes[a], e.action, i);
        if e.action.Receive? {
          assert Message(a, e.action.packet) in c.net;
        }
      }
    }
  }

  lemma {:induction false} RunSilent(trace: seq<Cluster>, es: seq<Event>, i: nat, d: Name)
    requires Behavior(trace, es) && i <= |es|
    requires forall j :: 0 <= j < i ==> !Sends(trace[j], es[j], d)
    ensures Silent(trace[i], d)
  {
    hide Step, Coherent, Silent, Sends;
    if i == 0 {
      InitSilent(trace[0], d);
    } else {
      RunSilent(trace, es, i - 1, d);
      ReachableWellFormed(trace, es, i - 1);
      StepSilent(trace[i - 1], es[i - 1], d);
    }
  }

  lemma InitSilent(c: Cluster, d: Name)
    requires Init(c)
    ensures Silent(c, d)
  {
  }

  /** In every reachable cluster, a member that has sent no packet so far is OFFLINE in the table of
      every other node, whatever checks, relays, gossip and timers ran meanwhile. */
  lemma NeverSentIsOffline(trace: seq<Cluster>, es: seq<Event>, i: nat, a: Name, d: Name)
    requires Behavior(trace, es) && i <= |es| && a in trace[i].nodes && a != d
    requires forall j :: 0 <= j < i ==> !Sends(trace[j], es[j], d)
    ensures Belief(trace[i], a, d).status == Offline
  {
    hide Step, Sends;
    RunSilent(trace, es, i, d);
  }
}
