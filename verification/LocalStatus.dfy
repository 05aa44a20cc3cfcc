/** When a node is ONLINE in its own table: until the suspect timer that it runs for itself first fires. */
module LocalStatus {
  import opened Wrappers
  import opened Statuses
  import opened Packets
  import opened NodeStates
  import opened WorkerStates
  import opened Clusters

  /** No node checks itself. */
  ghost predicate ChecksRemote(c: Cluster) {
    forall a, i :: a in c.nodes && i in c.nodes[a].checks ==> c.nodes[a].checks[i].target != a
  }

  lemma ActTargets(w: WorkerState, a: Action)
    requires Ready(w, a)
    requires forall i :: i in w.checks ==> w.checks[i].target != w.node.name
    ensures forall i :: i in Act(w, a).state.checks ==> Act(w, a).state.checks[i].target != w.node.name
  {
    match a
    case Receive(p, seed, seed') =>
      AnswerTables(Hear(w, p.source, seed).state, p, seed');
    case _ =>
  }

  lemma {:induction false} RunChecksRemote(trace: seq<Cluster>, es: seq<Event>, i: nat)
    requires Behavior(trace, es) && i <= |es|
    ensures ChecksRemote(trace[i])
  {
    hide Coherent, Act;
    if i == 0 {
    } else {
      RunChecksRemote(trace, es, i - 1);
      ReachableWellFormed(trace, es, i - 1);
      if es[i - 1].Local? {
        ActTargets(trace[i - 1].nodes[es[i - 1].node], es[i - 1].action);
      }
    }
  }

  /** What a node reports about itself: gossip, new metadata, or its own timer. */
  lemma OwnReports(c: Cluster, e: Event, a: Name, r: Report)
    requires Enabled(c, e) && WellFormed(c) && ChecksRemote(c) && e.Local? && e.node == a
    requires ReportOf(c.nodes[a], e.action) == Some(r) && r.subject == a
    ensures r.source.Some? || (r.clock == c.nodes[a].node.next && r.clock > Belief(c, a, a).clock)
    ensures r.source.None? ==> if e.action.SuspectTimer? then e.action.target == a && r.status == Some(Offline)
                               else r.status == None
    ensures e.action.SuspectTimer? ==> r.source.None?
  {
    assert Belief(c, a, a).clock < c.nodes[a].node.next;
  }

  /** A node's own status moves only when the suspect timer that it runs for itself fires, and then towards OFFLINE. */
  lemma OwnStatusAfter(c: Cluster, e: Event, a: Name)
    requires Enabled(c, e) && WellFormed(c) && ChecksRemote(c) && a in c.nodes
    ensures a in Step(c, e).nodes
    ensures Belief(Step(c, e), a, a).status ==
            if e == Local(a, SuspectTimer(a)) then Move(Belief(c, a, a).status, Offline) else Belief(c, a, a).status
  {
    hide Step, Ready, ChecksRemote;
    StepBelief(c, e, a, a);
    if e.Local? && e.node == a {
      match ReportOf(c.nodes[a], e.action)
      case None =>
      case Some(r) =>
        if r.subject == a {
          OwnReports(c, e, a, r);
        }
    }
  }

  lemma InitialOwnStatus(c: Cluster, a: Name)
    requires Init(c) && a in c.nodes
    ensures Belief(c, a, a).status == Online
  {
  }

  /** The documentation has the local member always ONLINE. In every reachable cluster it is ONLINE if and only
      if no suspect timer for the node itself has fired at it; nothing afterwards brings it back. */
  lemma {:induction false} OnlineUntilOwnTimerFires(trace: seq<Cluster>, es: seq<Event>, i: nat, a: Name)
    requires Behavior(trace, es) && i <= |es| && a in trace[i].nodes
    ensures Belief(trace[i], a, a).status == Online <==>
            forall j :: 0 <= j < i ==> es[j] != Local(a, SuspectTimer(a))
  {
    hide Step, Coherent, ChecksRemote, Belief;
    if i == 0 {
      InitialOwnStatus(trace[0], a);
    } else {
      StepKeys(trace[i - 1], es[i - 1]);
      OnlineUntilOwnTimerFires(trace, es, i - 1, a);
      ReachableWellFormed(trace, es, i - 1);
      RunChecksRemote(trace, es, i - 1);
      OwnStatusAfter(trace[i - 1], es[i - 1], a);
    }
  }
}
