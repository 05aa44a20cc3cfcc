/** What is needed to build a concrete run of a small cluster. */
module Runs {
  import opened Wrappers
  import opened Statuses
  import opened Packets
  import opened NodeStates
  import opened WorkerStates
  import opened Clusters

  /** The validities that each node drew at random, for itself and for the one peer that it knows. */
  datatype Drawn = Drawn(own: Name -> Validity, peer: Name -> Validity)

  /** A newly constructed worker that knows one peer. */
  function Newcomer(name: Name, peer: Name, v: Drawn): WorkerState {
    WorkerState(Node(name, 2, map[name := Entry(Fact(1, Online, Some(map[])), v.own(name), map[]),
                                  peer := Entry(UNHEARD, v.peer(name), map[])]),
                1, 0, map[], map[], {})
  }

  lemma NewcomerFacts(c: Cluster, a: Name, b: Name, v: Drawn)
    requires a != b && a in c.nodes && c.nodes[a] == Newcomer(a, b, v)
    ensures c.nodes[a].node.name == a && a in c.nodes[a].node.table
    ensures Belief(c, a, a) == Fact(1, Online, Some(map[])) && c.nodes[a].node.next == 2
  {
  }

  lemma InitialNewcomer(a: Name, b: Name, v: Drawn)
    requires a != b
    ensures var w := Newcomer(a, b, v);
            && w.node.name == a && Initial(w.node) && w.checks == map[] && w.listening == map[] && w.suspect == {}
            && Ready(w, Disseminate(b)) && a in GetGossip(w.node, b)
  {
  }

  lemma InitNewcomers(c: Cluster, a: Name, b: Name, v: Drawn)
    requires a != b && c == Cluster(map[a := Newcomer(a, b, v), b := Newcomer(b, a, v)], {})
    ensures Init(c) && Enabled(c, Local(a, Disseminate(b))) && a in GetGossip(c.nodes[a].node, b)
  {
    hide Newcomer, Initial, GetGossip, Ready;
    InitialNewcomer(a, b, v);
    InitialNewcomer(b, a, v);
  }

  lemma BehaviorAlone(c: Cluster)
    requires Init(c)
    ensures Behavior([c], [])
  {
  }

  /** A run can be continued by any event that is enabled at its end. */
  lemma Continued(trace: seq<Cluster>, es: seq<Event>, e: Event) returns (trace': seq<Cluster>, es': seq<Event>)
    requires Behavior(trace, es) && |trace| == |es| + 1 && Enabled(trace[|es|], e)
    ensures trace' == trace + [Step(trace[|es|], e)] && es' == es + [e] && Behavior(trace', es')
  {
    hide Step, Enabled, Init;
    trace', es' := trace + [Step(trace[|es|], e)], es + [e];
    assert trace'[0] == trace[0];
    forall i | 0 <= i < |es'| ensures Enabled(trace'[i], es'[i]) && trace'[i + 1] == Step(trace'[i], es'[i]) {
      if i < |es| {
        assert es'[i] == es[i] && trace'[i] == trace[i];
      }
    }
  }

  lemma ReceiveEnabled(c: Cluster, b: Name, p: Packet)
    requires b in c.nodes && c.nodes[b].node.name in c.nodes[b].node.table && Message(b, p) in c.net
    ensures Enabled(c, Local(b, Receive(p, [], [])))
  {
  }

  /** Dissemination puts the gossip that is needed in flight. */
  lemma Disseminated(c: Cluster, a: Name, t: Name, n: Name)
    requires Enabled(c, Local(a, Disseminate(t))) && n in GetGossip(c.nodes[a].node, t)
    ensures var c' := Step(c, Local(a, Disseminate(t)));
            c'.nodes == c.nodes && Message(t, BuildGossip(c.nodes[a].node, n)) in c'.net
  {
    assert Act(c.nodes[a], Disseminate(t)).state == c.nodes[a];
    assert Message(t, BuildGossip(c.nodes[a].node, n)) in Act(c.nodes[a], Disseminate(t)).sends;
  }
}
