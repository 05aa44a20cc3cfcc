/** A node whose gossip to a target has all been acknowledged has nothing more to tell it. */
module Quiescence {
  import opened Packets
  import opened NodeStates
  import opened WorkerStates
  import opened Clusters

  /** `a` has recorded `t`'s validity, and whatever gossip from `a` to `t`, or acknowledgement from `t` to `a`,
      is in flight carries the clock that `a` holds now. In particular there may be none of either. */
  ghost predicate Current(c: Cluster, a: Name, t: Name) {
    && a in c.nodes && t in c.nodes && a != t && t in c.nodes[a].node.table && t in c.nodes[t].node.table
    && c.nodes[a].node.table[t].validity == c.nodes[t].node.table[t].validity
    && (forall m :: m in c.net ==> CurrentPacket(c, a, t, m))
  }

  ghost predicate CurrentPacket(c: Cluster, a: Name, t: Name, m: Message)
    requires a in c.nodes
  {
    (m.packet.Gossip? && m.to == t && m.packet.source.name == a)
    || (m.packet.GossipAck? && m.to == a && m.packet.source.name == t)
    ==> m.packet.clock == Belief(c, a, m.packet.name).clock
  }

  /** The event changes nothing that `a` believes. It may be anything else: packets of every kind handled by `a`,
      checks, timers, dissemination, and whatever happens at other nodes. */
  ghost predicate Unmoved(c: Cluster, e: Event, a: Name)
    requires Enabled(c, e)
  {
    a in c.nodes && (e.Local? && e.node == a ==> forall n :: FactAfter(c.nodes[a], e.action, n) == Belief(c, a, n))
  }

  /** No event of the run changes what `a` believes. */
  ghost predicate Unmoving(trace: seq<Cluster>, es: seq<Event>, a: Name)
    requires Run(trace, es)
  {
    forall k :: 0 <= k < |es| ==> Unmoved(trace[k], es[k], a)
  }

  /** `a` handles an acknowledgement from `t` of gossip about `n`. */
  predicate AckArrives(e: Event, a: Name, t: Name, n: Name) {
    && e.Local? && e.node == a && e.action.Receive? && e.action.packet.GossipAck?
    && e.action.packet.source.name == t && e.action.packet.name == n
  }

  /** A packet changes at most one known clock of a member whose validity is on record, if it is from that member
      an acknowledgement. */
  lemma HandleAck(w: WorkerState, p: Packet, seed: Validity, seed': Validity, t: Name)
    requires w.node.name in w.node.table && t in w.node.table && t != w.node.name
    requires p.source.name == t ==> p.source.validity == w.node.table[t].validity
    ensures var node := Handle(w, p, seed, seed').state.node;
            && t in node.table && node.table[t].validity == w.node.table[t].validity
            && (forall n :: Known(node, t, n) ==
                            if p.GossipAck? && p.source.name == t && n == p.name then p.clock else Known(w.node, t, n))
  {
    hide Answer, Known;
    var heard := Hear(w, p.source, seed).state;
    HeardEntry(w, p.source, seed, t);
    AnswerValidity(heard, p, seed', t);
    forall n ensures Known(Handle(w, p, seed, seed').state.node, t, n) ==
                     if p.GossipAck? && p.source.name == t && n == p.name then p.clock else Known(w.node, t, n) {
      AnswerKnown(heard, p, seed', t, n);
      SameKnown(w.node, heard.node, t, n);
    }
  }

  lemma HeardEntry(w: WorkerState, source: Source, seed: Validity, t: Name)
    requires w.node.name in w.node.table && t in w.node.table && t != w.node.name
    requires source.name == t ==> source.validity == w.node.table[t].validity
    ensures var heard := Hear(w, source, seed).state;
            && heard.node.name == w.node.name && heard.node.name in heard.node.table
            && t in heard.node.table && heard.node.table[t] == w.node.table[t]
  {
  }

  lemma AnswerValidity(w: WorkerState, p: Packet, seed: Validity, t: Name)
    requires w.node.name in w.node.table && p.source.name in w.node.table && t in w.node.table
    ensures var node := Answer(w, p, seed).state.node;
            t in node.table && node.table[t].validity == w.node.table[t].validity
  {
  }

  lemma SameKnown(node: Node, node': Node, t: Name, n: Name)
    requires t in node.table && t in node'.table && node'.table[t] == node.table[t]
    ensures Known(node', t, n) == Known(node, t, n)
  {
  }

  /** Actions other than handling a packet leave the record of a member alone, but for its fact. */
  lemma KeptRecord(w: WorkerState, a: Action, t: Name)
    requires Ready(w, a) && !a.Receive? && t in w.node.table
    ensures var node := Act(w, a).state.node;
            && t in node.table && node.table[t].validity == w.node.table[t].validity
            && forall n :: Known(node, t, n) == Known(w.node, t, n)
  {
  }

  /** What an event that does not move `a` does to `a`'s record of `t`. */
  lemma StepRecord(c: Cluster, e: Event, a: Name, t: Name)
    requires Enabled(c, e) && Coherent(c) && Current(c, a, t) && Unmoved(c, e, a)
    ensures var c' := Step(c, e);
            && a in c'.nodes && t in c'.nodes[a].node.table
            && c'.nodes[a].node.table[t].validity == c.nodes[a].node.table[t].validity
            && (forall n :: Belief(c', a, n) == Belief(c, a, n))
            && (forall n :: Known(c'.nodes[a].node, t, n) ==
                            if AckArrives(e, a, t, n) then Belief(c, a, n).clock else Known(c.nodes[a].node, t, n))
  {
    hide Ready, Handle, Known;
    forall n ensures Belief(Step(c, e), a, n) == Belief(c, a, n) {
      StepBelief(c, e, a, n);
    }
    if e.Local? && e.node == a {
      if e.action.Receive? {
        var p := e.action.packet;
        assert Authentic(c, Message(a, p)) && CurrentPacket(c, a, t, Message(a, p));
        HandleAck(c.nodes[a], p, e.action.seed, e.action.seed', t);
      } else {
        KeptRecord(c.nodes[a], e.action, t);
      }
    }
  }

  lemma StepCurrentPacket(c: Cluster, e: Event, a: Name, t: Name, m: Message)
    requires Enabled(c, e) && Coherent(c) && Current(c, a, t) && Unmoved(c, e, a) && m in Step(c, e).net
    ensures a in Step(c, e).nodes && CurrentPacket(Step(c, e), a, t, m)
  {
    StepRecord(c, e, a, t);
    if m in c.net {
      assert CurrentPacket(c, a, t, m);
    } else {
      ActSends(c.nodes[e.node], e.action, m);
      if e.action.Receive? {
        assert CurrentPacket(c, a, t, Message(e.node, e.action.packet));
      }
    }
  }

  lemma StepCurrent(c: Cluster, e: Event, a: Name, t: Name)
    requires Enabled(c, e) && Coherent(c) && Current(c, a, t) && Unmoved(c, e, a)
    ensures Current(Step(c, e), a, t)
  {
    hide Step, Ready, CurrentPacket;
    var c' := Step(c, e);
    StepKeys(c, e);
    StepWellFormed(c, e);
    StepRecord(c, e, a, t);
    forall m | m in c'.net ensures CurrentPacket(c', a, t, m) {
      StepCurrentPacket(c, e, a, t, m);
    }
    assert LocalSource(c'.nodes[t]) == LocalSource(c.nodes[t]);
  }

  /** Along such a run `a`'s beliefs stand still, and what `t` is known to have is never forgotten. */
  lemma {:induction false} RunCurrent(trace: seq<Cluster>, es: seq<Event>, i: nat, j: nat, a: Name, t: Name, n: Name)
    requires Run(trace, es) && Coherent(trace[0]) && Current(trace[0], a, t) && i <= j <= |es|
    requires Unmoving(trace, es, a)
    ensures Current(trace[i], a, t) && Current(trace[j], a, t)
    ensures Belief(trace[j], a, n) == Belief(trace[i], a, n) == Belief(trace[0], a, n)
    ensures var clock := Belief(trace[0], a, n).clock;
            Known(trace[i].nodes[a].node, t, n) >= clock ==> Known(trace[j].nodes[a].node, t, n) >= clock
  {
    hide Step, Coherent, CurrentPacket, Unmoved, AckArrives, Belief, Known;
    if j == 0 {
    } else {
      RunCurrent(trace, es, if i == j then i - 1 else i, j - 1, a, t, n);
      RunCoherent(trace, es, j - 1);
      StepCurrent(trace[j - 1], es[j - 1], a, t);
      StepRecord(trace[j - 1], es[j - 1], a, t);
    }
  }

  /** Quiescence. As long as nothing changes what `a` believes, whatever packets it handles and checks it runs
      meanwhile, in any order and with any losses and repetitions, once each member that `t` needed gossip about has
      been acknowledged by `t`, there is no gossip for `t` left. */
  lemma QuietAfterAcks(trace: seq<Cluster>, es: seq<Event>, a: Name, t: Name)
    requires Run(trace, es) && Coherent(trace[0]) && Current(trace[0], a, t)
    requires Unmoving(trace, es, a)
    requires forall n :: n in GetGossip(trace[0].nodes[a].node, t) ==>
               exists k :: 0 <= k < |es| && AckArrives(es[k], a, t, n)
    ensures a in trace[|es|].nodes && GetGossip(trace[|es|].nodes[a].node, t) == {}
  {
    hide Step, Coherent, CurrentPacket;
    RunCurrent(trace, es, 0, |es|, a, t, a);
    forall n ensures n !in GetGossip(trace[|es|].nodes[a].node, t) {
      RunCurrent(trace, es, 0, |es|, a, t, n);
      if n in GetGossip(trace[0].nodes[a].node, t) {
        var k :| 0 <= k < |es| && AckArrives(es[k], a, t, n);
        AckSuffices(trace, es, k, a, t, n);
      } else {
        NotNeeded(trace, es, a, t, n);
      }
    }
  }

  lemma AckSuffices(trace: seq<Cluster>, es: seq<Event>, k: nat, a: Name, t: Name, n: Name)
    requires Run(trace, es) && Coherent(trace[0]) && Current(trace[0], a, t) && k < |es|
    requires Unmoving(trace, es, a)
    requires AckArrives(es[k], a, t, n)
    ensures a in trace[|es|].nodes && Belief(trace[|es|], a, n) == Belief(trace[0], a, n)
    ensures Known(trace[|es|].nodes[a].node, t, n) >= Belief(trace[0], a, n).clock
  {
    hide Step, Coherent, CurrentPacket, Known, Belief;
    RunCurrent(trace, es, k, k + 1, a, t, n);
    RunCoherent(trace, es, k);
    StepRecord(trace[k], es[k], a, t);
    RunCurrent(trace, es, k + 1, |es|, a, t, n);
  }

  /** A member that `t` needed no gossip about at first needs none later. */
  lemma NotNeeded(trace: seq<Cluster>, es: seq<Event>, a: Name, t: Name, n: Name)
    requires Run(trace, es) && Coherent(trace[0]) && Current(trace[0], a, t)
    requires Unmoving(trace, es, a)
    requires n !in GetGossip(trace[0].nodes[a].node, t)
    ensures a in trace[|es|].nodes && n !in GetGossip(trace[|es|].nodes[a].node, t)
  {
    hide Step, CurrentPacket;
    RunCurrent(trace, es, 0, |es|, a, t, n);
    RunCoherent(trace, es, |es|);
  }

  /** Such acknowledgements come about: what `a` disseminates to `t` covers every member that `t` needs gossip
      about, and `t` answers each gossip it receives from `a` with an acknowledgement of the same clock. */
  lemma DisseminationIsAnswered(c: Cluster, a: Name, t: Name, n: Name, seed: Validity, seed': Validity)
    requires Coherent(c) && a in c.nodes && t in c.nodes && Enabled(c, Local(a, Disseminate(t)))
    requires n in GetGossip(c.nodes[a].node, t)
    ensures var c' := Step(c, Local(a, Disseminate(t)));
            var g := BuildGossip(c.nodes[a].node, n);
            var e := Local(t, Receive(g, seed, seed'));
            && Message(t, g) in c'.net && Enabled(c', e)
            && Message(a, GossipAck(LocalSource(c.nodes[t]), n, Belief(c, a, n).clock)) in Step(c', e).net
  {
    var g := BuildGossip(c.nodes[a].node, n);
    assert Message(t, g) in Act(c.nodes[a], Disseminate(t)).sends;
    AnswersGossip(c.nodes[t], g, seed, seed');
  }

  lemma AnswersGossip(w: WorkerState, p: Packet, seed: Validity, seed': Validity)
    requires w.node.name in w.node.table && p.Gossip?
    ensures Message(p.source.name, GossipAck(LocalSource(w), p.name, p.clock)) in Handle(w, p, seed, seed').sends
  {
    var heard := Hear(w, p.source, seed);
    assert LocalSource(heard.state) == LocalSource(w);
  }
}
