/** Who is told when a pinged member answers: exactly those who asked since it was last heard. */
module Relays {
  import opened Packets
  import opened WorkerStates
  import opened Clusters

  /** `r` receives a packet from `t`. */
  predicate Hears(e: Event, r: Name, t: Name) {
    e.Local? && e.node == r && e.action.Receive? && e.action.packet.source.name == t
  }

  /** `r` receives a request from `s` to ping `t`. */
  predicate Asks(e: Event, r: Name, s: Name, t: Name) {
    Hears(e, r, s) && e.action.packet.PingReq? && e.action.packet.target == t
  }

  /** After the first `i` events, `s` has asked `r` to ping `t` and `r` has heard nothing from `t` since. */
  ghost predicate Pending(es: seq<Event>, i: nat, r: Name, s: Name, t: Name)
    requires i <= |es|
  {
    exists j :: 0 <= j < i && Asks(es[j], r, s, t) && forall k :: j < k < i ==> !Hears(es[k], r, t)
  }

  /** How one event changes what is pending. */
  lemma PendingStep(es: seq<Event>, i: nat, r: Name, s: Name, t: Name)
    requires 0 < i <= |es|
    ensures Pending(es, i, r, s, t) <==>
            Asks(es[i - 1], r, s, t) || (Pending(es, i - 1, r, s, t) && !Hears(es[i - 1], r, t))
  {
    if Pending(es, i, r, s, t) && !Asks(es[i - 1], r, s, t) {
      var j :| 0 <= j < i && Asks(es[j], r, s, t) && forall k :: j < k < i ==> !Hears(es[k], r, t);
      assert 0 <= j < i - 1;
    }
    if Pending(es, i - 1, r, s, t) && !Hears(es[i - 1], r, t) {
      var j :| 0 <= j < i - 1 && Asks(es[j], r, s, t) && forall k :: j < k < i - 1 ==> !Hears(es[k], r, t);
      assert 0 <= j < i && Asks(es[j], r, s, t) && forall k :: j < k < i ==> !Hears(es[k], r, t);
    }
  }

  lemma StepListeners(c: Cluster, e: Event, r: Name, s: Name, t: Name)
    requires Enabled(c, e) && r in c.nodes
    ensures r in Step(c, e).nodes
    ensures s in Listeners(Step(c, e).nodes[r], t) <==>
            Asks(e, r, s, t) || (s in Listeners(c.nodes[r], t) && !Hears(e, r, t))
  {
    hide Answer;
    if e.Local? && e.node == r && e.action.Receive? {
      var heard := Hear(c.nodes[r], e.action.packet.source, e.action.seed).state;
      AnswerListeners(heard, e.action.packet, e.action.seed', t);
    }
  }

  lemma AnswerListeners(w: WorkerState, p: Packet, seed: Validity, t: Name)
    requires w.node.name in w.node.table && p.source.name in w.node.table
    ensures Listeners(Answer(w, p, seed).state, t) ==
            Listeners(w, t) + if p.PingReq? && p.target == t then {p.source.name} else {}
  {
  }

  /** The listening table is exact in every reachable cluster. */
  lemma {:induction false} ListenersArePending(trace: seq<Cluster>, es: seq<Event>, i: nat, r: Name, s: Name, t: Name)
    requires Behavior(trace, es) && i <= |es| && r in trace[i].nodes
    ensures s in Listeners(trace[i].nodes[r], t) <==> Pending(es, i, r, s, t)
  {
    hide Step, Pending, Asks, Hears;
    if i == 0 {
      assert !Pending(es, 0, r, s, t) by { NothingPending(es, r, s, t); }
    } else {
      StepKeys(trace[i - 1], es[i - 1]);
      ListenersArePending(trace, es, i - 1, r, s, t);
      StepListeners(trace[i - 1], es[i - 1], r, s, t);
      PendingStep(es, i, r, s, t);
    }
  }

  lemma NothingPending(es: seq<Event>, r: Name, s: Name, t: Name)
    ensures !Pending(es, 0, r, s, t)
  {
  }

  /** How often a ping is answered to `l` as well, when `l` is the node itself: it then hears its own ping. */
  function OwnAnswers(name: Name, p: Packet, l: Name): nat {
    if p.Ping? && p.source.name == name && l == name then 1 else 0
  }

  /** The Acks naming `t` that a packet from `t` sets off: one for each listener and no others. Only when `t` is the
      node itself, which a ping-req that names it leads to, is the answer to its own ping one more. */
  lemma RelayedOnce(w: WorkerState, p: Packet, seed: Validity, seed': Validity, l: Name)
    requires w.node.name in w.node.table
    requires p.source.name == w.node.name ==> p.source == LocalSource(w)
    ensures Handle(w, p, seed, seed').sends[Message(l, Ack(p.source))] ==
            (if l in Listeners(w, p.source.name) then 1 else 0) + OwnAnswers(w.node.name, p, l)
  {
    hide Answer;
    var heard := Hear(w, p.source, seed);
    assert Source(p.source.name, heard.state.node.table[p.source.name].validity) == p.source;
    assert Message(l, Ack(p.source)) in RelayedAcks(Listeners(w, p.source.name), p.source)
           <==> l in Listeners(w, p.source.name);
    assert LocalSource(heard.state) == LocalSource(w);
    AnsweredAcks(heard.state, p, seed', l);
  }

  lemma AnsweredAcks(w: WorkerState, p: Packet, seed: Validity, l: Name)
    requires w.node.name in w.node.table && p.source.name in w.node.table
    requires p.source.name == w.node.name ==> p.source == LocalSource(w)
    ensures Answer(w, p, seed).sends[Message(l, Ack(p.source))] == OwnAnswers(w.node.name, p, l)
  {
  }

  /** Relay accounting. In every reachable cluster, when `r` receives a packet from `t`, it sends an Ack carrying that
      packet's source exactly once to each member that had asked for a ping of `t` since `r` last heard from `t`, and
      to nobody else; and once more to itself when the packet is its own ping. */
  lemma RelayAccounting(trace: seq<Cluster>, es: seq<Event>, i: nat, r: Name, l: Name)
    requires Behavior(trace, es) && i < |es| && es[i].Local? && es[i].node == r && es[i].action.Receive?
    ensures var p := es[i].action.packet;
            && Enabled(trace[i], es[i])
            && Act(trace[i].nodes[r], es[i].action).sends[Message(l, Ack(p.source))] ==
               (if Pending(es, i, r, l, p.source.name) then 1 else 0) + OwnAnswers(r, p, l)
  {
    hide Step, Pending;
    var a := es[i].action;
    ListenersArePending(trace, es, i, r, l, a.packet.source.name);
    ReachableWellFormed(trace, es, i);
    assert Authentic(trace[i], Message(r, a.packet));
    RelayedOnce(trace[i].nodes[r], a.packet, a.seed, a.seed', l);
  }
}
