/** What the pings and ping-reqs of a check come to when their packets arrive: an answering member is found ONLINE. */
module Probing {
  import opened Statuses
  import opened Packets
  import opened WorkerStates
  import opened Clusters
  import opened Handling
  import opened Relays
  import opened Checks
  import opened Runs

  /** The packet is on its way to a node. */
  ghost predicate Flies(c: Cluster, to: Name, p: Packet) {
    Message(to, p) in c.net
  }

  lemma ReceiveIsEnabled(c: Cluster, b: Name, p: Packet, seed: Validity, seed': Validity)
    requires WellFormed(c) && b in c.nodes && Flies(c, b, p)
    ensures Enabled(c, Local(b, Receive(p, seed, seed')))
  {
  }

  /** An event at one node leaves the others as they are, and everything in flight there. */
  lemma Elsewhere(c: Cluster, e: Event, b: Name)
    requires Enabled(c, e) && e.Local? && b in c.nodes && e.node != b
    ensures b in Step(c, e).nodes && Step(c, e).nodes[b] == c.nodes[b] && c.net <= Step(c, e).net
  {
  }

  lemma Sent(c: Cluster, e: Event, m: Message)
    requires Enabled(c, e) && e.Local?
    ensures c.net <= Step(c, e).net && (Act(c.nodes[e.node], e.action).sends[m] > 0 ==> m in Step(c, e).net)
  {
  }

  /** Every ping that arrives is answered to its source, which is told who answers. */
  lemma PingIsAnswered(c: Cluster, b: Name, source: Source, seed: Validity, seed': Validity)
    requires WellFormed(c) && Enabled(c, Local(b, Receive(Ping(source), seed, seed')))
    ensures Flies(Step(c, Local(b, Receive(Ping(source), seed, seed'))), source.name, Ack(LocalSource(c.nodes[b])))
  {
    hide Step, Ready;
    var m := Message(source.name, Ack(LocalSource(c.nodes[b])));
    HandleSends(c.nodes[b], Ping(source), seed, seed', m);
    Sent(c, Local(b, Receive(Ping(source), seed, seed')), m);
  }

  /** Every ping-req that arrives has its target pinged, and its source told when the target is next heard. */
  lemma PingReqIsServed(c: Cluster, r: Name, source: Source, t: Name, seed: Validity, seed': Validity)
    requires WellFormed(c) && Enabled(c, Local(r, Receive(PingReq(source, t), seed, seed')))
    ensures var c' := Step(c, Local(r, Receive(PingReq(source, t), seed, seed')));
            && r in c'.nodes && Flies(c', t, Ping(LocalSource(c.nodes[r])))
            && source.name in Listeners(c'.nodes[r], t)
  {
    hide Step, Ready;
    var e := Local(r, Receive(PingReq(source, t), seed, seed'));
    var m := Message(t, Ping(LocalSource(c.nodes[r])));
    HandleSends(c.nodes[r], PingReq(source, t), seed, seed', m);
    Sent(c, e, m);
    StepListeners(c, e, r, source.name, t);
  }

  /** Whoever listens for a member is sent an Ack that names it as soon as it is heard. */
  lemma ListenerIsTold(c: Cluster, r: Name, l: Name, p: Packet, seed: Validity, seed': Validity)
    requires Coherent(c) && Enabled(c, Local(r, Receive(p, seed, seed'))) && l in Listeners(c.nodes[r], p.source.name)
    ensures Flies(Step(c, Local(r, Receive(p, seed, seed'))), l, Ack(p.source))
  {
    hide Step, Ready;
    assert Authentic(c, Message(r, p));
    RelayedOnce(c.nodes[r], p, seed, seed', l);
    Sent(c, Local(r, Receive(p, seed, seed')), Message(l, Ack(p.source)));
  }

  /** Over every run: once `r` has received a ping-req from `a` for `t`, the next packet that it receives from `t` has
      it send `a` an Ack that carries that packet's source. */
  lemma PingReqIsRelayed(trace: seq<Cluster>, es: seq<Event>, j: nat, k: nat, r: Name, a: Name, t: Name)
    requires Behavior(trace, es) && j < k < |es| && Asks(es[j], r, a, t) && Hears(es[k], r, t)
    requires forall l :: j < l < k ==> !Hears(es[l], r, t)
    ensures Enabled(trace[k], es[k]) && Flies(trace[k + 1], a, Ack(es[k].action.packet.source))
  {
    hide Step, Coherent, Asks;
    assert Pending(es, k, r, a, t);
    RelayAccounting(trace, es, k, r, a);
    Sent(trace[k], es[k], Message(a, Ack(es[k].action.packet.source)));
  }

  /** The event of a check that waits is set by a packet from its target. */
  lemma AckIsHeard(c: Cluster, a: Name, i: nat, p: Packet, seed: Validity, seed': Validity)
    requires Enabled(c, Local(a, Receive(p, seed, seed'))) && i in c.nodes[a].checks
    requires c.nodes[a].checks[i].target == p.source.name && c.nodes[a].checks[i].stage != Requesting
    ensures var c' := Step(c, Local(a, Receive(p, seed, seed')));
            && a in c'.nodes && i in c'.nodes[a].checks
            && c'.nodes[a].checks[i] == c.nodes[a].checks[i].(heard := true)
  {
    ActCheck(c.nodes[a], Receive(p, seed, seed'), i);
  }

  /** A check that has heard from its target can be concluded, and then the target is ONLINE. */
  lemma HeardIsOnline(c: Cluster, a: Name, i: nat)
    requires WellFormed(c) && a in c.nodes && Grounded(c.nodes[a])
    requires i in c.nodes[a].checks && c.nodes[a].checks[i].heard
    ensures var e := Local(a, Conclude(i));
            && Enabled(c, e) && a in Step(c, e).nodes
            && Belief(Step(c, e), a, c.nodes[a].checks[i].target).status == Online
            && i !in Step(c, e).nodes[a].checks
  {
    EndOfCheck(c, Local(a, Conclude(i)), a, i);
  }

  /** A check puts a ping to its target in flight and waits. */
  lemma CheckPings(c: Cluster, a: Name, t: Name)
    requires WellFormed(c) && a in c.nodes && t in c.nodes[a].node.table && t != a
    ensures var e, i := Local(a, StartCheck(t)), c.nodes[a].nextCheck;
            && Enabled(c, e) && a in Step(c, e).nodes && i in Step(c, e).nodes[a].checks
            && Step(c, e).nodes[a].checks[i] == Check(t, Pinged, false)
            && Flies(Step(c, e), t, Ping(LocalSource(c.nodes[a])))
  {
    var e, i := Local(a, StartCheck(t)), c.nodes[a].nextCheck;
    ActCheck(c.nodes[a], e.action, i);
    ActSendsOnce(c.nodes[a], e.action, Message(t, Ping(LocalSource(c.nodes[a]))));
    Sent(c, e, Message(t, Ping(LocalSource(c.nodes[a]))));
  }

  /** A ping that times out puts a ping-req for the target in flight to everyone that is asked, and nothing else. */
  lemma TimeoutAsks(c: Cluster, a: Name, i: nat, indirects: set<Name>)
    requires WellFormed(c) && Enabled(c, Local(a, PingTimeout(i, indirects))) && indirects != {}
    ensures var c', t := Step(c, Local(a, PingTimeout(i, indirects))), c.nodes[a].checks[i].target;
            && a in c'.nodes && i in c'.nodes[a].checks && c'.nodes[a].checks[i] == Check(t, Requesting, false)
            && (forall m :: m in c'.net <==>
                  m in c.net || (m.to in indirects && m.packet == PingReq(LocalSource(c.nodes[a]), t)))
  {
    var e := Local(a, PingTimeout(i, indirects));
    ActCheck(c.nodes[a], e.action, i);
    forall m ensures m in Step(c, e).net <==>
                     m in c.net || (m.to in indirects
                                    && m.packet == PingReq(LocalSource(c.nodes[a]), c.nodes[a].checks[i].target)) {
      ActSendsOnce(c.nodes[a], e.action, m);
      SentOnly(c, e, m);
    }
  }

  lemma SentOnly(c: Cluster, e: Event, m: Message)
    requires Enabled(c, e) && e.Local?
    ensures m in Step(c, e).net <==> m in c.net || Act(c.nodes[e.node], e.action).sends[m] > 0
  {
  }

  /** What is needed of the end of a behavior: it is coherent, nodes keep their identity, and no check is stuck. */
  lemma AtTheEnd(trace: seq<Cluster>, es: seq<Event>, a: Name)
    requires Behavior(trace, es) && |trace| == |es| + 1
    ensures Coherent(trace[|es|]) && WellFormed(trace[|es|])
    ensures a in trace[|es|].nodes ==> Grounded(trace[|es|].nodes[a])
  {
    ReachableWellFormed(trace, es, |es|);
    if a in trace[|es|].nodes {
      NothingIsBlocked(trace, es, |es|, a);
    }
  }

  /** Nodes keep their identity. */
  lemma SameSource(c: Cluster, e: Event, b: Name)
    requires WellFormed(c) && Enabled(c, e) && b in c.nodes
    ensures b in Step(c, e).nodes && WellFormed(Step(c, e))
    ensures LocalSource(Step(c, e).nodes[b]) == LocalSource(c.nodes[b])
  {
    StepWellFormed(c, e);
  }

  /** How a node names itself in its packets. */
  function Identity(c: Cluster, a: Name): Source
    requires a in c.nodes
  {
    if c.nodes[a].node.name in c.nodes[a].node.table then LocalSource(c.nodes[a]) else Source(a, [])
  }

  /** A direct check succeeds. From the end of any behavior, when `a` checks `t`, the ping arrives, the answer arrives
      and the check ends, each of which is then possible, `a` believes `t` to be ONLINE and the check is over. */
  lemma DirectCheckSucceeds(trace: seq<Cluster>, es: seq<Event>, a: Name, t: Name, seed: Validity)
    returns (trace': seq<Cluster>, es': seq<Event>)
    requires Behavior(trace, es) && |trace| == |es| + 1
    requires a in trace[|es|].nodes && t in trace[|es|].nodes && a != t && t in trace[|es|].nodes[a].node.table
    ensures var c := trace[|es|];
            && Behavior(trace', es') && |trace'| == |es'| + 1 == |trace| + 4 && trace <= trace'
            && es' == es + [Local(a, StartCheck(t)),
                            Local(t, Receive(Ping(Identity(c, a)), seed, seed)),
                            Local(a, Receive(Ack(Identity(c, t)), seed, seed)),
                            Local(a, Conclude(c.nodes[a].nextCheck))]
    ensures a in trace'[|es'|].nodes && Belief(trace'[|es'|], a, t).status == Online
    ensures trace[|es|].nodes[a].nextCheck !in trace'[|es'|].nodes[a].checks
  {
    hide Behavior, Step, Enabled, Act, Coherent, WellFormed, Grounded, Belief, LocalSource, Flies;
    var c := trace[|es|];
    var i, ping, ack := c.nodes[a].nextCheck, Ping(Identity(c, a)), Ack(Identity(c, t));
    AtTheEnd(trace, es, a);
    CheckPings(c, a, t);
    SameSource(c, Local(a, StartCheck(t)), t);
    trace', es' := Continued(trace, es, Local(a, StartCheck(t)));
    AtTheEnd(trace', es', a);
    c := trace'[|es'|];
    ReceiveIsEnabled(c, t, ping, seed, seed);
    PingIsAnswered(c, t, ping.source, seed, seed);
    SourceIsName(trace[|es|], a);
    Elsewhere(c, Local(t, Receive(ping, seed, seed)), a);
    trace', es' := Continued(trace', es', Local(t, Receive(ping, seed, seed)));
    AtTheEnd(trace', es', a);
    c := trace'[|es'|];
    ReceiveIsEnabled(c, a, ack, seed, seed);
    SourceIsName(trace[|es|], t);
    AckIsHeard(c, a, i, ack, seed, seed);
    trace', es' := Continued(trace', es', Local(a, Receive(ack, seed, seed)));
    AtTheEnd(trace', es', a);
    HeardIsOnline(trace'[|es'|], a, i);
    trace', es' := Continued(trace', es', Local(a, Conclude(i)));
  }

  lemma SourceIsName(c: Cluster, a: Name)
    requires WellFormed(c) && a in c.nodes
    ensures Identity(c, a) == LocalSource(c.nodes[a]) && Identity(c, a).name == a
  {
  }

  /** The second wait of a check begins, and everything stays in flight. */
  lemma WaitBegins(c: Cluster, a: Name, i: nat, t: Name)
    requires WellFormed(c) && a in c.nodes
    requires i in c.nodes[a].checks && c.nodes[a].checks[i] == Check(t, Requesting, false)
    ensures var e := Local(a, AwaitAcks(i));
            && Enabled(c, e) && a in Step(c, e).nodes && i in Step(c, e).nodes[a].checks
            && Step(c, e).nodes[a].checks[i] == Check(t, Requested, false) && c.net <= Step(c, e).net
  {
    ActCheck(c.nodes[a], AwaitAcks(i), i);
  }

  /** From the end of any behavior, when `a` asks `r` for a ping of `t` and waits, and the ping-req arrives at `r`, the
      ping at `t` and the answer at `r`, then an Ack that names `t` is on its way to `a`. */
  lemma IndirectAckReturns(trace: seq<Cluster>, es: seq<Event>, a: Name, i: nat, indirects: set<Name>, r: Name, t: Name,
                           seed: Validity)
    returns (trace': seq<Cluster>, es': seq<Event>)
    requires Behavior(trace, es) && |trace| == |es| + 1 && Enabled(trace[|es|], Local(a, PingTimeout(i, indirects)))
    requires r in indirects && r in trace[|es|].nodes && t in trace[|es|].nodes
    requires trace[|es|].nodes[a].checks[i].target == t && r != a && t != a
    ensures var c := trace[|es|];
            && Behavior(trace', es') && |trace'| == |es'| + 1 == |trace| + 5 && trace <= trace'
            && es' == es + [Local(a, PingTimeout(i, indirects)),
                            Local(a, AwaitAcks(i)),
                            Local(r, Receive(PingReq(Identity(c, a), t), seed, seed)),
                            Local(t, Receive(Ping(Identity(c, r)), seed, seed)),
                            Local(r, Receive(Ack(Identity(c, t)), seed, seed))]
    ensures a in trace'[|es'|].nodes && i in trace'[|es'|].nodes[a].checks
    ensures trace'[|es'|].nodes[a].checks[i] == Check(t, Requested, false)
    ensures Flies(trace'[|es'|], a, Ack(Identity(trace[|es|], t)))
  {
    hide Behavior, Step, Enabled, Act, Coherent, WellFormed, Grounded, LocalSource, Flies, Identity, Listeners;
    var c := trace[|es|];
    var e := Local(a, PingTimeout(i, indirects));
    NodeOf(c, e);
    var from, via, to := Identity(c, a), Identity(c, r), Identity(c, t);
    AtTheEnd(trace, es, a);
    SourceIsName(c, a);
    SourceIsName(c, r);
    SourceIsName(c, t);
    Asked(c, a, i, indirects, r);
    SameIdentity(c, e, r);
    SameIdentity(c, e, t);
    trace', es' := Continued(trace, es, e);
    AtTheEnd(trace', es', a);
    c := trace'[|es'|];
    e := Local(a, AwaitAcks(i));
    WaitBegins(c, a, i, t);
    SameIdentity(c, e, r);
    SameIdentity(c, e, t);
    StillFlies(c, e, r, PingReq(from, t));
    trace', es' := Continued(trace', es', e);
    AtTheEnd(trace', es', a);
    c := trace'[|es'|];
    e := Local(r, Receive(PingReq(from, t), seed, seed));
    ReceiveIsEnabled(c, r, PingReq(from, t), seed, seed);
    SourceIsName(c, r);
    PingReqIsServed(c, r, from, t, seed, seed);
    Elsewhere(c, e, a);
    SameIdentity(c, e, r);
    SameIdentity(c, e, t);
    trace', es' := Continued(trace', es', e);
    AtTheEnd(trace', es', a);
    c := trace'[|es'|];
    e := Local(t, Receive(Ping(via), seed, seed));
    ReceiveIsEnabled(c, t, Ping(via), seed, seed);
    SourceIsName(c, t);
    PingIsAnswered(c, t, via, seed, seed);
    Elsewhere(c, e, a);
    SameIdentity(c, e, r);
    if r == t {
      ListenerIsTold(c, r, a, Ping(via), seed, seed);
    } else {
      Elsewhere(c, e, r);
    }
    trace', es' := Continued(trace', es', e);
    AtTheEnd(trace', es', a);
    c := trace'[|es'|];
    e := Local(r, Receive(Ack(to), seed, seed));
    ReceiveIsEnabled(c, r, Ack(to), seed, seed);
    Elsewhere(c, e, a);
    if r == t {
      StillFlies(c, e, a, Ack(to));
    } else {
      ListenerIsTold(c, r, a, Ack(to), seed, seed);
    }
    trace', es' := Continued(trace', es', e);
  }

  lemma NodeOf(c: Cluster, e: Event)
    requires Enabled(c, e) && e.Local?
    ensures e.node in c.nodes
  {
  }

  lemma StillFlies(c: Cluster, e: Event, to: Name, p: Packet)
    requires Enabled(c, e) && e.Local? && Flies(c, to, p)
    ensures Flies(Step(c, e), to, p)
  {
  }

  lemma SameIdentity(c: Cluster, e: Event, b: Name)
    requires WellFormed(c) && Enabled(c, e) && b in c.nodes
    ensures b in Step(c, e).nodes && Identity(Step(c, e), b) == Identity(c, b)
  {
    SameSource(c, e, b);
  }

  lemma Asked(c: Cluster, a: Name, i: nat, indirects: set<Name>, r: Name)
    requires WellFormed(c) && Enabled(c, Local(a, PingTimeout(i, indirects))) && r in indirects
    ensures var c', t := Step(c, Local(a, PingTimeout(i, indirects))), c.nodes[a].checks[i].target;
            && a in c'.nodes && i in c'.nodes[a].checks && c'.nodes[a].checks[i] == Check(t, Requesting, false)
            && Flies(c', r, PingReq(Identity(c, a), t))
  {
    hide Step, Ready;
    TimeoutAsks(c, a, i, indirects);
  }

  /** An indirect check succeeds: when that Ack arrives and the check ends, `a` believes `t` to be ONLINE. */
  lemma IndirectCheckSucceeds(trace: seq<Cluster>, es: seq<Event>, a: Name, i: nat, indirects: set<Name>, r: Name,
                              t: Name, seed: Validity)
    returns (trace': seq<Cluster>, es': seq<Event>)
    requires Behavior(trace, es) && |trace| == |es| + 1 && Enabled(trace[|es|], Local(a, PingTimeout(i, indirects)))
    requires r in indirects && r in trace[|es|].nodes && t in trace[|es|].nodes
    requires trace[|es|].nodes[a].checks[i].target == t && r != a && t != a
    ensures var c := trace[|es|];
            && Behavior(trace', es') && |trace'| == |es'| + 1 == |trace| + 7 && trace <= trace'
            && es' == es + [Local(a, PingTimeout(i, indirects)),
                            Local(a, AwaitAcks(i)),
                            Local(r, Receive(PingReq(Identity(c, a), t), seed, seed)),
                            Local(t, Receive(Ping(Identity(c, r)), seed, seed)),
                            Local(r, Receive(Ack(Identity(c, t)), seed, seed)),
                            Local(a, Receive(Ack(Identity(c, t)), seed, seed)),
                            Local(a, Conclude(i))]
    ensures a in trace'[|es'|].nodes && Belief(trace'[|es'|], a, t).status == Online
  {
    hide Behavior, Step, Enabled, Act, Coherent, WellFormed, Grounded, Belief, LocalSource, Flies, Identity;
    var to := Identity(trace[|es|], t);
    AtTheEnd(trace, es, a);
    SourceIsName(trace[|es|], t);
    trace', es' := IndirectAckReturns(trace, es, a, i, indirects, r, t, seed);
    AtTheEnd(trace', es', a);
    ReceiveIsEnabled(trace'[|es'|], a, Ack(to), seed, seed);
    AckIsHeard(trace'[|es'|], a, i, Ack(to), seed, seed);
    trace', es' := Continued(trace', es', Local(a, Receive(Ack(to), seed, seed)));
    AtTheEnd(trace', es', a);
    HeardIsOnline(trace'[|es'|], a, i);
    trace', es' := Continued(trace', es', Local(a, Conclude(i)));
  }
}
