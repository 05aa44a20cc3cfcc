/** A run of two nodes after which one of them is SUSPECT in its own table. */
module LocalStatusRun {
  import opened Wrappers
  import opened Statuses
  import opened Packets
  import opened NodeStates
  import opened WorkerStates
  import opened Clusters
  import opened Timers
  import opened Runs

  /** `b` knows only `a`, and believes it to be ONLINE. */
  ghost predicate Persuaded(w: WorkerState, a: Name, b: Name) {
    && w.node.name == b && w.node.table.Keys == {a, b} && w.node.next == 2
    && Lookup(w.node, a) == Fact(1, Online, Some(map[])) && Known(w.node, a, a) == -1
  }

  /** `b` believes `a` to be SUSPECT, and has not told it so. */
  ghost predicate Doubting(w: WorkerState, a: Name, b: Name) {
    && w.node.name == b && w.node.table.Keys == {a, b}
    && Lookup(w.node, a) == Fact(2, Suspect, Some(map[])) && Known(w.node, a, a) == -1
  }

  /** Gossip from `a` about itself is believed by a newcomer, which has heard of nobody else. */
  lemma Believed(c: Cluster, b: Name, a: Name, v: Drawn)
    requires a != b && b in c.nodes && c.nodes[b] == Newcomer(b, a, v)
    requires Enabled(c, Local(b, Receive(BuildGossip(Newcomer(a, b, v).node, a), [], [])))
    ensures var c' := Step(c, Local(b, Receive(BuildGossip(Newcomer(a, b, v).node, a), [], [])));
            && b in c'.nodes && c'.nodes == c.nodes[b := c'.nodes[b]] && Persuaded(c'.nodes[b], a, b)
  {
    var p := BuildGossip(Newcomer(a, b, v).node, a);
    ActFacts(c.nodes[b], Receive(p, [], []), a);
    ActKnown(c.nodes[b], Receive(p, [], []), a, a);
  }

  /** A check that is not answered, of the only member there is, makes it SUSPECT under a newer clock. */
  lemma Suspected(w: WorkerState, a: Name)
    requires w.node.name != a && Persuaded(w, a, w.node.name)
    ensures Ready(w, StartCheck(a))
    ensures var w1 := Act(w, StartCheck(a)).state;
            && Ready(w1, PingTimeout(w.nextCheck, {}))
            && Doubting(Act(w1, PingTimeout(w.nextCheck, {})).state, a, w.node.name)
  {
    var w1 := Act(w, StartCheck(a)).state;
    MaskMeaning(Online);
    assert WithStatus(w1.node, Available) == {a};
    assert {a} * {a} == {a};
  }

  /** `a` announces itself to `b`, which believes it. */
  lemma Announced(a: Name, b: Name, v: Drawn) returns (trace: seq<Cluster>, es: seq<Event>)
    requires a != b
    ensures Behavior(trace, es) && |es| == 2 && |trace| == 3
    ensures trace[2].nodes.Keys == {a, b} && trace[2].nodes[a] == Newcomer(a, b, v)
    ensures Persuaded(trace[2].nodes[b], a, b)
  {
    hide Act, Step, Newcomer, Behavior, Enabled, Init, GetGossip, Persuaded;
    var c := Cluster(map[a := Newcomer(a, b, v), b := Newcomer(b, a, v)], {});
    InitNewcomers(c, a, b, v);
    BehaviorAlone(c);
    trace, es := Continued([c], [], Local(a, Disseminate(b)));
    Disseminated(c, a, b, a);
    NewcomerFacts(c, a, b, v);
    var p := BuildGossip(Newcomer(a, b, v).node, a);
    NewcomerFacts(c, b, a, v);
    ReceiveEnabled(trace[1], b, p);
    Believed(trace[1], b, a, v);
    trace, es := Continued(trace, es, Local(b, Receive(p, [], [])));
  }

  lemma Checked(c: Cluster, b: Name, a: Name)
    requires b in c.nodes && Persuaded(c.nodes[b], a, b) && a != b
    ensures var e := Local(b, StartCheck(a));
            && Enabled(c, e)
            && var c' := Step(c, e);
               var e' := Local(b, PingTimeout(c.nodes[b].nextCheck, {}));
               && Enabled(c', e') && Step(c', e').nodes == c.nodes[b := Step(c', e').nodes[b]]
               && Doubting(Step(c', e').nodes[b], a, b)
  {
    hide Act, Ready;
    Suspected(c.nodes[b], a);
  }

  /** `b` then checks `a`, in vain. */
  lemma Doubted(a: Name, b: Name, v: Drawn) returns (trace: seq<Cluster>, es: seq<Event>)
    requires a != b
    ensures Behavior(trace, es) && |es| == 4 && |trace| == 5
    ensures trace[4].nodes.Keys == {a, b} && trace[4].nodes[a] == Newcomer(a, b, v)
    ensures Doubting(trace[4].nodes[b], a, b)
  {
    hide Act, Step, Newcomer, Behavior, Enabled, Persuaded, Doubting;
    trace, es := Announced(a, b, v);
    var c := trace[2];
    Checked(c, b, a);
    trace, es := Continued(trace, es, Local(b, StartCheck(a)));
    trace, es := Continued(trace, es, Local(b, PingTimeout(c.nodes[b].nextCheck, {})));
  }

  lemma DoubtSpreads(c: Cluster, b: Name, a: Name) returns (p: Packet)
    requires a != b && b in c.nodes && Doubting(c.nodes[b], a, b)
    ensures var e := Local(b, Disseminate(a));
            && Enabled(c, e) && Step(c, e).nodes == c.nodes && Message(a, p) in Step(c, e).net
            && p.Gossip? && p.name == a && p.status == Suspect
  {
    hide Act;
    p := BuildGossip(c.nodes[b].node, a);
    Disseminated(c, b, a, a);
  }

  /** `b` then gossips that `a` is SUSPECT. */
  lemma Slandered(a: Name, b: Name, v: Drawn) returns (trace: seq<Cluster>, es: seq<Event>, p: Packet)
    requires a != b
    ensures Behavior(trace, es) && |es| == 5 && |trace| == 6
    ensures trace[5].nodes.Keys == {a, b} && trace[5].nodes[a] == Newcomer(a, b, v)
    ensures Message(a, p) in trace[5].net && p.Gossip? && p.name == a && p.status == Suspect
  {
    hide Act, Step, Newcomer, Behavior, Enabled, Doubting;
    trace, es := Doubted(a, b, v);
    p := DoubtSpreads(trace[4], b, a);
    trace, es := Continued(trace, es, Local(b, Disseminate(a)));
  }

  lemma TimerStarted(c: Cluster, a: Name, p: Packet)
    requires Enabled(c, Local(a, Receive(p, [], []))) && p.Gossip? && p.name == a && p.status == Suspect
    requires c.nodes[a].node.name == a && c.nodes[a].node.next == 2 && Belief(c, a, a) == Fact(1, Online, Some(map[]))
    ensures var c', e := Step(c, Local(a, Receive(p, [], []))), Local(a, SuspectTimer(a));
            && Enabled(c', e) && c'.nodes[a].node.name == a && Belief(c', a, a).status == Online
            && a in c'.nodes[a].suspect
            && Belief(c', a, a).clock < c'.nodes[a].node.next
  {
    var e := Local(a, Receive(p, [], []));
    StepTimer(c, e, a, a);
    StepBelief(c, e, a, a);
    ActTable(c.nodes[a], e.action);
  }

  lemma TimerFired(c: Cluster, a: Name)
    requires Enabled(c, Local(a, SuspectTimer(a))) && c.nodes[a].node.name == a
    requires Belief(c, a, a).status == Online && Belief(c, a, a).clock < c.nodes[a].node.next
    ensures var c' := Step(c, Local(a, SuspectTimer(a)));
            a in c'.nodes && Belief(c', a, a).status == Suspect
  {
    StepBelief(c, Local(a, SuspectTimer(a)), a, a);
  }

  /** In this run a suspect timer runs for a member that is ONLINE. Node "a" announces itself to "b", whose check of
      "a" times out; "b" gossips that "a" is SUSPECT; "a" refutes that, but also starts a suspect timer for itself. */
  lemma TimerOutrunsStatus(v: Drawn) returns (trace: seq<Cluster>, es: seq<Event>)
    ensures Behavior(trace, es) && |es| == 6 && |trace| == 7 && "a" in trace[6].nodes
    ensures "a" in trace[6].nodes["a"].suspect && Belief(trace[6], "a", "a").status == Online
    ensures trace[6].nodes["a"].node.name == "a" && Belief(trace[6], "a", "a").clock < trace[6].nodes["a"].node.next
  {
    hide Act, Step, Newcomer, Behavior, Belief, Enabled;
    var a := "a";
    var p;
    trace, es, p := Slandered(a, "b", v);
    NewcomerFacts(trace[5], a, "b", v);
    ReceiveEnabled(trace[5], a, p);
    TimerStarted(trace[5], a, p);
    trace, es := Continued(trace, es, Local(a, Receive(p, [], [])));
  }

  /** The documentation has the local member always ONLINE; when the timer of that run fires, it is not: "a" is SUSPECT
      in its own table. */
  lemma OwnTimerCanFire(v: Drawn) returns (trace: seq<Cluster>, es: seq<Event>)
    ensures Behavior(trace, es) && |es| == 7 && |trace| == 8 && "a" in trace[7].nodes
    ensures Belief(trace[7], "a", "a").status == Suspect
  {
    hide Act, Step, Behavior, Belief, Enabled;
    trace, es := TimerOutrunsStatus(v);
    TimerEnabled(trace[6], "a");
    TimerFired(trace[6], "a");
    trace, es := Continued(trace, es, Local("a", SuspectTimer("a")));
  }

  lemma TimerEnabled(c: Cluster, a: Name)
    requires a in c.nodes && c.nodes[a].node.name == a && a in c.nodes[a].suspect && Belief(c, a, a).status == Online
    ensures Enabled(c, Local(a, SuspectTimer(a)))
  {
  }
}
