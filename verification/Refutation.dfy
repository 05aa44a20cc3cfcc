/** A node that is spoken of wrongly refutes it with a newer clock; refutation wins, and it ends. */
module Refutation {
  import opened Wrappers
  import opened Statuses
  import opened Packets
  import opened NodeStates
  import opened WorkerStates
  import opened Clusters
  import opened Sums

  /** The report that a node makes of gossip it receives. */
  function GossipReport(p: Packet): Report
    requires p.Gossip?
  {
    Report(p.name, Some(p.source.name), p.clock, Some(p.status), p.metadata)
  }

  /** After `b` processes newer gossip that says something else about itself, its status and metadata are what
      they were; its clock exceeds its old one and all that any target has acknowledged, so that everyone
      will be gossiped about `b`. */
  lemma RefutationWins(c: Cluster, b: Name, p: Packet, seed: Validity, seed': Validity)
    requires Coherent(c) && Enabled(c, Local(b, Receive(p, seed, seed')))
    requires p.Gossip? && p.name == b && p.clock > Belief(c, b, b).clock && Conflicts(Belief(c, b, b), GossipReport(p))
    ensures var c' := Step(c, Local(b, Receive(p, seed, seed')));
            && b in c'.nodes
            && Belief(c', b, b) == Belief(c, b, b).(clock := c.nodes[b].node.next)
            && Belief(c', b, b).clock > Belief(c, b, b).clock
            && (forall t :: Known(c'.nodes[b].node, t, b) < Belief(c', b, b).clock)
            && (forall t :: b in GetGossip(c'.nodes[b].node, t))
  {
    hide Step, Ready;
    var e := Local(b, Receive(p, seed, seed'));
    StepBelief(c, e, b, b);
    RefutationUnknown(c, b, p, seed, seed');
    RefuterStays(c, e, b);
    assert Belief(c, b, b).clock < c.nodes[b].node.next;
  }

  lemma RefuterStays(c: Cluster, e: Event, b: Name)
    requires WellFormed(c) && Enabled(c, e) && b in c.nodes
    ensures var c' := Step(c, e);
            b in c'.nodes && c'.nodes[b].node.name == b && b in c'.nodes[b].node.table
  {
    StepWellFormed(c, e);
  }

  lemma RefutationUnknown(c: Cluster, b: Name, p: Packet, seed: Validity, seed': Validity)
    requires Coherent(c) && Enabled(c, Local(b, Receive(p, seed, seed'))) && p.Gossip?
    ensures var c' := Step(c, Local(b, Receive(p, seed, seed')));
            b in c'.nodes && forall t :: Known(c'.nodes[b].node, t, b) <= Belief(c, b, b).clock
  {
    var e := Local(b, Receive(p, seed, seed'));
    forall t ensures Known(Step(c, e).nodes[b].node, t, b) <= Belief(c, b, b).clock {
      ActKnown(c.nodes[b], e.action, t, b);
      assert Known(c.nodes[b].node, t, b) <= Belief(c, b, b).clock;
    }
  }

  /** Whoever receives what a member says about itself, its refutation or anything older, adopts its metadata and
      moves to its status as far as the transition rule allows, however much newer its own clock for the member is;
      that clock never falls. */
  lemma SelfGossipIsBelieved(c: Cluster, t: Name, p: Packet, seed: Validity, seed': Validity)
    requires WellFormed(c) && Enabled(c, Local(t, Receive(p, seed, seed')))
    requires p.Gossip? && p.source.name == p.name && p.name != t
    ensures var c', f := Step(c, Local(t, Receive(p, seed, seed'))), Belief(c, t, p.name);
            && t in c'.nodes
            && Belief(c', t, p.name).status == Move(f.status, p.status)
            && Belief(c', t, p.name).metadata == (if p.metadata.Some? then p.metadata else f.metadata)
            && f.clock <= Belief(c', t, p.name).clock <= (if p.clock > f.clock then p.clock else f.clock)
  {
    hide Step, Ready;
    StepBelief(c, Local(t, Receive(p, seed, seed')), t, p.name);
  }

  /** Events that only spread news: packets received or lost, and dissemination. */
  predicate Gossiping(e: Event) {
    e.Local? ==> e.action.Receive? || e.action.Disseminate?
  }

  function Own(c: Cluster, b: Name): nat
    requires b in c.nodes
  {
    Belief(c, b, b).clock
  }

  /** The clocks that gossip in flight claims for `b`. */
  ghost function FlyingClocks(c: Cluster, b: Name): set<nat> {
    set m | m in c.net && m.packet.Gossip? && m.packet.name == b :: m.packet.clock
  }

  /** The clocks that others, or gossip in flight, claim for `b`. */
  ghost function Claims(c: Cluster, b: Name): set<nat> {
    (set a | a in c.nodes && a != b :: Belief(c, a, b).clock) + FlyingClocks(c, b)
  }

  /** Every clock that is stored or gossiped anywhere. */
  ghost function AllClocks(c: Cluster): set<nat> {
    (set a, n | a in c.nodes && n in c.nodes[a].node.table :: Belief(c, a, n).clock)
    + (set m | m in c.net && m.packet.Gossip? :: m.packet.clock)
  }

  /** How far the claims about `b` are ahead of `b`: the refutations it can still be driven to. */
  ghost function Remaining(c: Cluster, b: Name): nat
    requires b in c.nodes
  {
    var claimed := MaxOf(Claims(c, b));
    if claimed > Own(c, b) then claimed - Own(c, b) else 0
  }

  ghost function RemainingMap(c: Cluster): map<Name, nat> {
    map b | b in c.nodes :: Remaining(c, b)
  }

  /** The largest clock in the cluster plus all the refutations that remain. */
  ghost function Potential(c: Cluster): nat {
    MaxOf(AllClocks(c)) + Sum(RemainingMap(c))
  }

  /** A belief's clock after a gossiping event: what it was, what gossip in flight claimed for another node,
      or the next clock of the node itself, when gossip in flight was ahead of it. */
  lemma BeliefClockAfter(c: Cluster, e: Event, a: Name, n: Name)
    requires Enabled(c, e) && Coherent(c) && Gossiping(e) && a in c.nodes
    ensures a in Step(c, e).nodes
    ensures var k := Belief(Step(c, e), a, n).clock;
            || k == Belief(c, a, n).clock
            || (a != n && k in FlyingClocks(c, n))
            || (&& a == n && e.Local? && e.node == a && k == c.nodes[a].node.next && e.action.Receive?
                && e.action.packet.Gossip? && e.action.packet.clock > Own(c, n)
                && e.action.packet.clock in FlyingClocks(c, n))
  {
    hide Step, Ready;
    StepBelief(c, e, a, n);
    if e.Local? && e.node == a && e.action.Receive? && e.action.packet.Gossip? {
      var m := Message(a, e.action.packet);
      assert Authentic(c, m);
      assert m.packet.clock in FlyingClocks(c, m.packet.name);
    }
  }

  /** No new claim about `b` is ahead of both the old claims and `b` itself. */
  lemma ClaimAfter(c: Cluster, e: Event, b: Name, x: nat)
    requires Enabled(c, e) && Coherent(c) && Gossiping(e) && b in c.nodes && x in Claims(Step(c, e), b)
    ensures x <= MaxOf(Claims(c, b)) || x <= Own(c, b)
  {
    hide Step, Ready;
    var c' := Step(c, e);
    if x in FlyingClocks(c', b) {
      var m :| m in c'.net && m.packet.Gossip? && m.packet.name == b && m.packet.clock == x;
      FlyingClaim(c, e, b, m);
    } else {
      var a :| a in c'.nodes && a != b && Belief(c', a, b).clock == x;
      StepKeys(c, e);
      BeliefClockAfter(c, e, a, b);
      if x == Belief(c, a, b).clock {
        assert x in Claims(c, b);
      } else {
        assert x in FlyingClocks(c, b);
        assert x in Claims(c, b);
      }
    }
  }

  lemma FlyingClaim(c: Cluster, e: Event, b: Name, m: Message)
    requires Enabled(c, e) && WellFormed(c) && m in Step(c, e).net && m.packet.Gossip? && m.packet.name == b
    requires b in c.nodes
    ensures m.packet.clock in Claims(c, b) || m.packet.clock == Own(c, b)
  {
    hide Step, Ready;
    FlyingBefore(c, e, m);
    if m in c.net {
      assert m.packet.clock in FlyingClocks(c, b);
    } else if e.node != b {
      assert Belief(c, e.node, b).clock in Claims(c, b);
    }
  }

  /** Gossip in flight after an event was in flight before, or repeats a belief of its sender. */
  lemma FlyingBefore(c: Cluster, e: Event, m: Message)
    requires Enabled(c, e) && WellFormed(c) && m in Step(c, e).net && m.packet.Gossip?
    ensures m in c.net
            || (e.Local? && m.packet.name in c.nodes[e.node].node.table
                && m.packet.clock == Belief(c, e.node, m.packet.name).clock)
  {
    if m !in c.net {
      ActSends(c.nodes[e.node], e.action, m);
    }
  }

  predicate Bumps(c: Cluster, e: Event, b: Name)
    requires Enabled(c, e) && b in c.nodes
  {
    StepKeys(c, e);
    Own(Step(c, e), b) > Own(c, b)
  }

  /** A gossiping event never gives a node more refutations to make, and a refutation uses one up. */
  lemma RemainingAfter(c: Cluster, e: Event, b: Name)
    requires Enabled(c, e) && Coherent(c) && Gossiping(e) && b in c.nodes
    ensures b in Step(c, e).nodes
    ensures Remaining(Step(c, e), b) + (if Bumps(c, e, b) then 1 else 0) <= Remaining(c, b)
    ensures Bumps(c, e, b) ==> e.Local? && e.node == b
  {
    hide Step;
    var c' := Step(c, e);
    BeliefClockAfter(c, e, b, b);
    StepClock(c, e, b, b);
    var claimed := MaxOf(Claims(c', b));
    if claimed != 0 {
      ClaimAfter(c, e, b, claimed);
    }
  }

  /** No clock in the cluster gets ahead of the largest, except by one when a node refutes. */
  lemma ClockAfter(c: Cluster, e: Event, x: nat)
    requires Enabled(c, e) && Coherent(c) && Gossiping(e) && x in AllClocks(Step(c, e))
    ensures x <= MaxOf(AllClocks(c)) + (if e.Local? && Bumps(c, e, e.node) then 1 else 0)
  {
    var c' := Step(c, e);
    if exists m :: m in c'.net && m.packet.Gossip? && m.packet.clock == x {
      var m :| m in c'.net && m.packet.Gossip? && m.packet.clock == x;
      FlyingBefore(c, e, m);
      assert x in AllClocks(c);
    } else {
      var a, n :| a in c'.nodes && n in c'.nodes[a].node.table && Belief(c', a, n).clock == x;
      StepKeys(c, e);
      TableClockAfter(c, e, a, n);
    }
  }

  lemma TableClockAfter(c: Cluster, e: Event, a: Name, n: Name)
    requires Enabled(c, e) && Coherent(c) && Gossiping(e) && a in c.nodes
    ensures a in Step(c, e).nodes
    ensures Belief(Step(c, e), a, n).clock <= MaxOf(AllClocks(c)) + (if e.Local? && Bumps(c, e, e.node) then 1 else 0)
  {
    hide Step;
    BeliefClockAfter(c, e, a, n);
    var k := Belief(Step(c, e), a, n).clock;
    if k == Belief(c, a, n).clock {
      if n in c.nodes[a].node.table {
        assert k in AllClocks(c);
      }
    } else if a != n {
      assert k in FlyingClocks(c, n);
      assert k in AllClocks(c);
    } else {
      var top :| top in c.nodes[a].node.table && Belief(c, a, top).clock + 1 == c.nodes[a].node.next;
      assert Belief(c, a, top).clock in AllClocks(c);
    }
  }

  /** The largest clock plus the refutations that remain never increases while news only spreads. */
  lemma PotentialNeverIncreases(c: Cluster, e: Event)
    requires Enabled(c, e) && Coherent(c) && Gossiping(e)
    ensures Potential(Step(c, e)) <= Potential(c)
  {
    hide Step;
    var c' := Step(c, e);
    StepKeys(c, e);
    var before, after := RemainingMap(c), RemainingMap(c');
    forall b | b in before ensures after[b] <= before[b] {
      RemainingAfter(c, e, b);
    }
    var largest := MaxOf(AllClocks(c'));
    if largest != 0 {
      ClockAfter(c, e, largest);
    }
    if e.Local? && Bumps(c, e, e.node) {
      RemainingAfter(c, e, e.node);
      SumDecreases(before, after, e.node);
    } else {
      SumMonotone(before, after);
    }
  }

  /** How often `b` advanced its own clock in the first `i` events. */
  ghost function BumpCount(trace: seq<Cluster>, es: seq<Event>, i: nat, b: Name): nat
    requires Run(trace, es) && i <= |es|
    requires forall j :: 0 <= j <= i ==> b in trace[j].nodes
  {
    if i == 0 then 0
    else BumpCount(trace, es, i - 1, b) + (if Bumps(trace[i - 1], es[i - 1], b) then 1 else 0)
  }

  /** Refutation terminates. In any run of gossiping events from any coherent cluster, each node advances its own
      clock at most as often as the claims about it were ahead of it at the start, and no clock ever exceeds the
      largest initial one by more than the sum of those leads. */
  lemma {:induction false} RefutationTerminates(trace: seq<Cluster>, es: seq<Event>, i: nat, b: Name)
    requires Run(trace, es) && Coherent(trace[0]) && b in trace[0].nodes && i <= |es|
    requires forall j :: 0 <= j < |es| ==> Gossiping(es[j])
    ensures forall j :: 0 <= j <= i ==> b in trace[j].nodes
    ensures BumpCount(trace, es, i, b) + Remaining(trace[i], b) <= Remaining(trace[0], b)
    ensures Potential(trace[i]) <= Potential(trace[0])
    ensures forall x :: x in AllClocks(trace[i]) ==> x <= Potential(trace[0])
  {
    hide Step, Coherent, Remaining, Gossiping;
    if i == 0 {
    } else {
      RefutationTerminates(trace, es, i - 1, b);
      RunKeys(trace, es, 0, i);
      RunCoherent(trace, es, i - 1);
      RemainingAfter(trace[i - 1], es[i - 1], b);
      PotentialNeverIncreases(trace[i - 1], es[i - 1]);
    }
  }
}
