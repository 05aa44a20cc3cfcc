/** The failure detector over whole runs: how long a check is open, when it has heard from its target, its verdict. */
module Checks {
  import opened Statuses
  import opened Packets
  import opened NodeStates
  import opened WorkerStates
  import opened Clusters
  import opened Finds
  import opened Relays
  import opened Timers

  /** The action ends check `i`. */
  predicate Finishes(a: Action, i: nat) {
    a == Conclude(i) || a == PingTimeout(i, {})
  }

  /** What each action makes of one check, and how checks are numbered. */
  lemma ActCheck(w: WorkerState, a: Action, i: nat)
    requires Ready(w, a)
    ensures var before, after := w.checks, Act(w, a).state.checks;
            && (i in after <==> (a.StartCheck? && i == w.nextCheck) || (i in before && !Finishes(a, i)))
            && (i in after ==>
                  if a.StartCheck? && i == w.nextCheck then after[i] == Check(a.target, Pinged, false)
                  else if a == AwaitAcks(i) then after[i] == Check(before[i].target, Requested, false)
                  else if a.PingTimeout? && a.check == i then after[i] == Check(before[i].target, Requesting, false)
                  else if a.Receive? && a.packet.source.name == before[i].target && before[i].stage != Requesting
                  then after[i] == Check(before[i].target, before[i].stage, true)
                  else after[i] == before[i])
    ensures Act(w, a).state.nextCheck == if a.StartCheck? then w.nextCheck + 1 else w.nextCheck
  {
    hide Record, NodeStates.Get, FindCount, WithStatus, Answer;
    match a
    case Receive(p, seed, seed') =>
      HearTable(w, p.source, seed);
      AnswerChecks(Hear(w, p.source, seed).state, p, seed');
    case _ =>
  }

  lemma AnswerChecks(w: WorkerState, p: Packet, seed: Validity)
    requires w.node.name in w.node.table && p.source.name in w.node.table
    ensures var after := Answer(w, p, seed).state; after.checks == w.checks && after.nextCheck == w.nextCheck
  {
  }

  /** `a` starts to check `t`, as its check `i`. */
  predicate Starts(c: Cluster, e: Event, a: Name, i: nat, t: Name) {
    e == Local(a, StartCheck(t)) && a in c.nodes && c.nodes[a].nextCheck == i
  }

  /** `a` ends its check `i`. */
  predicate Ends(e: Event, a: Name, i: nat) {
    e.Local? && e.node == a && Finishes(e.action, i)
  }

  /** Check `i` of `a` begins to wait: for the answer to its ping, or to its ping-reqs. */
  predicate Begins(c: Cluster, e: Event, a: Name, i: nat) {
    && e.Local? && e.node == a
    && (e.action == AwaitAcks(i) || (e.action.StartCheck? && Starts(c, e, a, i, e.action.target)))
  }

  lemma StepCheck(c: Cluster, e: Event, a: Name, i: nat)
    requires Enabled(c, e) && a in c.nodes
    ensures a in Step(c, e).nodes
    ensures var before, after := c.nodes[a].checks, Step(c, e).nodes[a].checks;
            && (i in after <==> (Begins(c, e, a, i) && e.action.StartCheck?) || (i in before && !Ends(e, a, i)))
            && (i in after ==>
                  if Begins(c, e, a, i) then
                    after[i] == if e.action.StartCheck? then Check(e.action.target, Pinged, false)
                                else Check(before[i].target, Requested, false)
                  else
                    && after[i].target == before[i].target
                    && (after[i].stage != Requesting ==>
                          && before[i].stage != Requesting
                          && (after[i].heard <==> before[i].heard || Hears(e, a, before[i].target)))
                    && (after[i].stage == Requesting && after[i].heard ==>
                          before[i].stage == Requesting && before[i].heard))
    ensures Step(c, e).nodes[a].nextCheck ==
            c.nodes[a].nextCheck + if e.Local? && e.node == a && e.action.StartCheck? then 1 else 0
  {
    if e.Local? && e.node == a {
      ActCheck(c.nodes[a], e.action, i);
    }
  }

  /** Numbers are not used twice: those of open checks and of checks once started are below the next one. */
  lemma {:induction false} NumbersAreUsed(trace: seq<Cluster>, es: seq<Event>, n: nat, a: Name, i: nat)
    requires Behavior(trace, es) && n <= |es| && a in trace[n].nodes
    ensures i in trace[n].nodes[a].checks ==> i < trace[n].nodes[a].nextCheck
    ensures forall s, t :: 0 <= s < n && Starts(trace[s], es[s], a, i, t) ==> i < trace[n].nodes[a].nextCheck
  {
    hide Step, Enabled, Begins, Ends;
    if n == 0 {
      InitChecks(trace[0], a);
    } else {
      StepKeys(trace[n - 1], es[n - 1]);
      NumbersAreUsed(trace, es, n - 1, a, i);
      StepCheck(trace[n - 1], es[n - 1], a, i);
      BeginsAt(trace[n - 1], es[n - 1], a, i);
    }
  }

  lemma InitChecks(c: Cluster, a: Name)
    requires Init(c) && a in c.nodes
    ensures c.nodes[a].checks == map[]
  {
  }

  lemma BeginsAt(c: Cluster, e: Event, a: Name, i: nat)
    ensures Begins(c, e, a, i) && e.action.StartCheck? ==>
              e.Local? && e.node == a && a in c.nodes && c.nodes[a].nextCheck == i
  {
  }

  /** Check `i` of `a`, of `t`, was started among the first `n` events and has not ended since. */
  ghost predicate Ongoing(trace: seq<Cluster>, es: seq<Event>, n: nat, a: Name, i: nat, t: Name)
    requires Run(trace, es) && n <= |es|
  {
    exists s :: 0 <= s < n && Starts(trace[s], es[s], a, i, t) && forall l :: s < l < n ==> !Ends(es[l], a, i)
  }

  lemma OngoingStep(trace: seq<Cluster>, es: seq<Event>, n: nat, a: Name, i: nat, t: Name)
    requires Run(trace, es) && 0 < n <= |es|
    ensures Ongoing(trace, es, n, a, i, t) <==>
            || Starts(trace[n - 1], es[n - 1], a, i, t)
            || (Ongoing(trace, es, n - 1, a, i, t) && !Ends(es[n - 1], a, i))
  {
    hide Step, Enabled, Starts, Ends;
    if Ongoing(trace, es, n, a, i, t) && !Starts(trace[n - 1], es[n - 1], a, i, t) {
      var s :| 0 <= s < n && Starts(trace[s], es[s], a, i, t) && forall l :: s < l < n ==> !Ends(es[l], a, i);
      assert 0 <= s < n - 1;
    }
    if Ongoing(trace, es, n - 1, a, i, t) && !Ends(es[n - 1], a, i) {
      var s :| 0 <= s < n - 1 && Starts(trace[s], es[s], a, i, t) && forall l :: s < l < n - 1 ==> !Ends(es[l], a, i);
      assert 0 <= s < n && Starts(trace[s], es[s], a, i, t) && forall l :: s < l < n ==> !Ends(es[l], a, i);
    }
  }

  /** In every reachable cluster, the suspended checks are exactly those that were started and have not ended. */
  lemma {:induction false} OpenIffOngoing(trace: seq<Cluster>, es: seq<Event>, n: nat, a: Name, i: nat, t: Name)
    requires Behavior(trace, es) && n <= |es| && a in trace[n].nodes
    ensures i in trace[n].nodes[a].checks && trace[n].nodes[a].checks[i].target == t <==> Ongoing(trace, es, n, a, i, t)
  {
    hide Step, Enabled, Ongoing, Ends;
    if n == 0 {
      InitChecks(trace[0], a);
      NothingOngoing(trace, es, a, i, t);
    } else {
      StepKeys(trace[n - 1], es[n - 1]);
      OpenIffOngoing(trace, es, n - 1, a, i, t);
      NumbersAreUsed(trace, es, n - 1, a, i);
      OngoingStep(trace, es, n, a, i, t);
      StepCheck(trace[n - 1], es[n - 1], a, i);
      OngoingIsUsed(trace, es, n - 1, a, i, t);
    }
  }

  lemma OngoingIsUsed(trace: seq<Cluster>, es: seq<Event>, n: nat, a: Name, i: nat, t: Name)
    requires Behavior(trace, es) && n <= |es| && a in trace[n].nodes
    ensures Ongoing(trace, es, n, a, i, t) ==> i < trace[n].nodes[a].nextCheck
  {
    hide Step, Enabled, Starts, Ends;
    NumbersAreUsed(trace, es, n, a, i);
  }

  lemma NothingOngoing(trace: seq<Cluster>, es: seq<Event>, a: Name, i: nat, t: Name)
    requires Run(trace, es)
    ensures !Ongoing(trace, es, 0, a, i, t)
  {
  }

  /** Check `i` of `a` began to wait at event `s`, of the first `n`, and has not begun anew since. */
  ghost predicate WaitsSince(trace: seq<Cluster>, es: seq<Event>, s: nat, n: nat, a: Name, i: nat)
    requires Run(trace, es) && s < n <= |es|
  {
    Begins(trace[s], es[s], a, i) && forall l :: s < l < n ==> !Begins(trace[l], es[l], a, i)
  }

  /** Since check `i` of `a` last began to wait, `a` has received a packet from `t`. */
  ghost predicate HeardSince(trace: seq<Cluster>, es: seq<Event>, n: nat, a: Name, i: nat, t: Name)
    requires Run(trace, es) && n <= |es|
  {
    exists s, j :: 0 <= s < j < n && WaitsSince(trace, es, s, n, a, i) && Hears(es[j], a, t)
  }

  ghost predicate Waiting(trace: seq<Cluster>, es: seq<Event>, n: nat, a: Name, i: nat)
    requires Run(trace, es) && n <= |es|
  {
    exists s :: 0 <= s < n && WaitsSince(trace, es, s, n, a, i)
  }

  /** How one event changes since when a check has waited. */
  lemma WaitsSinceStep(trace: seq<Cluster>, es: seq<Event>, s: nat, n: nat, a: Name, i: nat)
    requires Run(trace, es) && s < n <= |es|
    ensures WaitsSince(trace, es, s, n, a, i) <==>
            if s == n - 1 then Begins(trace[s], es[s], a, i)
            else WaitsSince(trace, es, s, n - 1, a, i) && !Begins(trace[n - 1], es[n - 1], a, i)
  {
    hide Step, Enabled, Begins;
  }

  /** How one event changes whether a check waits and has heard from its target. */
  lemma WaitingStep(trace: seq<Cluster>, es: seq<Event>, n: nat, a: Name, i: nat, t: Name)
    requires Run(trace, es) && 0 < n <= |es|
    ensures Waiting(trace, es, n, a, i) <==> Begins(trace[n - 1], es[n - 1], a, i) || Waiting(trace, es, n - 1, a, i)
    ensures HeardSince(trace, es, n, a, i, t) <==>
            && !Begins(trace[n - 1], es[n - 1], a, i)
            && (HeardSince(trace, es, n - 1, a, i, t) || (Waiting(trace, es, n - 1, a, i) && Hears(es[n - 1], a, t)))
  {
    hide Step, Enabled, Begins, Hears, WaitsSince;
    var before := n - 1;
    forall s | 0 <= s < n
      ensures WaitsSince(trace, es, s, n, a, i) <==>
              if s == before then Begins(trace[s], es[s], a, i)
              else WaitsSince(trace, es, s, before, a, i) && !Begins(trace[before], es[before], a, i)
    {
      WaitsSinceStep(trace, es, s, n, a, i);
    }
    if Begins(trace[before], es[before], a, i) {
      assert WaitsSince(trace, es, before, n, a, i);
    } else {
      SameWaits(trace, es, before, n, a, i, t);
    }
  }

  lemma SameWaits(trace: seq<Cluster>, es: seq<Event>, m: nat, n: nat, a: Name, i: nat, t: Name)
    requires Run(trace, es) && n == m + 1 <= |es| && !WaitsSince(trace, es, m, n, a, i)
    requires forall s :: 0 <= s < m ==> (WaitsSince(trace, es, s, n, a, i) <==> WaitsSince(trace, es, s, m, a, i))
    ensures Waiting(trace, es, n, a, i) <==> Waiting(trace, es, m, a, i)
    ensures HeardSince(trace, es, n, a, i, t) <==>
            HeardSince(trace, es, m, a, i, t) || (Waiting(trace, es, m, a, i) && Hears(es[m], a, t))
  {
    hide Step, Enabled, Begins, Hears, WaitsSince;
    if HeardSince(trace, es, m, a, i, t) {
      var s, j :| 0 <= s < j < m && WaitsSince(trace, es, s, m, a, i) && Hears(es[j], a, t);
      assert WaitsSince(trace, es, s, n, a, i);
    }
    if HeardSince(trace, es, n, a, i, t) {
      var s, j :| 0 <= s < j < n && WaitsSince(trace, es, s, n, a, i) && Hears(es[j], a, t);
      assert WaitsSince(trace, es, s, m, a, i);
    }
    if Waiting(trace, es, m, a, i) {
      var s :| 0 <= s < m && WaitsSince(trace, es, s, m, a, i);
      assert WaitsSince(trace, es, s, n, a, i);
      assert Hears(es[m], a, t) ==> HeardSince(trace, es, n, a, i, t);
    }
    if Waiting(trace, es, n, a, i) {
      var s :| 0 <= s < n && WaitsSince(trace, es, s, n, a, i);
      assert s < m && WaitsSince(trace, es, s, m, a, i);
    }
  }

  /** In every reachable cluster, the event of a check that waits is set if and only if a packet from its target has
      been received since it began to wait. A check that is sending its ping-reqs has heard nothing. */
  lemma {:induction false} HeardIff(trace: seq<Cluster>, es: seq<Event>, n: nat, a: Name, i: nat)
    requires Behavior(trace, es) && n <= |es| && a in trace[n].nodes && i in trace[n].nodes[a].checks
    ensures Waiting(trace, es, n, a, i)
    ensures var check := trace[n].nodes[a].checks[i];
            && (check.stage == Requesting ==> !check.heard)
            && (check.stage != Requesting ==> (check.heard <==> HeardSince(trace, es, n, a, i, check.target)))
  {
    hide Step, Enabled, Ends, Hears, Waiting, HeardSince;
    if n == 0 {
      InitChecks(trace[0], a);
    } else {
      StepKeys(trace[n - 1], es[n - 1]);
      StepCheck(trace[n - 1], es[n - 1], a, i);
      WaitingStep(trace, es, n, a, i, trace[n].nodes[a].checks[i].target);
      if i in trace[n - 1].nodes[a].checks {
        HeardIff(trace, es, n - 1, a, i);
      }
    }
  }

  /** The verdict. In every run, when a check ends, its target becomes ONLINE at the node if a packet from it was
      received since the check last began to wait, and otherwise SUSPECT, unless it is OFFLINE; and the check is gone.
      A ping that times out with nobody to be asked ends the check the second way. */
  lemma CheckVerdict(trace: seq<Cluster>, es: seq<Event>, n: nat, a: Name, i: nat)
    requires Behavior(trace, es) && n < |es| && Ends(es[n], a, i)
    ensures a in trace[n].nodes && i in trace[n].nodes[a].checks && a in trace[n + 1].nodes
    ensures i !in trace[n + 1].nodes[a].checks
    ensures var t := trace[n].nodes[a].checks[i].target;
            Belief(trace[n + 1], a, t).status ==
            if HeardSince(trace, es, n, a, i, t) then Online
            else if Belief(trace[n], a, t).status == Offline then Offline else Suspect
    ensures es[n].action.PingTimeout? ==>
              !HeardSince(trace, es, n, a, i, trace[n].nodes[a].checks[i].target)
  {
    hide Step, HeardSince, Waiting, Coherent;
    HeardIff(trace, es, n, a, i);
    ReachableWellFormed(trace, es, n);
    EndOfCheck(trace[n], es[n], a, i);
  }

  lemma EndOfCheck(c: Cluster, e: Event, a: Name, i: nat)
    requires Enabled(c, e) && WellFormed(c) && Ends(e, a, i)
    ensures a in Step(c, e).nodes && i !in Step(c, e).nodes[a].checks
    ensures var t := c.nodes[a].checks[i].target;
            Belief(Step(c, e), a, t).status ==
            if c.nodes[a].checks[i].heard then Online
            else if Belief(c, a, t).status == Offline then Offline else Suspect
  {
    hide Step, Belief;
    var t := c.nodes[a].checks[i].target;
    StepCheck(c, e, a, i);
    StepStatus(c, e, a, t);
  }
}
