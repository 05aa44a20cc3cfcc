/** What a running suspect timer does and does not say. */
module Timers {
  import opened Wrappers
  import opened Statuses
  import opened Packets
  import opened NodeStates
  import opened WorkerStates
  import opened Clusters

  /** The status that an event reports for `t` at `a`, by gossip, whatever its clock, or by a check's outcome. */
  function Reported(c: Cluster, e: Event, a: Name, t: Name): Option<RealStatus>
    requires Enabled(c, e)
  {
    if !e.Local? || e.node != a then None
    else match e.action
      case Receive(p, _, _) => if p.Gossip? && p.name == t then Some(p.status) else None
      case PingTimeout(check, indirects) =>
        if indirects == {} && c.nodes[a].checks[check].target == t then Some(Suspect) else None
      case Conclude(check) =>
        if c.nodes[a].checks[check].target != t then None
        else if c.nodes[a].checks[check].heard then Some(Online) else Some(Suspect)
      case _ => None
  }

  predicate Fires(e: Event, a: Name, t: Name) {
    e == Local(a, SuspectTimer(t))
  }

  /** The latest event of the first `i` that reported a status for `t` at `a`, or fired its timer, reported SUSPECT. */
  ghost predicate LastReportedSuspect(trace: seq<Cluster>, es: seq<Event>, i: nat, a: Name, t: Name)
    requires Run(trace, es) && i <= |es|
  {
    exists j :: 0 <= j < i && Reported(trace[j], es[j], a, t) == Some(Suspect)
                && forall k :: j < k < i ==> Reported(trace[k], es[k], a, t) == None && !Fires(es[k], a, t)
  }

  lemma LastReportedStep(trace: seq<Cluster>, es: seq<Event>, i: nat, a: Name, t: Name)
    requires Run(trace, es) && 0 < i <= |es|
    ensures LastReportedSuspect(trace, es, i, a, t) <==>
            var c, e := trace[i - 1], es[i - 1];
            || Reported(c, e, a, t) == Some(Suspect)
            || (Reported(c, e, a, t) == None && !Fires(e, a, t) && LastReportedSuspect(trace, es, i - 1, a, t))
  {
    hide Step, Enabled, Reported, Fires;
    if LastReportedSuspect(trace, es, i, a, t) && Reported(trace[i - 1], es[i - 1], a, t) != Some(Suspect) {
      var j :| 0 <= j < i && Reported(trace[j], es[j], a, t) == Some(Suspect)
               && forall k :: j < k < i ==> Reported(trace[k], es[k], a, t) == None && !Fires(es[k], a, t);
      assert 0 <= j < i - 1;
    }
    if LastReportedSuspect(trace, es, i - 1, a, t)
       && Reported(trace[i - 1], es[i - 1], a, t) == None && !Fires(es[i - 1], a, t) {
      var j :| 0 <= j < i - 1 && Reported(trace[j], es[j], a, t) == Some(Suspect)
               && forall k :: j < k < i - 1 ==> Reported(trace[k], es[k], a, t) == None && !Fires(es[k], a, t);
      assert 0 <= j < i && Reported(trace[j], es[j], a, t) == Some(Suspect)
             && forall k :: j < k < i ==> Reported(trace[k], es[k], a, t) == None && !Fires(es[k], a, t);
    }
  }

  lemma StepTimer(c: Cluster, e: Event, a: Name, t: Name)
    requires Enabled(c, e) && a in c.nodes
    ensures a in Step(c, e).nodes
    ensures t in Step(c, e).nodes[a].suspect <==>
            || Reported(c, e, a, t) == Some(Suspect)
            || (Reported(c, e, a, t) == None && !Fires(e, a, t) && t in c.nodes[a].suspect)
  {
    if e.Local? && e.node == a {
      ActTimers(c.nodes[a], e.action);
    }
  }

  /** What each action does to the timers. */
  lemma ActTimers(w: WorkerState, a: Action)
    requires Ready(w, a)
    ensures Act(w, a).state.suspect ==
            match a
            case Receive(p, _, _) => if p.Gossip? then HandleStatus(w, p.name, p.status).suspect else w.suspect
            case PingTimeout(check, indirects) =>
              if indirects == {} then w.suspect + {w.checks[check].target} else w.suspect
            case Conclude(check) =>
              if w.checks[check].heard then w.suspect - {w.checks[check].target}
              else w.suspect + {w.checks[check].target}
            case SuspectTimer(target) => w.suspect - {target}
            case _ => w.suspect
  {
    match a
    case Receive(p, seed, seed') =>
      AnswerTables(Hear(w, p.source, seed).state, p, seed');
    case _ =>
  }

  /** In every reachable cluster a suspect timer runs exactly when the last status reported for the member since
      the timer last fired is SUSPECT. This is what is true; the status itself plays no part. */
  lemma {:induction false} TimerAccounting(trace: seq<Cluster>, es: seq<Event>, i: nat, a: Name, t: Name)
    requires Behavior(trace, es) && i <= |es| && a in trace[i].nodes
    ensures t in trace[i].nodes[a].suspect <==> LastReportedSuspect(trace, es, i, a, t)
  {
    hide Step, LastReportedSuspect, Reported, Fires;
    if i == 0 {
      NothingReported(trace, es, a, t);
    } else {
      StepKeys(trace[i - 1], es[i - 1]);
      TimerAccounting(trace, es, i - 1, a, t);
      StepTimer(trace[i - 1], es[i - 1], a, t);
      LastReportedStep(trace, es, i, a, t);
    }
  }

  lemma NothingReported(trace: seq<Cluster>, es: seq<Event>, a: Name, t: Name)
    requires Run(trace, es)
    ensures !LastReportedSuspect(trace, es, 0, a, t)
  {
  }

  /** A timer runs for `t` at `a` if and only if `a` believes `t` to be SUSPECT. */
  ghost predicate Agrees(c: Cluster, a: Name, t: Name) {
    a in c.nodes && (t in c.nodes[a].suspect <==> Belief(c, a, t).status == Suspect)
  }

  /** The event is gossip that `a` does not apply to `t`: it is about `a` itself, or too old. */
  predicate Unapplied(c: Cluster, e: Event, a: Name, t: Name)
    requires a in c.nodes
  {
    && e.Local? && e.node == a && e.action.Receive? && e.action.packet.Gossip? && e.action.packet.name == t
    && (t == a || (e.action.packet.clock <= Belief(c, a, t).clock && e.action.packet.source.name != t))
  }

  /** What a report of `t`'s status must say, or a firing of its timer must find, for timer and status to agree
      afterwards. */
  ghost predicate Reconciles(c: Cluster, e: Event, a: Name, t: Name)
    requires Enabled(c, e) && a in c.nodes
  {
    var status := Belief(c, a, t).status;
    match Reported(c, e, a, t)
    case None => status != Online
    case Some(s) =>
      if Unapplied(c, e, a, t) then s == Suspect <==> status == Suspect
      else (s == Suspect ==> status != Offline) && (s == Offline ==> status != Online)
  }

  predicate Touches(c: Cluster, e: Event, a: Name, t: Name)
    requires Enabled(c, e)
  {
    Reported(c, e, a, t).Some? || Fires(e, a, t)
  }

  /** The report that an event makes to the table about the status of `t`, if it makes one. */
  lemma ReportedStatus(c: Cluster, e: Event, a: Name, t: Name)
    requires Enabled(c, e) && WellFormed(c) && e.Local? && e.node == a
    ensures var report := ReportOf(c.nodes[a], e.action);
            if Touches(c, e, a, t) then
              && report.Some? && report.value.subject == t
              && report.value.status == (if Fires(e, a, t) then Some(Offline) else Reported(c, e, a, t))
              && (if e.action.Receive? then report.value.source == Some(e.action.packet.source.name)
                                            && report.value.clock == e.action.packet.clock
                  else report.value.source == None && report.value.clock > Belief(c, a, t).clock)
            else report.None? || report.value.subject != t || report.value.status == None
    ensures Fires(e, a, t) ==> Reported(c, e, a, t) == None
    ensures Unapplied(c, e, a, t) ==> Touches(c, e, a, t)
    ensures e.action.Receive? && Touches(c, e, a, t) ==> e.action.packet.Gossip? && e.action.packet.name == t
  {
    assert Belief(c, a, t).clock < c.nodes[a].node.next;
  }

  /** What an event makes of a status: nothing, unless it reports one that is applied, or the timer fires. */
  lemma StepStatus(c: Cluster, e: Event, a: Name, t: Name)
    requires Enabled(c, e) && WellFormed(c) && a in c.nodes
    ensures a in Step(c, e).nodes
    ensures var status := Belief(c, a, t).status;
            Belief(Step(c, e), a, t).status ==
            if Fires(e, a, t) then Move(status, Offline)
            else if Reported(c, e, a, t) == None || Unapplied(c, e, a, t) then status
            else Move(status, Reported(c, e, a, t).value)
  {
    hide Step, Ready, ReportOf, Reported, Merge;
    StepBelief(c, e, a, t);
    if e.Local? && e.node == a {
      ReportedStatus(c, e, a, t);
      match ReportOf(c.nodes[a], e.action)
      case None =>
      case Some(r) => MergedStatus(Belief(c, a, t), t == a, r, c.nodes[a].node.next);
    } else {
      NotReported(c, e, a, t);
    }
  }

  lemma MergedStatus(f: Fact, local: bool, r: Report, next: nat)
    ensures Merge(f, local, r, next).status ==
            if r.status.None? || !Heard(f, r) || (local && r.source.Some?) then f.status
            else Move(f.status, r.status.value)
  {
  }

  lemma NotReported(c: Cluster, e: Event, a: Name, t: Name)
    requires Enabled(c, e) && !(e.Local? && e.node == a)
    ensures Reported(c, e, a, t) == None
  {
  }

  lemma FiringReportsNothing(c: Cluster, e: Event, a: Name, t: Name)
    requires Enabled(c, e) && Fires(e, a, t)
    ensures Reported(c, e, a, t) == None
  {
  }

  /** After an event, a timer and the status agree if and only if the event reconciles them, or they agreed before and
      it touches neither. */
  lemma StepAgreesIff(c: Cluster, e: Event, a: Name, t: Name)
    requires Enabled(c, e) && WellFormed(c) && a in c.nodes
    ensures Agrees(Step(c, e), a, t) <==> if Touches(c, e, a, t) then Reconciles(c, e, a, t) else Agrees(c, a, t)
  {
    hide Step, Enabled, Reported, Fires, Unapplied, Belief;
    StepStatus(c, e, a, t);
    StepTimer(c, e, a, t);
    if Fires(e, a, t) {
      FiringReportsNothing(c, e, a, t);
    }
  }

  /** Event `k` is the last of the first `i` to report a status for `t` at `a`, or to fire its timer. */
  ghost predicate LastTouch(trace: seq<Cluster>, es: seq<Event>, k: nat, i: nat, a: Name, t: Name)
    requires Run(trace, es) && k < i <= |es|
  {
    Touches(trace[k], es[k], a, t) && forall l :: k < l < i ==> !Touches(trace[l], es[l], a, t)
  }

  /** The last of the first `i` events to touch the timer or the status, if there is one, reconciles them. */
  ghost predicate LastReconciled(trace: seq<Cluster>, es: seq<Event>, i: nat, a: Name, t: Name)
    requires Run(trace, es) && i <= |es|
  {
    forall k :: 0 <= k < i && LastTouch(trace, es, k, i, a, t) ==>
      a in trace[k].nodes && Reconciles(trace[k], es[k], a, t)
  }

  lemma LastReconciledStep(trace: seq<Cluster>, es: seq<Event>, i: nat, a: Name, t: Name)
    requires Run(trace, es) && 0 < i <= |es| && a in trace[i - 1].nodes
    ensures LastReconciled(trace, es, i, a, t) <==>
            if Touches(trace[i - 1], es[i - 1], a, t) then Reconciles(trace[i - 1], es[i - 1], a, t)
            else LastReconciled(trace, es, i - 1, a, t)
  {
    hide Step, Enabled, Touches, Reconciles;
    if Touches(trace[i - 1], es[i - 1], a, t) {
      assert LastTouch(trace, es, i - 1, i, a, t);
    } else {
      forall k | 0 <= k < i - 1 ensures LastTouch(trace, es, k, i - 1, a, t) <==> LastTouch(trace, es, k, i, a, t) {
      }
    }
  }

  /** In every reachable cluster, a suspect timer runs for exactly the SUSPECT if and only if the last event to touch
      the timer or the status reconciled them. */
  lemma {:induction false} TimerAgreesIff(trace: seq<Cluster>, es: seq<Event>, i: nat, a: Name, t: Name)
    requires Behavior(trace, es) && i <= |es| && a in trace[i].nodes
    ensures Agrees(trace[i], a, t) <==> LastReconciled(trace, es, i, a, t)
  {
    hide Step, Coherent, Agrees, LastReconciled, Touches, Reconciles;
    if i == 0 {
      InitAgrees(trace, es, a, t);
    } else {
      StepKeys(trace[i - 1], es[i - 1]);
      TimerAgreesIff(trace, es, i - 1, a, t);
      ReachableWellFormed(trace, es, i - 1);
      StepAgreesIff(trace[i - 1], es[i - 1], a, t);
      LastReconciledStep(trace, es, i, a, t);
    }
  }

  lemma InitAgrees(trace: seq<Cluster>, es: seq<Event>, a: Name, t: Name)
    requires Behavior(trace, es) && a in trace[0].nodes
    ensures Agrees(trace[0], a, t) && LastReconciled(trace, es, 0, a, t)
  {
  }

  /** Gossip too old to be heard still starts the timer: a timer may run while the status stays ONLINE. */
  lemma StaleGossipStartsTimer(c: Cluster, a: Name, p: Packet, seed: Validity, seed': Validity)
    requires WellFormed(c) && Enabled(c, Local(a, Receive(p, seed, seed')))
    requires p.Gossip? && p.status == Suspect && p.clock <= Belief(c, a, p.name).clock && p.source.name != p.name
    ensures var c' := Step(c, Local(a, Receive(p, seed, seed')));
            a in c'.nodes && p.name in c'.nodes[a].suspect && Belief(c', a, p.name) == Belief(c, a, p.name)
  {
    hide Step;
    StepBelief(c, Local(a, Receive(p, seed, seed')), a, p.name);
    StepTimer(c, Local(a, Receive(p, seed, seed')), a, p.name);
  }

  /** A timer that fires on an ONLINE member, even on the node itself, leaves it SUSPECT with no timer running. */
  lemma TimerDemotes(c: Cluster, a: Name, t: Name)
    requires WellFormed(c) && Enabled(c, Local(a, SuspectTimer(t)))
    ensures var c' := Step(c, Local(a, SuspectTimer(t)));
            && a in c'.nodes && t !in c'.nodes[a].suspect
            && Belief(c', a, t).status == (if Belief(c, a, t).status == Online then Suspect else Offline)
  {
    hide Step;
    StepBelief(c, Local(a, SuspectTimer(t)), a, t);
    StepTimer(c, Local(a, SuspectTimer(t)), a, t);
    assert Belief(c, a, t).clock < c.nodes[a].node.next;
  }
}
