/** What the statuses of a member can look like over a whole run. */
module StatusHistory {
  import opened Statuses
  import opened Packets
  import opened Clusters

  /** No step takes a status where the detector may not go. */
  lemma StepPermitted(c: Cluster, e: Event, a: Name, n: Name)
    requires Enabled(c, e) && a in c.nodes
    ensures a in Step(c, e).nodes && Permitted(Belief(c, a, n).status, Belief(Step(c, e), a, n).status)
  {
    StepBelief(c, e, a, n);
  }

  /** Whatever happens, a member that a node sees ONLINE at one moment and OFFLINE at a later one was SUSPECT
      at a moment `k` strictly between. */
  lemma {:induction false} SuspectBeforeOffline(trace: seq<Cluster>, es: seq<Event>, i: nat, j: nat, a: Name, n: Name)
    returns (k: nat)
    requires Run(trace, es) && i < j <= |es|
    requires a in trace[i].nodes && a in trace[j].nodes
    requires Belief(trace[i], a, n).status == Online && Belief(trace[j], a, n).status == Offline
    ensures i < k < j && a in trace[k].nodes && Belief(trace[k], a, n).status == Suspect
  {
    hide Step, Belief;
    StepKeys(trace[j - 1], es[j - 1]);
    StepPermitted(trace[j - 1], es[j - 1], a, n);
    if Belief(trace[j - 1], a, n).status == Suspect {
      k := j - 1;
    } else {
      k := SuspectBeforeOffline(trace, es, i, j - 1, a, n);
    }
  }
}
