/** What becomes of the news that a node spreads about itself. */
module SelfNews {
  import opened Wrappers
  import opened Statuses
  import opened Packets
  import opened NodeStates
  import opened WorkerStates
  import opened Clusters
  import opened Refutation
  import opened Suppression

  /** Gossip from a node about itself is not ahead of the node, and says what the node says if it is not behind. */
  ghost predicate SelfTrue(c: Cluster, m: Message) {
    m.packet.Gossip? && m.packet.source.name == m.packet.name && m.packet.name in c.nodes ==>
      var own := Belief(c, m.packet.name, m.packet.name);
      && m.packet.clock <= own.clock
      && (m.packet.clock == own.clock ==> m.packet.status == own.status && m.packet.metadata == own.metadata)
  }

  /** A node never changes what it says about itself without a newer clock. */
  lemma StepOwnFact(c: Cluster, e: Event, b: Name)
    requires Enabled(c, e) && WellFormed(c) && b in c.nodes
    ensures b in Step(c, e).nodes
    ensures Belief(Step(c, e), b, b) == Belief(c, b, b) || Belief(Step(c, e), b, b).clock > Belief(c, b, b).clock
  {
    hide Step, Ready, ReportOf;
    StepBelief(c, e, b, b);
    if e.Local? && e.node == b {
      match ReportOf(c.nodes[b], e.action)
      case None =>
      case Some(r) => OwnReportIsNewer(c, e, b, r);
    }
  }

  lemma OwnReportIsNewer(c: Cluster, e: Event, b: Name, r: Report)
    requires Enabled(c, e) && WellFormed(c) && e.Local? && e.node == b
    requires ReportOf(c.nodes[b], e.action) == Some(r)
    ensures c.nodes[b].node.next > Belief(c, b, b).clock
    ensures r.source.None? ==> r.clock == c.nodes[b].node.next
  {
  }

  lemma StepSelfTrue(c: Cluster, e: Event, m: Message)
    requires Enabled(c, e) && Coherent(c) && (m in c.net ==> SelfTrue(c, m)) && m in Step(c, e).net
    ensures SelfTrue(Step(c, e), m)
  {
    hide Ready, Coherent;
    CoherentWellFormed(c);
    StepKeys(c, e);
    if m.packet.Gossip? && m.packet.source.name == m.packet.name && m.packet.name in c.nodes {
      var n := m.packet.name;
      StepOwnFact(c, e, n);
      if m in c.net {
        assert SelfTrue(c, m);
      } else {
        NewGossip(c, e, m);
        StepBelief(c, e, n, n);
      }
    }
  }

  /** Gossip that is new says what its sender believes, and sending it changes no belief. */
  lemma NewGossip(c: Cluster, e: Event, m: Message)
    requires Enabled(c, e) && WellFormed(c) && m in Step(c, e).net && m !in c.net && m.packet.Gossip?
    ensures e.Local? && e.action.Disseminate? && m.packet.source.name == e.node
    ensures Fact(m.packet.clock, m.packet.status, m.packet.metadata) == Belief(c, e.node, m.packet.name)
  {
    ActSends(c.nodes[e.node], e.action, m);
  }

  lemma {:induction false} RunSelfTrue(trace: seq<Cluster>, es: seq<Event>, i: nat, m: Message)
    requires Behavior(trace, es) && i <= |es| && m in trace[i].net
    ensures SelfTrue(trace[i], m)
  {
    hide Step, Coherent, SelfTrue;
    if i == 0 {
    } else {
      ReachableWellFormed(trace, es, i - 1);
      if m in trace[i - 1].net {
        RunSelfTrue(trace, es, i - 1, m);
      }
      StepSelfTrue(trace[i - 1], es[i - 1], m);
    }
  }

  /** As long as a node's clock for itself stands still, so does all that it says about itself. */
  lemma {:induction false} OwnFactStands(trace: seq<Cluster>, es: seq<Event>, i: nat, j: nat, b: Name)
    requires Behavior(trace, es) && i <= j <= |es| && b in trace[i].nodes
    ensures b in trace[j].nodes && Belief(trace[i], b, b).clock <= Belief(trace[j], b, b).clock
    ensures Belief(trace[i], b, b).clock == Belief(trace[j], b, b).clock ==>
              Belief(trace[i], b, b) == Belief(trace[j], b, b)
  {
    hide Step, Coherent, Belief;
    if i == j {
    } else {
      OwnFactStands(trace, es, i, j - 1, b);
      ReachableWellFormed(trace, es, j - 1);
      StepOwnFact(trace[j - 1], es[j - 1], b);
    }
  }

  /** The event makes `t` adopt other metadata for `b`: gossip about `b` that is newer than what `t` has, or that
      `b` itself once sent, with other metadata. */
  predicate Overwrites(c: Cluster, e: Event, t: Name, b: Name) {
    && t in c.nodes && e.Local? && e.node == t && e.action.Receive?
    && e.action.packet.Gossip? && e.action.packet.name == b
    && (e.action.packet.clock > Belief(c, t, b).clock || e.action.packet.source.name == b)
    && e.action.packet.metadata.Some? && e.action.packet.metadata != Belief(c, t, b).metadata
  }

  /** The reports of other members' metadata are those of gossip. */
  lemma RemoteReport(w: WorkerState, a: Action, r: Report)
    requires Ready(w, a) && ReportOf(w, a) == Some(r) && r.subject != w.node.name
    ensures a.Receive? || r.metadata == None
    ensures a.Receive? ==> a.packet.Gossip? && r.subject == a.packet.name && r.source == Some(a.packet.source.name)
                           && r.clock == a.packet.clock && r.metadata == a.packet.metadata
  {
  }

  lemma GossipIsReported(w: WorkerState, a: Action)
    requires Ready(w, a) && a.Receive? && a.packet.Gossip?
    ensures ReportOf(w, a).Some? && ReportOf(w, a).value.subject == a.packet.name
  {
  }

  /** What `t` holds for another node `b` changes exactly when it is overwritten. */
  lemma MetadataStandsIff(c: Cluster, e: Event, t: Name, b: Name)
    requires Enabled(c, e) && WellFormed(c) && t in c.nodes && t != b
    ensures t in Step(c, e).nodes
    ensures Belief(Step(c, e), t, b).metadata == Belief(c, t, b).metadata <==> !Overwrites(c, e, t, b)
  {
    hide Step, Ready, ReportOf;
    StepBelief(c, e, t, b);
    if e.Local? && e.node == t {
      if e.action.Receive? && e.action.packet.Gossip? {
        GossipIsReported(c.nodes[t], e.action);
      }
      match ReportOf(c.nodes[t], e.action)
      case None =>
      case Some(r) =>
        if r.subject == b {
          RemoteReport(c.nodes[t], e.action, r);
        }
    }
  }

  lemma OverwrittenBy(c: Cluster, e: Event, t: Name, b: Name)
    requires Enabled(c, e) && WellFormed(c) && Overwrites(c, e, t, b) && t != b
    ensures t in Step(c, e).nodes && Belief(Step(c, e), t, b).metadata == e.action.packet.metadata
  {
    hide Step, Ready;
    StepBelief(c, e, t, b);
  }

  /** Event `k` is the last of the first `j` to overwrite what `t` holds for `b`. */
  ghost predicate LastOverwrite(trace: seq<Cluster>, es: seq<Event>, k: nat, j: nat, t: Name, b: Name)
    requires Run(trace, es) && k < j <= |es|
  {
    Overwrites(trace[k], es[k], t, b) && forall l :: k < l < j ==> !Overwrites(trace[l], es[l], t, b)
  }

  /** The last event, if any, that from `i` to `j` overwrote what `t` holds for `b` carried `metadata`. */
  ghost predicate LastCarried(trace: seq<Cluster>, es: seq<Event>, i: nat, j: nat, t: Name, b: Name,
                              metadata: Option<Metadata>)
    requires Run(trace, es) && i <= j <= |es|
  {
    forall k :: i <= k < j && LastOverwrite(trace, es, k, j, t, b) ==> es[k].action.packet.metadata == metadata
  }

  lemma LastCarriedStep(trace: seq<Cluster>, es: seq<Event>, i: nat, j: nat, t: Name, b: Name,
                        metadata: Option<Metadata>)
    requires Run(trace, es) && i < j <= |es|
    ensures LastCarried(trace, es, i, j, t, b, metadata) <==>
            if Overwrites(trace[j - 1], es[j - 1], t, b) then es[j - 1].action.packet.metadata == metadata
            else LastCarried(trace, es, i, j - 1, t, b, metadata)
  {
    hide Step, Enabled, Overwrites;
    if Overwrites(trace[j - 1], es[j - 1], t, b) {
      assert LastOverwrite(trace, es, j - 1, j, t, b);
    } else {
      forall k | i <= k < j - 1
        ensures LastOverwrite(trace, es, k, j - 1, t, b) <==> LastOverwrite(trace, es, k, j, t, b)
      {
      }
    }
  }

  /** What `t` holds at `j` is what it held at `i` if and only if the last overwrite in between, if any, restored it. */
  lemma {:induction false} MetadataIsLastIff(trace: seq<Cluster>, es: seq<Event>, i: nat, j: nat, t: Name, b: Name)
    requires Behavior(trace, es) && i <= j <= |es| && t in trace[i].nodes && t != b
    ensures t in trace[j].nodes
    ensures Belief(trace[j], t, b).metadata == Belief(trace[i], t, b).metadata <==>
            LastCarried(trace, es, i, j, t, b, Belief(trace[i], t, b).metadata)
  {
    hide Step, Coherent, Belief, Overwrites, LastCarried;
    if i == j {
      NothingCarried(trace, es, i, t, b, Belief(trace[i], t, b).metadata);
    } else {
      MetadataIsLastIff(trace, es, i, j - 1, t, b);
      ReachableWellFormed(trace, es, j - 1);
      LastCarriedStep(trace, es, i, j, t, b, Belief(trace[i], t, b).metadata);
      MetadataStandsIff(trace[j - 1], es[j - 1], t, b);
      if Overwrites(trace[j - 1], es[j - 1], t, b) {
        OverwrittenBy(trace[j - 1], es[j - 1], t, b);
      }
    }
  }

  lemma NothingCarried(trace: seq<Cluster>, es: seq<Event>, i: nat, t: Name, b: Name, metadata: Option<Metadata>)
    requires Run(trace, es) && i <= |es|
    ensures LastCarried(trace, es, i, i, t, b, metadata)
  {
  }

  /** Delivery. In every reachable cluster, once `b` would no longer gossip to `t` about itself, there was a moment
      at which `t` processed gossip from `b` and came to hold exactly the metadata that `b` has now, and the status
      that `b` has now as far as the transition rule allows. And `t` holds that metadata now if and only if the last
      event since then to overwrite it, if there was one, carried it again. */
  lemma SelfNewsArrived(trace: seq<Cluster>, es: seq<Event>, i: nat, b: Name, t: Name) returns (j: nat)
    requires Behavior(trace, es) && i <= |es| && b in trace[i].nodes
    requires b !in GetGossip(trace[i].nodes[b].node, t)
    ensures j < i && Processes(es[j], t, b, b, Belief(trace[i], b, b).clock)
    ensures t in trace[j].nodes && t in trace[j + 1].nodes
    ensures Belief(trace[j + 1], t, b).metadata == Belief(trace[i], b, b).metadata
    ensures Belief(trace[j + 1], t, b).status == Move(Belief(trace[j], t, b).status, Belief(trace[i], b, b).status)
    ensures t in trace[i].nodes
    ensures Belief(trace[i], t, b).metadata == Belief(trace[i], b, b).metadata <==>
            LastCarried(trace, es, j + 1, i, t, b, Belief(trace[i], b, b).metadata)
  {
    hide Step, Act, GetGossip, Move, LastCarried;
    ReachableWellFormed(trace, es, i);
    j := SuppressionIsJustified(trace, es, i, b, t, b);
    ReachableWellFormed(trace, es, j);
    var a := es[j].action;
    var m := Message(t, a.packet);
    RunKeys(trace, es, j, i);
    assert Authentic(trace[j], m);
    RunSelfTrue(trace, es, j, m);
    OwnFactStands(trace, es, j, i, b);
    SelfGossipIsBelieved(trace[j], t, a.packet, a.seed, a.seed');
    MetadataIsLastIff(trace, es, j + 1, i, t, b);
  }

  /** How news is lost. If `t` does not hold the metadata that `b` has now, although `b` would no longer gossip to `t`
      about itself, then after it had arrived `t` was talked out of it: by gossip of `b` itself that is older than what
      `b` says now, out of order or repeated, or by gossip of another member under a newer clock than `t` held. */
  lemma NewsLostBy(trace: seq<Cluster>, es: seq<Event>, i: nat, b: Name, t: Name) returns (l: nat)
    requires Behavior(trace, es) && i <= |es| && b in trace[i].nodes && t in trace[i].nodes
    requires b !in GetGossip(trace[i].nodes[b].node, t)
    requires Belief(trace[i], t, b).metadata != Belief(trace[i], b, b).metadata
    ensures l < i && Overwrites(trace[l], es[l], t, b)
    ensures var p := es[l].action.packet;
            && p.metadata == Belief(trace[i], t, b).metadata
            && if p.source.name == b then p.clock < Belief(trace[i], b, b).clock
               else p.clock > Belief(trace[l], t, b).clock
    ensures exists j :: 0 <= j < l && Processes(es[j], t, b, b, Belief(trace[i], b, b).clock)
  {
    hide Step, Act, GetGossip, LastCarried, Belief, Processes;
    var j := SelfNewsArrived(trace, es, i, b, t);
    var own := Belief(trace[i], b, b);
    l := LastLoss(trace, es, j + 1, i, t, b, own.metadata);
    MetadataAfterLast(trace, es, l, i, t, b);
    var p := es[l].action.packet;
    if p.source.name == b {
      RunKeys(trace, es, l, i);
      RunSelfTrue(trace, es, l, Message(t, p));
      OwnFactStands(trace, es, l, i, b);
    }
  }

  lemma LastLoss(trace: seq<Cluster>, es: seq<Event>, i: nat, j: nat, t: Name, b: Name, metadata: Option<Metadata>)
    returns (k: nat)
    requires Run(trace, es) && i <= j <= |es| && !LastCarried(trace, es, i, j, t, b, metadata)
    ensures i <= k < j && LastOverwrite(trace, es, k, j, t, b) && es[k].action.packet.metadata != metadata
  {
    hide Step, Enabled;
    k :| i <= k < j && LastOverwrite(trace, es, k, j, t, b) && es[k].action.packet.metadata != metadata;
  }

  /** What the last overwrite carried is what is held. */
  lemma MetadataAfterLast(trace: seq<Cluster>, es: seq<Event>, k: nat, j: nat, t: Name, b: Name)
    requires Behavior(trace, es) && k < j <= |es| && LastOverwrite(trace, es, k, j, t, b) && t != b
    ensures t in trace[j].nodes && Belief(trace[j], t, b).metadata == es[k].action.packet.metadata
  {
    hide Step, Coherent, Belief, Overwrites;
    ReachableWellFormed(trace, es, k);
    OverwrittenBy(trace[k], es[k], t, b);
    MetadataIsLastIff(trace, es, k + 1, j, t, b);
  }
}
