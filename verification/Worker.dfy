/**
 The worker, updating its tables in place. Each method is one atomic action of an event loop, and is
 proved to compute the corresponding step of WorkerStates.
 */
module WorkerClass {
  import opened Wrappers
  import opened Statuses
  import opened Packets
  import opened NodeStates
  import opened Finds
  import opened Shuffles
  import opened WorkerStates
  import opened MembersClass

  class Worker {
    const members: Members
    const requests: int
    var sendQueue: seq<Message>
    var nextCheck: nat
    var checks: map<nat, Check>
    var listening: map<Name, set<Name>>
    var suspect: set<Name>

    constructor (members: Members, requests: int)
      requires members.Valid()
      ensures Valid() && this.members == members
      ensures State() == WorkerState(members.node, requests, 0, map[], map[], {}) && sendQueue == []
    {
      hide Members.Tabled, Members.Indexed;
      this.members, this.requests := members, requests;
      sendQueue, nextCheck, checks, listening, suspect := [], 0, map[], map[], {};
    }

    ghost function State(): WorkerState
      reads this, members
    {
      WorkerState(members.node, requests, nextCheck, checks, listening, suspect)
    }

    ghost predicate Valid()
      reads this, members, members.members.Values, members.statuses.Values
    {
      members.Valid() && Grounded(State())
    }

    method Send(target: Name, packet: Packet)
      modifies `sendQueue
      ensures multiset(sendQueue) == multiset(old(sendQueue)) + multiset{Message(target, packet)}
    {
      sendQueue := sendQueue + [Message(target, packet)];
    }

    /** Tells every check that waits for `member`. */
    method NotifyWaiting(member: Name)
      modifies `checks
      ensures checks == WorkerStates.NotifyWaiting(old(checks), member)
      ensures checks.Keys == old(checks).Keys && forall i :: i in checks ==>
                checks[i] == if old(checks)[i].target == member && old(checks)[i].stage != Requesting
                             then old(checks)[i].(heard := true) else old(checks)[i]
    {
      var waiting := set i | i in checks && Waits(checks[i], member);
      ghost var before := checks;
      while waiting != {}
        invariant checks.Keys == before.Keys
        invariant forall i :: i in before ==>
                    checks[i] == if Waits(before[i], member) && i !in waiting then before[i].(heard := true)
                                 else before[i]
        decreases waiting
      {
        var i :| i in waiting;
        if i in checks {
          checks := checks[i := checks[i].(heard := true)];
        }
        waiting := waiting - {i};
      }
    }

    /** Takes the members that asked for a ping of `member`. */
    method GetListening(member: Name) returns (targets: set<Name>)
      modifies `listening
      ensures targets == if member in old(listening) then old(listening)[member] else {}
      ensures listening == old(listening) - {member}
    {
      targets := if member in listening then listening[member] else {};
      listening := listening - {member};
    }

    /** Sends each target one Ack on behalf of `source`. */
    method Relay(targets: set<Name>, source: Source)
      modifies `sendQueue
      ensures multiset(sendQueue) == multiset(old(sendQueue)) + multiset(RelayedAcks(targets, source))
    {
      var left := targets;
      assert targets - left == {};
      while left != {}
        invariant left <= targets
        invariant multiset(sendQueue) == multiset(old(sendQueue)) + multiset(RelayedAcks(targets - left, source))
        decreases left
      {
        var target :| target in left;
        Send(target, Ack(source));
        assert RelayedAcks(targets - (left - {target}), source)
            == RelayedAcks(targets - left, source) + {Message(target, Ack(source))};
        assert Message(target, Ack(source)) !in RelayedAcks(targets - left, source);
        left := left - {target};
      }
      assert targets - left == targets;
    }

    method HandleStatus(target: Name, status: RealStatus)
      modifies `suspect
      ensures suspect == if status == Suspect then old(suspect) + {target} else old(suspect) - {target}
    {
      if status == Suspect {
        if target !in suspect {
          suspect := suspect + {target};
        }
      } else {
        suspect := suspect - {target};
      }
    }

    method AddListening(member: Name, target: Name)
      modifies `listening
      ensures var others := if target in old(listening) then old(listening)[target] else {};
              listening == old(listening)[target := others + {member}]
    {
      var others := if target in listening then listening[target] else {};
      listening := listening[target := others + {member}];
    }

    /** What every received packet does, whatever its kind. */
    method Hear(source: Source, seed: Validity) returns (member: Member)
      requires Valid()
      modifies this, members, members.members.Values, members.statuses.Values
      ensures Valid() && State() == WorkerStates.Hear(old(State()), source, seed).state
      ensures multiset(sendQueue) == multiset(old(sendQueue)) + WorkerStates.Hear(old(State()), source, seed).sends
      ensures members.Has(member) && member.name == source.name && members.Grown(old(members.members))
    {
      hide Members.Tabled, Members.Indexed, NodeStates.Get, RelayedAcks;
      member := members.Get(source.name, Some(source.validity), seed);
      NotifyWaiting(source.name);
      var targets := GetListening(source.name);
      members.HasAt(source.name);
      members.MatchesAt(member);
      Relay(targets, Source(member.name, member.validity));
    }

    /** The local member's identity, as it goes into every packet. */
    method LocalSource() returns (source: Source)
      requires Valid()
      ensures members.node.name in members.node.table && source == WorkerStates.LocalSource(State())
    {
      hide Members.Tabled, Members.Indexed;
      members.TableHasKeys();
      members.MatchesAt(members.local);
      source := Source(members.local.name, members.local.validity);
    }

    method AnswerPing(p: Packet, seed: Validity)
      requires Valid() && p.Ping? && p.source.name in members.node.table
      modifies `sendQueue
      ensures Valid() && Computes(Answered(old(State()), p, seed), old(sendQueue))
    {
      hide Members.Tabled, Members.Indexed;
      var local := LocalSource();
      Send(p.source.name, Ack(local));
    }

    method AnswerPingReq(p: Packet, seed: Validity)
      requires Valid() && p.PingReq? && p.source.name in members.node.table
      modifies this, members, members.members.Values, members.statuses.Values
      ensures Valid() && Computes(Answered(old(State()), p, seed), old(sendQueue))
    {
      hide Members.Tabled, Members.Indexed, NodeStates.Get;
      var local := LocalSource();
      var target := members.Get(p.target, None, seed);
      Send(p.target, Ping(local));
      AddListening(p.source.name, p.target);
    }

    method AnswerGossip(p: Packet, source: Member, seed: Validity)
      requires Valid() && p.Gossip? && p.source.name in members.node.table && source.name == p.source.name
      modifies this, members, members.members.Values, members.statuses.Values
      ensures Valid() && Computes(Answered(old(State()), p, seed), old(sendQueue))
    {
      hide Members.Tabled, Members.Indexed, NodeStates.Get, Record, Answer, Grounded;
      var local := LocalSource();
      AnswerGrounded(State(), p, seed);
      GossipAnswer(State(), p, seed);
      var member := members.Get(p.name, None, seed);
      members.HasAt(p.name);
      HandleStatus(p.name, p.status);
      members.Apply(member, source, p.clock, p.status, p.metadata);
      Send(p.source.name, GossipAck(local, p.name, p.clock));
    }

    /** Returns whether the assertion on the acknowledged clock fails. */
    method AnswerGossipAck(p: Packet, source: Member, seed: Validity) returns (failed: bool)
      requires Valid() && p.GossipAck? && members.Has(source) && source.name == p.source.name
      modifies this, members, members.members.Values, members.statuses.Values
      ensures failed <==> p.clock > old(members.nextClock)
      ensures Valid() && (!failed ==> Computes(Answered(old(State()), p, seed), old(sendQueue)))
    {
      hide Members.Tabled, Members.Indexed, NodeStates.Get, NodeStates.AckGossip;
      members.TableHasKeys();
      AnswerGrounded(State(), p, seed);
      var member := members.Get(p.name, None, seed);
      members.HasAt(p.name);
      failed := members.AckGossip(member, source, p.clock);
    }

    /** The tables and the messages sent since `before` are those of an outcome. */
    ghost predicate Computes(o: Outcome, before: seq<Message>)
      reads this, members
    {
      State() == o.state && multiset(sendQueue) == multiset(before) + o.sends
    }

    /** Handles one received packet; returns whether the assertion on an acknowledged clock fails. */
    method Handle(p: Packet, seed: Validity, seed': Validity) returns (failed: bool)
      requires Valid()
      modifies this, members, members.members.Values, members.statuses.Values
      ensures failed <==> p.GossipAck? && p.clock > old(members.nextClock)
      ensures Valid() && (!failed ==> Computes(Handled(old(State()), p, seed, seed'), old(sendQueue)))
    {
      hide Members.Tabled, Members.Indexed, NodeStates.Get, WorkerStates.Hear, WorkerStates.Answer;
      members.TableHasKeys();
      HearTable(State(), p.source, seed);
      var source := Hear(p.source, seed);
      failed := false;
      match p
      case Ping(_) => AnswerPing(p, seed');
      case PingReq(_, _) => AnswerPingReq(p, seed');
      case Ack(_) => AnswerAck(State(), p, seed');
      case Gossip(_, _, _, _, _) => AnswerGossip(p, source, seed');
      case GossipAck(_, _, _) => failed := AnswerGossipAck(p, source, seed');
    }

    /** The table is what the pure state says it is. */
    lemma Table(name: Name)
      requires Valid() && name in members.node.table
      ensures name in members.members && members.Has(members.members[name]) && members.members[name].name == name
      ensures members.node.name == members.local.name && members.node.name in members.node.table
      ensures members.Has(members.local)
    {
      members.TableHasKeys();
      members.HasAt(name);
    }

    /** Sends `target` the gossip that it needs. */
    method Disseminate(target: Name)
      requires Valid() && Ready(State(), WorkerStates.Disseminate(target))
      modifies `sendQueue
      ensures Valid() && Computes(Act(old(State()), WorkerStates.Disseminate(target)), old(sendQueue))
    {
      hide Members.Tabled, Members.Indexed, NodeStates.GetGossip;
      Table(target);
      ghost var all := NodeStates.GetGossip(members.node, target);
      var gossip := members.GetGossip(members.members[target]);
      EachOnce(gossip, all);
      for i := 0 to |gossip|
        invariant Valid() && State() == old(State())
        invariant multiset(sendQueue) == multiset(old(sendQueue))
                                         + multiset(GossipFor(members.node, target, Prefix(gossip, i)))
      {
        InTable(members.node, target, gossip[i]);
        var packet := BuildGossip(gossip[i]);
        Send(target, packet);
        GossipForNext(members.node, target, gossip, i);
      }
      WholeGossip(members.node, target, gossip);
    }

    method BuildGossip(name: Name) returns (packet: Packet)
      requires Valid() && name in members.node.table
      ensures members.node.name in members.node.table && packet == NodeStates.BuildGossip(members.node, name)
    {
      hide Members.Tabled, Members.Indexed;
      var local := LocalSource();
      Table(name);
      var member := members.members[name];
      members.MatchesAt(member);
      packet := Gossip(local, name, member.clock, member.status, member.metadataDict);
    }

    /** The first stage of a check: a ping, and an event to wait on. */
    method StartCheck(target: Name) returns (check: nat)
      requires Valid() && Ready(State(), WorkerStates.StartCheck(target))
      modifies this
      ensures check == old(nextCheck)
      ensures Valid() && Computes(Act(old(State()), WorkerStates.StartCheck(target)), old(sendQueue))
    {
      hide Members.Tabled, Members.Indexed;
      var local := LocalSource();
      Send(target, Ping(local));
      check := nextCheck;
      checks := checks[check := Check(target, Pinged, false)];
      nextCheck := nextCheck + 1;
    }

    /** The end of a check: the suspect timer and the status of its target follow its outcome. */
    method Settle(check: nat, status: RealStatus)
      requires Valid() && check in checks
      modifies this, members, members.members.Values, members.statuses.Values
      ensures Valid() && sendQueue == old(sendQueue)
      ensures State() == Settled(old(State()), check, status)
    {
      hide Members.Tabled, Members.Indexed, Record;
      SettleGrounded(State(), check, status);
      var target := checks[check].target;
      Table(target);
      HandleStatus(target, status);
      var raised := members.Update(members.members[target], Some(status), None);
      checks := checks - {check};
    }

    /** The ping's timeout: members are drawn to ask for a ping, or the check ends when there are none. Returns
        them, or `None` when the draws ran out first. */
    method PingTimeout(check: nat, draws: seq<nat>) returns (indirects: Option<set<Name>>)
      requires Valid() && check in checks
      requires checks[check].stage == Pinged && !checks[check].heard
      modifies this, members, members.members.Values, members.statuses.Values
      ensures Valid()
      ensures indirects.None? ==> State() == old(State()) && sendQueue == old(sendQueue)
      ensures indirects.Some? ==>
                && Ready(old(State()), WorkerStates.PingTimeout(check, indirects.value))
                && Computes(Act(old(State()), WorkerStates.PingTimeout(check, indirects.value)), old(sendQueue))
    {
      hide Members.Tabled, Members.Indexed, Record, Finds.Find, FindCount, Consistent, Cards, WithStatus,
           WorkerStates.Settle;
      var target := checks[check].target;
      members.TableHasKeys();
      members.IndexAt(Available);
      indirects := members.Find(requests, Available, {target}, draws);
      if indirects.Some? {
        FindIsDrawn(members.statuses[Available].State(), {target}, requests, draws);
        if indirects.value == {} {
          Settle(check, Suspect);
        } else {
          Request(indirects.value, target);
          checks := checks[check := Check(target, Requesting, false)];
        }
      }
    }

    /** The ping-reqs are sent, and the check waits on a new event. */
    method AwaitAcks(check: nat)
      requires Valid() && check in checks && checks[check].stage == Requesting
      modifies `checks
      ensures Valid() && Ready(old(State()), WorkerStates.AwaitAcks(check))
      ensures Computes(Act(old(State()), WorkerStates.AwaitAcks(check)), old(sendQueue))
    {
      hide Members.Tabled, Members.Indexed;
      members.TableHasKeys();
      checks := checks[check := Check(checks[check].target, Requested, false)];
    }

    /** Asks each of `indirects` for a ping of `target`. */
    method Request(indirects: set<Name>, target: Name)
      requires Valid()
      modifies `sendQueue
      ensures members.node.name in members.node.table
      ensures multiset(sendQueue) == multiset(old(sendQueue))
                                     + multiset(Requests(indirects, WorkerStates.LocalSource(State()), target))
    {
      hide Members.Tabled, Members.Indexed;
      var local := LocalSource();
      var left := indirects;
      assert indirects - left == {};
      while left != {}
        invariant left <= indirects
        invariant multiset(sendQueue) == multiset(old(sendQueue)) + multiset(Requests(indirects - left, local, target))
        decreases left
      {
        var i :| i in left;
        Send(i, PingReq(local, target));
        assert Requests(indirects - (left - {i}), local, target)
            == Requests(indirects - left, local, target) + {Message(i, PingReq(local, target))};
        assert Message(i, PingReq(local, target)) !in Requests(indirects - left, local, target);
        left := left - {i};
      }
      assert indirects - left == indirects;
    }

    /** The end of a check that was answered, or whose ping-reqs timed out. */
    method Conclude(check: nat)
      requires Valid() && check in checks && (checks[check].heard || checks[check].stage == Requested)
      modifies this, members, members.members.Values, members.statuses.Values
      ensures Valid() && Ready(old(State()), WorkerStates.Conclude(check))
      ensures Computes(Act(old(State()), WorkerStates.Conclude(check)), old(sendQueue))
    {
      hide Members.Tabled, Members.Indexed, Record;
      members.TableHasKeys();
      Settle(check, if checks[check].heard then Online else Suspect);
    }

    /** A suspect timer runs out. */
    method SuspectTimer(target: Name)
      requires Valid() && target in suspect
      modifies this, members, members.members.Values, members.statuses.Values
      ensures Valid() && Ready(old(State()), WorkerStates.SuspectTimer(target))
      ensures Computes(Act(old(State()), WorkerStates.SuspectTimer(target)), old(sendQueue))
    {
      hide Members.Tabled, Members.Indexed, Record;
      Table(target);
      ActGrounded(State(), WorkerStates.SuspectTimer(target));
      var raised := members.Update(members.members[target], Some(Offline), None);
      suspect := suspect - {target};
    }

    /** The application changes the local metadata. */
    method SetMetadata(metadata: Metadata)
      requires Valid()
      modifies this, members, members.members.Values, members.statuses.Values
      ensures Valid() && Ready(old(State()), WorkerStates.SetMetadata(metadata))
      ensures Computes(Act(old(State()), WorkerStates.SetMetadata(metadata)), old(sendQueue))
    {
      hide Members.Tabled, Members.Indexed, Record;
      members.TableHasKeys();
      Table(members.node.name);
      ActGrounded(State(), WorkerStates.SetMetadata(metadata));
      var raised := members.Update(members.local, None, Some(metadata));
    }
  }

  function Settled(w: WorkerState, check: nat, status: RealStatus): WorkerState {
    if check in w.checks && w.checks[check].target in w.node.table then WorkerStates.Settle(w, check, status) else w
  }

  function Requests(indirects: set<Name>, source: Source, target: Name): set<Message> {
    set i | i in indirects :: Message(i, PingReq(source, target))
  }

  function GossipFor(node: Node, target: Name, names: set<Name>): set<Message>
    requires node.name in node.table
  {
    set n | n in names :: Message(target, NodeStates.BuildGossip(node, n))
  }

  function Prefix(names: seq<Name>, i: nat): set<Name>
    requires i <= |names|
  {
    set j | 0 <= j < i :: names[j]
  }

  lemma CountedTwice(names: seq<Name>, i: nat, j: nat)
    requires i < j < |names| && names[i] == names[j]
    ensures multiset(names)[names[i]] >= 2
  {
    assert names == names[..i] + [names[i]] + names[i + 1..j] + [names[j]] + names[j + 1..];
  }

  lemma EachOnce(names: seq<Name>, all: set<Name>)
    requires multiset(names) == multiset(all)
    ensures forall i, j :: 0 <= i < j < |names| ==> names[i] != names[j]
    ensures forall i :: 0 <= i < |names| ==> names[i] in all
    ensures Prefix(names, |names|) == all
  {
    forall i, j | 0 <= i < j < |names| ensures names[i] != names[j] {
      if names[i] == names[j] {
        CountedTwice(names, i, j);
      }
    }
    forall n | n in all ensures n in Prefix(names, |names|) {
      assert n in multiset(names);
    }
    forall i | 0 <= i < |names| ensures names[i] in all {
      assert names[i] in multiset(names);
    }
  }

  lemma InTable(node: Node, target: Name, n: Name)
    requires n in NodeStates.GetGossip(node, target)
    ensures n in node.table
  {
  }

  lemma GossipForNext(node: Node, target: Name, names: seq<Name>, i: nat)
    requires node.name in node.table && i < |names|
    requires forall i, j :: 0 <= i < j < |names| ==> names[i] != names[j]
    ensures multiset(GossipFor(node, target, Prefix(names, i + 1)))
            == multiset(GossipFor(node, target, Prefix(names, i)))
               + multiset{Message(target, NodeStates.BuildGossip(node, names[i]))}
  {
    assert Prefix(names, i + 1) == Prefix(names, i) + {names[i]};
    assert names[i] !in Prefix(names, i);
    var before, m := GossipFor(node, target, Prefix(names, i)), Message(target, NodeStates.BuildGossip(node, names[i]));
    assert GossipFor(node, target, Prefix(names, i + 1)) == before + {m};
    assert m !in before;
  }

  lemma WholeGossip(node: Node, target: Name, names: seq<Name>)
    requires node.name in node.table && Prefix(names, |names|) == NodeStates.GetGossip(node, target)
    ensures GossipFor(node, target, Prefix(names, |names|)) ==
            set n | n in NodeStates.GetGossip(node, target) :: Message(target, NodeStates.BuildGossip(node, n))
  {
  }

  lemma GossipAnswer(w: WorkerState, p: Packet, seed: Validity)
    requires w.node.name in w.node.table && p.source.name in w.node.table && p.Gossip?
    ensures var node := NodeStates.Get(w.node, p.name, None, seed);
            && WorkerStates.Answer(w, p, seed).sends
               == multiset{Message(p.source.name, GossipAck(WorkerStates.LocalSource(w), p.name, p.clock))}
            && WorkerStates.Answer(w, p, seed).state
               == WorkerStates.HandleStatus(w, p.name, p.status).(
                    node := Record(node, Report(p.name, Some(p.source.name), p.clock, Some(p.status), p.metadata)))
  {
  }

  lemma AnswerAck(w: WorkerState, p: Packet, seed: Validity)
    requires w.node.name in w.node.table && p.source.name in w.node.table && p.Ack?
    ensures WorkerStates.Answer(w, p, seed) == Outcome(w, multiset{})
  {
  }

  /** The steps of WorkerStates, for a worker whose table holds the members that they need. */
  function Answered(w: WorkerState, p: Packet, seed: Validity): Outcome {
    if w.node.name in w.node.table && p.source.name in w.node.table then Answer(w, p, seed) else Outcome(w, multiset{})
  }

  function Handled(w: WorkerState, p: Packet, seed: Validity, seed': Validity): Outcome {
    if w.node.name in w.node.table then WorkerStates.Handle(w, p, seed, seed') else Outcome(w, multiset{})
  }
}
