/**
 One node's worker as a value, and each of its atomic actions as one pure step: handling a
 packet, disseminating, the stages of a check, a suspect timer, and a change of local metadata.
 The class in Worker.dfy is proved to compute these steps.
 */
module WorkerStates {
  import opened Wrappers
  import opened Statuses
  import opened Packets
  import opened NodeStates
  import opened Finds

  /** Whether a check awaits the answer to its ping, is sending its ping-reqs, or awaits the answer to them. While
      it is sending, its first event is gone and its second one is not yet there. */
  datatype Stage = Pinged | Requesting | Requested

  /** A suspended check and the event that it waits on. */
  datatype Check = Check(target: Name, stage: Stage, heard: bool)

  datatype WorkerState = WorkerState(node: Node,
                                     requests: int,
                                     nextCheck: nat,
                                     checks: map<nat, Check>,
                                     listening: map<Name, set<Name>>,
                                     suspect: set<Name>)

  datatype Outcome = Outcome(state: WorkerState, sends: multiset<Message>)

  datatype Action =
    | Receive(packet: Packet, seed: Validity, seed': Validity)
    | Disseminate(target: Name)
    | StartCheck(target: Name)
    | PingTimeout(check: nat, indirects: set<Name>)
    | AwaitAcks(check: nat)
    | Conclude(check: nat)
    | SuspectTimer(target: Name)
    | SetMetadata(metadata: Metadata)

  function LocalSource(w: WorkerState): Source
    requires w.node.name in w.node.table
  {
    Source(w.node.name, w.node.table[w.node.name].validity)
  }

  predicate Waits(check: Check, source: Name) {
    check.target == source && check.stage != Requesting
  }

  /** Sets the event of every check that waits for `source`. */
  function NotifyWaiting(checks: map<nat, Check>, source: Name): map<nat, Check> {
    map i | i in checks :: if Waits(checks[i], source) then checks[i].(heard := true) else checks[i]
  }

  function Listeners(w: WorkerState, target: Name): set<Name> {
    if target in w.listening then w.listening[target] else {}
  }

  function AddListening(w: WorkerState, member: Name, target: Name): WorkerState {
    w.(listening := w.listening[target := Listeners(w, target) + {member}])
  }

  /** One Ack on behalf of `source` for each of `targets`. */
  function RelayedAcks(targets: set<Name>, source: Source): set<Message> {
    set t | t in targets :: Message(t, Ack(source))
  }

  /** What any packet does, whatever its kind: its source is looked up, waiting checks are told,
      and everyone who asked for a ping of the source gets an Ack. */
  function Hear(w: WorkerState, source: Source, seed: Validity): (o: Outcome)
    ensures source.name in o.state.node.table
  {
    var node := Get(w.node, source.name, Some(source.validity), seed);
    Outcome(w.(node := node,
               checks := NotifyWaiting(w.checks, source.name),
               listening := w.listening - {source.name}),
            multiset(RelayedAcks(Listeners(w, source.name), Source(source.name, node.table[source.name].validity))))
  }

  /** Starts or cancels the suspect timer of a member. */
  function HandleStatus(w: WorkerState, target: Name, status: RealStatus): WorkerState {
    w.(suspect := if status == Suspect then w.suspect + {target} else w.suspect - {target})
  }

  /** What a packet does according to its kind, once it has been heard. */
  function Answer(w: WorkerState, p: Packet, seed: Validity): Outcome
    requires w.node.name in w.node.table && p.source.name in w.node.table
  {
    var local, source := LocalSource(w), p.source.name;
    match p
    case Ping(_) => Outcome(w, multiset{Message(source, Ack(local))})
    case PingReq(_, target) =>
      var w' := w.(node := Get(w.node, target, None, seed));
      Outcome(AddListening(w', source, target), multiset{Message(target, Ping(local))})
    case Ack(_) => Outcome(w, multiset{})
    case Gossip(_, n, clock, status, metadata) =>
      var w' := HandleStatus(w.(node := Get(w.node, n, None, seed)), n, status);
      Outcome(w'.(node := Record(w'.node, Report(n, Some(source), clock, Some(status), metadata))),
              multiset{Message(source, GossipAck(local, n, clock))})
    case GossipAck(_, n, clock) =>
      var node := Get(w.node, n, None, seed);
      Outcome(w.(node := AckGossip(node, n, source, clock)), multiset{})
  }

  function Handle(w: WorkerState, p: Packet, seed: Validity, seed': Validity): Outcome
    requires w.node.name in w.node.table
  {
    var heard := Hear(w, p.source, seed);
    var answer := Answer(heard.state, p, seed');
    Outcome(answer.state, heard.sends + answer.sends)
  }

  /** Ends a check: the target's timer is started or cancelled, and its status updated. */
  function Settle(w: WorkerState, check: nat, status: RealStatus): WorkerState
    requires check in w.checks && w.checks[check].target in w.node.table
  {
    var target := w.checks[check].target;
    var w' := HandleStatus(w, target, status);
    w'.(node := Record(w'.node, OwnReport(w'.node, target, Some(status), None)), checks := w'.checks - {check})
  }

  /** When an action can happen. A ping-req may go to any members the node has heard of, as many as
      `find` returns: the source draws them from a table that can be out of date and does not filter them. */
  predicate Ready(w: WorkerState, a: Action) {
    && w.node.name in w.node.table
    && match a
       case Receive(_, _, _) => true
       case Disseminate(target) => target in NonLocal(w.node)
       case StartCheck(target) => target in NonLocal(w.node)
       case PingTimeout(check, indirects) =>
         && check in w.checks && w.checks[check].target in w.node.table
         && w.checks[check].stage == Pinged && !w.checks[check].heard
         && indirects <= NonLocal(w.node)
         && |indirects| == FindCount(WithStatus(w.node, Available), {w.checks[check].target}, w.requests)
       case AwaitAcks(check) => check in w.checks && w.checks[check].stage == Requesting
       case Conclude(check) =>
         && check in w.checks && w.checks[check].target in w.node.table
         && (w.checks[check].heard || w.checks[check].stage == Requested)
       case SuspectTimer(target) => target in w.suspect && target in w.node.table
       case SetMetadata(_) => true
  }

  /** One atomic action of a worker. */
  function Act(w: WorkerState, a: Action): Outcome
    requires Ready(w, a)
  {
    match a
    case Receive(p, seed, seed') => Handle(w, p, seed, seed')
    case Disseminate(target) =>
      Outcome(w, multiset(set n | n in GetGossip(w.node, target) :: Message(target, BuildGossip(w.node, n))))
    case StartCheck(target) =>
      Outcome(w.(nextCheck := w.nextCheck + 1, checks := w.checks[w.nextCheck := Check(target, Pinged, false)]),
              multiset{Message(target, Ping(LocalSource(w)))})
    case PingTimeout(check, indirects) =>
      if indirects == {} then Outcome(Settle(w, check, Suspect), multiset{})
      else
        var target := w.checks[check].target;
        Outcome(w.(checks := w.checks[check := Check(target, Requesting, false)]),
                multiset(set i | i in indirects :: Message(i, PingReq(LocalSource(w), target))))
    case AwaitAcks(check) =>
      Outcome(w.(checks := w.checks[check := Check(w.checks[check].target, Requested, false)]), multiset{})
    case Conclude(check) =>
      Outcome(Settle(w, check, if w.checks[check].heard then Online else Suspect), multiset{})
    case SuspectTimer(target) =>
      Outcome(w.(node := Record(w.node, OwnReport(w.node, target, Some(Offline), None)),
                 suspect := w.suspect - {target}),
              multiset{})
    case SetMetadata(metadata) =>
      Outcome(w.(node := Record(w.node, OwnReport(w.node, w.node.name, None, Some(metadata)))), multiset{})
  }

  /** The report, if any, that an action makes to the member table. */
  function ReportOf(w: WorkerState, a: Action): Option<Report>
    requires Ready(w, a)
  {
    match a
    case Receive(p, _, _) =>
      if p.Gossip? then Some(Report(p.name, Some(p.source.name), p.clock, Some(p.status), p.metadata)) else None
    case PingTimeout(check, indirects) =>
      if indirects == {} then Some(OwnReport(w.node, w.checks[check].target, Some(Suspect), None)) else None
    case Conclude(check) =>
      Some(OwnReport(w.node, w.checks[check].target, Some(if w.checks[check].heard then Online else Suspect), None))
    case SuspectTimer(target) => Some(OwnReport(w.node, target, Some(Offline), None))
    case SetMetadata(metadata) => Some(OwnReport(w.node, w.node.name, None, Some(metadata)))
    case _ => None
  }

  /** The belief about `n` after an action: merged with the action's report when it is about `n`,
      and otherwise untouched. */
  function FactAfter(w: WorkerState, a: Action, n: Name): Fact
    requires Ready(w, a)
  {
    var f := Lookup(w.node, n);
    match ReportOf(w, a)
    case None => f
    case Some(r) => if r.subject == n then Merge(f, n == w.node.name, r, w.node.next) else f
  }

  /** An action changes at most the belief about the subject of its report, and by exactly one merge. */
  lemma ActFacts(w: WorkerState, a: Action, n: Name)
    requires Ready(w, a)
    ensures Lookup(Act(w, a).state.node, n) == FactAfter(w, a, n)
  {
    match a
    case Receive(p, seed, seed') =>
      var heard := Hear(w, p.source, seed).state;
      assert Lookup(heard.node, n) == Lookup(w.node, n);
      AnswerFacts(heard, p, seed', n);
    case _ =>
  }

  lemma AnswerFacts(w: WorkerState, p: Packet, seed: Validity, n: Name)
    requires w.node.name in w.node.table && p.source.name in w.node.table
    ensures Lookup(Answer(w, p, seed).state.node, n) ==
            if p.Gossip? && p.name == n
            then Merge(Lookup(w.node, n), n == w.node.name,
                       Report(n, Some(p.source.name), p.clock, Some(p.status), p.metadata), w.node.next)
            else Lookup(w.node, n)
  {
  }

  /** No action renames the node, forgets a member, or changes the node's own validity. */
  lemma ActTable(w: WorkerState, a: Action)
    requires Ready(w, a)
    ensures var after := Act(w, a).state;
            && after.node.name == w.node.name
            && w.node.table.Keys <= after.node.table.Keys
            && after.node.table[w.node.name].validity == w.node.table[w.node.name].validity
  {
    match a
    case Receive(p, seed, seed') =>
      AnswerTable(Hear(w, p.source, seed).state, p, seed');
    case _ =>
  }

  lemma AnswerTable(w: WorkerState, p: Packet, seed: Validity)
    requires w.node.name in w.node.table && p.source.name in w.node.table
    ensures var after := Answer(w, p, seed).state;
            && after.node.name == w.node.name
            && w.node.table.Keys <= after.node.table.Keys
            && after.node.table[w.node.name].validity == w.node.table[w.node.name].validity
  {
  }

  /** Every action keeps the sequence clock exact, and no clock ever falls. */
  lemma ActClocks(w: WorkerState, a: Action)
    requires Ready(w, a) && ClockIsNext(w.node)
    ensures ClockIsNext(Act(w, a).state.node)
    ensures forall n :: Lookup(Act(w, a).state.node, n).clock >= Lookup(w.node, n).clock
  {
    match a
    case Receive(p, seed, seed') =>
      var heard := Hear(w, p.source, seed).state;
      GetKeepsClock(w.node, p.source.name, Some(p.source.validity), seed);
      AnswerClocks(heard, p, seed');
    case PingTimeout(check, indirects) =>
      if indirects == {} {
        RecordKeepsClocks(w.node, OwnReport(w.node, w.checks[check].target, Some(Suspect), None));
      }
    case Conclude(check) =>
      var status := if w.checks[check].heard then Online else Suspect;
      RecordKeepsClocks(w.node, OwnReport(w.node, w.checks[check].target, Some(status), None));
    case SuspectTimer(target) =>
      RecordKeepsClocks(w.node, OwnReport(w.node, target, Some(Offline), None));
    case SetMetadata(metadata) =>
      RecordKeepsClocks(w.node, OwnReport(w.node, w.node.name, None, Some(metadata)));
    case _ =>
  }

  lemma AnswerClocks(w: WorkerState, p: Packet, seed: Validity)
    requires w.node.name in w.node.table && p.source.name in w.node.table && ClockIsNext(w.node)
    ensures ClockIsNext(Answer(w, p, seed).state.node)
    ensures forall n :: Lookup(Answer(w, p, seed).state.node, n).clock >= Lookup(w.node, n).clock
  {
    match p
    case PingReq(_, target) => GetKeepsClock(w.node, target, None, seed);
    case Gossip(source, n, clock, status, metadata) =>
      GetKeepsClock(w.node, n, None, seed);
      RecordKeepsClocks(Get(w.node, n, None, seed), Report(n, Some(source.name), clock, Some(status), metadata));
    case GossipAck(_, n, clock) => SameFacts(w.node, Answer(w, p, seed).state.node);
    case _ =>
  }

  lemma SameFacts(node: Node, after: Node)
    requires ClockIsNext(node) && after.next == node.next
    requires node.table.Keys <= after.table.Keys
    requires forall n :: Lookup(after, n) == Lookup(node, n)
    ensures ClockIsNext(after)
  {
    var top :| top in node.table && Lookup(node, top).clock + 1 == node.next;
    assert Lookup(after, top).clock + 1 == after.next;
  }

  lemma GetKeepsClock(node: Node, n: Name, validity: Option<Validity>, seed: Validity)
    requires ClockIsNext(node)
    ensures ClockIsNext(Get(node, n, validity, seed))
  {
    SameFacts(node, Get(node, n, validity, seed));
  }

  /** A known clock changes in two ways only: it is cleared, or an acknowledgement replaces it. */
  lemma ActKnown(w: WorkerState, a: Action, target: Name, n: Name)
    requires Ready(w, a)
    ensures var k := Known(Act(w, a).state.node, target, n);
            || k == Known(w.node, target, n)
            || (k == -1 && a.Receive? && target == a.packet.source.name && target != w.node.name)
            || (a.Receive? && a.packet.GossipAck? && target == a.packet.source.name
                && n == a.packet.name && k == a.packet.clock)
  {
    match a
    case Receive(p, seed, seed') =>
      var heard := Hear(w, p.source, seed).state;
      assert Known(heard.node, target, n) == Known(w.node, target, n)
             || (Known(heard.node, target, n) == -1 && target == p.source.name && target != w.node.name);
      AnswerKnown(heard, p, seed', target, n);
    case _ =>
  }

  lemma AnswerKnown(w: WorkerState, p: Packet, seed: Validity, target: Name, n: Name)
    requires w.node.name in w.node.table && p.source.name in w.node.table
    ensures Known(Answer(w, p, seed).state.node, target, n) ==
            if p.GossipAck? && target == p.source.name && n == p.name then p.clock else Known(w.node, target, n)
  {
  }

  /** Everyone who is checked or has a suspect timer is in the table. */
  ghost predicate Grounded(w: WorkerState) {
    (forall i :: i in w.checks ==> w.checks[i].target in w.node.table) && w.suspect <= w.node.table.Keys
  }

  lemma HearGrounded(w: WorkerState, source: Source, seed: Validity)
    requires Grounded(w)
    ensures Grounded(Hear(w, source, seed).state)
  {
  }

  lemma AnswerGrounded(w: WorkerState, p: Packet, seed: Validity)
    requires w.node.name in w.node.table && p.source.name in w.node.table && Grounded(w)
    ensures Grounded(Answer(w, p, seed).state)
  {
  }

  lemma SettleGrounded(w: WorkerState, check: nat, status: RealStatus)
    requires check in w.checks && w.checks[check].target in w.node.table && Grounded(w)
    ensures Grounded(Settle(w, check, status))
  {
  }

  lemma ActGrounded(w: WorkerState, a: Action)
    requires Ready(w, a) && Grounded(w)
    ensures Grounded(Act(w, a).state)
  {
    hide Hear, Answer, Settle, Record;
    match a
    case Receive(p, seed, seed') =>
      HearGrounded(w, p.source, seed);
      HearTable(w, p.source, seed);
      AnswerGrounded(Hear(w, p.source, seed).state, p, seed');
    case PingTimeout(check, indirects) =>
      SettleGrounded(w, check, Suspect);
    case Conclude(check) =>
      SettleGrounded(w, check, if w.checks[check].heard then Online else Suspect);
    case SuspectTimer(target) => ActTable(w, a);
    case SetMetadata(_) => ActTable(w, a);
    case _ =>
  }

  lemma HearTable(w: WorkerState, source: Source, seed: Validity)
    requires w.node.name in w.node.table
    ensures var after := Hear(w, source, seed).state;
            after.node.name == w.node.name && w.node.name in after.node.table && source.name in after.node.table
            && after.node.next == w.node.next
  {
  }

  /** Whatever a worker waits for can happen: the timeout of a ping, for some members that can be asked, the second
      wait of a check, its end, and a suspect timer. */
  ghost predicate Unblocked(w: WorkerState) {
    && (forall i :: i in w.checks ==>
          && (w.checks[i].stage == Pinged && !w.checks[i].heard ==> exists s :: Ready(w, PingTimeout(i, s)))
          && (w.checks[i].stage == Requesting ==> Ready(w, AwaitAcks(i)))
          && (w.checks[i].stage == Requested || w.checks[i].heard ==> Ready(w, Conclude(i))))
    && (forall t :: t in w.suspect ==> Ready(w, SuspectTimer(t)))
  }

  lemma GroundedUnblocked(w: WorkerState)
    requires Grounded(w) && w.node.name in w.node.table
    ensures Unblocked(w)
  {
    hide FindCount;
    forall i | i in w.checks && w.checks[i].stage == Pinged && !w.checks[i].heard
      ensures exists s :: Ready(w, PingTimeout(i, s))
    {
      var available := WithStatus(w.node, Available);
      FindCountMeaning(available, {w.checks[i].target}, w.requests);
      var s := SubsetOfSize(available, FindCount(available, {w.checks[i].target}, w.requests));
      assert Ready(w, PingTimeout(i, s));
    }
  }

  lemma SubsetOfSize<T>(all: set<T>, size: nat) returns (part: set<T>)
    requires size <= |all|
    ensures part <= all && |part| == size
  {
    part := {};
    while |part| < size
      invariant part <= all && |part| <= size
    {
      assert |all - part| == |all| - |part|;
      var x :| x in all - part;
      part := part + {x};
    }
  }

  /** Where every message that an action sends comes from. A sender names itself as the source,
      except that a relayed Ack carries the source of the packet just received. */
  lemma ActSends(w: WorkerState, a: Action, m: Message)
    requires Ready(w, a) && m in Act(w, a).sends
    ensures m.packet.source == LocalSource(w)
            || (m.packet.Ack? && a.Receive? && m.packet.source == a.packet.source)
    ensures m.packet.Gossip? ==>
              && a.Disseminate? && m.to == a.target && m.packet.name in GetGossip(w.node, a.target)
              && m.packet == BuildGossip(w.node, m.packet.name)
    ensures m.packet.GossipAck? ==>
              && a.Receive? && a.packet.Gossip? && m.to == a.packet.source.name
              && m.packet == GossipAck(LocalSource(w), a.packet.name, a.packet.clock)
  {
    match a
    case Receive(p, seed, seed') =>
      var heard := Hear(w, p.source, seed);
      if m in heard.sends {
        assert m.packet.Ack?;
      } else {
        AnswerSends(heard.state, p, seed', m);
        assert LocalSource(heard.state) == LocalSource(w);
      }
    case Disseminate(target) =>
    case _ =>
  }

  lemma AnswerSends(w: WorkerState, p: Packet, seed: Validity, m: Message)
    requires w.node.name in w.node.table && p.source.name in w.node.table
    requires m in Answer(w, p, seed).sends
    ensures m.packet.source == LocalSource(w) && !m.packet.Gossip?
    ensures m.packet.GossipAck? ==>
              p.Gossip? && m == Message(p.source.name, GossipAck(LocalSource(w), p.name, p.clock))
  {
  }

  /** The answer to a packet touches the timers only for the member that gossip is about, and no check. */
  lemma AnswerTables(w: WorkerState, p: Packet, seed: Validity)
    requires w.node.name in w.node.table && p.source.name in w.node.table
    ensures var after := Answer(w, p, seed).state;
            && after.checks == w.checks
            && after.suspect == if p.Gossip? then HandleStatus(w, p.name, p.status).suspect else w.suspect
  {
  }
}
