/**
 The status flag of a member: three real statuses, three aggregates that are only masks,
 and the transition rule that every status change goes through.
 */
module Statuses {
  import opened Wrappers

  datatype Status = Online | Offline | Suspect | Available | Unavailable | All

  /** The statuses that a member may hold; the aggregates must not be assigned. */
  type RealStatus = s: Status | s.Online? || s.Offline? || s.Suspect? witness Online

  const ALL_STATUSES: set<Status> := {Online, Offline, Suspect, Available, Unavailable, All}

  /** The flag's bits: one bit per real status, and the union of theirs for an aggregate. */
  function Bits(s: Status): bv8 {
    match s
    case Online => 1
    case Offline => 2
    case Suspect => 4
    case Available => 1 | 4
    case Unavailable => 2 | 4
    case All => (1 | 4) | (2 | 4)
  }

  /** Whether two flags share a bit, the test behind every status index. */
  predicate Shares(s: Status, mask: Status) {
    Bits(s) & Bits(mask) != 0
  }

  /** The status that replaces a requested one; `None` is the ValueError raised for two of the aggregates. */
  function Transition(from: Status, to: Status): Option<Status> {
    if to == Available || to == Unavailable then None
    else if to == Suspect && from == Offline then Some(from)
    else if to == Offline && from == Online then Some(Suspect)
    else Some(to)
  }

  /** The transition between real statuses, which never raises. */
  function Move(from: RealStatus, to: RealStatus): (r: RealStatus)
    ensures r != from ==> r == to || (from == Online && to == Offline && r == Suspect)
  {
    Transition(from, to).value
  }

  /** One change of status that the failure detector may make. */
  predicate Permitted(from: RealStatus, to: RealStatus) {
    || from == to
    || (from == Online && to == Suspect)
    || (from == Suspect && (to == Online || to == Offline))
    || (from == Offline && to == Online)
  }

  /** The statuses reachable by one transition are exactly the permitted ones: never
      OFFLINE to SUSPECT, never ONLINE straight to OFFLINE. */
  lemma TransitionIsPermitted(from: RealStatus, to: RealStatus)
    ensures Permitted(from, to) <==> exists wish: RealStatus :: Move(from, wish) == to
    ensures Move(from, to) == if Permitted(from, to) then to else if from == Online then Suspect else from
  {
    if Permitted(from, to) {
      assert Move(from, to) == to;
    }
  }

  /** Aggregates are refused except ALL, which slips through and would be stored. */
  lemma TransitionRefusesAggregates(from: RealStatus, to: Status)
    ensures Transition(from, to) == None <==> to in ALL_STATUSES - {Online, Offline, Suspect, All}
    ensures Transition(from, All) == Some(All)
  {
  }

  /** The masks mean what their names say. */
  lemma MaskMeaning(s: RealStatus)
    ensures Shares(s, Available) <==> s != Offline
    ensures Shares(s, Unavailable) <==> s != Online
    ensures Shares(s, All)
    ensures forall t: RealStatus :: Shares(s, t) <==> s == t
  {
    assert Bits(Available) == 5 && Bits(Unavailable) == 6 && Bits(All) == 7;
  }
}
