/**
 The member objects and the table of them, updated in place. Each method is proved to compute the
 corresponding step of NodeStates.
 */
module MembersClass {
  import opened Wrappers
  import opened Statuses
  import opened Packets
  import opened NodeStates
  import opened Shuffles
  import opened Finds

  /** One member of the cluster; members compare equal by name. */
  class Member {
    const name: Name
    const local: bool
    var clock: nat
    var validity: Validity
    var knownClocks: map<Name, nat>
    var status: Status
    var metadata: set<(string, Bytes)>
    /** `None` is the METADATA_UNKNOWN sentinel. */
    var metadataDict: Option<Metadata>
    var pendingClock: Option<nat>
    var pendingStatus: Option<Status>
    var pendingMetadata: Option<set<(string, Bytes)>>

    constructor (name: Name, local: bool, seed: Validity)
      ensures this.name == name && this.local == local
      ensures status == Offline && Matches(NodeStates.Entry(UNHEARD, seed, map[]))
    {
      this.name, this.local := name, local;
      clock, validity, knownClocks := 0, seed, map[];
      status, metadata, metadataDict := Offline, {}, None;
      pendingClock, pendingStatus, pendingMetadata := None, None, None;
    }

    /** No update is pending, which each of the setters asserts of its own field. */
    ghost predicate Clean()
      reads this
    {
      pendingClock == None && pendingStatus == None && pendingMetadata == None
    }

    /** The set of pairs holds exactly the items of the dictionary. */
    ghost predicate Paired()
      reads this
    {
      metadata == if metadataDict.Some? then metadataDict.value.Items else {}
    }

    /** The status is real, too. */
    ghost predicate Sound()
      reads this
    {
      (status.Online? || status.Offline? || status.Suspect?) && Paired()
    }

    ghost predicate Valid()
      reads this
    {
      Sound() && Clean()
    }

    ghost function Entry(): NodeStates.Entry
      requires Sound()
      reads this
    {
      NodeStates.Entry(Fact(clock, status, metadataDict), validity, knownClocks)
    }

    /** The member is described by this entry. */
    ghost predicate Matches(e: NodeStates.Entry)
      reads this
    {
      Valid() && Entry() == e
    }

    method SetClock(clock: nat)
      requires pendingClock == None
      modifies `pendingClock
      ensures pendingClock == if clock > this.clock then Some(clock) else None
    {
      if clock > this.clock {
        pendingClock := Some(clock);
      }
    }

    /** Returns whether a ValueError is raised. */
    method SetStatus(status: Status) returns (raised: bool)
      requires pendingStatus == None
      modifies `pendingStatus
      ensures raised <==> status == Available || status == Unavailable
      ensures var t := Transition(this.status, status);
              pendingStatus == if t != None && t != Some(this.status) then t else None
    {
      var transition := Transition(this.status, status);
      raised := transition == None;
      if !raised && transition.value != this.status {
        pendingStatus := transition;
      }
    }

    method SetMetadata(metadata: Metadata)
      requires pendingMetadata == None && Paired()
      modifies `pendingMetadata
      ensures pendingMetadata == if Some(metadata) != metadataDict then Some(metadata.Items) else None
    {
      var pending := metadata.Items;
      if metadataDict == None || pending != this.metadata {
        pendingMetadata := Some(pending);
      }
      assert metadataDict.Some? && metadata.Items == metadataDict.value.Items ==> metadata == metadataDict.value by {
        if metadataDict.Some? && metadata.Items == metadataDict.value.Items {
          SameItems(metadata, metadataDict.value);
        }
      }
    }

    /** Commits, ignores or refutes what is pending. */
    method Save(source: Option<Name>, nextClock: nat) returns (updated: bool)
      requires Paired()
      requires pendingMetadata.Some? ==> exists m: Metadata :: m.Items == pendingMetadata.value
      modifies this
      ensures Clean() && Paired() && validity == old(validity) && knownClocks == old(knownClocks)
      ensures updated <==>
              && (old(pendingClock).Some? || source == Some(name))
              && (old(pendingStatus).Some? || old(pendingMetadata).Some?)
      ensures !updated ==> clock == old(clock) && status == old(status) && metadataDict == old(metadataDict)
      ensures updated && local && source.Some? ==>
                clock == nextClock && status == old(status) && metadataDict == old(metadataDict)
      ensures updated && !(local && source.Some?) ==>
                && clock == (if old(pendingClock).Some? then old(pendingClock).value else old(clock))
                && status == (if old(pendingStatus).Some? then old(pendingStatus).value else old(status))
                && (if old(pendingMetadata).Some?
                    then metadataDict.Some? && metadataDict.value.Items == old(pendingMetadata).value
                    else metadataDict == old(metadataDict))
    {
      updated := false;
      var ignoreUpdate := local && source != None;
      var newClock, newStatus, newMetadata := pendingClock, pendingStatus, pendingMetadata;
      pendingClock, pendingStatus, pendingMetadata := None, None, None;
      if newClock == None && source != Some(name) {
        return;
      } else if ignoreUpdate {
        newClock := Some(nextClock);
      }
      if newStatus.Some? {
        updated := true;
        if !ignoreUpdate {
          status := newStatus.value;
        }
      }
      if newMetadata.Some? {
        updated := true;
        if !ignoreUpdate {
          metadata := newMetadata.value;
          metadataDict := Some(FromItems(newMetadata.value));
        }
      }
      if updated && newClock.Some? {
        clock := newClock.value;
      }
    }

    /** Notes the validity that a packet carries; a changed one forgets what the member is known to have. */
    method Renew(validity: Option<Validity>, ghost e: NodeStates.Entry)
      requires Matches(e)
      modifies this
      ensures Matches(if !local && validity.Some? && e.validity != validity.value
                      then NodeStates.Entry(e.fact, validity.value, map[]) else e)
    {
      if !local && validity.Some? && this.validity != validity.value {
        knownClocks := map[];
        this.validity := validity.value;
      }
    }

    /** Notes that the member has received news of `n`. */
    method Know(n: Name, clock: nat, ghost e: NodeStates.Entry)
      requires Matches(e)
      modifies this
      ensures Matches(e.(known := e.known[n := clock]))
    {
      knownClocks := knownClocks[n := clock];
    }

    method NeedsGossip(member: Member) returns (needs: bool)
      ensures needs <==> member.clock > if member.name in knownClocks then knownClocks[member.name] else -1
    {
      var knownClock := if member.name in knownClocks then knownClocks[member.name] else -1;
      needs := member.clock > knownClock;
    }
  }

  /** The table of members, the sequence clock, and an index of the non-local members for every status.
      The ghost field holds the table as a value. */
  class Members {
    var nextClock: nat
    const local: Member
    /** Members compare equal by name, so their names stand for them. */
    var nonLocal: set<Name>
    var members: map<Name, Member>
    const statuses: map<Status, WeakShuffle<Name>>
    ghost var node: Node

    /** The member is the one in the table under its name. */
    ghost predicate Has(member: Member)
      reads `members
    {
      member.name in members && members[member.name] == member
    }

    /** The node value describes the members, none of which has an update pending. */
    ghost predicate Tabled()
      reads `members, `nonLocal, `node, members.Values
    {
      && Has(local) && node.name == local.name && node.table.Keys == members.Keys
      && nonLocal == members.Keys - {local.name}
      && Named() && forall n :: n in members ==> members[n].Matches(node.table[n])
    }

    /** Members have been added since, all of them new objects. */
    twostate predicate Grown(before: map<Name, Member>)
      reads `members
    {
      && (forall n :: n in before ==> n in members && members[n] == before[n])
      && (forall n :: n in members && n !in before ==> fresh(members[n]))
    }

    ghost predicate Named()
      reads `members
    {
      forall n :: n in members ==> members[n].name == n && (members[n].local <==> n == local.name)
    }

    /** There is an index for every status, each an object of its own. */
    static ghost predicate ShapedIndexes(indexes: map<Status, WeakShuffle<Name>>)
      reads indexes.Values
    {
      && indexes.Keys == ALL_STATUSES
      && (forall s, t :: s in indexes && t in indexes && s != t ==> indexes[s] != indexes[t])
      && (forall s :: s in indexes ==> indexes[s].Valid())
    }

    ghost predicate IndexesShaped()
      reads statuses.Values
    {
      ShapedIndexes(statuses)
    }

    /** Every status index holds exactly the non-local members whose status shares a bit with it, and
        lists no others than non-local members, if not always the right ones. */
    ghost predicate Indexed()
      reads `node, statuses.Values
    {
      IndexesShaped() && forall s :: s in statuses ==> Fits(statuses[s].View(), node, s)
    }

    ghost predicate Valid()
      reads this, members.Values, statuses.Values
    {
      Tabled() && Indexed() && node.next == nextClock
    }

    /** A table with the local member only, not yet announced. */
    constructor Alone(name: Name, seed: Validity)
      ensures Valid() && nextClock == 1 && node == Node(name, 1, map[name := Entry(UNHEARD, seed, map[])])
      ensures members.Keys == {name} && fresh(members[name]) && forall s :: s in statuses ==> fresh(statuses[s])
    {
      hide Fits, Member.Matches, ShapedIndexes, WeakShuffle.View;
      nextClock := 1;
      var self := new Member(name, true, seed);
      local, nonLocal, members := self, {}, map[name := self];
      var indexes := NewIndexes();
      statuses := indexes;
      node := Node(name, 1, map[name := Entry(UNHEARD, seed, map[])]);
      new;
      FitsAlone(node);
    }

    /** The table as it is constructed from the configuration. */
    static method Configured(name: Name, peers: seq<Name>, metadata: Metadata, seed: Validity, seeds: nat -> Validity)
      returns (r: Members)
      ensures fresh(r) && r.Valid() && Initial(r.node)
      ensures r.node.name == name && r.node.table.Keys == {name} + NamesIn(peers)
    {
      hide Initial, NamesIn, Unheard, Members.Tabled, Members.Indexed;
      r := new Members.Alone(name, seed);
      UnheardAlone(r.node, name, seed);
      r.Populate(peers, metadata, seeds);
    }

    /** Gets to know the peers, and then announces the local member. */
    method Populate(peers: seq<Name>, metadata: Metadata, seeds: nat -> Validity)
      requires Valid() && Unheard(node) && nextClock == 1
      modifies this, members.Values, statuses.Values
      ensures Valid() && Initial(node) && Grown(old(members))
      ensures node.name == old(node.name) && node.table.Keys == old(node.table.Keys) + NamesIn(peers)
    {
      hide Tabled, Indexed, NodeStates.Get, Unheard, Record, Initial, NamesIn;
      NamesInPrefix(peers, 0);
      for i := 0 to |peers|
        invariant Valid() && Grown(old(members))
        invariant nextClock == 1 && node.name == old(node.name)
        invariant node.table.Keys == old(node.table.Keys) + NamesIn(peers[..i])
        invariant Unheard(node)
      {
        UnheardGet(node, peers[i], seeds(i));
        NamesInPrefix(peers, i);
        var _ := Get(peers[i], None, seeds(i));
      }
      assert peers[..|peers|] == peers;
      TableHasKeys();
      InitialRecord(node, metadata);
      var _ := UpdateFrom(local, None, nextClock, Some(Online), Some(metadata));
    }

    /** An empty index for every status. */
    static method NewIndexes() returns (indexes: map<Status, WeakShuffle<Name>>)
      ensures ShapedIndexes(indexes) && forall s :: s in indexes ==> fresh(indexes[s]) && indexes[s].View() == ({}, {})
    {
      hide WeakShuffle.View, WeakShuffle.Valid;
      indexes := map[];
      var left := ALL_STATUSES;
      while left != {}
        invariant left <= ALL_STATUSES && indexes.Keys == ALL_STATUSES - left
        invariant forall s :: s in indexes ==> fresh(indexes[s])
        invariant forall s, t :: s in indexes && t in indexes && s != t ==> indexes[s] != indexes[t]
        invariant forall s :: s in indexes ==> indexes[s].Valid() && indexes[s].View() == ({}, {})
        decreases left
      {
        var s :| s in left;
        var index := new WeakShuffle<Name>();
        indexes := indexes[s := index];
        left := left - {s};
      }
    }

    method RefreshOne(member: Member, s: Status)
      requires IndexesShaped() && s in statuses
      modifies statuses[s]
      ensures IndexesShaped()
      ensures Refreshed(old(statuses[s].View()), statuses[s].View(), member.name, member.status, s)
    {
      hide Consistent, Added, Discarded;
      if Shares(member.status, s) {
        statuses[s].Add(member.name);
      } else {
        statuses[s].Discard(member.name);
      }
    }

    /** Brings the status indexes up to date with a member's status. */
    method RefreshStatuses(member: Member)
      requires IndexesShaped()
      modifies statuses.Values
      ensures IndexesShaped() && forall n :: n in members ==> unchanged(members[n])
      ensures forall s :: s in statuses ==>
                if member.local then statuses[s].View() == old(statuses[s].View())
                else Refreshed(old(statuses[s].View()), statuses[s].View(), member.name, member.status, s)
    {
      hide Refreshed, WeakShuffle.Valid, WeakShuffle.View;
      if !member.local {
        var left := ALL_STATUSES;
        while left != {}
          invariant IndexesShaped() && left <= ALL_STATUSES
          invariant forall s :: s in statuses && s !in left ==>
                      Refreshed(old(statuses[s].View()), statuses[s].View(), member.name, member.status, s)
          invariant forall s :: s in left ==> s in statuses && statuses[s].View() == old(statuses[s].View())
          decreases left
        {
          var s :| s in left;
          RefreshOne(member, s);
          left := left - {s};
        }
      }
    }

    method AddOne(member: Member, s: Status)
      requires IndexesShaped() && s in statuses
      modifies statuses[s]
      ensures IndexesShaped()
      ensures Extended(old(statuses[s].View()), statuses[s].View(), member.name, member.status, s)
    {
      hide Consistent, Added;
      if Shares(member.status, s) {
        statuses[s].Add(member.name);
      }
    }

    /** Enters a new member in the status indexes. */
    method AddToIndexes(member: Member)
      requires IndexesShaped()
      modifies statuses.Values
      ensures IndexesShaped() && forall n :: n in members ==> unchanged(members[n])
      ensures forall s :: s in statuses ==>
                Extended(old(statuses[s].View()), statuses[s].View(), member.name, member.status, s)
    {
      hide Extended, WeakShuffle.Valid, WeakShuffle.View;
      var left := ALL_STATUSES;
      while left != {}
        invariant IndexesShaped() && left <= ALL_STATUSES
        invariant forall s :: s in statuses && s !in left ==>
                    Extended(old(statuses[s].View()), statuses[s].View(), member.name, member.status, s)
        invariant forall s :: s in left ==> s in statuses && statuses[s].View() == old(statuses[s].View())
        decreases left
      {
        var s :| s in left;
        AddOne(member, s);
        left := left - {s};
      }
    }

    /** Enters a new member in the table. */
    method Enter(name: Name, seed: Validity) returns (member: Member)
      requires Tabled() && name !in members
      modifies `members, `nonLocal, `node
      ensures Tabled() && node == NodeStates.Get(old(node), name, None, seed)
      ensures members == old(members)[name := member] && fresh(member)
      ensures Has(member) && member.name == name && member.status == Offline
    {
      hide Member.Matches, NodeStates.Get;
      GetCreates(node, name, seed);
      member := new Member(name, false, seed);
      nonLocal := nonLocal + {name};
      members := members[name := member];
      node := NodeStates.Get(node, name, None, seed);
    }

    /** Creates a member that is not in the table. */
    method Create(name: Name, seed: Validity) returns (member: Member)
      requires Valid() && name !in members
      modifies `members, `nonLocal, `node, statuses.Values
      ensures Valid() && node == NodeStates.Get(old(node), name, None, seed)
      ensures members == old(members)[name := member] && fresh(member)
      ensures Has(member) && member.name == name
    {
      hide IndexesShaped, Fits, Extended, Tabled, NodeStates.Get, WeakShuffle.View;
      TableHasKeys();
      GetCreates(node, name, seed);
      member := Enter(name, seed);
      AddToIndexes(member);
      FitsCreated(old(node), node, name);
    }

    lemma TableHasKeys()
      requires Tabled()
      ensures node.name == local.name && node.table.Keys == members.Keys && node.name in node.table && Has(local)
      ensures nonLocal == node.table.Keys - {node.name}
    {
    }

    lemma HasAt(name: Name)
      requires Tabled() && name in members
      ensures Has(members[name]) && members[name].name == name && name in node.table
      ensures members[name].local <==> name == local.name
      ensures forall n :: n in members && n != name ==> members[n] != members[name]
    {
    }

    /** The table stays right while its members are not touched. */
    twostate lemma TabledSame()
      requires unchanged(`members) && unchanged(`nonLocal) && unchanged(`node)
      requires forall n :: n in members ==> unchanged(members[n])
      ensures old(Tabled()) ==> Tabled()
    {
      hide Member.Matches;
      if old(Tabled()) {
        forall n | n in members ensures members[n].Matches(node.table[n]) {
          assert unchanged(members[n]);
        }
      }
    }

    lemma HasShape()
      requires Indexed()
      ensures IndexesShaped()
    {
    }

    /** The indexes stay right while they and the facts of the table stay the same. */
    twostate lemma IndexedSame()
      requires old(Indexed()) && IndexesShaped()
      requires forall s :: s in statuses ==> statuses[s].View() == old(statuses[s].View())
      requires node.name == old(node).name && node.table.Keys == old(node).table.Keys
      requires forall m :: m in node.table ==> node.table[m].fact == old(node).table[m].fact
      ensures Indexed()
    {
      hide Fits, IndexesShaped, WeakShuffle.View, WeakShuffle.Valid;
      FitsSame(old(node), node);
    }

    twostate lemma IndexedUntouched()
      requires old(Indexed()) && forall s :: s in statuses ==> unchanged(statuses[s])
      requires node.name == old(node).name && node.table.Keys == old(node).table.Keys
      requires forall m :: m in node.table ==> node.table[m].fact == old(node).table[m].fact
      ensures Indexed()
    {
      hide Fits, WeakShuffle.View, WeakShuffle.Valid;
      IndexedSame();
    }

    /** The indexes stay right when one member's fact changes and they are refreshed for it. */
    twostate lemma IndexedRefreshed(member: Member)
      requires old(Indexed()) && IndexesShaped() && member.name in node.table
      requires node.name == old(node).name && node.table.Keys == old(node).table.Keys
      requires forall m :: m in node.table && m != member.name ==> node.table[m].fact == old(node).table[m].fact
      requires member.local <==> member.name == node.name
      requires member.status == node.table[member.name].fact.status
      requires forall s :: s in statuses ==>
                 if member.local then statuses[s].View() == old(statuses[s].View())
                 else Refreshed(old(statuses[s].View()), statuses[s].View(), member.name, member.status, s)
      ensures Indexed()
    {
      hide Fits, Refreshed, IndexesShaped, WeakShuffle.View, WeakShuffle.Valid;
      FitsRefreshed(old(node), node, member.name);
    }

    /** Starts a non-local member afresh when its validity has changed. */
    method Revalidate(member: Member, validity: Option<Validity>)
      requires Valid() && Has(member)
      modifies `node, member
      ensures Valid() && node == NodeStates.Get(old(node), member.name, validity, [])
    {
      hide Indexed, Member.Matches;
      assert member.Matches(node.table[member.name]);
      member.Renew(validity, node.table[member.name]);
      node := NodeStates.Get(node, member.name, validity, []);
      IndexedUntouched();
    }

    /** Looks a member up, creating it if need be, and starts it afresh when its validity has changed. */
    method Get(name: Name, validity: Option<Validity>, seed: Validity) returns (member: Member)
      requires Valid()
      modifies this, members.Values, statuses.Values
      ensures Valid() && node == NodeStates.Get(old(node), name, validity, seed)
      ensures name in members && member == members[name] && Grown(old(members))
    {
      hide Indexed, Tabled, NodeStates.Get;
      if name in members {
        HasAt(name);
        member := members[name];
        GetTwice(node, name, validity, seed);
        Revalidate(member, validity);
      } else {
        member := Create(name, seed);
        GetTwice(old(node), name, validity, seed);
        Revalidate(member, validity);
      }
    }

    /** The first phase of an update: what it would change becomes pending. */
    method Stage(member: Member, clock: nat, status: Option<Status>, metadata: Option<Metadata>) returns (raised: bool)
      requires member.Clean() && member.Paired()
      modifies member`pendingClock, member`pendingStatus, member`pendingMetadata
      ensures raised <==> status == Some(Available) || status == Some(Unavailable)
      ensures member.pendingClock == if clock > member.clock then Some(clock) else None
      ensures !raised ==>
                && member.pendingStatus ==
                   (if status.None? || Transition(member.status, status.value) == Some(member.status) then None
                    else Transition(member.status, status.value))
                && member.pendingMetadata == if metadata.None? || metadata == member.metadataDict
                                             then None else Some(metadata.value.Items)
    {
      raised := false;
      member.SetClock(clock);
      if status.Some? {
        raised := member.SetStatus(status.value);
        if raised {
          return;
        }
      }
      if metadata.Some? {
        member.SetMetadata(metadata.value);
      }
    }

    /** Merges an update into a member, in two phases: what is pending is staged, then it is saved. The status ALL is
        not refused: unless the update is too old, or about the local member and gossiped, it is stored. */
    method UpdateMember(member: Member, source: Option<Name>, clock: nat, status: Option<Status>,
                        metadata: Option<Metadata>, next: nat, ghost e: Entry) returns (raised: bool, updated: bool)
      requires member.Matches(e)
      modifies member
      ensures raised <==> status == Some(Available) || status == Some(Unavailable)
      ensures raised ==>
                && !updated && member.Sound() && member.Entry() == e
                && member.pendingClock == if clock > member.clock then Some(clock) else None
      ensures !raised && status != Some(All) ==>
                var r := Report(member.name, source, clock, RealOf(status), metadata);
                var f := Merge(e.fact, member.local, r, next);
                && member.Matches(e.(fact := f)) && member.clock == f.clock && member.status == f.status
                && (!updated ==> f == e.fact)
      ensures status == Some(All) ==>
                && (updated <==> clock > e.fact.clock || source == Some(member.name))
                && TakesAll(member, source, clock, e.fact.clock, e.fact.status, next)
                && (!updated ==> member.Matches(e))
                && (updated && member.local && source.Some? ==> member.Matches(e.(fact := e.fact.(clock := next))))
                && (updated && !(member.local && source.Some?) ==>
                      && member.Clean() && member.Paired()
                      && member.metadataDict == (if metadata.Some? then metadata else e.fact.metadata))
    {
      updated := false;
      raised := Stage(member, clock, status, metadata);
      if !raised {
        updated := member.Save(source, next);
        if metadata.Some? && member.metadataDict.Some? && member.metadataDict.value.Items == metadata.value.Items {
          SameItems(member.metadataDict.value, metadata.value);
        }
      }
    }

    /** Updates a member in the table. */
    method UpdateTable(member: Member, source: Option<Name>, clock: nat, status: Option<Status>,
                       metadata: Option<Metadata>) returns (raised: bool, updated: bool)
      requires Tabled() && node.next == nextClock && Has(member)
      modifies `node, member
      ensures raised <==> status == Some(Available) || status == Some(Unavailable)
      ensures forall s :: s in statuses ==> unchanged(statuses[s])
      ensures status == Some(All) ==>
                && node == old(node) && (updated <==> clock > old(member.clock) || source == Some(member.name))
                && TakesAll(member, source, clock, old(member.clock), old(member.status), nextClock)
      ensures !raised && status != Some(All) ==>
                && Tabled() && member.name in node.table && member.name in old(node).table
                && node == Record(old(node), Report(member.name, source, clock, RealOf(status), metadata))
                && member.clock == node.table[member.name].fact.clock
                && member.status == node.table[member.name].fact.status
                && (!updated ==> node.table == old(node).table)
      ensures raised ==>
                && node == old(node) && member.name in node.table
                && member.Sound() && member.Entry() == node.table[member.name]
                && member.pendingClock == if clock > member.clock then Some(clock) else None
    {
      hide Merge, Member.Matches, Record, Named;
      HasAt(member.name);
      MatchesAt(member);
      raised, updated := UpdateMember(member, source, clock, status, metadata, nextClock, node.table[member.name]);
      if !raised && status != Some(All) {
        ghost var report := Report(member.name, source, clock, RealOf(status), metadata);
        RecordTable(node, report);
        node := Record(node, report);
      }
    }

    /** What the status ALL does to a member that had this clock and status: it is ignored, refuted or stored. */
    ghost predicate TakesAll(member: Member, source: Option<Name>, clock: nat, was: nat, before: Status, next: nat)
      reads member
    {
      if clock <= was && source != Some(member.name) then member.clock == was && member.status == before
      else if member.local && source.Some? then member.clock == next && member.status == before
      else member.clock == (if clock > was then clock else was) && member.status == All
    }

    ghost predicate InEveryIndex(member: Member)
      reads statuses.Values
    {
      forall s :: s in statuses ==> member.name in statuses[s].View().0
    }

    /** ALL shares a bit with every status, so that it enters the member in every index. */
    twostate lemma StoredEverywhere(member: Member)
      requires member.status == All
      requires forall s :: s in statuses ==>
                 member.local || Refreshed(old(statuses[s].View()), statuses[s].View(), member.name, member.status, s)
      ensures !member.local ==> InEveryIndex(member)
    {
      forall s ensures Shares(All, s) {
        assert Bits(All) == 7;
      }
    }

    /** The end of an update: the indexes follow a member that was updated, and the sequence clock stays ahead. */
    method Publish(member: Member, updated: bool)
      requires IndexesShaped()
      modifies `nextClock, statuses.Values
      ensures IndexesShaped() && forall n :: n in members ==> unchanged(members[n])
      ensures nextClock == if member.clock >= old(nextClock) then member.clock + 1 else old(nextClock)
      ensures forall s :: s in statuses ==>
                if !updated || member.local then statuses[s].View() == old(statuses[s].View())
                else Refreshed(old(statuses[s].View()), statuses[s].View(), member.name, member.status, s)
      ensures updated && !member.local && member.status == All ==> InEveryIndex(member)
      ensures old(Tabled()) ==> Tabled()
    {
      hide Refreshed, WeakShuffle.View, IndexesShaped, Tabled;
      if updated {
        RefreshStatuses(member);
        if member.status == All {
          StoredEverywhere(member);
        }
      }
      if member.clock >= nextClock {
        nextClock := member.clock + 1;
      }
      TabledSame();
    }

    /** Updates a member, the status indexes and the sequence clock. AVAILABLE and UNAVAILABLE raise with the clock
        left pending, after which the setters' assertions keep the member from being updated again; ALL is stored. */
    method UpdateFrom(member: Member, source: Option<Name>, clock: nat, status: Option<Status>,
                      metadata: Option<Metadata>) returns (raised: bool)
      requires Valid() && Has(member)
      modifies `nextClock, `node, member, statuses.Values
      ensures raised <==> status == Some(Available) || status == Some(Unavailable)
      ensures status == Some(All) ==>
                && node == old(node)
                && TakesAll(member, source, clock, old(member.clock), old(member.status), old(nextClock))
                && nextClock == (if member.clock >= old(nextClock) then member.clock + 1 else old(nextClock))
                && (member.status == All && !member.local ==> InEveryIndex(member))
      ensures !raised && status != Some(All) ==>
                Valid() && node == Recorded(old(node), Report(member.name, source, clock, RealOf(status), metadata))
      ensures raised ==>
                && node == old(node) && nextClock == old(nextClock) && Indexed() && member.Sound()
                && member.name in node.table && member.Entry() == node.table[member.name]
                && member.pendingClock == if clock > member.clock then Some(clock) else None
    {
      hide Indexed, Merge, Record, Tabled, WeakShuffle.View, Refreshed, IndexesShaped;
      HasAt(member.name);
      MatchesAt(member);
      TableHasKeys();
      HasShape();
      RecordTable(node, Report(member.name, source, clock, RealOf(status), metadata));
      var updated;
      raised, updated := UpdateTable(member, source, clock, status, metadata);
      if !raised {
        Publish(member, updated);
        if status != Some(All) {
          if updated {
            IndexedRefreshed(member);
          } else {
            IndexedSame();
          }
        }
      }
    }

    /** A change made by the application or the failure detector of this node. The status ALL, which must not be
        assigned, is stored all the same. */
    method Update(member: Member, newStatus: Option<Status>, newMetadata: Option<Metadata>) returns (raised: bool)
      requires Valid() && Has(member)
      modifies `nextClock, `node, member, statuses.Values
      ensures raised <==> newStatus == Some(Available) || newStatus == Some(Unavailable)
      ensures newStatus == Some(All) && old(member.clock) < old(nextClock) ==>
                && member.status == All && member.clock == old(nextClock) && nextClock == old(nextClock) + 1
                && (!member.local ==> InEveryIndex(member)) && node == old(node)
      ensures !raised && newStatus != Some(All) ==>
                && Valid()
                && node == Recorded(old(node), OwnReport(old(node), member.name, RealOf(newStatus), newMetadata))
      ensures raised ==> node == old(node) && (member.clock < nextClock ==> member.pendingClock == Some(nextClock))
    {
      hide Tabled, Indexed, Record, RealOf;
      raised := UpdateFrom(member, None, nextClock, newStatus, newMetadata);
    }

    /** An update that `source` gossiped. */
    method Apply(member: Member, source: Member, clock: nat, status: RealStatus, metadata: Option<Metadata>)
      requires Valid() && Has(member)
      modifies `nextClock, `node, member, statuses.Values
      ensures Valid()
      ensures node == Recorded(old(node), Report(member.name, Some(source.name), clock, Some(status), metadata))
    {
      hide Tabled, Indexed, Record;
      var raised := UpdateFrom(member, Some(source.name), clock, Some(status), metadata);
    }

    /** Whether `target` should be gossiped about a member: always about the local one, about others only when their
        metadata is known, and only with a clock that it has not acknowledged. */
    method Wants(target: Member, member: Member) returns (wants: bool)
      requires Valid() && Has(target) && Has(member)
      ensures wants <==> member.name in NodeStates.GetGossip(node, target.name)
    {
      hide Tabled, Indexed;
      HasAt(member.name);
      MatchesAt(member);
      MatchesAt(target);
      TableHasKeys();
      wants := false;
      if member == local || member.metadataDict != None {
        wants := target.NeedsGossip(member);
      }
      MetadataKnown(member);
    }

    /** The members that `target` should be gossiped about, each once. */
    method GetGossip(target: Member) returns (gossip: seq<Name>)
      requires Valid() && Has(target)
      ensures multiset(gossip) == multiset(NodeStates.GetGossip(node, target.name))
    {
      hide Tabled, Indexed, NodeStates.GetGossip;
      TableHasKeys();
      ghost var all := NodeStates.GetGossip(node, target.name);
      gossip := [];
      var wants := Wants(target, local);
      if wants {
        gossip := [local.name];
      }
      OnlyLocal(node, target.name);
      var left := nonLocal;
      while left != {}
        invariant left <= nonLocal && multiset(gossip) == multiset(all - left)
        decreases left
      {
        var n :| n in left;
        HasAt(n);
        wants := Wants(target, members[n]);
        Selected(all, left, n);
        if wants {
          gossip := gossip + [n];
        }
        left := left - {n};
      }
      assert all - {} == all;
    }

    lemma MetadataKnown(member: Member)
      requires Valid() && Has(member)
      ensures member == local || member.metadataDict.Some? <==>
              member.name == node.name || Lookup(node, member.name).metadata.Some?
    {
    }

    lemma MatchesAt(member: Member)
      requires Tabled() && Has(member)
      ensures member.name in node.table && member.Valid() && member.Entry() == node.table[member.name]
    {
    }

    /** Marks `source` as having received news of `member`; returns whether the assertion on the clock fails. */
    method AckGossip(member: Member, source: Member, clock: nat) returns (failed: bool)
      requires Valid() && Has(member) && Has(source)
      modifies `node, source
      ensures failed <==> clock > nextClock
      ensures Valid()
      ensures node == if failed then old(node) else Acked(old(node), member.name, source.name, clock)
    {
      hide IndexesShaped, Member.Matches, Fits, NodeStates.AckGossip, WeakShuffle.View;
      failed := clock > nextClock;
      if !failed {
        HasAt(source.name);
        source.Know(member.name, clock, node.table[source.name]);
        AckTable(node, member.name, source.name, clock);
        node := NodeStates.AckGossip(node, member.name, source.name, clock);
        FitsSame(old(node), node);
      }
    }

    lemma IndexAt(s: Status)
      requires Valid()
      ensures s in statuses && Consistent(statuses[s].State())
      ensures statuses[s].State().members == WithStatus(node, s) && Cards(statuses[s].State()) <= NonLocal(node)
    {
    }

    /** Random members with a status: every random number drawn comes from `draws`, and `None` means that they ran
        out while members were still wanted. */
    method Find(count: int, status: Status, exclude: set<Name>, draws: seq<nat>) returns (found: Option<set<Name>>)
      requires Valid()
      ensures status in statuses && statuses[status].Valid()
      ensures found == Finds.Find(statuses[status].State(), exclude, count, draws)
      ensures found.Some? ==> |found.value| == FindCount(WithStatus(node, status), exclude, count)
                              && found.value <= Cards(statuses[status].State()) <= NonLocal(node)
    {
      hide Tabled, Indexed;
      IndexAt(status);
      var shuffle := statuses[status];
      FindCountMeaning(shuffle.weakVals, exclude, count);
      var remaining := |shuffle.weakVals| - |exclude * shuffle.weakVals|;
      found := DrawMembers(shuffle, if remaining < count then remaining else count, draws);
      if found.Some? {
        FindIsDrawn(shuffle.State(), exclude, count, draws);
      }
    }

    static method DrawMembers(shuffle: WeakShuffle<Name>, wanted: int, draws: seq<nat>)
      returns (found: Option<set<Name>>)
      requires shuffle.Valid() && wanted <= |shuffle.weakVals|
      ensures shuffle.values != [] || wanted <= 0
      ensures found == DrawUntil(shuffle.values, {}, {}, if wanted < 0 then 0 else wanted, draws)
    {
      var results: set<Name> := {};
      var i := 0;
      while |results| < wanted
        invariant i <= |draws|
        invariant wanted <= 0 ==> results == {}
        invariant DrawUntil(shuffle.values, {}, {}, if wanted < 0 then 0 else wanted, draws)
                  == DrawUntil(shuffle.values, {}, results, if wanted < 0 then 0 else wanted, draws[i..])
        decreases |draws| - i
      {
        if i == |draws| {
          return None;
        }
        var choice := shuffle.Choice(draws[i]);
        assert draws[i..][1..] == draws[i + 1..];
        results := results + {choice.value};
        i := i + 1;
      }
      found := Some(results);
    }
  }

  /** The step for a report about a member that is in the table. */
  function Recorded(node: Node, r: Report): Node {
    if r.subject in node.table then Record(node, r) else node
  }

  /** The step for an acknowledgement from a member that is in the table. */
  function Acked(node: Node, n: Name, source: Name, clock: nat): Node {
    if source in node.table then NodeStates.AckGossip(node, n, source, clock) else node
  }

  ghost predicate Unheard(node: Node) {
    && (forall n :: Lookup(node, n) == UNHEARD)
    && (forall n :: n in node.table ==> node.table[n].known == map[])
  }

  function NamesIn(names: seq<Name>): set<Name> {
    set n | n in names
  }

  lemma NamesInPrefix(names: seq<Name>, i: nat)
    requires i <= |names|
    ensures NamesIn(names[..0]) == {}
    ensures i < |names| ==> NamesIn(names[..i + 1]) == NamesIn(names[..i]) + {names[i]}
  {
    if i < |names| {
      assert names[..i + 1] == names[..i] + [names[i]];
    }
  }

  lemma UnheardAlone(node: Node, n: Name, seed: Validity)
    requires node.table == map[n := Entry(UNHEARD, seed, map[])]
    ensures Unheard(node)
  {
  }

  lemma UnheardGet(node: Node, n: Name, seed: Validity)
    requires Unheard(node)
    ensures var after := NodeStates.Get(node, n, None, seed);
            Unheard(after) && after.name == node.name && after.next == node.next
            && after.table.Keys == node.table.Keys + {n}
  {
  }

  /** What a node first records about itself makes it an initial one. */
  lemma InitialRecord(node: Node, metadata: Metadata)
    requires Unheard(node) && node.next == 1 && node.name in node.table
    ensures var after := Record(node, Report(node.name, None, 1, Some(Online), Some(metadata)));
            Initial(after) && after.name == node.name && after.table.Keys == node.table.Keys
  {
    var after := Record(node, Report(node.name, None, 1, Some(Online), Some(metadata)));
    assert Lookup(node, node.name) == UNHEARD;
    assert forall n :: n != node.name ==> Lookup(after, n) == Lookup(node, n);
  }

  lemma GetCreates(node: Node, n: Name, seed: Validity)
    requires n !in node.table
    ensures var after := NodeStates.Get(node, n, None, seed);
            after == node.(table := node.table[n := Entry(UNHEARD, seed, map[])])
  {
  }

  lemma GetTwice(node: Node, n: Name, validity: Option<Validity>, seed: Validity)
    ensures NodeStates.Get(NodeStates.Get(node, n, None, seed), n, validity, [])
            == NodeStates.Get(node, n, validity, seed)
    ensures n in node.table ==> NodeStates.Get(node, n, validity, []) == NodeStates.Get(node, n, validity, seed)
  {
  }

  lemma RecordTable(node: Node, r: Report)
    requires r.subject in node.table
    ensures var e, after := node.table[r.subject], Record(node, r);
            var f := Merge(e.fact, r.subject == node.name, r, node.next);
            && after.name == node.name && after.table == node.table[r.subject := e.(fact := f)]
            && after.next == if f.clock >= node.next then f.clock + 1 else node.next
  {
  }

  lemma AckTable(node: Node, n: Name, source: Name, clock: nat)
    requires source in node.table
    ensures var e, after := node.table[source], NodeStates.AckGossip(node, n, source, clock);
            && after.name == node.name && after.next == node.next
            && after.table == node.table[source := e.(known := e.known[n := clock])]
  {
  }

  lemma OnlyLocal(node: Node, target: Name)
    requires node.name in node.table
    ensures var all := NodeStates.GetGossip(node, target);
            all - (node.table.Keys - {node.name}) == if node.name in all then {node.name} else {}
  {
  }

  lemma Selected<T>(all: set<T>, left: set<T>, n: T)
    requires n in left
    ensures multiset(all - (left - {n})) == multiset(all - left) + if n in all then multiset{n} else multiset{}
  {
    assert all - (left - {n}) == if n in all then all - left + {n} else all - left;
  }

  /** An index for status `s` has the right members, and lists none but non-local members. */
  ghost predicate Fits(view: (set<Name>, set<Name>), node: Node, s: Status) {
    view.0 == WithStatus(node, s) && view.1 <= NonLocal(node)
  }

  /** An index after a member is created. */
  ghost predicate Extended(view: (set<Name>, set<Name>), view': (set<Name>, set<Name>),
                           n: Name, status: Status, mask: Status)
  {
    view'.0 == (if Shares(status, mask) then view.0 + {n} else view.0) && view'.1 <= view.1 + {n}
  }

  /** An index after a member's status is brought up to date. */
  ghost predicate Refreshed(view: (set<Name>, set<Name>), view': (set<Name>, set<Name>),
                            n: Name, status: Status, mask: Status)
  {
    view'.0 == (if Shares(status, mask) then view.0 + {n} else view.0 - {n}) && view'.1 <= view.1 + {n}
  }

  lemma FitsAlone(node: Node)
    requires node.table.Keys == {node.name}
    ensures forall s :: Fits(({}, {}), node, s)
  {
  }

  lemma FitsSame(node: Node, node': Node)
    requires node'.name == node.name && node'.table.Keys == node.table.Keys
    requires forall m :: m in node.table ==> node'.table[m].fact == node.table[m].fact
    ensures forall view, s :: Fits(view, node', s) == Fits(view, node, s)
  {
    assert forall s :: WithStatus(node', s) == WithStatus(node, s);
  }

  lemma FitsCreated(node: Node, node': Node, n: Name)
    requires n !in node.table && n != node.name && node'.name == node.name && node'.table.Keys == node.table.Keys + {n}
    requires forall m :: m in node.table ==> node'.table[m].fact == node.table[m].fact
    ensures forall view, view', s ::
              Fits(view, node, s) && Extended(view, view', n, node'.table[n].fact.status, s) ==> Fits(view', node', s)
  {
    assert forall s :: WithStatus(node', s) ==
                       WithStatus(node, s) + if Shares(node'.table[n].fact.status, s) then {n} else {};
  }

  lemma FitsRefreshed(node: Node, node': Node, n: Name)
    requires n in node.table && node'.name == node.name && node'.table.Keys == node.table.Keys
    requires forall m :: m in node.table && m != n ==> node'.table[m].fact == node.table[m].fact
    ensures n == node.name ==> forall view, s :: Fits(view, node', s) == Fits(view, node, s)
    ensures n != node.name ==> forall view, view', s ::
              Fits(view, node, s) && Refreshed(view, view', n, node'.table[n].fact.status, s) ==> Fits(view', node', s)
  {
    if n == node.name {
      assert forall s :: WithStatus(node', s) == WithStatus(node, s);
    } else {
      assert forall s :: WithStatus(node', s) ==
                         if Shares(node'.table[n].fact.status, s) then WithStatus(node, s) + {n}
                         else WithStatus(node, s) - {n};
    }
  }

  /** The real status that is asked for, if any. */
  function RealOf(status: Option<Status>): Option<RealStatus> {
    match status
    case Some(Online) => Some(Online)
    case Some(Offline) => Some(Offline)
    case Some(Suspect) => Some(Suspect)
    case _ => None
  }

  /** The dictionary of a set of pairs that came from one. */
  function FromItems(pairs: set<(string, Bytes)>): (m: Metadata)
    requires exists m: Metadata :: m.Items == pairs
    ensures m.Items == pairs
  {
    ItemsAreFunctional(pairs);
    var m := map p | p in pairs :: p.0 := p.1;
    assert forall p :: p in pairs ==> p.0 in m && m[p.0] == p.1;
    m
  }

  lemma ItemsAreFunctional(pairs: set<(string, Bytes)>)
    requires exists m: Metadata :: m.Items == pairs
    ensures forall p, q :: p in pairs && q in pairs && p.0 == q.0 ==> p.1 == q.1
  {
    var m: Metadata :| m.Items == pairs;
    forall p, q | p in pairs && q in pairs && p.0 == q.0 ensures p.1 == q.1 {
      assert p in m.Items && q in m.Items;
    }
  }

  lemma SameItems(m: Metadata, m': Metadata)
    requires m.Items == m'.Items
    ensures m == m'
  {
    forall k | k in m ensures k in m' && m'[k] == m[k] {
      assert (k, m[k]) in m'.Items;
    }
    forall k | k in m' ensures k in m {
      assert (k, m'[k]) in m.Items;
    }
  }
}
