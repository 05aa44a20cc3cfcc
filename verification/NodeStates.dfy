/**
 The state of one node's member table as a value, and each operation on it as one pure step.
 The classes in Members.dfy are proved to compute these steps.
 */
module NodeStates {
  import opened Wrappers
  import opened Statuses
  import opened Packets

  /** What a node believes about a member; `metadata == None` is the METADATA_UNKNOWN sentinel. */
  datatype Fact = Fact(clock: nat, status: RealStatus, metadata: Option<Metadata>)

  datatype Entry = Entry(fact: Fact, validity: Validity, known: map<Name, nat>)

  datatype Node = Node(name: Name, next: nat, table: map<Name, Entry>)

  /** A report about a member: from the node itself (`source == None`) or gossiped by `source`. */
  datatype Report = Report(subject: Name, source: Option<Name>, clock: nat,
                           status: Option<RealStatus>, metadata: Option<Metadata>)

  /** What is believed of a member that has not been heard of. */
  const UNHEARD := Fact(0, Offline, None)

  /** The belief about any name at all: absent members read as freshly created ones. */
  function Lookup(node: Node, n: Name): Fact {
    if n in node.table then node.table[n].fact else UNHEARD
  }

  /** The clock of `n` that `target` last acknowledged; -1 when it acknowledged none. */
  function Known(node: Node, target: Name, n: Name): int {
    if target in node.table && n in node.table[target].known then node.table[target].known[n] else -1
  }

  function NonLocal(node: Node): set<Name> {
    node.table.Keys - {node.name}
  }

  /** The non-local members whose status shares a bit with `mask`. */
  function WithStatus(node: Node, mask: Status): set<Name> {
    set n | n in NonLocal(node) && Shares(node.table[n].fact.status, mask)
  }

  /** The status and metadata that a report asks for. */
  function Wanted(f: Fact, r: Report): (RealStatus, Option<Metadata>) {
    (if r.status.None? then f.status else Move(f.status, r.status.value),
     if r.metadata.None? then f.metadata else r.metadata)
  }

  /** The report is heard at all: it is newer, or the member speaks about itself. */
  predicate Heard(f: Fact, r: Report) {
    r.clock > f.clock || r.source == Some(r.subject)
  }

  /** The report asks for something other than what is believed. */
  predicate Conflicts(f: Fact, r: Report) {
    Wanted(f, r) != (f.status, f.metadata)
  }

  /** The effect of a report on the belief about its subject: ignored, refuted, or adopted. */
  function Merge(f: Fact, local: bool, r: Report, next: nat): Fact {
    if !Heard(f, r) || !Conflicts(f, r) then f
    else if local && r.source.Some? then f.(clock := next)
    else Fact(if r.clock > f.clock then r.clock else f.clock, Wanted(f, r).0, Wanted(f, r).1)
  }

  /** Merges a report into the table and keeps the sequence clock ahead of it. */
  function Record(node: Node, r: Report): Node
    requires r.subject in node.table
  {
    var e := node.table[r.subject];
    var f := Merge(e.fact, r.subject == node.name, r, node.next);
    node.(table := node.table[r.subject := e.(fact := f)],
          next := if f.clock >= node.next then f.clock + 1 else node.next)
  }

  /** A change made by the node itself, stamped with its sequence clock. */
  function OwnReport(node: Node, subject: Name, status: Option<RealStatus>, metadata: Option<Metadata>): Report {
    Report(subject, None, node.next, status, metadata)
  }

  /** Looks a member up, creating it or noting its validity; `seed` is the random validity drawn on creation. */
  function Get(node: Node, n: Name, validity: Option<Validity>, seed: Validity): (r: Node)
    ensures r.name == node.name && r.next == node.next && r.table.Keys == node.table.Keys + {n}
    ensures forall m :: Lookup(r, m) == Lookup(node, m)
    ensures forall t, m :: Known(r, t, m) == Known(node, t, m)
                           || (t == n && n != node.name && validity.Some? && Known(r, t, m) == -1)
  {
    var e := if n in node.table then node.table[n] else Entry(UNHEARD, seed, map[]);
    if n != node.name && validity.Some? && e.validity != validity.value
    then node.(table := node.table[n := Entry(e.fact, validity.value, map[])])
    else node.(table := node.table[n := e])
  }

  /** The members that `target` should be gossiped about. */
  function GetGossip(node: Node, target: Name): set<Name> {
    set n | n in node.table && Lookup(node, n).clock > Known(node, target, n)
            && (n == node.name || Lookup(node, n).metadata.Some?)
  }

  function BuildGossip(node: Node, n: Name): Packet
    requires node.name in node.table
  {
    var f := Lookup(node, n);
    Gossip(Source(node.name, node.table[node.name].validity), n, f.clock, f.status, f.metadata)
  }

  /** Notes that `source` has received news of `n` up to `clock`. */
  function AckGossip(node: Node, n: Name, source: Name, clock: nat): Node
    requires source in node.table
  {
    var e := node.table[source];
    node.(table := node.table[source := e.(known := e.known[n := clock])])
  }

  /** A node as it is after construction: itself ONLINE at clock 1 with its metadata known, its peers unheard of. */
  ghost predicate Initial(node: Node) {
    && node.name in node.table
    && node.next == 2
    && Lookup(node, node.name).clock == 1 && Lookup(node, node.name).status == Online
    && Lookup(node, node.name).metadata.Some?
    && (forall n :: n != node.name ==> Lookup(node, n) == UNHEARD)
    && (forall n :: n in node.table ==> node.table[n].known == map[])
  }

  /** The sequence clock is exactly one more than the largest clock in the table. */
  ghost predicate ClockIsNext(node: Node) {
    && (forall n :: Lookup(node, n).clock < node.next)
    && (exists n :: n in node.table && Lookup(node, n).clock + 1 == node.next)
  }

  lemma InitialClock(node: Node)
    requires Initial(node)
    ensures ClockIsNext(node)
  {
    assert Lookup(node, node.name).clock + 1 == node.next;
  }

  /** Every report, whatever its origin and clock, keeps the sequence clock exact and no clock ever falls. */
  lemma RecordKeepsClocks(node: Node, r: Report)
    requires r.subject in node.table && ClockIsNext(node)
    ensures ClockIsNext(Record(node, r))
    ensures forall n :: Lookup(Record(node, r), n).clock >= Lookup(node, n).clock
    ensures Record(node, r).next >= node.next
  {
    var after := Record(node, r);
    assert forall n :: n != r.subject ==> Lookup(after, n) == Lookup(node, n);
    var top :| top in node.table && Lookup(node, top).clock + 1 == node.next;
    if Lookup(after, r.subject).clock >= node.next {
      assert Lookup(after, r.subject).clock + 1 == after.next;
    } else {
      assert Lookup(after, top).clock + 1 == after.next;
    }
  }

  /** A node's own change takes effect exactly when it asks for something new, and is then
      stamped above every clock that the node stores. */
  lemma OwnChangeIsNewest(node: Node, n: Name, status: Option<RealStatus>, metadata: Option<Metadata>)
    requires n in node.table && ClockIsNext(node)
    ensures var r := OwnReport(node, n, status, metadata);
            var after := Record(node, r);
            if Conflicts(Lookup(node, n), r)
            then && (Lookup(after, n).status, Lookup(after, n).metadata) == Wanted(Lookup(node, n), r)
                 && (forall m :: Lookup(after, n).clock > Lookup(node, m).clock)
                 && (forall m :: m != n ==> Lookup(after, m) == Lookup(node, m))
            else after == node
  {
    var r := OwnReport(node, n, status, metadata);
    assert !Conflicts(Lookup(node, n), r) ==> Record(node, r).table == node.table;
  }

  /** The sequence clock ends above the clock of an observed report exactly when it already was,
      or the report was adopted, or it was refuted with a clock no later than the node's next one.
      The documented "always higher than any other observed value" holds no further than this. */
  lemma ObservedClockIsPassedIff(node: Node, r: Report)
    requires r.subject in node.table && ClockIsNext(node) && r.source.Some?
    ensures Record(node, r).next > r.clock <==>
            || r.clock < node.next
            || (Conflicts(Lookup(node, r.subject), r) && (r.subject != node.name || r.clock == node.next))
  {
    assert Lookup(node, r.subject).clock < node.next;
  }

  /** Status and metadata stand as long as the clock does, except for exactly one kind of report: one that another
      member makes about itself, no newer than what is believed, with something else to say. */
  lemma ContentFollowsClockIff(node: Node, r: Report)
    requires r.subject in node.table && ClockIsNext(node) && (r.source.None? ==> r.clock == node.next)
    ensures var f, g := Lookup(node, r.subject), Lookup(Record(node, r), r.subject);
            (g.clock == f.clock ==> g == f) <==>
            !(r.source == Some(r.subject) && r.subject != node.name && r.clock <= f.clock && Conflicts(f, r))
  {
    assert Lookup(node, r.subject).clock < node.next;
  }

  /** Gossip, whoever sends it, never changes the node's own status or metadata: at most its clock. */
  lemma GossipKeepsOwnContent(node: Node, r: Report)
    requires r.subject in node.table && r.source.Some?
    ensures var own, kept := Lookup(node, node.name), Lookup(Record(node, r), node.name);
            kept.status == own.status && kept.metadata == own.metadata
  {
  }
}
