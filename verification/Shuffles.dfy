/**
 The set with constant-time random choice: a list of values and the index of each in it. Removal moves
 the last value into the gap; the source forgets to rewrite the moved value's index, which is kept here.
 */
module Shuffles {
  import opened Wrappers

  /** The three tables of a shuffle: the set proper, each value's index, and the list to choose from. */
  datatype Deck<T> = Deck(members: set<T>, indexes: map<T, nat>, cards: seq<T>)

  function Empty<T>(): Deck<T> {
    Deck({}, map[], [])
  }

  function Added<T>(d: Deck<T>, v: T): Deck<T> {
    if v in d.members then d
    else Deck(d.members + {v}, d.indexes[v := |d.cards|], d.cards + [v])
  }

  /** The list after the swap: the last card fills the gap at `index` and the end is dropped. */
  function Filled<T>(cards: seq<T>, index: nat): seq<T>
    requires cards != []
  {
    var end := |cards| - 1;
    (if index < end then cards[index := cards[end]] else cards)[..end]
  }

  function Discarded<T>(d: Deck<T>, v: T): Deck<T>
    requires Consistent(d)
  {
    if v !in d.members then d
    else Deck(d.members - {v}, d.indexes - {v}, Filled(d.cards, d.indexes[v]))
  }

  /** The repair: the moved card's index is rewritten too. */
  function DiscardedRight<T>(d: Deck<T>, v: T): Deck<T>
    requires Faithful(d)
  {
    if v !in d.members then d
    else
      var index, end := d.indexes[v], |d.cards| - 1;
      var moved := if index < end then d.indexes[d.cards[end] := index] else d.indexes;
      Deck(d.members - {v}, moved - {v}, Filled(d.cards, index))
  }

  /** What the source keeps: the index has the members as its keys, and the list is as long as the set. */
  ghost predicate Consistent<T>(d: Deck<T>) {
    d.indexes.Keys == d.members && |d.cards| == |d.members|
  }

  /** What it is for: the list holds every member exactly once, and the index is its inverse. */
  ghost predicate Faithful<T>(d: Deck<T>) {
    && Consistent(d)
    && (forall v :: v in d.members ==> d.indexes[v] < |d.cards| && d.cards[d.indexes[v]] == v)
    && (forall i :: 0 <= i < |d.cards| ==> d.cards[i] in d.members && d.indexes[d.cards[i]] == i)
  }

  lemma AddedKeeps<T>(d: Deck<T>, v: T)
    requires Consistent(d)
    ensures Consistent(Added(d, v))
    ensures Faithful(d) ==> Faithful(Added(d, v))
  {
  }

  lemma DiscardedKeeps<T>(d: Deck<T>, v: T)
    requires Consistent(d)
    ensures Consistent(Discarded(d, v))
  {
  }

  /** The source's removal keeps a faithful deck faithful exactly when nothing has to move: the value is absent,
      or it is the last in the list. */
  lemma DiscardedFaithfulIff<T>(d: Deck<T>, v: T)
    requires Faithful(d)
    ensures Faithful(Discarded(d, v)) <==> v !in d.members || d.indexes[v] == |d.cards| - 1
  {
    if v in d.members {
      var index, end, d' := d.indexes[v], |d.cards| - 1, Discarded(d, v);
      if index < end {
        assert d'.cards[index] == d.cards[end];
        assert d'.indexes[d.cards[end]] == end;
      } else {
        assert forall i :: 0 <= i < end ==> d'.cards[i] == d.cards[i] && d.cards[i] != v;
      }
    }
  }

  /** What a caller sees can survive where the index does not. With exactly the members on the list, removal leaves
      exactly the remaining ones there if and only if the position that it clears is the value's. */
  lemma DiscardedCardsIff<T>(d: Deck<T>, v: T)
    requires Consistent(d) && Cards(d) == d.members && v in d.members
    ensures d.cards != []
    ensures Cards(Discarded(d, v)) == d.members - {v} <==> d.cards[Cleared(d, v)] == v
  {
    var p, end := Cleared(d, v), |d.cards| - 1;
    var after := Discarded(d, v).cards;
    AllDifferent(d.cards);
    forall i | 0 <= i <= end && i != p ensures d.cards[i] in Cards(Discarded(d, v)) {
      assert after[if i == end then p else i] == d.cards[i];
    }
    forall j | 0 <= j < end ensures after[j] != d.cards[p] && after[j] in d.members {
      assert after[j] == d.cards[if j == p then end else j];
    }
  }

  /** The position whose card removal drops: the one that the index gives, or the last if the index is too far. */
  function Cleared<T>(d: Deck<T>, v: T): (p: nat)
    requires Consistent(d) && v in d.members
    ensures p < |d.cards|
  {
    if d.indexes[v] < |d.cards| - 1 then d.indexes[v] else |d.cards| - 1
  }

  /** A list as long as the set of its cards holds no card twice. */
  lemma AllDifferent<T>(cards: seq<T>)
    requires |set c | c in cards| == |cards|
    ensures forall i, j :: 0 <= i < j < |cards| ==> cards[i] != cards[j]
  {
    forall i, j | 0 <= i < j < |cards| ensures cards[i] != cards[j] {
      if cards[i] == cards[j] {
        var rest := cards[..j] + cards[j + 1..];
        forall c | c in cards ensures c in rest {
          var k :| 0 <= k < |cards| && cards[k] == c;
          assert rest[if k < j then k else if k == j then i else k - 1] == c;
        }
        assert (set c | c in cards) == set c | c in rest;
        FewCards(rest);
      }
    }
  }

  lemma {:induction false} FewCards<T>(cards: seq<T>)
    ensures |set c | c in cards| <= |cards|
  {
    if cards == [] {
    } else {
      FewCards(cards[1..]);
      assert (set c | c in cards) == {cards[0]} + set c | c in cards[1..];
    }
  }

  /** The repaired removal always does. */
  lemma DiscardedRightKeeps<T>(d: Deck<T>, v: T)
    requires Faithful(d)
    ensures Faithful(DiscardedRight(d, v))
  {
    if v in d.members {
      var index, end, d' := d.indexes[v], |d.cards| - 1, DiscardedRight(d, v);
      assert d'.indexes.Keys == d'.members;
      forall i | 0 <= i < end ensures d'.cards[i] in d'.members && d'.indexes[d'.cards[i]] == i {
        assert d'.cards[i] == if i == index then d.cards[end] else d.cards[i];
      }
      forall u | u in d'.members ensures d'.indexes[u] < end && d'.cards[d'.indexes[u]] == u {
        assert d'.indexes[u] == if index < end && u == d.cards[end] then index else d.indexes[u];
      }
    }
  }

  datatype Edit<T> = Add(value: T) | Discard(value: T)

  function Front<T>(s: seq<T>): seq<T>
    requires s != []
  {
    s[..|s| - 1]
  }

  function Last<T>(s: seq<T>): T
    requires s != []
  {
    s[|s| - 1]
  }

  /** The set that a sequence of edits leaves. */
  function Plain<T>(edits: seq<Edit<T>>): set<T> {
    if edits == [] then {}
    else if Last(edits).Add? then Plain(Front(edits)) + {Last(edits).value}
    else Plain(Front(edits)) - {Last(edits).value}
  }

  ghost function Edited1<T>(d: Deck<T>, e: Edit<T>): (r: Deck<T>)
    requires Consistent(d)
    ensures Consistent(r)
  {
    AddedKeeps(d, e.value);
    DiscardedKeeps(d, e.value);
    if e.Add? then Added(d, e.value) else Discarded(d, e.value)
  }

  /** The deck that a sequence of edits leaves. */
  ghost function Edited<T>(edits: seq<Edit<T>>): (d: Deck<T>)
    ensures Consistent(d)
  {
    if edits == [] then Empty() else Edited1(Edited(Front(edits)), Last(edits))
  }

  /** After any edits, membership and size are those of a plain set, in spite of the stale indexes. */
  lemma {:induction false} EditedIsSet<T>(edits: seq<Edit<T>>)
    ensures Edited(edits).members == Plain(edits)
    ensures |Edited(edits).cards| == |Plain(edits)|
  {
    if edits == [] {
    } else {
      EditedIsSet(Front(edits));
    }
  }

  /** The deck that a sequence of edits leaves under the repair. */
  ghost function Repaired<T>(edits: seq<Edit<T>>): (d: Deck<T>)
    ensures Faithful(d)
  {
    if edits == [] then Empty()
    else
      var d, v := Repaired(Front(edits)), Last(edits).value;
      AddedKeeps(d, v);
      DiscardedRightKeeps(d, v);
      if Last(edits).Add? then Added(d, v) else DiscardedRight(d, v)
  }

  /** After any edits under the repair, the choice is among exactly the members of the set, each listed once. */
  lemma {:induction false} RepairedRefinesSet<T>(edits: seq<Edit<T>>)
    ensures Repaired(edits).members == Plain(edits) == Cards(Repaired(edits))
    ensures forall i, j :: 0 <= i < j < |Repaired(edits).cards| ==> Repaired(edits).cards[i] != Repaired(edits).cards[j]
  {
    if edits == [] {
    } else {
      RepairedRefinesSet(Front(edits));
    }
    FaithfulCards(Repaired(edits));
  }

  /** Everything that `Choice` can return. */
  function Cards<T>(d: Deck<T>): set<T> {
    set c | c in d.cards
  }

  lemma FaithfulCards<T>(d: Deck<T>)
    requires Faithful(d)
    ensures Cards(d) == d.members
  {
    forall v | v in d.members ensures v in Cards(d) {
      assert d.cards[d.indexes[v]] == v;
    }
  }

  lemma EditedThen<T>(edits: seq<Edit<T>>, e: Edit<T>)
    ensures Edited(edits + [e]) == Edited1(Edited(edits), e)
  {
    assert Front(edits + [e]) == edits;
  }

  lemma TwoAdded<T>(a: T, b: T)
    requires a != b
    ensures Edited([Add(a), Add(b)]) == Deck({a, b}, map[a := 0, b := 1], [a, b])
  {
    EditedThen([], Add(a));
    assert [] + [Add(a)] == [Add(a)];
    assert Edited([Add(a)]) == Deck({a}, map[a := 0], [a]);
    EditedThen([Add(a)], Add(b));
    assert [Add(a)] + [Add(b)] == [Add(a), Add(b)];
  }

  lemma ThreeAdded<T>(a: T, b: T, c: T)
    requires a != b && b != c && a != c
    ensures Edited([Add(a), Add(b), Add(c)]) == Deck({a, b, c}, map[a := 0, b := 1, c := 2], [a, b, c])
  {
    TwoAdded(a, b);
    EditedThen([Add(a), Add(b)], Add(c));
    assert [Add(a), Add(b)] + [Add(c)] == [Add(a), Add(b), Add(c)];
  }

  lemma FirstOfThree<T>(a: T, b: T, c: T)
    requires a != b && b != c && a != c
    ensures Edited1(Deck({a, b, c}, map[a := 0, b := 1, c := 2], [a, b, c]), Discard(a))
            == Deck({b, c}, map[b := 1, c := 2], [c, b])
  {
    assert Filled([a, b, c], 0) == [c, b];
    assert {a, b, c} - {a} == {b, c};
    assert map[a := 0, b := 1, c := 2] - {a} == map[b := 1, c := 2];
  }

  lemma FirstDiscarded<T>(a: T, b: T, c: T)
    requires a != b && b != c && a != c
    ensures Edited([Add(a), Add(b), Add(c), Discard(a)]) == Deck({b, c}, map[b := 1, c := 2], [c, b])
  {
    hide Edited, Edited1;
    ThreeAdded(a, b, c);
    EditedThen([Add(a), Add(b), Add(c)], Discard(a));
    FirstOfThree(a, b, c);
    assert [Add(a), Add(b), Add(c)] + [Discard(a)] == [Add(a), Add(b), Add(c), Discard(a)];
  }

  /** The smallest trouble: of a, b and c, discarding a and then c leaves the set {b} with only c to choose from,
      and adding c again lists it twice and b not at all. */
  lemma StaleIndexWitness<T>(a: T, b: T, c: T)
    requires a != b && b != c && a != c
    ensures Edited([Add(a), Add(b), Add(c), Discard(a), Discard(c)]) == Deck({b}, map[b := 1], [c])
    ensures Edited([Add(a), Add(b), Add(c), Discard(a), Discard(c), Add(c)])
            == Deck({b, c}, map[b := 1, c := 1], [c, c])
  {
    var edits := [Add(a), Add(b), Add(c), Discard(a)];
    FirstDiscarded(a, b, c);
    EditedThen(edits, Discard(c));
    EditedThen(edits + [Discard(c)], Add(c));
    assert edits + [Discard(c)] == [Add(a), Add(b), Add(c), Discard(a), Discard(c)];
    assert edits + [Discard(c)] + [Add(c)] == [Add(a), Add(b), Add(c), Discard(a), Discard(c), Add(c)];
  }

  /** The source's class, computing the unrepaired deck. */
  class WeakShuffle<T(==)> {
    var weakVals: set<T>
    var indexes: map<T, nat>
    var values: seq<T>

    ghost function State(): Deck<T>
      reads this
    {
      Deck(weakVals, indexes, values)
    }

    ghost predicate Valid()
      reads this
    {
      Consistent(State())
    }

    /** The members, and all that `Choice` can return. */
    ghost function View(): (set<T>, set<T>)
      reads this
    {
      (weakVals, Cards(State()))
    }

    constructor ()
      ensures Valid() && State() == Empty() && View() == ({}, {})
    {
      weakVals, indexes, values := {}, map[], [];
      new;
      assert Cards(State()) == {};
    }

    method Finalize(v: T)
      requires v in indexes ==> values != []
      modifies this
      ensures weakVals == old(weakVals)
      ensures indexes == old(indexes) - {v}
      ensures values == if v in old(indexes) then Filled(old(values), old(indexes)[v]) else old(values)
    {
      if v in indexes {
        var index := indexes[v];
        indexes := indexes - {v};
        var end := |values| - 1;
        if index < end {
          values := values[index := values[end]];
        }
        values := values[..end];
      } else {
        assert indexes - {v} == indexes;
      }
    }

    method Add(v: T)
      requires Valid()
      modifies this
      ensures Valid() && State() == Added(old(State()), v) && weakVals == old(weakVals) + {v}
      ensures Cards(State()) <= old(Cards(State())) + {v}
    {
      AddedKeeps(State(), v);
      if v !in weakVals {
        weakVals := weakVals + {v};
        indexes := indexes[v := |values|];
        values := values + [v];
      }
    }

    method Discard(v: T)
      requires Valid()
      modifies this
      ensures Valid() && State() == Discarded(old(State()), v) && weakVals == old(weakVals) - {v}
      ensures Cards(State()) <= old(Cards(State()))
    {
      DiscardedKeeps(State(), v);
      if v in weakVals {
        weakVals := weakVals - {v};
        Finalize(v);
      }
    }

    /** A random value, the random number being `draw`; `None` is the KeyError of an empty set. */
    method Choice(draw: nat) returns (r: Option<T>)
      requires Valid()
      ensures r == None <==> State().members == {}
      ensures r.Some? ==> values != [] && r.value == Drawn(State().cards, draw)
    {
      if values == [] {
        r := None;
      } else {
        r := Some(values[draw % |values|]);
      }
    }
  }

  /** The position that a random number picks, and the card there. */
  function Position<T>(cards: seq<T>, draw: nat): nat
    requires cards != []
  {
    draw % |cards|
  }

  function Drawn<T>(cards: seq<T>, draw: nat): T
    requires cards != []
  {
    cards[Position(cards, draw)]
  }
}
