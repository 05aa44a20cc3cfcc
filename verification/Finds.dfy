/**
 Drawing a number of different members at random, over every sequence of draws. The source counts excluded
 members out but may still draw them; the repair draws again.
 */
module Finds {
  import opened Wrappers
  import opened Shuffles

  /** The number of members that `find` looks for. */
  function FindCount<T>(members: set<T>, exclude: set<T>, count: int): int {
    var remaining := |members| - |exclude * members|;
    var wanted := if remaining < count then remaining else count;
    if wanted < 0 then 0 else wanted
  }

  /** That number is the smaller of `count` and how many members are not excluded. */
  lemma FindCountMeaning<T>(members: set<T>, exclude: set<T>, count: int)
    ensures 0 <= FindCount(members, exclude, count) <= |members - exclude| <= |members|
    ensures 0 <= count ==> FindCount(members, exclude, count) ==
                           if |members - exclude| < count then |members - exclude| else count
  {
    assert |members - exclude| == |members| - |exclude * members|;
  }

  /** Draws until `wanted` different cards are held, passing over those to avoid. `None` means that
      the draws ran out with too few cards held. */
  function DrawUntil<T>(cards: seq<T>, avoid: set<T>, held: set<T>, wanted: int, draws: seq<nat>): Option<set<T>>
    requires cards != [] || wanted <= |held|
    decreases |draws|
  {
    if wanted <= |held| then Some(held)
    else if draws == [] then None
    else
      var card := Drawn(cards, draws[0]);
      DrawUntil(cards, avoid, if card in avoid then held else held + {card}, wanted, draws[1..])
  }

  /** What `find` does: excluded members are only subtracted from the count. */
  function Find<T>(d: Deck<T>, exclude: set<T>, count: int, draws: seq<nat>): Option<set<T>>
    requires Consistent(d)
  {
    FindCountMeaning(d.members, exclude, count);
    DrawUntil(d.cards, {}, {}, FindCount(d.members, exclude, count), draws)
  }

  /** The repair: excluded members are passed over. */
  function FindRight<T>(d: Deck<T>, exclude: set<T>, count: int, draws: seq<nat>): Option<set<T>>
    requires Consistent(d)
  {
    FindCountMeaning(d.members, exclude, count);
    DrawUntil(d.cards, exclude, {}, FindCount(d.members, exclude, count), draws)
  }

  /** Every position of the list is drawn at some time. */
  ghost predicate Fair<T>(cards: seq<T>, draws: seq<nat>) {
    forall i :: 0 <= i < |cards| ==> Reached(cards, draws, i)
  }

  ghost predicate Reached<T>(cards: seq<T>, draws: seq<nat>, i: nat)
    requires i < |cards|
  {
    exists j :: 0 <= j < |draws| && Position(cards, draws[j]) == i
  }

  /** What is held grows by drawn cards that need not be avoided, and never past what is wanted. */
  lemma {:induction false} DrawUntilResult<T>(cards: seq<T>, avoid: set<T>, held: set<T>, wanted: int, draws: seq<nat>)
    requires cards != [] || wanted <= |held|
    ensures var r := DrawUntil(cards, avoid, held, wanted, draws);
            r.Some? ==>
              && held <= r.value && (forall v :: v in r.value - held ==> v in cards && v !in avoid)
              && |r.value| == if |held| <= wanted then wanted else |held|
    decreases |draws|
  {
    if wanted <= |held| || draws == [] {
    } else {
      var card := Drawn(cards, draws[0]);
      DrawUntilResult(cards, avoid, if card in avoid then held else held + {card}, wanted, draws[1..]);
    }
  }

  /** When the draws run out, every card drawn that need not be avoided was held, and there were too few of them. */
  lemma {:induction false} DrawUntilExhausted<T>(cards: seq<T>, avoid: set<T>, held: set<T>, wanted: int,
                                                 draws: seq<nat>)
    returns (last: set<T>)
    requires cards != [] && DrawUntil(cards, avoid, held, wanted, draws) == None
    ensures held <= last && |last| < wanted
    ensures forall j :: 0 <= j < |draws| ==> Drawn(cards, draws[j]) in avoid + last
    decreases |draws|
  {
    if draws == [] {
      last := held;
    } else {
      var card := Drawn(cards, draws[0]);
      last := DrawUntilExhausted(cards, avoid, if card in avoid then held else held + {card}, wanted, draws[1..]);
      forall j | 0 <= j < |draws| ensures Drawn(cards, draws[j]) in avoid + last {
        assert j > 0 ==> draws[j] == draws[1..][j - 1];
      }
    }
  }

  /** Under fair draws, drawing ends exactly when there are enough different cards that need not be avoided. */
  lemma FairDrawsEndIff<T>(cards: seq<T>, avoid: set<T>, wanted: int, draws: seq<nat>)
    requires (cards != [] || wanted <= 0) && Fair(cards, draws)
    ensures DrawUntil(cards, avoid, {}, wanted, draws).Some? <==> wanted <= |(set c | c in cards) - avoid|
  {
    var r, usable := DrawUntil(cards, avoid, {}, wanted, draws), (set c | c in cards) - avoid;
    DrawUntilResult(cards, avoid, {}, wanted, draws);
    if r.Some? {
      assert r.value - {} == r.value;
      Contained(r.value, usable);
    } else {
      var last := DrawUntilExhausted(cards, avoid, {}, wanted, draws);
      forall v | v in usable ensures v in last {
        var i :| 0 <= i < |cards| && cards[i] == v;
        assert Reached(cards, draws, i);
        var j :| 0 <= j < |draws| && Position(cards, draws[j]) == i;
        assert Drawn(cards, draws[j]) == v;
      }
      Contained(usable, last);
    }
  }

  lemma {:induction false} Contained<T>(a: set<T>, b: set<T>)
    requires a <= b
    ensures |a| <= |b|
  {
    assert |b - a| == |b| - |a * b|;
    assert a * b == a;
  }

  /** Whatever state the list is in, what `find` returns is of the right size and comes from the list. */
  lemma FindIsDrawn<T>(d: Deck<T>, exclude: set<T>, count: int, draws: seq<nat>)
    requires Consistent(d) && Find(d, exclude, count, draws).Some?
    ensures var r := Find(d, exclude, count, draws).value;
            |r| == FindCount(d.members, exclude, count) && r <= Cards(d)
  {
    FindCountMeaning(d.members, exclude, count);
    DrawUntilResult(d.cards, {}, {}, FindCount(d.members, exclude, count), draws);
    assert Find(d, exclude, count, draws).value - {} == Find(d, exclude, count, draws).value;
  }

  /** Whatever state the list is in, `find` ends under fair draws exactly when the list holds enough different cards. */
  lemma FindEndsIff<T>(d: Deck<T>, exclude: set<T>, count: int, draws: seq<nat>)
    requires Consistent(d) && Fair(d.cards, draws)
    ensures Find(d, exclude, count, draws).Some? <==> FindCount(d.members, exclude, count) <= |Cards(d)|
  {
    FindCountMeaning(d.members, exclude, count);
    FairDrawsEndIff(d.cards, {}, FindCount(d.members, exclude, count), draws);
    assert (set c | c in d.cards) - {} == Cards(d);
  }

  /** The list [c, c] that removal without the repair can leave makes a search for two members draw for ever. */
  lemma FindIsStuck<T>(b: T, c: T, draws: seq<nat>)
    requires b != c
    ensures Find(Deck({b, c}, map[b := 1, c := 1], [c, c]), {}, 2, draws) == None
  {
    var d := Deck({b, c}, map[b := 1, c := 1], [c, c]);
    assert FindCount(d.members, {}, 2) == 2 by {
      assert {} * d.members == {};
    }
    var r := Find(d, {}, 2, draws);
    DrawUntilResult(d.cards, {}, {}, 2, draws);
    if r.Some? {
      assert r.value <= {c} by {
        forall v | v in r.value ensures v == c {
          assert v in r.value - {};
        }
      }
      Contained(r.value, {c});
    }
  }

  /** Whatever state the list is in, and whichever values are unwanted: no draws make `find` return one of them if and
      only if it looks for none, or none is on the list, or the list holds too few different values for it to end. */
  lemma FindAvoidsIff<T>(d: Deck<T>, exclude: set<T>, count: int, bad: set<T>)
    requires Consistent(d)
    ensures (forall draws :: Find(d, exclude, count, draws).Some? ==> Find(d, exclude, count, draws).value !! bad) <==>
            || FindCount(d.members, exclude, count) == 0
            || Cards(d) !! bad
            || FindCount(d.members, exclude, count) > |Cards(d)|
  {
    hide Find, FindCount;
    var wanted := FindCount(d.members, exclude, count);
    FindCountMeaning(d.members, exclude, count);
    if wanted == 0 || Cards(d) !! bad || wanted > |Cards(d)| {
      forall draws | Find(d, exclude, count, draws).Some?
        ensures Find(d, exclude, count, draws).value !! bad
      {
        FindIsDrawn(d, exclude, count, draws);
        Contained(Find(d, exclude, count, draws).value, Cards(d));
      }
    } else {
      var x :| x in Cards(d) && x in bad;
      var draws := FindReturns(d, exclude, count, x);
    }
  }

  /** Every value on the list is returned for some draws, if `find` looks for any and can end. */
  lemma FindReturns<T>(d: Deck<T>, exclude: set<T>, count: int, x: T) returns (draws: seq<nat>)
    requires Consistent(d) && x in Cards(d) && 0 < FindCount(d.members, exclude, count) <= |Cards(d)|
    ensures Find(d, exclude, count, draws).Some? && x in Find(d, exclude, count, draws).value
  {
    var i :| 0 <= i < |d.cards| && d.cards[i] == x;
    draws := FairFrom(d.cards, i);
    FindEndsIff(d, exclude, count, draws);
    DrawUntilResult(d.cards, {}, {x}, FindCount(d.members, exclude, count), draws[1..]);
    assert {} + {x} == {x};
  }

  /** Whatever state the list is in, no draws make `find` return an excluded member if and only if it looks for none,
      or no excluded member is on the list, or it cannot end. */
  lemma FindExcludesIff<T>(d: Deck<T>, exclude: set<T>, count: int)
    requires Consistent(d)
    ensures (forall draws :: Find(d, exclude, count, draws).Some? ==>
               Find(d, exclude, count, draws).value !! exclude) <==>
            || FindCount(d.members, exclude, count) == 0
            || Cards(d) !! exclude
            || FindCount(d.members, exclude, count) > |Cards(d)|
  {
    FindAvoidsIff(d, exclude, count, exclude);
  }

  /** Whatever state the list is in, all that `find` can return has the status if and only if it looks for none, or
      all that is on the list has it, or it cannot end. */
  lemma FindHasStatusIff<T>(d: Deck<T>, exclude: set<T>, count: int)
    requires Consistent(d)
    ensures (forall draws :: Find(d, exclude, count, draws).Some? ==>
               Find(d, exclude, count, draws).value <= d.members) <==>
            || FindCount(d.members, exclude, count) == 0
            || Cards(d) <= d.members
            || FindCount(d.members, exclude, count) > |Cards(d)|
  {
    hide Find, FindCount;
    var bad := Cards(d) - d.members;
    FindAvoidsIff(d, exclude, count, bad);
    forall draws | Find(d, exclude, count, draws).Some?
      ensures Find(d, exclude, count, draws).value <= d.members <==> Find(d, exclude, count, draws).value !! bad
    {
      FindIsDrawn(d, exclude, count, draws);
    }
  }

  /** What `find` promises but for the exclusion: it ends under all fair draws, and returns as many members with the
      status as it looks for. */
  ghost predicate Promised<T>(d: Deck<T>, exclude: set<T>, count: int)
    requires Consistent(d)
  {
    && (forall draws :: Find(d, exclude, count, draws).Some? ==>
          && |Find(d, exclude, count, draws).value| == FindCount(d.members, exclude, count)
          && Find(d, exclude, count, draws).value <= d.members)
    && (forall draws :: Fair(d.cards, draws) ==> Find(d, exclude, count, draws).Some?)
  }

  /** Whatever state the list is in, `find` keeps that promise if and only if it looks for none, or the list holds
      enough different values and only members with the status. With a faithful list it always does. */
  lemma FindIsExact<T>(d: Deck<T>, exclude: set<T>, count: int)
    requires Consistent(d)
    ensures Promised(d, exclude, count) <==>
            || FindCount(d.members, exclude, count) == 0
            || (FindCount(d.members, exclude, count) <= |Cards(d)| && Cards(d) <= d.members)
    ensures Faithful(d) ==> Promised(d, exclude, count)
  {
    hide Find, FindCount;
    FindCountMeaning(d.members, exclude, count);
    FindHasStatusIff(d, exclude, count);
    forall draws
      ensures Fair(d.cards, draws) ==>
                (Find(d, exclude, count, draws).Some? <==> FindCount(d.members, exclude, count) <= |Cards(d)|)
    {
      if Fair(d.cards, draws) {
        FindEndsIff(d, exclude, count, draws);
      }
    }
    forall draws | Find(d, exclude, count, draws).Some?
      ensures |Find(d, exclude, count, draws).value| == FindCount(d.members, exclude, count)
    {
      FindIsDrawn(d, exclude, count, draws);
    }
    var fair := AllDraws(d.cards);
    if Faithful(d) {
      FaithfulCards(d);
    }
  }

  /** A fair sequence of draws. */
  lemma AllDraws<T>(cards: seq<T>) returns (draws: seq<nat>)
    ensures Fair(cards, draws)
  {
    if cards == [] {
      draws := [];
    } else {
      draws := FairFrom(cards, 0);
    }
  }

  /** Of a, b and c, a and then c have left the status: the list holds c in place of b. A search for a member other
      than c then returns c, an excluded one and one without the status, although no member is excluded. */
  lemma StaleCardIsFound<T>(a: T, b: T, c: T)
    requires a != b && b != c && a != c
    ensures var d := Edited([Add(a), Add(b), Add(c), Discard(a), Discard(c)]);
            d.members == {b} && Find(d, {c}, 1, [0]) == Some({c})
  {
    StaleIndexWitness(a, b, c);
    StaleCard(b, c);
  }

  lemma StaleCard<T>(b: T, c: T)
    requires b != c
    ensures Find(Deck({b}, map[b := 1], [c]), {c}, 1, [0]) == Some({c})
  {
    var d := Deck({b}, map[b := 1], [c]);
    assert FindCount(d.members, {c}, 1) == 1 by {
      assert {c} * d.members == {};
    }
    var one: seq<nat> := [0];
    assert one[1..] == [];
    assert Drawn(d.cards, one[0]) == c;
    assert {} + {c} == {c};
  }

  lemma SmallRemainder(i: nat, n: nat)
    requires i < n
    ensures i % n == i
  {
  }

  /** A fair sequence of draws that begins at a given position. */
  lemma FairFrom<T>(cards: seq<T>, first: nat) returns (draws: seq<nat>)
    requires first < |cards|
    ensures draws != [] && Drawn(cards, draws[0]) == cards[first] && Fair(cards, draws)
  {
    SmallRemainder(first, |cards|);
    draws := [first] + seq(|cards|, i => i);
    forall i | 0 <= i < |cards| ensures Reached(cards, draws, i) {
      SmallRemainder(i, |cards|);
      assert draws[i + 1] == i;
      assert Position(cards, draws[i + 1]) == i;
    }
  }

  /** With the list faithful, the repaired search ends for every fair sequence of draws, with exactly the number
      it looks for, all of them members and none excluded. */
  lemma FindRightIsExact<T>(d: Deck<T>, exclude: set<T>, count: int, draws: seq<nat>)
    requires Faithful(d)
    ensures var r := FindRight(d, exclude, count, draws);
            && (r.Some? ==> |r.value| == FindCount(d.members, exclude, count) && r.value <= d.members - exclude)
            && (Fair(d.cards, draws) ==> r.Some?)
  {
    FindCountMeaning(d.members, exclude, count);
    FaithfulCards(d);
    var wanted := FindCount(d.members, exclude, count);
    DrawUntilResult(d.cards, exclude, {}, wanted, draws);
    var r := FindRight(d, exclude, count, draws);
    assert r.Some? ==> r.value - {} == r.value;
    if Fair(d.cards, draws) {
      FairDrawsEndIff(d.cards, exclude, wanted, draws);
      assert (set c | c in d.cards) == d.members;
    }
  }
}
