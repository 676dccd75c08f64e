/** The bullet group as a sequence of rectangles: its upward motion, the
    pruning of bullets that left the top of the screen, and the bullet/alien
    collision sweep that `groupcollide(bullets, aliens, True, True)`
    performs. */
module Bullets {
  import opened Rects

  /** Every bullet moved up by `rise` pixels. */
  function Raised(bullets: seq<Rect>, rise: int): (r: seq<Rect>)
    ensures |r| == |bullets|
  {
    seq(|bullets|, i requires 0 <= i < |bullets| => bullets[i].(y := bullets[i].y - rise))
  }

  /** Two rises add up, a rise of 0 moves nothing, and a rise is undone by
      the opposite one; the horizontal position and the size never change. */
  lemma RaisedComposes(bullets: seq<Rect>, first: int, second: int)
    ensures Raised(Raised(bullets, first), second) == Raised(bullets, first + second)
    ensures Raised(bullets, 0) == bullets
    ensures Raised(Raised(bullets, first), -first) == bullets
    ensures forall i :: 0 <= i < |bullets| ==>
              Raised(bullets, first)[i].x == bullets[i].x &&
              Raised(bullets, first)[i].width == bullets[i].width &&
              Raised(bullets, first)[i].height == bullets[i].height
  {
    assert Raised(Raised(bullets, first), -first) == Raised(bullets, first + -first);
  }

  /** The bullets kept by pruning: those whose bottom is still below the top
      of the screen, in their order. */
  function OnScreen(bullets: seq<Rect>): seq<Rect>
    decreases |bullets|
  {
    if bullets == [] then []
    else
      var last := bullets[|bullets| - 1];
      OnScreen(bullets[..|bullets| - 1]) + (if last.Bottom() <= 0 then [] else [last])
  }

  /** Pruning removes every copy of a bullet with `bottom <= 0` and keeps
      every copy of every other bullet. */
  lemma {:induction false} OnScreenExactly(bullets: seq<Rect>)
    ensures forall b :: multiset(OnScreen(bullets))[b] ==
                        if b.Bottom() <= 0 then 0 else multiset(bullets)[b]
    ensures forall b :: b in OnScreen(bullets) <==> b in bullets && 0 < b.Bottom()
    ensures |OnScreen(bullets)| <= |bullets|
  {
    if bullets != [] {
      var init, last := bullets[..|bullets| - 1], bullets[|bullets| - 1];
      assert bullets == init + [last];
      OnScreenExactly(init);
      assert multiset(bullets) == multiset(init) + multiset{last};
    }
  }

  /** The aliens of `aliens` that `bullet` does not overlap, in order. */
  function Apart(bullet: Rect, aliens: seq<Rect>): seq<Rect>
    decreases |aliens|
  {
    if aliens == [] then []
    else
      var last := aliens[|aliens| - 1];
      Apart(bullet, aliens[..|aliens| - 1]) + (if Overlaps(bullet, last) then [] else [last])
  }

  /** One bullet removes every copy of each alien it overlaps and nothing
      else; it removes none exactly when it overlaps none. */
  lemma {:induction false} ApartExactly(bullet: Rect, aliens: seq<Rect>)
    ensures forall a :: multiset(Apart(bullet, aliens))[a] ==
                        if Overlaps(bullet, a) then 0 else multiset(aliens)[a]
    ensures |Apart(bullet, aliens)| <= |aliens|
    ensures |Apart(bullet, aliens)| == |aliens| <==>
            forall k :: 0 <= k < |aliens| ==> !Overlaps(bullet, aliens[k])
    ensures (forall k :: 0 <= k < |aliens| ==> !Overlaps(bullet, aliens[k])) ==>
            Apart(bullet, aliens) == aliens
  {
    if aliens != [] {
      var init, last := aliens[..|aliens| - 1], aliens[|aliens| - 1];
      assert aliens == init + [last];
      ApartExactly(bullet, init);
      assert multiset(aliens) == multiset(init) + multiset{last};
      if |Apart(bullet, aliens)| == |aliens| {
        forall k | 0 <= k < |aliens| ensures !Overlaps(bullet, aliens[k]) {
          if k < |init| {
            assert aliens[k] == init[k];
          }
        }
      }
    }
  }

  /** What the sweep leaves: the bullets that hit nothing, the aliens still
      present, and, for each bullet that hit, how many aliens it removed
      (the lengths of the lists in the collisions dictionary). */
  datatype Outcome = Outcome(bullets: seq<Rect>, aliens: seq<Rect>, hits: seq<nat>)

  /** `groupcollide(bullets, aliens, True, True)`: each bullet in turn removes
      the still-present aliens it overlaps, and is itself removed if it
      removed any. */
  function Sweep(bullets: seq<Rect>, aliens: seq<Rect>): Outcome
    decreases |bullets|
  {
    if bullets == [] then Outcome([], aliens, [])
    else
      var o := Sweep(bullets[..|bullets| - 1], aliens);
      var bullet := bullets[|bullets| - 1];
      var left := Apart(bullet, o.aliens);
      if |left| < |o.aliens| then Outcome(o.bullets, left, o.hits + [|o.aliens| - |left|])
      else Outcome(o.bullets + [bullet], o.aliens, o.hits)
  }

  /** Taking one more bullet of `bullets` extends a known sweep outcome
      `o` of the shorter prefix by one step. */
  lemma SweepAdvance(bullets: seq<Rect>, i: nat, aliens: seq<Rect>, o: Outcome, left: seq<Rect>)
    requires i < |bullets|
    requires Sweep(bullets[..i], aliens) == o
    requires left == Apart(bullets[i], o.aliens)
    ensures Sweep(bullets[..i + 1], aliens) ==
            if |left| < |o.aliens| then Outcome(o.bullets, left, o.hits + [|o.aliens| - |left|])
            else Outcome(o.bullets + [bullets[i]], o.aliens, o.hits)
  {
    assert bullets[..i + 1][..i] == bullets[..i];
  }

  function Sum(s: seq<nat>): nat
    decreases |s|
  {
    if s == [] then 0 else Sum(s[..|s| - 1]) + s[|s| - 1]
  }

  /** No bullet of `bullets` overlaps `alien`. */
  predicate Unhit(bullets: seq<Rect>, alien: Rect) {
    forall i :: 0 <= i < |bullets| ==> !Overlaps(bullets[i], alien)
  }

  /** The aliens that no bullet overlaps, in order: a direct
      description of who survives the sweep. */
  function Untouched(bullets: seq<Rect>, aliens: seq<Rect>): seq<Rect>
    decreases |aliens|
  {
    if aliens == [] then []
    else
      var last := aliens[|aliens| - 1];
      Untouched(bullets, aliens[..|aliens| - 1]) + (if Unhit(bullets, last) then [last] else [])
  }

  /** The sweep only removes: the bullets and aliens it leaves are among
      those it was given. */
  lemma {:induction false} SweepOnlyRemoves(bullets: seq<Rect>, aliens: seq<Rect>)
    ensures multiset(Sweep(bullets, aliens).bullets) <= multiset(bullets)
    ensures multiset(Sweep(bullets, aliens).aliens) <= multiset(aliens)
  {
    if bullets != [] {
      var init, bullet := bullets[..|bullets| - 1], bullets[|bullets| - 1];
      assert bullets == init + [bullet];
      assert multiset(bullets) == multiset(init) + multiset{bullet};
      SweepOnlyRemoves(init, aliens);
      ApartSubMultiset(bullet, Sweep(init, aliens).aliens);
    }
  }

  /** Every alien the sweep removes is counted once, in exactly one bullet's
      hit count; the bullets it removes are those with a hit, and each of
      them hit at least one alien. */
  lemma {:induction false} SweepAccounting(bullets: seq<Rect>, aliens: seq<Rect>)
    ensures var o := Sweep(bullets, aliens);
            |aliens| == |o.aliens| + Sum(o.hits) &&
            |bullets| == |o.bullets| + |o.hits| &&
            (forall i :: 0 <= i < |o.hits| ==> 0 < o.hits[i])
  {
    if bullets != [] {
      var init, bullet := bullets[..|bullets| - 1], bullets[|bullets| - 1];
      SweepAccounting(init, aliens);
      var o := Sweep(init, aliens);
      var left := Apart(bullet, o.aliens);
      ApartShorter(bullet, o.aliens);
      if |left| < |o.aliens| {
        SumAppend(o.hits, |o.aliens| - |left|);
      }
    }
  }

  lemma ApartSnoc(bullet: Rect, aliens: seq<Rect>, alien: Rect)
    ensures Apart(bullet, aliens + [alien]) ==
            Apart(bullet, aliens) + (if Overlaps(bullet, alien) then [] else [alien])
  {
    assert (aliens + [alien])[..|aliens|] == aliens;
  }

  lemma ApartSubMultiset(bullet: Rect, aliens: seq<Rect>)
    ensures multiset(Apart(bullet, aliens)) <= multiset(aliens)
  {
    ApartExactly(bullet, aliens);
  }

  lemma ApartShorter(bullet: Rect, aliens: seq<Rect>)
    ensures |Apart(bullet, aliens)| <= |aliens|
  {
    ApartExactly(bullet, aliens);
  }

  lemma UnhitSnoc(bullets: seq<Rect>, bullet: Rect, alien: Rect)
    ensures Unhit(bullets + [bullet], alien) <==> Unhit(bullets, alien) && !Overlaps(bullet, alien)
  {
    var all := bullets + [bullet];
    assert all[|bullets|] == bullet;
    assert forall i :: 0 <= i < |bullets| ==> all[i] == bullets[i];
  }

  lemma {:induction false} ApartUntouched(bullets: seq<Rect>, bullet: Rect, aliens: seq<Rect>)
    ensures Apart(bullet, Untouched(bullets, aliens)) == Untouched(bullets + [bullet], aliens)
  {
    if aliens != [] {
      var init, last := aliens[..|aliens| - 1], aliens[|aliens| - 1];
      ApartUntouched(bullets, bullet, init);
      UnhitSnoc(bullets, bullet, last);
      var u := Untouched(bullets, init);
      var tail := if Overlaps(bullet, last) then [] else [last];
      if Unhit(bullets, last) {
        assert Untouched(bullets, aliens) == u + [last];
        assert (u + [last])[..|u|] == u;
        assert Apart(bullet, u + [last]) == Apart(bullet, u) + tail;
      } else {
        assert Untouched(bullets, aliens) == u;
      }
    }
  }

  /** The aliens left by the sweep are exactly the aliens no bullet overlaps:
      an alien overlapped by several bullets is taken by the first of them. */
  lemma {:induction false} SweepSurvivors(bullets: seq<Rect>, aliens: seq<Rect>)
    ensures Sweep(bullets, aliens).aliens == Untouched(bullets, aliens)
  {
    if bullets == [] {
      UntouchedByNone(aliens);
    } else {
      var init, bullet := bullets[..|bullets| - 1], bullets[|bullets| - 1];
      assert bullets == init + [bullet];
      SweepSurvivors(init, aliens);
      ApartUntouched(init, bullet, aliens);
      ApartExactly(bullet, Sweep(init, aliens).aliens);
    }
  }

  /** A bullet that overlaps no alien survives the sweep, every copy of it;
      so a bullet the sweep removed overlapped some alien. */
  lemma {:induction false} SweepKeepsClearBullet(bullets: seq<Rect>, aliens: seq<Rect>, b: Rect)
    requires forall a :: a in aliens ==> !Overlaps(b, a)
    ensures multiset(Sweep(bullets, aliens).bullets)[b] == multiset(bullets)[b]
  {
    if bullets != [] {
      var init, bullet := bullets[..|bullets| - 1], bullets[|bullets| - 1];
      assert bullets == init + [bullet];
      assert multiset(bullets) == multiset(init) + multiset{bullet};
      SweepKeepsClearBullet(init, aliens, b);
      var o := Sweep(init, aliens);
      if bullet == b {
        SweepOnlyRemoves(init, aliens);
        forall k | 0 <= k < |o.aliens| ensures !Overlaps(bullet, o.aliens[k]) {
          assert o.aliens[k] in multiset(o.aliens);
        }
        ApartExactly(bullet, o.aliens);
        assert Sweep(bullets, aliens).bullets == o.bullets + [bullet];
      }
    }
  }

  /** After the sweep no bullet left overlaps an alien left. */
  lemma {:induction false} SweepLeavesNoContact(bullets: seq<Rect>, aliens: seq<Rect>, b: Rect, a: Rect)
    requires b in Sweep(bullets, aliens).bullets && a in Sweep(bullets, aliens).aliens
    ensures !Overlaps(b, a)
  {
    if bullets != [] {
      var init, bullet := bullets[..|bullets| - 1], bullets[|bullets| - 1];
      var o := Sweep(init, aliens);
      var left := Apart(bullet, o.aliens);
      ApartExactly(bullet, o.aliens);
      if |left| < |o.aliens| {
        assert a in multiset(left);
        SweepLeavesNoContact(init, aliens, b, a);
      } else if b in o.bullets {
        SweepLeavesNoContact(init, aliens, b, a);
      } else {
        var k :| 0 <= k < |o.aliens| && o.aliens[k] == a;
      }
    }
  }

  lemma {:induction false} UntouchedByNone(aliens: seq<Rect>)
    ensures Untouched([], aliens) == aliens
  {
    if aliens != [] {
      UntouchedByNone(aliens[..|aliens| - 1]);
      assert aliens == aliens[..|aliens| - 1] + [aliens[|aliens| - 1]];
    }
  }

  /** When no bullet overlaps any alien, the sweep removes nothing and
      reports no collision. */
  lemma {:induction false} SweepWithoutContact(bullets: seq<Rect>, aliens: seq<Rect>)
    requires forall i, j :: 0 <= i < |bullets| && 0 <= j < |aliens| ==> !Overlaps(bullets[i], aliens[j])
    ensures Sweep(bullets, aliens) == Outcome(bullets, aliens, [])
  {
    if bullets != [] {
      var init, bullet := bullets[..|bullets| - 1], bullets[|bullets| - 1];
      assert bullets == init + [bullet];
      SweepWithoutContact(init, aliens);
      ApartExactly(bullet, aliens);
    }
  }

  lemma {:induction false} SumAppend(s: seq<nat>, n: nat)
    ensures Sum(s + [n]) == Sum(s) + n
  {
    assert (s + [n])[..|s|] == s;
  }
}
