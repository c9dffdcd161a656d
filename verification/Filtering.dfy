// Editing a list of lines by a property of the line (its directive name):
// filtering, first and last occurrence, and keep-one replacement.
module Filtering {

  function Pick<T>(xs: seq<T>, p: T -> bool): seq<T> {
    if xs == [] then []
    else if p(xs[0]) then [xs[0]] + Pick(xs[1..], p)
    else Pick(xs[1..], p)
  }

  function Drop<T>(xs: seq<T>, p: T -> bool): seq<T> {
    if xs == [] then []
    else if p(xs[0]) then Drop(xs[1..], p)
    else [xs[0]] + Drop(xs[1..], p)
  }

  predicate NoneOf<T>(xs: seq<T>, p: T -> bool) {
    forall i :: 0 <= i < |xs| ==> !p(xs[i])
  }

  // What precedes the first element satisfying p ...
  function Before<T>(xs: seq<T>, p: T -> bool): seq<T> {
    if xs == [] || p(xs[0]) then [] else [xs[0]] + Before(xs[1..], p)
  }

  // ... and what follows it once the later ones are gone.
  function After<T>(xs: seq<T>, p: T -> bool): seq<T> {
    if xs == [] then []
    else if p(xs[0]) then Drop(xs[1..], p)
    else After(xs[1..], p)
  }

  // The last element satisfying p, or -1 when there is none.
  function LastOf<T>(xs: seq<T>, p: T -> bool): (i: int)
    ensures -1 <= i < |xs|
    ensures i >= 0 ==> p(xs[i])
    ensures forall j :: i < j < |xs| ==> !p(xs[j])
  {
    if xs == [] then -1
    else if p(xs[|xs| - 1]) then |xs| - 1
    else LastOf(xs[..|xs| - 1], p)
  }

  lemma ConcatAssoc<T>(a: seq<T>, b: seq<T>, c: seq<T>)
    ensures (a + b) + c == a + (b + c)
  {
  }

  lemma Concat<T>(a: seq<T>, b: seq<T>, p: T -> bool)
    ensures Pick(a + b, p) == Pick(a, p) + Pick(b, p)
    ensures Drop(a + b, p) == Drop(a, p) + Drop(b, p)
  {
    PickConcat(a, b, p);
    DropConcat(a, b, p);
  }

  lemma {:induction false} PickConcat<T>(a: seq<T>, b: seq<T>, p: T -> bool)
    ensures Pick(a + b, p) == Pick(a, p) + Pick(b, p)
  {
    if a == [] {
      assert a + b == b;
    } else {
      TailOfConcat(a, b);
      PickConcat(a[1..], b, p);
    }
  }

  lemma {:induction false} DropConcat<T>(a: seq<T>, b: seq<T>, p: T -> bool)
    ensures Drop(a + b, p) == Drop(a, p) + Drop(b, p)
  {
    if a == [] {
      assert a + b == b;
    } else {
      TailOfConcat(a, b);
      DropConcat(a[1..], b, p);
    }
  }

  lemma TailOfConcat<T>(a: seq<T>, b: seq<T>)
    requires a != []
    ensures (a + b)[1..] == a[1..] + b && (a + b)[0] == a[0]
  {
  }

  lemma Single<T>(x: T, p: T -> bool)
    ensures Pick([x], p) == if p(x) then [x] else []
    ensures Drop([x], p) == if p(x) then [] else [x]
  {
    assert [x][1..] == [];
  }

  lemma Around<T>(a: seq<T>, x: T, b: seq<T>, p: T -> bool)
    ensures Pick(a + [x] + b, p) == Pick(a, p) + (if p(x) then [x] else []) + Pick(b, p)
    ensures Drop(a + [x] + b, p) == Drop(a, p) + (if p(x) then [] else [x]) + Drop(b, p)
  {
    Concat(a + [x], b, p);
    Concat(a, [x], p);
    Single(x, p);
  }

  lemma {:induction false} NothingPicked<T>(xs: seq<T>, p: T -> bool)
    requires NoneOf(xs, p)
    ensures Pick(xs, p) == [] && Drop(xs, p) == xs && Before(xs, p) == xs && After(xs, p) == []
  {
    if xs != [] {
      assert forall i :: 0 <= i < |xs[1..]| ==> xs[1..][i] == xs[i + 1];
      NothingPicked(xs[1..], p);
    }
  }

  // Dropping leaves a subsequence without p, and nothing else is lost.
  lemma {:induction false} DropMeaning<T>(xs: seq<T>, p: T -> bool)
    ensures NoneOf(Drop(xs, p), p) && |Drop(xs, p)| <= |xs|
    ensures forall x :: x in Drop(xs, p) <==> x in xs && !p(x)
    ensures multiset(xs) == multiset(Pick(xs, p)) + multiset(Drop(xs, p))
  {
    if xs != [] {
      DropMeaning(xs[1..], p);
      assert xs == [xs[0]] + xs[1..];
    }
  }

  lemma DropSubset<T(!new)>(xs: seq<T>, p: T -> bool)
    ensures forall x :: x in Drop(xs, p) ==> x in xs
  {
    DropMeaning(xs, p);
  }

  lemma FirstSubset<T(!new)>(xs: seq<T>, p: T -> bool)
    ensures forall x :: x in Before(xs, p) || x in After(xs, p) ==> x in xs
  {
    FirstMeaning(xs, p);
    DropMeaning(xs, p);
    forall x | x in Before(xs, p) || x in After(xs, p)
      ensures x in xs
    {
      assert x in Before(xs, p) + After(xs, p);
    }
  }

  lemma DropTwice<T>(xs: seq<T>, p: T -> bool)
    ensures Drop(Drop(xs, p), p) == Drop(xs, p) && Pick(Drop(xs, p), p) == []
  {
    DropMeaning(xs, p);
    NothingPicked(Drop(xs, p), p);
  }

  lemma {:induction false} FirstMeaning<T>(xs: seq<T>, p: T -> bool)
    ensures Drop(xs, p) == Before(xs, p) + After(xs, p)
    ensures NoneOf(Before(xs, p), p) && NoneOf(After(xs, p), p)
  {
    if xs != [] {
      if p(xs[0]) {
        DropMeaning(xs[1..], p);
      } else {
        FirstMeaning(xs[1..], p);
        NoneOfCons(xs[0], Before(xs[1..], p), p);
      }
    }
  }

  lemma {:induction false} FirstOfConcat<T>(a: seq<T>, b: seq<T>, p: T -> bool)
    requires NoneOf(a, p)
    ensures Before(a + b, p) == a + Before(b, p) && After(a + b, p) == After(b, p)
  {
    if a == [] {
      assert a + b == b;
    } else {
      assert (a + b)[1..] == a[1..] + b;
      FirstOfConcat(a[1..], b, p);
    }
  }

  lemma LastIsNone<T>(xs: seq<T>, p: T -> bool)
    ensures LastOf(xs, p) == -1 <==> NoneOf(xs, p)
  {
  }

  lemma {:induction false} LastOfConcat<T>(a: seq<T>, x: T, b: seq<T>, p: T -> bool)
    requires p(x) && NoneOf(b, p)
    ensures LastOf(a + [x] + b, p) == |a|
  {
    var xs := a + [x] + b;
    if b != [] {
      assert xs[..|xs| - 1] == a + [x] + b[..|b| - 1];
      LastOfConcat(a, x, b[..|b| - 1], p);
    }
  }

  // ---- insertion after the last sibling ----------------------------------

  function InsertAt<T>(xs: seq<T>, at: nat, line: T): seq<T>
    requires at <= |xs|
  {
    xs[..at] + [line] + xs[at..]
  }

  // After the last element satisfying p, or else at the end.
  function InsertPoint<T>(xs: seq<T>, p: T -> bool): (at: nat)
    ensures at <= |xs|
  {
    var i := LastOf(xs, p);
    if i >= 0 then i + 1 else |xs|
  }

  lemma InsertedMeaning<T>(xs: seq<T>, p: T -> bool, line: T)
    requires p(line)
    ensures Pick(InsertAt(xs, InsertPoint(xs, p), line), p) == Pick(xs, p) + [line]
    ensures Drop(InsertAt(xs, InsertPoint(xs, p), line), p) == Drop(xs, p)
    ensures LastOf(InsertAt(xs, InsertPoint(xs, p), line), p) == InsertPoint(xs, p)
  {
    NoneBelowInsertPoint(xs, p);
    InsertedBelow(xs, InsertPoint(xs, p), p, line);
    LastOfConcat(xs[..InsertPoint(xs, p)], line, xs[InsertPoint(xs, p)..], p);
  }

  lemma NoneBelowInsertPoint<T>(xs: seq<T>, p: T -> bool)
    ensures NoneOf(xs[InsertPoint(xs, p)..], p)
  {
  }

  lemma InsertedBelow<T>(xs: seq<T>, at: nat, p: T -> bool, line: T)
    requires at <= |xs| && p(line) && NoneOf(xs[at..], p)
    ensures Pick(InsertAt(xs, at, line), p) == Pick(xs, p) + [line]
    ensures Drop(InsertAt(xs, at, line), p) == Drop(xs, p)
  {
    SplitAt(xs, at);
    InsertedBetween(xs[..at], line, xs[at..], p);
  }

  lemma InsertedBetween<T>(a: seq<T>, line: T, b: seq<T>, p: T -> bool)
    requires p(line) && NoneOf(b, p)
    ensures Pick(a + [line] + b, p) == Pick(a + b, p) + [line]
    ensures Drop(a + [line] + b, p) == Drop(a + b, p)
  {
    NothingPicked(b, p);
    Around(a, line, b, p);
    Concat(a, b, p);
  }

  lemma InsertedElsewhere<T>(xs: seq<T>, at: nat, line: T, p: T -> bool)
    requires at <= |xs| && !p(line)
    ensures Pick(InsertAt(xs, at, line), p) == Pick(xs, p)
  {
    SplitAt(xs, at);
    Around(xs[..at], line, xs[at..], p);
    Concat(xs[..at], xs[at..], p);
  }

  lemma InsertedAt<T>(xs: seq<T>, at: nat, line: T)
    requires at <= |xs|
    ensures |InsertAt(xs, at, line)| == |xs| + 1 && InsertAt(xs, at, line)[at] == line
    ensures InsertAt(xs, at, line)[..at] + InsertAt(xs, at, line)[at + 1..] == xs
  {
  }

  lemma SplitAt<T>(xs: seq<T>, at: nat)
    requires at <= |xs|
    ensures xs == xs[..at] + xs[at..]
  {
  }

  // ---- keep-one replacement ----------------------------------------------

  // The first occurrence becomes `line`, later ones go; if there is none,
  // `line` goes last.
  function Replaced<T>(xs: seq<T>, p: T -> bool, line: T): seq<T> {
    Before(xs, p) + [line] + After(xs, p)
  }

  lemma ReplacedMeaning<T>(xs: seq<T>, p: T -> bool, line: T)
    requires p(line)
    ensures Pick(Replaced(xs, p, line), p) == [line] && Drop(Replaced(xs, p, line), p) == Drop(xs, p)
    ensures Before(Replaced(xs, p, line), p) == Before(xs, p) && After(Replaced(xs, p, line), p) == After(xs, p)
    ensures LastOf(Replaced(xs, p, line), p) == |Before(xs, p)|
  {
    var b, a := Before(xs, p), After(xs, p);
    FirstMeaning(xs, p);
    PlacedBetween(b, line, a, p);
    LastOfConcat(b, line, a, p);
    OnlyHere(b, line, a, p);
  }

  lemma OnlyHere<T>(b: seq<T>, line: T, a: seq<T>, p: T -> bool)
    requires p(line) && NoneOf(b, p) && NoneOf(a, p)
    ensures Pick(b + [line] + a, p) == [line] && Drop(b + [line] + a, p) == b + a
  {
    Around(b, line, a, p);
    NothingPicked(b, p);
    NothingPicked(a, p);
    EmptyAround(line);
    EmptyMiddle(b, a);
  }

  lemma EmptyAround<T>(x: T)
    ensures [] + [x] + [] == [x]
  {
  }

  lemma EmptyMiddle<T>(b: seq<T>, a: seq<T>)
    ensures b + [] + a == b + a
  {
  }

  lemma PlacedBetween<T>(b: seq<T>, line: T, a: seq<T>, p: T -> bool)
    requires p(line) && NoneOf(b, p) && NoneOf(a, p)
    ensures Before(b + [line] + a, p) == b && After(b + [line] + a, p) == a
  {
    FirstOfConcat(b, [line] + a, p);
    StartsHere(line, a, p);
    assert b + [line] + a == b + ([line] + a);
  }

  lemma StartsHere<T>(line: T, a: seq<T>, p: T -> bool)
    requires p(line) && NoneOf(a, p)
    ensures Before([line] + a, p) == [] && After([line] + a, p) == a
  {
    NothingPicked(a, p);
    assert ([line] + a)[1..] == a;
  }

  lemma ReplacedTwice<T>(xs: seq<T>, p: T -> bool, l1: T, l2: T)
    requires p(l1)
    ensures Replaced(Replaced(xs, p, l1), p, l2) == Replaced(xs, p, l2)
  {
    ReplacedMeaning(xs, p, l1);
  }

  // Replacing after dropping appends instead, so the two agree exactly when
  // nothing follows the first occurrence.
  lemma ReplacedAfterDrop<T>(xs: seq<T>, p: T -> bool, line: T)
    requires p(line)
    ensures Replaced(Drop(xs, p), p, line) == Replaced(xs, p, line) <==> After(xs, p) == []
  {
    var b, a := Before(xs, p), After(xs, p);
    FirstMeaning(xs, p);
    DropMeaning(xs, p);
    NothingPicked(Drop(xs, p), p);
    MovedToEnd(b, a, line);
    if a != [] {
      NoneOfHead(a, p);
    }
    assert Drop(xs, p) + [line] + [] == b + a + [line];
  }

  lemma NoneOfHead<T>(a: seq<T>, p: T -> bool)
    requires NoneOf(a, p) && a != []
    ensures !p(a[0])
  {
  }

  lemma MovedToEnd<T>(b: seq<T>, a: seq<T>, line: T)
    ensures a != [] && a[0] != line ==> b + a + [line] != b + [line] + a
    ensures a == [] ==> b + a + [line] == b + [line] + a
  {
    if a != [] {
      assert (b + a + [line])[|b|] == a[0] && (b + [line] + a)[|b|] == line;
    }
  }

  // The list with only the first occurrence kept, the halfway point of a
  // replacement that works in place.
  function Dedup<T>(xs: seq<T>, p: T -> bool): seq<T> {
    if xs == [] then []
    else if p(xs[0]) then [xs[0]] + Drop(xs[1..], p)
    else [xs[0]] + Dedup(xs[1..], p)
  }

  lemma DropSnoc<T>(xs: seq<T>, x: T, p: T -> bool)
    ensures Drop(xs + [x], p) == if p(x) then Drop(xs, p) else Drop(xs, p) + [x]
  {
    Concat(xs, [x], p);
    Single(x, p);
  }

  lemma PickSnoc<T>(xs: seq<T>, x: T, p: T -> bool)
    ensures Pick(xs + [x], p) == if p(x) then Pick(xs, p) + [x] else Pick(xs, p)
  {
    Concat(xs, [x], p);
    Single(x, p);
  }

  lemma Snoc<T>(xs: seq<T>, i: nat)
    requires i < |xs|
    ensures xs[..i + 1] == xs[..i] + [xs[i]]
  {
  }

  lemma NoneOfSnoc<T>(xs: seq<T>, x: T, p: T -> bool)
    ensures NoneOf(xs + [x], p) <==> NoneOf(xs, p) && !p(x)
  {
    if NoneOf(xs + [x], p) {
      assert (xs + [x])[|xs|] == x;
      assert forall i :: 0 <= i < |xs| ==> xs[i] == (xs + [x])[i];
    }
  }

  // One step of a back-to-front deletion that has reached index i.
  lemma DropBackwards<T>(was: seq<T>, i: nat, now: seq<T>, p: T -> bool)
    requires i < |was| && now == was[..i + 1] + Drop(was[i + 1..], p)
    ensures now[i] == was[i]
    ensures p(was[i]) ==> now[..i] + now[i + 1..] == was[..i] + Drop(was[i..], p)
    ensures !p(was[i]) ==> now == was[..i] + Drop(was[i..], p)
  {
    var tail := Drop(was[i + 1..], p);
    assert was[i..] == [was[i]] + was[i + 1..];
    DropCons(was[i], was[i + 1..], p);
    assert now[..i] == was[..i] && now[i + 1..] == tail;
    assert was[..i + 1] + tail == was[..i] + ([was[i]] + tail);
  }

  lemma DropCons<T>(x: T, xs: seq<T>, p: T -> bool)
    ensures Drop([x] + xs, p) == if p(x) then Drop(xs, p) else [x] + Drop(xs, p)
  {
    assert ([x] + xs)[1..] == xs;
  }

  lemma {:induction false} DedupSnoc<T>(xs: seq<T>, x: T, p: T -> bool)
    ensures Dedup(xs + [x], p) == if p(x) && !NoneOf(xs, p) then Dedup(xs, p) else Dedup(xs, p) + [x]
  {
    if xs == [] {
      assert xs + [x] == [x] && [x][1..] == [];
    } else {
      var ys := xs[1..];
      assert (xs + [x])[1..] == ys + [x];
      assert xs == [xs[0]] + ys;
      NoneOfCons(xs[0], ys, p);
      DropSnoc(ys, x, p);
      DedupSnoc(ys, x, p);
    }
  }

  lemma {:induction false} BeforeSnoc<T>(xs: seq<T>, x: T, p: T -> bool)
    requires !NoneOf(xs, p)
    ensures Before(xs + [x], p) == Before(xs, p)
  {
    var ys := xs[1..];
    assert (xs + [x])[1..] == ys + [x];
    assert xs == [xs[0]] + ys;
    if !p(xs[0]) {
      NoneOfCons(xs[0], ys, p);
      BeforeSnoc(ys, x, p);
    }
  }

  lemma {:induction false} DedupNone<T>(xs: seq<T>, p: T -> bool)
    requires NoneOf(xs, p)
    ensures Dedup(xs, p) == xs && Before(xs, p) == xs && After(xs, p) == []
  {
    if xs != [] {
      var ys := xs[1..];
      assert xs == [xs[0]] + ys;
      NoneOfCons(xs[0], ys, p);
      DedupNone(ys, p);
    }
  }

  lemma {:induction false} DedupReplaced<T>(xs: seq<T>, p: T -> bool, line: T)
    requires !NoneOf(xs, p)
    ensures |Before(xs, p)| < |Dedup(xs, p)|
    ensures Dedup(xs, p)[|Before(xs, p)| := line] == Replaced(xs, p, line)
  {
    var ys := xs[1..];
    assert xs == [xs[0]] + ys;
    if !p(xs[0]) {
      NoneOfCons(xs[0], ys, p);
      DedupReplaced(ys, p, line);
      var b := |Before(ys, p)|;
      assert ([xs[0]] + Dedup(ys, p))[b + 1 := line] == [xs[0]] + Dedup(ys, p)[b := line];
      assert [xs[0]] + (Before(ys, p) + [line] + After(ys, p)) == [xs[0]] + Before(ys, p) + [line] + After(ys, p);
    }
  }

  // The same replacement as one left-to-right pass, the form that commutes:
  // `pending` says that the line has not been placed yet.
  function Pass<T>(xs: seq<T>, p: T -> bool, line: T, pending: bool): seq<T> {
    if xs == [] then Placed(line, pending)
    else if p(xs[0]) then Placed(line, pending) + Pass(xs[1..], p, line, false)
    else [xs[0]] + Pass(xs[1..], p, line, pending)
  }

  function Placed<T>(line: T, pending: bool): seq<T> {
    if pending then [line] else []
  }

  lemma {:induction false} PassDrops<T>(xs: seq<T>, p: T -> bool, line: T)
    ensures Pass(xs, p, line, false) == Drop(xs, p)
  {
    if xs != [] {
      PassDrops(xs[1..], p, line);
    }
  }

  lemma {:induction false} PassReplaces<T>(xs: seq<T>, p: T -> bool, line: T)
    ensures Pass(xs, p, line, true) == Replaced(xs, p, line)
  {
    if xs != [] {
      if p(xs[0]) {
        PassDrops(xs[1..], p, line);
      } else {
        PassReplaces(xs[1..], p, line);
      }
    }
  }

  lemma PassCons<T>(x: T, xs: seq<T>, p: T -> bool, line: T, pending: bool)
    ensures Pass([x] + xs, p, line, pending) ==
            if p(x) then Placed(line, pending) + Pass(xs, p, line, false)
            else [x] + Pass(xs, p, line, pending)
  {
    assert ([x] + xs)[1..] == xs;
  }

  lemma PassPlaced<T>(x: T, placed: bool, xs: seq<T>, p: T -> bool, line: T, pending: bool)
    requires !p(x)
    ensures Pass(Placed(x, placed) + xs, p, line, pending) == Placed(x, placed) + Pass(xs, p, line, pending)
  {
    PassCons(x, xs, p, line, pending);
    assert [] + xs == xs;
  }

  lemma NoneOfCons<T>(x: T, xs: seq<T>, p: T -> bool)
    ensures NoneOf([x] + xs, p) <==> !p(x) && NoneOf(xs, p)
  {
    if NoneOf([x] + xs, p) {
      assert ([x] + xs)[0] == x;
      assert forall i :: 0 <= i < |xs| ==> xs[i] == ([x] + xs)[i + 1];
    }
  }

  ghost predicate Disjoint<T(!new)>(p1: T -> bool, p2: T -> bool) {
    forall x :: !(p1(x) && p2(x))
  }

  // Passes for disjoint properties commute except when both create a line.
  lemma {:induction false} PassesCommute<T(!new)>(xs: seq<T>, p1: T -> bool, l1: T, a1: bool,
                                                  p2: T -> bool, l2: T, a2: bool)
    requires Disjoint(p1, p2) && p1(l1) && p2(l2)
    ensures Pass(Pass(xs, p1, l1, a1), p2, l2, a2) == Pass(Pass(xs, p2, l2, a2), p1, l1, a1)
            <==> !(a1 && a2 && NoneOf(xs, p1) && NoneOf(xs, p2))
  {
    assert !p1(l2) && !p2(l1);
    if xs == [] {
      BothCreated(p1, l1, a1, p2, l2, a2);
    } else {
      var x, ys := xs[0], xs[1..];
      assert xs == [x] + ys;
      NoneOfCons(x, ys, p1);
      NoneOfCons(x, ys, p2);
      if p1(x) {
        PassesCommute(ys, p1, l1, false, p2, l2, a2);
        PassPlaced(l1, a1, Pass(ys, p1, l1, false), p2, l2, a2);
        PassCons(x, Pass(ys, p2, l2, a2), p1, l1, a1);
      } else if p2(x) {
        PassesCommute(ys, p1, l1, a1, p2, l2, false);
        PassPlaced(l2, a2, Pass(ys, p2, l2, false), p1, l1, a1);
        PassCons(x, Pass(ys, p1, l1, a1), p2, l2, a2);
      } else {
        PassesCommute(ys, p1, l1, a1, p2, l2, a2);
        var m1, m2 := Pass(ys, p1, l1, a1), Pass(ys, p2, l2, a2);
        PassCons(x, m1, p2, l2, a2);
        PassCons(x, m2, p1, l1, a1);
        SameTail(x, Pass(m1, p2, l2, a2), Pass(m2, p1, l1, a1));
      }
    }
  }

  lemma SameTail<T>(x: T, a: seq<T>, b: seq<T>)
    ensures [x] + a == [x] + b <==> a == b
  {
    assert ([x] + a)[1..] == a && ([x] + b)[1..] == b;
  }

  lemma BothCreated<T>(p1: T -> bool, l1: T, a1: bool, p2: T -> bool, l2: T, a2: bool)
    requires p1(l1) && p2(l2) && !p1(l2) && !p2(l1)
    ensures Pass(Placed(l1, a1), p2, l2, a2) == Pass(Placed(l2, a2), p1, l1, a1) <==> !(a1 && a2)
  {
    PassPlaced(l1, a1, [], p2, l2, a2);
    PassPlaced(l2, a2, [], p1, l1, a1);
    assert Placed(l1, a1) + [] == Placed(l1, a1) && Placed(l2, a2) + [] == Placed(l2, a2);
    assert ([l1] + [l2])[0] == l1 && ([l2] + [l1])[0] == l2;
  }

  // ---- the same edits seen through a view of each element ----------------

  function Map<A, B>(f: A -> B, xs: seq<A>): (r: seq<B>)
    ensures |r| == |xs|
  {
    if xs == [] then [] else [f(xs[0])] + Map(f, xs[1..])
  }

  lemma {:induction false} MapAt<A, B>(f: A -> B, xs: seq<A>, i: nat)
    requires i < |xs|
    ensures Map(f, xs)[i] == f(xs[i])
  {
    if i > 0 {
      MapAt(f, xs[1..], i - 1);
    }
  }

  lemma {:induction false} MapConcat<A, B>(f: A -> B, a: seq<A>, b: seq<A>)
    ensures Map(f, a + b) == Map(f, a) + Map(f, b)
  {
    if a == [] {
      assert a + b == b;
    } else {
      assert (a + b)[1..] == a[1..] + b;
      MapConcat(f, a[1..], b);
    }
  }

  lemma MapSplit<A, B>(f: A -> B, xs: seq<A>, i: nat)
    requires i <= |xs|
    ensures Map(f, xs[..i]) == Map(f, xs)[..i] && Map(f, xs[i..]) == Map(f, xs)[i..]
  {
    SplitAt(xs, i);
    MapConcat(f, xs[..i], xs[i..]);
  }

  lemma MapInsert<A, B>(f: A -> B, xs: seq<A>, i: nat, x: A)
    requires i <= |xs|
    ensures Map(f, InsertAt(xs, i, x)) == InsertAt(Map(f, xs), i, f(x))
  {
    MapSplit(f, xs, i);
    MapAround(f, xs[..i], x, xs[i..]);
  }

  lemma MapAround<A, B>(f: A -> B, a: seq<A>, x: A, b: seq<A>)
    ensures Map(f, a + [x] + b) == Map(f, a) + [f(x)] + Map(f, b)
  {
    MapConcat(f, a + [x], b);
    MapConcat(f, a, [x]);
    MapOne(f, x);
  }

  lemma MapOne<A, B>(f: A -> B, x: A)
    ensures Map(f, [x]) == [f(x)]
  {
    assert [x][1..] == [];
  }

  // q is the property p seen through the view f.
  ghost predicate Seen<A(!new), B>(f: A -> B, q: A -> bool, p: B -> bool) {
    forall x :: q(x) == p(f(x))
  }

  lemma {:induction false} DropMap<A(!new), B>(f: A -> B, xs: seq<A>, q: A -> bool, p: B -> bool)
    requires Seen(f, q, p)
    ensures Map(f, Drop(xs, q)) == Drop(Map(f, xs), p)
  {
    if xs != [] {
      DropMap(f, xs[1..], q, p);
    }
  }

  lemma {:induction false} PickMap<A(!new), B>(f: A -> B, xs: seq<A>, q: A -> bool, p: B -> bool)
    requires Seen(f, q, p)
    ensures Map(f, Pick(xs, q)) == Pick(Map(f, xs), p)
  {
    if xs != [] {
      PickMap(f, xs[1..], q, p);
    }
  }

  lemma {:induction false} FirstMap<A(!new), B>(f: A -> B, xs: seq<A>, q: A -> bool, p: B -> bool)
    requires Seen(f, q, p)
    ensures Map(f, Before(xs, q)) == Before(Map(f, xs), p)
    ensures Map(f, After(xs, q)) == After(Map(f, xs), p)
  {
    if xs != [] {
      if q(xs[0]) {
        DropMap(f, xs[1..], q, p);
      } else {
        FirstMap(f, xs[1..], q, p);
      }
    }
  }

  lemma ReplacedMap<A(!new), B>(f: A -> B, xs: seq<A>, q: A -> bool, p: B -> bool, x: A)
    requires Seen(f, q, p)
    ensures Map(f, Replaced(xs, q, x)) == Replaced(Map(f, xs), p, f(x))
  {
    FirstMap(f, xs, q, p);
    MapAround(f, Before(xs, q), x, After(xs, q));
  }

  lemma {:induction false} LastMap<A(!new), B>(f: A -> B, xs: seq<A>, q: A -> bool, p: B -> bool)
    requires Seen(f, q, p)
    ensures LastOf(xs, q) == LastOf(Map(f, xs), p)
  {
    if xs != [] {
      var k := |xs| - 1;
      MapAt(f, xs, k);
      MapSplit(f, xs, k);
      LastMap(f, xs[..k], q, p);
    }
  }
}
