/**
 * The nearby results and their ordering: `nearbyLocations.sort((a, b) => a.distance - b.distance)`,
 * a stable sort ascending by distance, done in place on the result array.
 */
module Ranking {
  import opened Catalog

  /** A kept location with its computed distance and the coordinates it geocoded to. */
  datatype Ranked = Ranked(location: Location, distance: real, latitude: real, longitude: real)

  predicate Sorted(s: seq<Ranked>)
  {
    forall i, j :: 0 <= i < j < |s| ==> s[i].distance <= s[j].distance
  }

  /**
   * Inserts `x` into `s` after every element that is not farther than `x`: an element that
   * came later in the input goes after the equal ones that came earlier.
   */
  function Insert(x: Ranked, s: seq<Ranked>): seq<Ranked>
    decreases |s|
  {
    if s == [] || s[|s| - 1].distance <= x.distance then s + [x]
    else Insert(x, s[..|s| - 1]) + [s[|s| - 1]]
  }

  /** Insertion sort, taking the input from front to back. */
  function StableSort(s: seq<Ranked>): seq<Ranked>
  {
    if s == [] then [] else Insert(s[|s| - 1], StableSort(s[..|s| - 1]))
  }

  /** The elements at exactly distance `d`, in order: what stability is about. */
  function AtDistance(s: seq<Ranked>, d: real): (r: seq<Ranked>)
  {
    if s == [] then []
    else AtDistance(s[..|s| - 1], d) + (if s[|s| - 1].distance == d then [s[|s| - 1]] else [])
  }

  lemma {:induction false} AtDistanceConcat(a: seq<Ranked>, b: seq<Ranked>, d: real)
    ensures AtDistance(a + b, d) == AtDistance(a, d) + AtDistance(b, d)
    decreases |b|
  {
    if b == [] {
      assert a + b == a;
    } else {
      var b' := b[..|b| - 1];
      assert (a + b)[..|a + b| - 1] == a + b';
      AtDistanceConcat(a, b', d);
    }
  }

  lemma AtDistanceSingle(y: Ranked, d: real)
    ensures AtDistance([y], d) == if y.distance == d then [y] else []
  {
    assert [y][..0] == [];
  }

  lemma {:induction false} InsertPermutes(x: Ranked, s: seq<Ranked>)
    ensures multiset(Insert(x, s)) == multiset(s) + multiset{x}
    decreases |s|
  {
    if !(s == [] || s[|s| - 1].distance <= x.distance) {
      var init := s[..|s| - 1];
      InsertPermutes(x, init);
      assert s == init + [s[|s| - 1]];
    }
  }

  lemma {:induction false} InsertSorted(x: Ranked, s: seq<Ranked>)
    requires Sorted(s)
    ensures Sorted(Insert(x, s))
    decreases |s|
  {
    if !(s == [] || s[|s| - 1].distance <= x.distance) {
      var init, last := s[..|s| - 1], s[|s| - 1];
      InsertSorted(x, init);
      InsertPermutes(x, init);
      var r := Insert(x, init);
      forall i | 0 <= i < |r| ensures r[i].distance <= last.distance {
        assert r[i] in multiset(r);
        assert r[i] == x || r[i] in init;
      }
    }
  }

  lemma {:induction false} InsertStable(x: Ranked, s: seq<Ranked>, d: real)
    ensures AtDistance(Insert(x, s), d) == AtDistance(s + [x], d)
    decreases |s|
  {
    if !(s == [] || s[|s| - 1].distance <= x.distance) {
      var init, last := s[..|s| - 1], s[|s| - 1];
      assert s == init + [last];
      var atX, atLast := AtDistance([x], d), AtDistance([last], d);
      AtDistanceSingle(x, d);
      AtDistanceSingle(last, d);
      assert atX + atLast == atLast + atX;
      calc {
        AtDistance(Insert(x, s), d);
        AtDistance(Insert(x, init) + [last], d);
        { AtDistanceConcat(Insert(x, init), [last], d); }
        AtDistance(Insert(x, init), d) + atLast;
        { InsertStable(x, init, d); }
        AtDistance(init + [x], d) + atLast;
        { AtDistanceConcat(init, [x], d); }
        AtDistance(init, d) + atX + atLast;
        AtDistance(init, d) + atLast + atX;
        { AtDistanceConcat(init, [last], d); }
        AtDistance(s, d) + atX;
        { AtDistanceConcat(s, [x], d); }
        AtDistance(s + [x], d);
      }
    }
  }

  /** The result is in ascending order of distance. */
  lemma {:induction false} StableSortSorted(s: seq<Ranked>)
    ensures Sorted(StableSort(s))
    decreases |s|
  {
    if s != [] {
      StableSortSorted(s[..|s| - 1]);
      InsertSorted(s[|s| - 1], StableSort(s[..|s| - 1]));
    }
  }

  /** The result is a permutation of the input. */
  lemma {:induction false} StableSortPermutes(s: seq<Ranked>)
    ensures multiset(StableSort(s)) == multiset(s)
    decreases |s|
  {
    if s != [] {
      var init, last := s[..|s| - 1], s[|s| - 1];
      var sortedInit := StableSort(init);
      calc {
        multiset(StableSort(s));
        multiset(Insert(last, sortedInit));
        { InsertPermutes(last, sortedInit); }
        multiset(sortedInit) + multiset{last};
        { StableSortPermutes(init); }
        multiset(init) + multiset{last};
        { assert s == init + [last]; }
        multiset(s);
      }
    }
  }

  /** Ties keep their input order: at every distance the sorted sequence lists the same elements in the same order. */
  lemma {:induction false} StableSortStable(s: seq<Ranked>, d: real)
    ensures AtDistance(StableSort(s), d) == AtDistance(s, d)
    decreases |s|
  {
    if s != [] {
      var init, last := s[..|s| - 1], s[|s| - 1];
      StableSortStable(init, d);
      InsertStable(last, StableSort(init), d);
      AtDistanceConcat(StableSort(init), [last], d);
      AtDistanceConcat(init, [last], d);
      assert s == init + [last];
    }
  }

  /** Every element of `s` from `j` on is strictly farther than `x`. */
  predicate FartherFrom(s: seq<Ranked>, j: nat, x: Ranked)
  {
    forall k :: j <= k < |s| ==> s[k].distance > x.distance
  }

  /**
   * Where the scan stops: `x` goes after a prefix whose last element is not farther and
   * before a suffix of strictly farther elements.
   */
  lemma {:induction false} InsertSplit(x: Ranked, s: seq<Ranked>, j: nat)
    requires j <= |s|
    requires j == 0 || s[j - 1].distance <= x.distance
    requires FartherFrom(s, j, x)
    ensures Insert(x, s) == s[..j] + [x] + s[j..]
    decreases |s| - j
  {
    if j < |s| {
      var init := s[..|s| - 1];
      InsertSplit(x, init, j);
      assert init[..j] == s[..j];
      assert s[j..] == init[j..] + [s[|s| - 1]];
    } else {
      assert s[..j] == s;
    }
  }

  /**
   * The array during the scan: the sorted prefix with a gap at `j`, its elements from `j`
   * on shifted one place right, then the untouched rest.
   */
  predicate Gapped(content: seq<Ranked>, sorted: seq<Ranked>, rest: seq<Ranked>, j: nat)
  {
    j <= |sorted| && |content| == |sorted| + 1 + |rest| &&
    content[..j] == sorted[..j] && content[j + 1..] == sorted[j..] + rest
  }

  /** Left of the gap the array holds the sorted prefix. */
  lemma GapLeft(content: seq<Ranked>, sorted: seq<Ranked>, rest: seq<Ranked>, j: nat)
    requires 0 < j && Gapped(content, sorted, rest, j)
    ensures content[j - 1] == sorted[j - 1]
  {
    assert content[..j][j - 1] == content[j - 1];
  }

  /** Copying the element left of the gap into the gap moves the gap one place left. */
  lemma ShiftStep(content: seq<Ranked>, sorted: seq<Ranked>, rest: seq<Ranked>, j: nat)
    requires 0 < j && Gapped(content, sorted, rest, j)
    ensures Gapped(content[j := content[j - 1]], sorted, rest, j - 1)
  {
    GapLeft(content, sorted, rest, j);
    var c := content[j := content[j - 1]];
    assert c[..j - 1] == content[..j - 1] == sorted[..j - 1];
    assert c[j..] == [sorted[j - 1]] + content[j + 1..];
    assert sorted[j - 1..] == [sorted[j - 1]] + sorted[j..];
  }

  /** Filling the gap with `x` gives the insertion, followed by the untouched rest. */
  lemma FillGap(content: seq<Ranked>, sorted: seq<Ranked>, rest: seq<Ranked>, j: nat, x: Ranked)
    requires Gapped(content, sorted, rest, j)
    ensures content[j := x][..|sorted| + 1] == sorted[..j] + [x] + sorted[j..]
    ensures content[j := x][|sorted| + 1..] == rest
  {
    var c := content[j := x];
    assert c == sorted[..j] + [x] + (sorted[j..] + rest);
  }

  /**
   * The scan of one insertion step: moves the gap left past the strictly farther elements
   * of `sorted`, shifting each one place right, and stops where `x` belongs.
   */
  method OpenGap(a: array<Ranked>, i: nat, x: Ranked, ghost sorted: seq<Ranked>, ghost rest: seq<Ranked>)
    returns (j: nat)
    requires i == |sorted| && Gapped(a[..], sorted, rest, i)
    modifies a
    ensures Gapped(a[..], sorted, rest, j)
    ensures j == 0 || sorted[j - 1].distance <= x.distance
    ensures FartherFrom(sorted, j, x)
  {
    j := i;
    while j > 0 && a[j - 1].distance > x.distance
      invariant Gapped(a[..], sorted, rest, j)
      invariant FartherFrom(sorted, j, x)
    {
      ghost var before := a[..];
      GapLeft(before, sorted, rest, j);
      ShiftStep(before, sorted, rest, j);
      a[j] := a[j - 1];
      assert a[..] == before[j := before[j - 1]];
      j := j - 1;
    }
    if j > 0 {
      GapLeft(a[..], sorted, rest, j);
    }
  }

  /**
   * Moves `a[i]` left past the strictly farther elements of the sorted prefix `a[..i]`,
   * shifting them one place right.
   */
  method InsertAt(a: array<Ranked>, i: nat)
    requires i < a.Length
    modifies a
    ensures a[..i + 1] == Insert(old(a[i]), old(a[..i]))
    ensures a[i + 1..] == old(a[i + 1..])
  {
    var x := a[i];
    ghost var sorted := a[..i];
    ghost var rest := a[i + 1..];
    assert Gapped(a[..], sorted, rest, i) by {
      assert sorted[..i] == sorted && sorted[i..] == [];
    }
    var j := OpenGap(a, i, x, sorted, rest);
    InsertSplit(x, sorted, j);
    ghost var before := a[..];
    FillGap(before, sorted, rest, j, x);
    a[j] := x;
    assert a[..] == before[j := x];
    assert a[..i + 1] == a[..][..i + 1] && a[i + 1..] == a[..][i + 1..];
  }

  /**
   * `Array.prototype.sort` with the distance comparator, as an in-place insertion sort:
   * each element is moved left past the strictly farther ones.
   */
  method SortByDistance(a: array<Ranked>)
    modifies a
    ensures a[..] == StableSort(old(a[..]))
  {
    ghost var input := a[..];
    var i := 0;
    while i < a.Length
      invariant 0 <= i <= a.Length
      invariant a[..i] == StableSort(input[..i])
      invariant a[i..] == input[i..]
    {
      assert a[i] == input[i];
      assert input[..i + 1][..i] == input[..i];
      InsertAt(a, i);
      i := i + 1;
    }
    assert a[..] == a[..a.Length];
    assert input == input[..a.Length];
  }
}
