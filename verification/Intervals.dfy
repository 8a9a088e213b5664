/** Half-open intervals with open ends: stable sorting by start, and exact intersection of two lists. */
module Intervals {
  import opened Common

  /** The instants from `from` up to but not including `to`; without `to`, all later ones. */
  datatype Range = Range(from: Time, to: Option<Time>)

  predicate In(t: Time, r: Range) {
    r.from <= t && (r.to.None? || t < r.to.value)
  }

  ghost predicate Covered(t: Time, rs: seq<Range>) {
    exists i :: 0 <= i < |rs| && In(t, rs[i])
  }

  predicate NonEmpty(r: Range) {
    r.to.None? || r.from < r.to.value
  }

  predicate AllNonEmpty(rs: seq<Range>) {
    forall i :: 0 <= i < |rs| ==> NonEmpty(rs[i])
  }

  ghost predicate Apart(r: Range, s: Range) {
    forall t :: !(In(t, r) && In(t, s))
  }

  ghost predicate Disjoint(rs: seq<Range>) {
    forall i, j :: 0 <= i < j < |rs| ==> Apart(rs[i], rs[j])
  }

  predicate HasOpen(rs: seq<Range>) {
    exists i :: 0 <= i < |rs| && rs[i].to.None?
  }

  method HasOpenPeriod(rs: seq<Range>) returns (found: bool)
    ensures found <==> HasOpen(rs)
  {
    for i := 0 to |rs|
      invariant forall j :: 0 <= j < i ==> rs[j].to.Some?
    {
      if rs[i].to.None? {
        return true;
      }
    }
    return false;
  }

  // ---- stable sort by start ----

  predicate Ascending<T(!new)>(xs: seq<T>, key: T -> Time) {
    forall i, j :: 0 <= i < j < |xs| ==> key(xs[i]) <= key(xs[j])
  }

  /** x behind everything that does not start later. */
  function Inserted<T>(xs: seq<T>, x: T, key: T -> Time): (r: seq<T>)
    ensures |r| == |xs| + 1
    decreases |xs|
  {
    if xs == [] || key(xs[|xs| - 1]) <= key(x) then xs + [x]
    else Inserted(xs[..|xs| - 1], x, key) + [xs[|xs| - 1]]
  }

  function Sorted<T>(xs: seq<T>, key: T -> Time): (r: seq<T>)
    ensures |r| == |xs|
    decreases |xs|
  {
    if xs == [] then [] else Inserted(Sorted(xs[..|xs| - 1], key), xs[|xs| - 1], key)
  }

  function WithKey<T>(xs: seq<T>, key: T -> Time, k: Time): seq<T>
    decreases |xs|
  {
    if xs == [] then [] else WithKey(xs[..|xs| - 1], key, k) + if key(xs[|xs| - 1]) == k then [xs[|xs| - 1]] else []
  }

  lemma {:induction false} InsertedKeepsElements<T>(xs: seq<T>, x: T, key: T -> Time)
    ensures multiset(Inserted(xs, x, key)) == multiset(xs) + multiset{x}
    decreases |xs|
  {
    if xs != [] && key(xs[|xs| - 1]) > key(x) {
      InsertedKeepsElements(xs[..|xs| - 1], x, key);
      assert xs == xs[..|xs| - 1] + [xs[|xs| - 1]];
    }
  }

  lemma {:induction false} InsertedIsSorted<T(!new)>(xs: seq<T>, x: T, key: T -> Time)
    requires Ascending(xs, key)
    ensures Ascending(Inserted(xs, x, key), key)
    decreases |xs|
  {
    if xs != [] && key(xs[|xs| - 1]) > key(x) {
      var most, last := xs[..|xs| - 1], xs[|xs| - 1];
      InsertedIsSorted(most, x, key);
      InsertedKeepsElements(most, x, key);
      var r := Inserted(most, x, key);
      forall i | 0 <= i < |r|
        ensures key(r[i]) <= key(last)
      {
        assert r[i] in multiset(r);
        if r[i] in most {
          var j :| 0 <= j < |most| && most[j] == r[i];
        }
      }
    }
  }

  lemma WithKeyOneMore<T>(xs: seq<T>, x: T, key: T -> Time, k: Time)
    ensures WithKey(xs + [x], key, k) == WithKey(xs, key, k) + if key(x) == k then [x] else []
  {
    assert (xs + [x])[..|xs|] == xs;
  }

  lemma {:induction false} InsertedIsStable<T>(xs: seq<T>, x: T, key: T -> Time, k: Time)
    ensures WithKey(Inserted(xs, x, key), key, k) == WithKey(xs, key, k) + if key(x) == k then [x] else []
    decreases |xs|
  {
    if xs == [] || key(xs[|xs| - 1]) <= key(x) {
      WithKeyOneMore(xs, x, key, k);
    } else {
      var most, last := xs[..|xs| - 1], xs[|xs| - 1];
      InsertedIsStable(most, x, key, k);
      WithKeyOneMore(Inserted(most, x, key), last, key, k);
    }
  }

  /** The sort orders by start, keeps every element, and keeps the order of equal starts. */
  lemma {:induction false} SortIsStable<T(!new)>(xs: seq<T>, key: T -> Time)
    ensures Ascending(Sorted(xs, key), key) && multiset(Sorted(xs, key)) == multiset(xs)
    ensures forall k :: WithKey(Sorted(xs, key), key, k) == WithKey(xs, key, k)
    decreases |xs|
  {
    if xs != [] {
      var most, last := xs[..|xs| - 1], xs[|xs| - 1];
      SortIsStable(most, key);
      InsertedIsSorted(Sorted(most, key), last, key);
      InsertedKeepsElements(Sorted(most, key), last, key);
      assert xs == most + [last];
      forall k
        ensures WithKey(Sorted(xs, key), key, k) == WithKey(xs, key, k)
      {
        InsertedIsStable(Sorted(most, key), last, key, k);
      }
    }
  }

  // ---- intersection ----

  /** The overlap of two ranges, as a list of at most one. */
  function Overlap(x: Range, y: Range): seq<Range> {
    var from := Max(x.from, y.from);
    var to := if x.to.None? then y.to else if y.to.None? then x.to else Some(Min(x.to.value, y.to.value));
    if NonEmpty(Range(from, to)) then [Range(from, to)] else []
  }

  function Row(x: Range, b: seq<Range>): seq<Range>
    decreases |b|
  {
    if b == [] then [] else Row(x, b[..|b| - 1]) + Overlap(x, b[|b| - 1])
  }

  function Overlaps(a: seq<Range>, b: seq<Range>): seq<Range>
    decreases |a|
  {
    if a == [] then [] else Overlaps(a[..|a| - 1], b) + Row(a[|a| - 1], b)
  }

  function Start(r: Range): Time {
    r.from
  }

  function Intersection(a: seq<Range>, b: seq<Range>): seq<Range> {
    Sorted(Overlaps(a, b), Start)
  }

  /** The inner loop: one range against a whole list. */
  method IntersectOne(x: Range, b: seq<Range>) returns (out: seq<Range>)
    ensures out == Row(x, b)
  {
    out := [];
    for j := 0 to |b|
      invariant out == Row(x, b[..j])
    {
      var y := b[j];
      RowOneMore(x, b, j);
      var from := x.from;
      if y.from > from {
        from := y.from;
      }
      var to: Option<Time>;
      if x.to.None? {
        to := y.to;
      } else if y.to.None? || x.to.value < y.to.value {
        to := x.to;
      } else {
        to := y.to;
      }
      if to.Some? && !(from < to.value) {
        continue;
      }
      out := out + [Range(from, to)];
    }
    assert b[..|b|] == b;
  }

  method IntersectPeriods(a: seq<Range>, b: seq<Range>) returns (out: seq<Range>)
    ensures out == Intersection(a, b)
  {
    out := [];
    for i := 0 to |a|
      invariant out == Overlaps(a[..i], b)
    {
      OverlapsOneMore(a, b, i);
      var row := IntersectOne(a[i], b);
      out := out + row;
    }
    assert a[..|a|] == a;
    out := Sorted(out, Start);
  }

  lemma RowOneMore(x: Range, b: seq<Range>, j: nat)
    requires j < |b|
    ensures Row(x, b[..j + 1]) == Row(x, b[..j]) + Overlap(x, b[j])
  {
    assert b[..j + 1][..j] == b[..j];
  }

  lemma OverlapsOneMore(a: seq<Range>, b: seq<Range>, i: nat)
    requires i < |a|
    ensures Overlaps(a[..i + 1], b) == Overlaps(a[..i], b) + Row(a[i], b)
  {
    assert a[..i + 1][..i] == a[..i];
  }

  lemma OverlapIsExact(x: Range, y: Range, t: Time)
    ensures Covered(t, Overlap(x, y)) <==> In(t, x) && In(t, y)
    ensures forall r :: r in Overlap(x, y) ==> NonEmpty(r) && (r.to.None? <==> x.to.None? && y.to.None?)
  {
    if In(t, x) && In(t, y) {
      assert In(t, Overlap(x, y)[0]);
    }
  }

  lemma CoveredAppend(t: Time, rs: seq<Range>, ss: seq<Range>)
    ensures Covered(t, rs + ss) <==> Covered(t, rs) || Covered(t, ss)
  {
    if Covered(t, rs) {
      var i :| 0 <= i < |rs| && In(t, rs[i]);
      assert In(t, (rs + ss)[i]);
    }
    if Covered(t, ss) {
      var i :| 0 <= i < |ss| && In(t, ss[i]);
      assert In(t, (rs + ss)[|rs| + i]);
    }
  }

  lemma {:induction false} RowIsExact(x: Range, b: seq<Range>, t: Time)
    ensures Covered(t, Row(x, b)) <==> In(t, x) && Covered(t, b)
    decreases |b|
  {
    if b != [] {
      var most, last := b[..|b| - 1], b[|b| - 1];
      RowIsExact(x, most, t);
      OverlapIsExact(x, last, t);
      CoveredAppend(t, Row(x, most), Overlap(x, last));
      CoveredAppend(t, most, [last]);
      assert b == most + [last] && (In(t, last) <==> Covered(t, [last])) by {
        assert In(t, last) ==> In(t, [last][0]);
      }
    }
  }

  lemma {:induction false} OverlapsAreExact(a: seq<Range>, b: seq<Range>, t: Time)
    ensures Covered(t, Overlaps(a, b)) <==> Covered(t, a) && Covered(t, b)
    decreases |a|
  {
    if a != [] {
      var most, last := a[..|a| - 1], a[|a| - 1];
      OverlapsAreExact(most, b, t);
      RowIsExact(last, b, t);
      CoveredAppend(t, Overlaps(most, b), Row(last, b));
      CoveredAppend(t, most, [last]);
      assert a == most + [last] && (In(t, last) <==> Covered(t, [last])) by {
        assert In(t, last) ==> In(t, [last][0]);
      }
    }
  }

  lemma SameElementsSameCover(rs: seq<Range>, ss: seq<Range>, t: Time)
    requires multiset(rs) == multiset(ss)
    ensures Covered(t, rs) <==> Covered(t, ss)
  {
    assert forall r :: r in rs <==> r in multiset(rs);
    assert forall s :: s in ss <==> s in multiset(ss);
    if Covered(t, rs) {
      var i :| 0 <= i < |rs| && In(t, rs[i]);
      assert rs[i] in ss;
    }
    if Covered(t, ss) {
      var i :| 0 <= i < |ss| && In(t, ss[i]);
      assert ss[i] in rs;
    }
  }

  /** An instant lies in the intersection exactly when it lies in both lists. */
  lemma IntersectionIsExact(a: seq<Range>, b: seq<Range>, t: Time)
    ensures Covered(t, Intersection(a, b)) <==> Covered(t, a) && Covered(t, b)
  {
    OverlapsAreExact(a, b, t);
    SortIsStable(Overlaps(a, b), Start);
    SameElementsSameCover(Overlaps(a, b), Intersection(a, b), t);
  }

  // ---- shape: non-empty, sorted, disjoint, open exactly when both are ----

  lemma {:induction false} RowShape(x: Range, b: seq<Range>)
    ensures AllNonEmpty(Row(x, b))
    ensures HasOpen(Row(x, b)) <==> x.to.None? && HasOpen(b)
    decreases |b|
  {
    if b != [] {
      var most, last := b[..|b| - 1], b[|b| - 1];
      RowShape(x, most);
      OverlapIsExact(x, last, x.from);
      OpenAppend(Row(x, most), Overlap(x, last));
      OpenAppend(most, [last]);
      assert b == most + [last] && (HasOpen([last]) <==> last.to.None?) by {
        assert [last][0] == last;
      }
      assert HasOpen(Overlap(x, last)) <==> x.to.None? && last.to.None? by {
        if x.to.None? && last.to.None? {
          assert Overlap(x, last)[0].to.None?;
        }
      }
    }
  }

  lemma OpenAppend(rs: seq<Range>, ss: seq<Range>)
    ensures HasOpen(rs + ss) <==> HasOpen(rs) || HasOpen(ss)
  {
    if HasOpen(rs) {
      var i :| 0 <= i < |rs| && rs[i].to.None?;
      assert (rs + ss)[i].to.None?;
    }
    if HasOpen(ss) {
      var i :| 0 <= i < |ss| && ss[i].to.None?;
      assert (rs + ss)[|rs| + i].to.None?;
    }
  }

  lemma {:induction false} OverlapsShape(a: seq<Range>, b: seq<Range>)
    ensures AllNonEmpty(Overlaps(a, b))
    ensures HasOpen(Overlaps(a, b)) <==> HasOpen(a) && HasOpen(b)
    decreases |a|
  {
    if a != [] {
      var most, last := a[..|a| - 1], a[|a| - 1];
      OverlapsShape(most, b);
      RowShape(last, b);
      OpenAppend(Overlaps(most, b), Row(last, b));
      OpenAppend(most, [last]);
      assert a == most + [last] && (HasOpen([last]) <==> last.to.None?) by {
        assert [last][0] == last;
      }
    }
  }

  /** Lists with no instant in common, disjoint each, are disjoint together. */
  lemma AppendDisjoint(rs: seq<Range>, ss: seq<Range>)
    requires Disjoint(rs) && Disjoint(ss) && forall t :: !(Covered(t, rs) && Covered(t, ss))
    ensures Disjoint(rs + ss)
  {
    var all := rs + ss;
    forall i, j | 0 <= i < j < |all|
      ensures Apart(all[i], all[j])
    {
      if i < |rs| <= j {
        forall t
          ensures !(In(t, all[i]) && In(t, all[j]))
        {
          assert In(t, all[i]) ==> In(t, rs[i]) && Covered(t, rs);
          assert In(t, all[j]) ==> In(t, ss[j - |rs|]) && Covered(t, ss);
        }
      } else if j < |rs| {
        assert Apart(rs[i], rs[j]);
      } else {
        assert Apart(ss[i - |rs|], ss[j - |rs|]);
      }
    }
  }

  lemma PrefixDisjoint(rs: seq<Range>, last: Range)
    requires Disjoint(rs + [last])
    ensures Disjoint(rs) && forall t :: !(Covered(t, rs) && In(t, last))
  {
    var all := rs + [last];
    assert forall i, j :: 0 <= i < j < |rs| ==> rs[i] == all[i] && rs[j] == all[j];
    forall t
      ensures !(Covered(t, rs) && In(t, last))
    {
      if Covered(t, rs) {
        var i :| 0 <= i < |rs| && In(t, rs[i]);
        assert Apart(all[i], all[|rs|]);
      }
    }
  }

  lemma {:induction false} RowIsDisjoint(x: Range, b: seq<Range>)
    requires Disjoint(b)
    ensures Disjoint(Row(x, b))
    decreases |b|
  {
    if b != [] {
      var most, last := b[..|b| - 1], b[|b| - 1];
      assert b == most + [last];
      PrefixDisjoint(most, last);
      RowIsDisjoint(x, most);
      forall t
        ensures !(Covered(t, Row(x, most)) && Covered(t, Overlap(x, last)))
      {
        RowIsExact(x, most, t);
        OverlapIsExact(x, last, t);
      }
      AppendDisjoint(Row(x, most), Overlap(x, last));
    }
  }

  lemma {:induction false} OverlapsAreDisjoint(a: seq<Range>, b: seq<Range>)
    requires Disjoint(a) && Disjoint(b)
    ensures Disjoint(Overlaps(a, b))
    decreases |a|
  {
    if a != [] {
      var most, last := a[..|a| - 1], a[|a| - 1];
      assert a == most + [last];
      PrefixDisjoint(most, last);
      OverlapsAreDisjoint(most, b);
      RowIsDisjoint(last, b);
      forall t
        ensures !(Covered(t, Overlaps(most, b)) && Covered(t, Row(last, b)))
      {
        OverlapsAreExact(most, b, t);
        RowIsExact(last, b, t);
      }
      AppendDisjoint(Overlaps(most, b), Row(last, b));
    }
  }

  lemma {:induction false} InsertedIsDisjoint(rs: seq<Range>, x: Range)
    requires Disjoint(rs) && forall t :: !(Covered(t, rs) && In(t, x))
    ensures Disjoint(Inserted(rs, x, Start)) && forall t :: Covered(t, Inserted(rs, x, Start)) <==>
              Covered(t, rs) || In(t, x)
    decreases |rs|
  {
    forall t
      ensures Covered(t, [x]) <==> In(t, x)
    {
      assert In(t, x) ==> In(t, [x][0]);
    }
    if rs == [] || Start(rs[|rs| - 1]) <= Start(x) {
      AppendDisjoint(rs, [x]);
      forall t { CoveredAppend(t, rs, [x]); }
    } else {
      var most, last := rs[..|rs| - 1], rs[|rs| - 1];
      assert rs == most + [last];
      PrefixDisjoint(most, last);
      forall t
        ensures Covered(t, rs) <==> Covered(t, most) || In(t, last)
        ensures Covered(t, [last]) <==> In(t, last)
      {
        CoveredAppend(t, most, [last]);
        assert In(t, last) ==> In(t, [last][0]);
      }
      InsertedIsDisjoint(most, x);
      AppendDisjoint(Inserted(most, x, Start), [last]);
      forall t { CoveredAppend(t, Inserted(most, x, Start), [last]); }
    }
  }

  lemma {:induction false} SortKeepsDisjoint(rs: seq<Range>)
    requires Disjoint(rs)
    ensures Disjoint(Sorted(rs, Start))
    decreases |rs|
  {
    if rs != [] {
      var most, last := rs[..|rs| - 1], rs[|rs| - 1];
      assert rs == most + [last];
      PrefixDisjoint(most, last);
      SortKeepsDisjoint(most);
      forall t
        ensures Covered(t, Sorted(most, Start)) <==> Covered(t, most)
      {
        SortIsStable(most, Start);
        SameElementsSameCover(Sorted(most, Start), most, t);
      }
      InsertedIsDisjoint(Sorted(most, Start), last);
    }
  }

  lemma SameElementsSameShape(rs: seq<Range>, ss: seq<Range>)
    requires multiset(rs) == multiset(ss)
    ensures AllNonEmpty(rs) ==> AllNonEmpty(ss)
    ensures HasOpen(rs) ==> HasOpen(ss)
  {
    forall j | 0 <= j < |ss|
      ensures AllNonEmpty(rs) ==> NonEmpty(ss[j])
    {
      assert ss[j] in multiset(ss);
      var i :| 0 <= i < |rs| && rs[i] == ss[j];
    }
    if HasOpen(rs) {
      var i :| 0 <= i < |rs| && rs[i].to.None?;
      assert rs[i] in multiset(rs);
      var j :| 0 <= j < |ss| && ss[j] == rs[i];
    }
  }

  /** The intersection is sorted, without empty ranges, disjoint when both lists are, and open exactly when both are. */
  lemma IntersectionShape(a: seq<Range>, b: seq<Range>)
    ensures Ascending(Intersection(a, b), Start) && AllNonEmpty(Intersection(a, b))
    ensures Disjoint(a) && Disjoint(b) ==> Disjoint(Intersection(a, b))
    ensures HasOpen(Intersection(a, b)) <==> HasOpen(a) && HasOpen(b)
  {
    var all := Overlaps(a, b);
    SortIsStable(all, Start);
    OverlapsShape(a, b);
    SameElementsSameShape(all, Sorted(all, Start));
    SameElementsSameShape(Sorted(all, Start), all);
    if Disjoint(a) && Disjoint(b) {
      OverlapsAreDisjoint(a, b);
      SortKeepsDisjoint(all);
    }
  }
}
