/** Go's string order, and listing a set of keys in it (sort.Strings over the keys of a map). */
module Ordering {
  predicate Less(a: string, b: string)
    decreases |a|
  {
    b != "" && (a == "" || a[0] < b[0] || (a[0] == b[0] && Less(a[1..], b[1..])))
  }

  lemma {:induction false} LessIsTotal(a: string, b: string)
    ensures a == b || Less(a, b) || Less(b, a)
    ensures !(Less(a, b) && Less(b, a)) && !Less(a, a)
    decreases |a|
  {
    if a != "" && b != "" {
      LessIsTotal(a[1..], b[1..]);
      LessIsTotal(a[1..], a[1..]);
      assert a == [a[0]] + a[1..] && b == [b[0]] + b[1..];
    } else if a != "" {
      LessIsTotal(a[1..], a[1..]);
    }
  }

  lemma {:induction false} LessIsTransitive(a: string, b: string, c: string)
    requires Less(a, b) && Less(b, c)
    ensures Less(a, c)
    decreases |a|
  {
    if a != "" && a[0] == b[0] && b[0] == c[0] {
      LessIsTransitive(a[1..], b[1..], c[1..]);
    }
  }

  predicate Ascending(xs: seq<string>) {
    forall i, j :: 0 <= i < j < |xs| ==> Less(xs[i], xs[j])
  }

  function Elements(xs: seq<string>): set<string> {
    set x | x in xs
  }

  lemma NoElements(xs: seq<string>)
    ensures Elements(xs) == {} <==> xs == []
  {
    if xs != [] {
      assert xs[0] in Elements(xs);
    }
  }

  lemma {:induction false} HasLeast(s: set<string>) returns (least: string)
    requires s != {}
    ensures least in s && forall x :: x in s && x != least ==> Less(least, x)
    decreases s
  {
    var x :| x in s;
    least := x;
    if s != {x} {
      var y := HasLeast(s - {x});
      LessIsTotal(x, y);
      if Less(y, x) {
        least := y;
      } else {
        forall z | z in s && z != x
          ensures Less(x, z)
        {
          if z != y {
            LessIsTransitive(x, y, z);
          }
        }
      }
    }
  }

  /** Whatever order a map is walked in, its sorted keys come out the same. */
  lemma {:induction false} AscendingIsUnique(xs: seq<string>, ys: seq<string>)
    requires Ascending(xs) && Ascending(ys) && Elements(xs) == Elements(ys)
    ensures xs == ys
    decreases |xs|
  {
    if xs == [] || ys == [] {
      NoElements(xs);
      NoElements(ys);
    } else {
      assert xs[0] in Elements(ys) && ys[0] in Elements(xs);
      LessIsTotal(xs[0], ys[0]);
      assert xs[0] == ys[0];
      forall z
        ensures z in Elements(xs[1..]) <==> z in Elements(ys[1..])
      {
        LessIsTotal(xs[0], xs[0]);
        assert z in xs[1..] ==> z in Elements(xs) && z != xs[0];
        assert z in ys[1..] ==> z in Elements(ys) && z != ys[0];
      }
      AscendingIsUnique(xs[1..], ys[1..]);
    }
  }

  method SortedKeys(keys: set<string>) returns (xs: seq<string>)
    ensures Ascending(xs) && Elements(xs) == keys
    ensures forall i :: 0 <= i < |xs| ==> xs[i] in keys
  {
    xs := [];
    var left := keys;
    while left != {}
      invariant left <= keys && Elements(xs) == keys - left
      invariant Ascending(xs) && forall i :: 0 <= i < |xs| ==> xs[i] in keys
      invariant forall x, y :: x in xs && y in left ==> Less(x, y)
      decreases left
    {
      ghost var least := HasLeast(left);
      forall x | x in left && (forall y :: y in left && y != x ==> Less(x, y))
        ensures x == least
      {
        LessIsTotal(x, least);
      }
      var k :| k in left && forall y :: y in left && y != k ==> Less(k, y);
      assert Elements(xs + [k]) == Elements(xs) + {k};
      xs := xs + [k];
      left := left - {k};
    }
  }
}
