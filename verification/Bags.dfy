/** Sequences seen as bags: maps and selections that do not depend on order. */
module Bags {
  import opened Common
  import opened Sorting

  function FlatMap<A, B>(f: A -> seq<B>, s: seq<A>): seq<B> {
    if s == [] then [] else f(s[0]) + FlatMap(f, s[1..])
  }

  lemma {:induction false} FlatMapConcat<A, B>(f: A -> seq<B>, a: seq<A>, b: seq<A>)
    ensures FlatMap(f, a + b) == FlatMap(f, a) + FlatMap(f, b)
  {
    if a == [] {
      assert a + b == b;
    } else {
      assert (a + b)[1..] == a[1..] + b;
      FlatMapConcat(f, a[1..], b);
    }
  }

  lemma FlatMapOne<A, B>(f: A -> seq<B>, x: A)
    ensures FlatMap(f, [x]) == f(x)
  {
    assert [x][1..] == [];
  }

  lemma {:induction false} FlatMapMember<A, B>(f: A -> seq<B>, s: seq<A>, y: B) returns (i: nat)
    requires y in FlatMap(f, s)
    ensures i < |s| && y in f(s[i])
  {
    if y in f(s[0]) {
      i := 0;
    } else {
      var j := FlatMapMember(f, s[1..], y);
      i := j + 1;
    }
  }

  lemma {:induction false} FlatMapHolds<A, B>(f: A -> seq<B>, s: seq<A>, i: nat, y: B)
    requires i < |s| && y in f(s[i])
    ensures y in FlatMap(f, s)
  {
    if i > 0 { FlatMapHolds(f, s[1..], i - 1, y); }
  }

  lemma RemoveAt<A>(s: seq<A>, j: nat)
    requires j < |s|
    ensures s == s[..j] + [s[j]] + s[j + 1..]
    ensures multiset(s[..j] + s[j + 1..]) == multiset(s) - multiset{s[j]}
  {
    assert s == s[..j] + [s[j]] + s[j + 1..];
  }

  // The images of a bag form a bag, in whatever order they are taken.
  lemma {:induction false} FlatMapPermutation<A, B>(f: A -> seq<B>, a: seq<A>, b: seq<A>)
    requires multiset(a) == multiset(b)
    ensures multiset(FlatMap(f, a)) == multiset(FlatMap(f, b))
  {
    if a == [] {
      assert |multiset(b)| == |b|;
    } else {
      assert a[0] in multiset(b);
      var j: nat :| j < |b| && b[j] == a[0];
      RemoveAt(b, j);
      TailMultiset(a);
      FlatMapPermutation(f, a[1..], b[..j] + b[j + 1..]);
      FlatMapConcat(f, b[..j], b[j + 1..]);
      FlatMapConcat(f, b[..j], [b[j]]);
      FlatMapConcat(f, b[..j] + [b[j]], b[j + 1..]);
      FlatMapOne(f, b[j]);
    }
  }

  function Map<A, B>(f: A -> B, s: seq<A>): (r: seq<B>)
    ensures |r| == |s| && forall i :: 0 <= i < |s| ==> r[i] == f(s[i])
  {
    if s == [] then [] else [f(s[0])] + Map(f, s[1..])
  }

  function Singly<A, B>(f: A -> B): A -> seq<B> { x => [f(x)] }

  lemma {:induction false} MapIsFlatMap<A, B>(f: A -> B, s: seq<A>)
    ensures Map(f, s) == FlatMap(Singly(f), s)
  {
    if s != [] { MapIsFlatMap(f, s[1..]); }
  }

  lemma MapPermutation<A, B>(f: A -> B, a: seq<A>, b: seq<A>)
    requires multiset(a) == multiset(b)
    ensures multiset(Map(f, a)) == multiset(Map(f, b))
  {
    MapIsFlatMap(f, a);
    MapIsFlatMap(f, b);
    FlatMapPermutation(Singly(f), a, b);
  }

  // Sorting and mapping commute when the map keeps the order.
  lemma {:induction false} MapInsert<A, B>(f: A -> B, less: (A, A) -> bool, under: (B, B) -> bool, x: A, s: seq<A>)
    requires forall y :: y in s ==> less(y, x) == under(f(y), f(x))
    ensures Map(f, Insert(less, x, s)) == Insert(under, f(x), Map(f, s))
  {
    if s != [] && less(s[0], x) {
      MapInsert(f, less, under, x, s[1..]);
      assert Map(f, s) == [f(s[0])] + Map(f, s[1..]);
      assert Map(f, s)[1..] == Map(f, s[1..]);
    }
  }

  lemma {:induction false} MapSort<A, B>(f: A -> B, less: (A, A) -> bool, under: (B, B) -> bool, s: seq<A>)
    requires forall x, y :: x in s && y in s ==> less(x, y) == under(f(x), f(y))
    ensures Map(f, Sort(less, s)) == Sort(under, Map(f, s))
  {
    if s != [] {
      MapSort(f, less, under, s[1..]);
      var r := Sort(less, s[1..]);
      forall y | y in r ensures less(y, s[0]) == under(f(y), f(s[0])) { SortMembers(less, s[1..], y); }
      MapInsert(f, less, under, s[0], r);
    }
  }

  lemma CountOfDifferent<A>(s: seq<A>, x: A)
    requires Different(s)
    ensures multiset(s)[x] == if x in s then 1 else 0
  {
    OnceEach(s, x);
    assert x in s <==> x in multiset(s);
  }

  // Sequences without repetition over the same elements are the same bag.
  lemma SameMembersSameBag<A>(a: seq<A>, b: seq<A>)
    requires Different(a) && Different(b) && forall x :: x in a <==> x in b
    ensures multiset(a) == multiset(b)
  {
    forall x ensures multiset(a)[x] == multiset(b)[x] {
      CountOfDifferent(a, x);
      CountOfDifferent(b, x);
    }
  }

  // Each value once, in order of first appearance.
  function Unique<A(==)>(s: seq<A>): seq<A> {
    if s == [] then []
    else
      var n := |s| - 1;
      if s[n] in Unique(s[..n]) then Unique(s[..n]) else Unique(s[..n]) + [s[n]]
  }

  lemma {:induction false} UniqueMembers<A>(s: seq<A>)
    ensures Different(Unique(s)) && forall x :: x in Unique(s) <==> x in s
  {
    if s != [] {
      var n := |s| - 1;
      UniqueMembers(s[..n]);
      assert s == s[..n] + [s[n]];
    }
  }

  lemma UniquePermutation<A>(a: seq<A>, b: seq<A>)
    requires multiset(a) == multiset(b)
    ensures multiset(Unique(a)) == multiset(Unique(b))
  {
    UniqueMembers(a);
    UniqueMembers(b);
    forall x ensures x in a <==> x in b {
      assert x in a <==> x in multiset(a);
      assert x in b <==> x in multiset(b);
    }
    SameMembersSameBag(Unique(a), Unique(b));
  }

  function Elements<A>(s: seq<A>): set<A> { set x | x in s }

  lemma UniqueSize<A>(s: seq<A>)
    ensures |Unique(s)| == |Elements(s)|
  {
    UniqueMembers(s);
    DifferentSize(Unique(s));
    assert Elements(s) == Elements(Unique(s));
  }

  lemma {:induction false} DifferentSize<A>(s: seq<A>)
    requires Different(s)
    ensures |Elements(s)| == |s|
  {
    if s != [] {
      var n := |s| - 1;
      DifferentSize(s[..n]);
      assert Elements(s) == Elements(s[..n]) + {s[n]} by { assert s == s[..n] + [s[n]]; }
    }
  }

  lemma UniqueOne<A>(x: A)
    ensures Unique([x]) == [x]
  {
    assert [x][..0] == [];
  }

  function SumOver<A>(f: A -> nat, s: seq<A>): nat {
    if s == [] then 0 else SumOver(f, s[..|s| - 1]) + f(s[|s| - 1])
  }

  lemma {:induction false} SumAlike<A, B>(f: A -> nat, s: seq<A>, g: B -> nat, t: seq<B>)
    requires |s| == |t| && forall i :: 0 <= i < |s| ==> f(s[i]) == g(t[i])
    ensures SumOver(f, s) == SumOver(g, t)
  {
    if s != [] { SumAlike(f, s[..|s| - 1], g, t[..|t| - 1]); }
  }

  // An earlier element has the same label.
  ghost predicate Labelled<A, B>(f: A -> B, s: seq<A>, x: A) { exists i :: 0 <= i < |s| && f(s[i]) == f(x) }

  lemma LabelsMore<A, B>(f: A -> B, s: seq<A>, x: A)
    ensures |Elements(Map(f, s + [x]))| == |Elements(Map(f, s))| + if Labelled(f, s, x) then 0 else 1
  {
    var labels := Map(f, s);
    assert Map(f, s + [x]) == labels + [f(x)];
    assert f(x) in labels <==> Labelled(f, s, x) by {
      if f(x) in labels {
        var i: nat :| i < |labels| && labels[i] == f(x);
        assert f(s[i]) == f(x);
      }
      if Labelled(f, s, x) {
        var i: nat :| i < |s| && f(s[i]) == f(x);
        assert labels[i] == f(x);
      }
    }
    hide Map, Labelled;
    ElementsMore(labels, f(x));
  }

  lemma ElementsMore<B>(s: seq<B>, y: B)
    ensures |Elements(s + [y])| == |Elements(s)| + if y in s then 0 else 1
  {
    assert Elements(s + [y]) == Elements(s) + {y};
    assert y in Elements(s) <==> y in s;
  }

  // Two labellings that tell the same elements apart use equally many labels.
  lemma {:induction false} SameClasses<A, B, C>(f: A -> B, g: A -> C, s: seq<A>)
    requires forall i, j :: 0 <= i < |s| && 0 <= j < |s| ==> (f(s[i]) == f(s[j]) <==> g(s[i]) == g(s[j]))
    ensures |Elements(Map(f, s))| == |Elements(Map(g, s))|
  {
    if s == [] {
      assert Elements(Map(f, s)) == {} && Elements(Map(g, s)) == {};
    } else {
      var n := |s| - 1;
      var x := s[n];
      assert s == s[..n] + [x];
      assert Labelled(f, s[..n], x) <==> Labelled(g, s[..n], x);
      hide Elements, Map;
      SameClasses(f, g, s[..n]);
      LabelsMore(f, s[..n], x);
      LabelsMore(g, s[..n], x);
    }
  }
}
