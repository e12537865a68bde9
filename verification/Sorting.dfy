/** Stable sorting by a comparison, and the one comparison on identity fields that the source uses throughout. */
module Sorting {
  import opened Common

  // A strict weak order, as the source's sort requires of its comparison.
  ghost predicate WeakOrder<T(!new)>(less: (T, T) -> bool) {
    && (forall x :: !less(x, x))
    && (forall x, y, z :: less(x, y) && less(y, z) ==> less(x, z))
    && (forall x, y, z :: less(x, z) ==> less(x, y) || less(y, z))
  }

  ghost predicate Sorted<T>(less: (T, T) -> bool, s: seq<T>) {
    forall i, j :: 0 <= i < j < |s| ==> !less(s[j], s[i])
  }

  function Insert<T>(less: (T, T) -> bool, x: T, s: seq<T>): (r: seq<T>)
    ensures multiset(r) == multiset{x} + multiset(s)
  {
    if s == [] then [x]
    else if less(s[0], x) then
      assert s == [s[0]] + s[1..];
      [s[0]] + Insert(less, x, s[1..])
    else [x] + s
  }

  // Stable: equal elements keep their order.
  function Sort<T>(less: (T, T) -> bool, s: seq<T>): (r: seq<T>)
    ensures multiset(r) == multiset(s)
  {
    if s == [] then []
    else
      assert s == [s[0]] + s[1..];
      Insert(less, s[0], Sort(less, s[1..]))
  }

  lemma InsertMember<T>(less: (T, T) -> bool, x: T, s: seq<T>, j: nat)
    requires j < |Insert(less, x, s)|
    ensures Insert(less, x, s)[j] == x || Insert(less, x, s)[j] in s
  {
    assert Insert(less, x, s)[j] in multiset(Insert(less, x, s));
  }

  lemma SortMember<T>(less: (T, T) -> bool, s: seq<T>, j: nat)
    requires j < |Sort(less, s)|
    ensures Sort(less, s)[j] in s
  {
    assert Sort(less, s)[j] in multiset(Sort(less, s));
  }

  lemma SortMembers<T>(less: (T, T) -> bool, s: seq<T>, x: T)
    ensures x in Sort(less, s) <==> x in s
  {
    assert x in Sort(less, s) <==> x in multiset(Sort(less, s));
    assert x in s <==> x in multiset(s);
  }

  // Sorting different elements keeps them different.
  lemma SortDistinct<T(!new)>(less: (T, T) -> bool, s: seq<T>, i: nat, j: nat)
    requires Different(s) && i < j < |Sort(less, s)|
    ensures Sort(less, s)[i] != Sort(less, s)[j]
  {
    var r := Sort(less, s);
    OnceEach(s, r[i]);
    if r[i] == r[j] { CountedTwice(r, i, j); }
  }

  lemma CountedTwice<T>(s: seq<T>, i: nat, j: nat)
    requires i < j < |s| && s[i] == s[j]
    ensures multiset(s)[s[i]] >= 2
  {
    assert s == s[..j] + [s[j]] + s[j + 1..];
    assert s[..j][i] == s[i];
  }

  lemma {:induction false} OnceEach<T>(s: seq<T>, x: T)
    requires Different(s)
    ensures multiset(s)[x] <= 1
  {
    if s != [] {
      assert s == [s[0]] + s[1..];
      OnceEach(s[1..], x);
      if x == s[0] { assert x !in s[1..]; }
    }
  }

  lemma {:induction false} InsertSorted<T(!new)>(less: (T, T) -> bool, x: T, s: seq<T>)
    requires WeakOrder(less) && Sorted(less, s)
    ensures Sorted(less, Insert(less, x, s))
  {
    if s != [] {
      if less(s[0], x) {
        InsertSorted(less, x, s[1..]);
        var r := Insert(less, x, s[1..]);
        forall j | 0 <= j < |r| ensures !less(r[j], s[0]) {
          InsertMember(less, x, s[1..], j);
        }
        FirstBelow(less, s[0], r);
      } else {
        forall j | 0 <= j < |s| ensures !less(s[j], x) {
          var y := s[j];
          assert y == s[0] || !less(y, s[0]);
        }
        FirstBelow(less, x, s);
      }
    }
  }

  lemma FirstBelow<T>(less: (T, T) -> bool, x: T, s: seq<T>)
    requires Sorted(less, s) && forall j :: 0 <= j < |s| ==> !less(s[j], x)
    ensures Sorted(less, [x] + s)
  {
  }

  lemma {:induction false} SortSorted<T(!new)>(less: (T, T) -> bool, s: seq<T>)
    requires WeakOrder(less)
    ensures Sorted(less, Sort(less, s))
  {
    if s != [] {
      SortSorted(less, s[1..]);
      InsertSorted(less, s[0], Sort(less, s[1..]));
    }
  }

  // Different elements of s are comparable.
  ghost predicate Separates<T(!new)>(less: (T, T) -> bool, s: multiset<T>) {
    forall x, y :: x in s && y in s && x != y ==> less(x, y) || less(y, x)
  }

  // The first element of a sorted arrangement is determined by its elements.
  lemma SortedHead<T(!new)>(less: (T, T) -> bool, s: seq<T>, t: seq<T>)
    requires Separates(less, multiset(s)) && multiset(s) == multiset(t) && s != [] && t != []
    requires Sorted(less, s) && Sorted(less, t)
    ensures s[0] == t[0]
  {
    assert s[0] in multiset(s) && t[0] in multiset(t);
    var i :| 0 <= i < |t| && t[i] == s[0];
    var j :| 0 <= j < |s| && s[j] == t[0];
    var x, y := s[0], t[0];
    assert i == 0 || !less(x, y);
    assert j == 0 || !less(y, x);
  }

  lemma TailMultiset<T>(s: seq<T>)
    requires s != []
    ensures multiset(s[1..]) == multiset(s) - multiset{s[0]}
  {
    assert s == [s[0]] + s[1..];
  }

  lemma TailSeparates<T(!new)>(less: (T, T) -> bool, s: seq<T>)
    requires s != [] && Separates(less, multiset(s))
    ensures Separates(less, multiset(s[1..]))
  {
    TailMultiset(s);
  }

  lemma TailSorted<T>(less: (T, T) -> bool, s: seq<T>)
    requires s != [] && Sorted(less, s)
    ensures Sorted(less, s[1..])
  {
  }

  // When the comparison tells the elements apart, a sorted arrangement is unique.
  lemma {:induction false} SortedUnique<T(!new)>(less: (T, T) -> bool, s: seq<T>, t: seq<T>)
    requires Separates(less, multiset(s)) && Sorted(less, s) && Sorted(less, t) && multiset(s) == multiset(t)
    ensures s == t
  {
    hide Separates, Sorted;
    SameLength(s, t);
    if s != [] {
      SortedHead(less, s, t);
      TailMultiset(s);
      TailMultiset(t);
      TailSeparates(less, s);
      TailSorted(less, s);
      TailSorted(less, t);
      SortedUnique(less, s[1..], t[1..]);
      HeadAndTail(s, t);
    }
  }

  lemma SameLength<T>(s: seq<T>, t: seq<T>)
    requires multiset(s) == multiset(t)
    ensures |s| == |t|
  {
    assert |multiset(s)| == |s| && |multiset(t)| == |t|;
  }

  // Sorting forgets the order of the input.
  lemma SortOfPermutation<T(!new)>(less: (T, T) -> bool, s: seq<T>, t: seq<T>)
    requires WeakOrder(less) && Separates(less, multiset(s)) && multiset(s) == multiset(t)
    ensures Sort(less, s) == Sort(less, t)
  {
    SortSorted(less, s);
    SortSorted(less, t);
    SortedUnique(less, Sort(less, s), Sort(less, t));
  }

  /* ---------- identity fields ---------- */

  // Identity fields compared in order, then a number.
  datatype SortKey = SortKey(parts: seq<string>, index: int)

  predicate PartsLess(a: seq<string>, b: seq<string>) {
    if b == [] then false
    else if a == [] then true
    else if a[0] != b[0] then StringLess(a[0], b[0])
    else PartsLess(a[1..], b[1..])
  }

  predicate KeyLess(a: SortKey, b: SortKey) {
    if a.parts != b.parts then PartsLess(a.parts, b.parts) else a.index < b.index
  }

  lemma {:induction false} PartsTotal(a: seq<string>, b: seq<string>)
    ensures PartsLess(a, b) || PartsLess(b, a) || a == b
    ensures !(PartsLess(a, b) && PartsLess(b, a))
    ensures a == b ==> !PartsLess(a, b)
  {
    if a != [] && b != [] {
      StringLessTotal(a[0], b[0]);
      if a[0] == b[0] {
        PartsTotal(a[1..], b[1..]);
        assert a == [a[0]] + a[1..] && b == [b[0]] + b[1..];
      }
    }
  }

  lemma {:induction false} PartsTransitive(a: seq<string>, b: seq<string>, c: seq<string>)
    requires PartsLess(a, b) && PartsLess(b, c)
    ensures PartsLess(a, c)
  {
    if a != [] {
      if a[0] == b[0] == c[0] {
        PartsTransitive(a[1..], b[1..], c[1..]);
      } else if a[0] != b[0] && b[0] != c[0] {
        StringLessTransitive(a[0], b[0], c[0]);
        StringLessTotal(a[0], b[0]);
      }
    }
  }

  lemma PartsHead(a: seq<string>, b: seq<string>)
    requires a != [] && b != []
    ensures PartsLess(a, b) <==> if a[0] != b[0] then StringLess(a[0], b[0]) else PartsLess(a[1..], b[1..])
  {
  }

  // Parts are compared one after the other.
  lemma TwoPartsLess(a: seq<string>, b: seq<string>)
    requires |a| == 2 && |b| == 2
    ensures PartsLess(a, b) <==> if a[0] != b[0] then StringLess(a[0], b[0]) else StringLess(a[1], b[1])
    ensures a == b <==> a[0] == b[0] && a[1] == b[1]
  {
    assert !PartsLess([], []);
    hide PartsLess, StringLess;
    PartsHead(a, b);
    PartsHead(a[1..], b[1..]);
    assert a[1..][1..] == [] && b[1..][1..] == [];
    StringLessTotal(a[1], b[1]);
  }

  lemma ThreePartsLess(a: seq<string>, b: seq<string>)
    requires |a| == 3 && |b| == 3
    ensures PartsLess(a, b) <==>
            if a[0] != b[0] then StringLess(a[0], b[0])
            else if a[1] != b[1] then StringLess(a[1], b[1])
            else StringLess(a[2], b[2])
    ensures a == b <==> a[0] == b[0] && a[1] == b[1] && a[2] == b[2]
  {
    assert !PartsLess([], []);
    hide PartsLess, StringLess;
    PartsHead(a, b);
    PartsHead(a[1..], b[1..]);
    PartsHead(a[2..], b[2..]);
    assert a[1..][1..] == a[2..] && a[2..][1..] == [] && b[1..][1..] == b[2..] && b[2..][1..] == [];
    StringLessTotal(a[2], b[2]);
  }

  lemma FivePartsLess(a: seq<string>, b: seq<string>)
    requires |a| == 5 && |b| == 5
    ensures PartsLess(a, b) <==>
            if a[0] != b[0] then StringLess(a[0], b[0])
            else if a[1] != b[1] then StringLess(a[1], b[1])
            else if a[2] != b[2] then StringLess(a[2], b[2])
            else if a[3] != b[3] then StringLess(a[3], b[3])
            else StringLess(a[4], b[4])
    ensures a == b <==> a[0] == b[0] && a[1] == b[1] && a[2] == b[2] && a[3] == b[3] && a[4] == b[4]
  {
    assert !PartsLess([], []);
    hide PartsLess, StringLess;
    PartsHead(a, b);
    PartsHead(a[1..], b[1..]);
    PartsHead(a[2..], b[2..]);
    PartsHead(a[3..], b[3..]);
    PartsHead(a[4..], b[4..]);
    assert a[1..][1..] == a[2..] && a[2..][1..] == a[3..] && a[3..][1..] == a[4..] && a[4..][1..] == [];
    assert b[1..][1..] == b[2..] && b[2..][1..] == b[3..] && b[3..][1..] == b[4..] && b[4..][1..] == [];
    StringLessTotal(a[4], b[4]);
  }

  // KeyLess is a strict total order.
  lemma KeyOrder(a: SortKey, b: SortKey, c: SortKey)
    ensures !KeyLess(a, a)
    ensures KeyLess(a, b) || KeyLess(b, a) || a == b
    ensures KeyLess(a, b) && KeyLess(b, c) ==> KeyLess(a, c)
  {
    PartsTotal(a.parts, b.parts);
    PartsTotal(b.parts, c.parts);
    PartsTotal(a.parts, c.parts);
    if PartsLess(a.parts, b.parts) && PartsLess(b.parts, c.parts) {
      PartsTransitive(a.parts, b.parts, c.parts);
    }
  }

  function ByKey<T>(key: T -> SortKey): (T, T) -> bool {
    (x, y) => KeyLess(key(x), key(y))
  }

  lemma ByKeyWeakOrder<T(!new)>(key: T -> SortKey)
    ensures WeakOrder(ByKey(key))
  {
    forall x: T, y: T, z: T
      ensures !ByKey(key)(x, x)
      ensures ByKey(key)(x, y) && ByKey(key)(y, z) ==> ByKey(key)(x, z)
      ensures ByKey(key)(x, z) ==> ByKey(key)(x, y) || ByKey(key)(y, z)
    {
      KeyOrder(key(x), key(y), key(z));
      KeyOrder(key(y), key(x), key(z));
      KeyOrder(key(z), key(y), key(x));
    }
  }

  /* ---------- names ---------- */

  function NameKey(n: NamespacedName): SortKey { SortKey([n.namespace, n.name], 0) }

  // By namespace, then by name.
  predicate NamePrecedes(a: NamespacedName, b: NamespacedName) {
    if a.namespace != b.namespace then StringLess(a.namespace, b.namespace) else StringLess(a.name, b.name)
  }

  ghost predicate InNameOrder(l: seq<NamespacedName>) {
    forall i, j :: 0 <= i < j < |l| ==> !NamePrecedes(l[j], l[i])
  }

  lemma NamesCompare(a: NamespacedName, b: NamespacedName)
    ensures ByKey(NameKey)(a, b) <==> NamePrecedes(a, b)
  {
    assert ByKey(NameKey)(a, b) == KeyLess(NameKey(a), NameKey(b));
    TwoPartsLess(NameKey(a).parts, NameKey(b).parts);
    StringLessTotal(a.name, b.name);
    hide PartsLess, StringLess;
  }

  lemma NamesSorted(l: seq<NamespacedName>)
    ensures InNameOrder(Sort(ByKey(NameKey), l))
  {
    ByKeyWeakOrder(NameKey);
    SortSorted(ByKey(NameKey), l);
    var r := Sort(ByKey(NameKey), l);
    hide Sort, NamePrecedes, ByKey, WeakOrder;
    forall i, j | 0 <= i < j < |r| ensures !NamePrecedes(r[j], r[i]) { NamesCompare(r[j], r[i]); }
  }
}
