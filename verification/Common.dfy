/** Small shared vocabulary: optional values and the byte-wise string order that Go's `<` uses. */
module Common {

  datatype Option<+T> = None | Some(value: T)

  /* ---------- signed 64-bit integers ---------- */

  const MAX_INT64: int := 0x7fff_ffff_ffff_ffff
  const MIN_INT64: int := -0x8000_0000_0000_0000

  predicate InInt64(n: int) { MIN_INT64 <= n <= MAX_INT64 }

  type int64 = x: int | MIN_INT64 <= x <= MAX_INT64

  datatype NamespacedName = NamespacedName(namespace: string, name: string)

  /** The identity of one resource, as carried by everything read from it. */
  datatype Provenance = Provenance(apiVersion: string, kind: string, namespace: string, name: string, uid: string)

  /** Strings are byte strings in the source; `char` stands for a byte. */
  predicate StringLess(a: string, b: string) {
    if b == [] then false
    else if a == [] then true
    else if a[0] != b[0] then a[0] < b[0]
    else StringLess(a[1..], b[1..])
  }

  lemma {:induction false} StringLessTotal(a: string, b: string)
    ensures StringLess(a, b) || StringLess(b, a) || a == b
    ensures !(StringLess(a, b) && StringLess(b, a))
    ensures a == b ==> !StringLess(a, b)
  {
    if a == [] || b == [] {
    } else if a[0] == b[0] {
      StringLessTotal(a[1..], b[1..]);
      assert a == [a[0]] + a[1..] && b == [b[0]] + b[1..];
    }
  }

  lemma {:induction false} StringLessTransitive(a: string, b: string, c: string)
    requires StringLess(a, b) && StringLess(b, c)
    ensures StringLess(a, c)
  {
    if a != [] && a[0] == b[0] == c[0] {
      StringLessTransitive(a[1..], b[1..], c[1..]);
    }
  }

  predicate Different<A(==)>(s: seq<A>) { forall i, j :: 0 <= i < j < |s| ==> s[i] != s[j] }

  lemma SubsetSize<T>(a: set<T>, b: set<T>)
    requires a <= b
    ensures |a| <= |b|
    ensures |a| == |b| ==> a == b
  {
    assert b == a + (b - a);
  }

  lemma HeadAndTail<T>(a: seq<T>, b: seq<T>)
    requires a != [] && b != []
    ensures a == b <==> a[0] == b[0] && a[1..] == b[1..]
  {
    assert a == [a[0]] + a[1..] && b == [b[0]] + b[1..];
  }
}
