/** Typed matches and their length-delimited canonical keys. */
module CanonicalKeys {
  import opened Common
  import opened NumberText
  import opened Rounding

  const SUPPORTED_TYPES: set<string> :=
    {"string", "integer", "number", "boolean", "timestamp", "duration", "quantity", "object", "list"}

  const NUMERIC_TYPES: set<string> := {"integer", "number", "duration", "quantity"}

  // One normalized match. `payload` is the canonical text of its value, which only an object or a list can lack;
  // `number` is the exact value of a numeric match; `body` is how it was written, which equal values may not share.
  datatype Match = Null(typeName: string)
      | Value(typeName: string, payload: Option<string>, number: Rational, body: string)

  // An integer or a duration holds a whole signed 64-bit number, a quantity billionths within the same magnitude.
  predicate ValidMatch(m: Match) {
    m.Value? ==>
      && m.number.den > 0
      && (m.typeName in {"integer", "duration"} ==> m.number.den == 1 && InInt64(m.number.num))
      && (m.typeName == "quantity" ==> IsQuantity(m.number))
      && (m.typeName !in {"object", "list"} ==> m.payload.Some?)
  }

  const MAX_PART := 0xffff_ffff

  // A 32-bit length, most significant byte first.
  function BigEndian(n: nat): string
    requires n <= MAX_PART
  {
    [(n / 0x100_0000) as char, (n / 0x1_0000 % 0x100) as char, (n / 0x100 % 0x100) as char, (n % 0x100) as char]
  }

  function KeyPart(value: string): Option<string> {
    if |value| > MAX_PART then None else Some(BigEndian(|value|) + value)
  }

  function CanonicalKey(typeName: string, m: Match): Option<string> {
    if m.Null? || m.typeName != typeName || typeName !in SUPPORTED_TYPES || m.payload.None? then None
    else match (KeyPart(typeName), KeyPart(m.payload.value))
      case (Some(a), Some(b)) => Some(a + b)
      case _ => None
  }

  method WriteKeyPart(buffer: string, value: string) returns (ok: bool, written: string)
    ensures ok <==> KeyPart(value).Some?
    ensures written == if ok then buffer + KeyPart(value).value else buffer
  {
    if |value| > MAX_PART { return false, buffer; }
    written := buffer + BigEndian(|value|);
    written := written + value;
    assert written == buffer + (BigEndian(|value|) + value);
    ok := true;
  }

  method MakeCanonicalKey(typeName: string, m: Match) returns (key: Option<string>)
    ensures key == CanonicalKey(typeName, m)
  {
    if m.Null? || m.typeName != typeName || typeName !in SUPPORTED_TYPES { return None; }
    if m.payload.None? { return None; }
    var ok, buffer := WriteKeyPart("", typeName);
    if !ok { return None; }
    ok, buffer := WriteKeyPart(buffer, m.payload.value);
    if !ok { return None; }
    assert buffer == KeyPart(typeName).value + KeyPart(m.payload.value).value;
    return Some(buffer);
  }

  /* ---------- injectivity ---------- */

  // The number that bytes stand for, most significant byte first.
  function NumberFrom(bytes: string): nat {
    if bytes == "" then 0
    else 0x100 * NumberFrom(bytes[..|bytes| - 1]) + bytes[|bytes| - 1] as nat
  }

  lemma BigEndianReads(n: nat)
    requires n <= MAX_PART
    ensures NumberFrom(BigEndian(n)) == n && forall c :: c in BigEndian(n) ==> c as nat < 0x100
  {
    var s := BigEndian(n);
    assert s[..3][..2] == s[..2] && s[..2][..1] == s[..1] && s[..1][..0] == "";
    assert n / 0x1_0000 == n / 0x100 / 0x100 && n / 0x100_0000 == n / 0x1_0000 / 0x100;
    assert NumberFrom(s[..1]) == n / 0x100_0000;
    assert NumberFrom(s[..2]) == n / 0x1_0000;
    assert NumberFrom(s[..3]) == n / 0x100;
  }

  // A part is its text behind the length of the text in four bytes; a longer text has none.
  lemma PartHeld(value: string)
    ensures KeyPart(value).Some? <==> |value| <= MAX_PART
    ensures KeyPart(value).Some? ==>
              var part := KeyPart(value).value;
              |part| == 4 + |value| && NumberFrom(part[..4]) == |value| && part[4..] == value
  {
    if |value| <= MAX_PART {
      BigEndianReads(|value|);
      assert KeyPart(value).value[..4] == BigEndian(|value|);
    }
  }

  // A part tells where it ends: whatever follows, the part and the rest can be read back.
  lemma PartsSplit(a: string, x: string, b: string, y: string)
    requires KeyPart(a).Some? && KeyPart(b).Some? && KeyPart(a).value + x == KeyPart(b).value + y
    ensures a == b && x == y
  {
    var s := KeyPart(a).value + x;
    assert s == BigEndian(|a|) + (a + x) && s == BigEndian(|b|) + (b + y);
    assert s[..4] == BigEndian(|a|) && s[..4] == BigEndian(|b|);
    BigEndianReads(|a|);
    BigEndianReads(|b|);
    assert s[4..] == a + x && s[4..] == b + y;
    assert (a + x)[..|a|] == a && (b + y)[..|b|] == b;
    assert (a + x)[|a|..] == x && (b + y)[|b|..] == y;
  }

  // Two keys followed by anything are equal only key by key.
  lemma KeysSplit(s: string, m: Match, x: string, t: string, n: Match, y: string)
    requires CanonicalKey(s, m).Some? && CanonicalKey(t, n).Some?
    requires CanonicalKey(s, m).value + x == CanonicalKey(t, n).value + y
    ensures s == t && m.payload == n.payload && x == y
  {
    var a, b := KeyPart(s).value, KeyPart(m.payload.value).value;
    var c, d := KeyPart(t).value, KeyPart(n.payload.value).value;
    assert (a + b) + x == a + (b + x) && (c + d) + y == c + (d + y);
    PartsSplit(s, b + x, t, d + y);
    PartsSplit(m.payload.value, x, n.payload.value, y);
  }

  // Two values share a canonical key exactly when they agree in type and payload.
  lemma CanonicalKeyInjective(s: string, m: Match, t: string, n: Match)
    requires CanonicalKey(s, m).Some? && CanonicalKey(t, n).Some?
    ensures CanonicalKey(s, m) == CanonicalKey(t, n) <==> s == t && m.payload == n.payload
  {
    if CanonicalKey(s, m) == CanonicalKey(t, n) {
      var k := CanonicalKey(s, m).value;
      assert k + "" == k;
      KeysSplit(s, m, "", t, n, "");
    }
  }

  /* ---------- tuples of keys ---------- */

  datatype GroupKey = GroupKey(field: string, typeName: string, value: Match, canonical: string)

  predicate WellMade(k: GroupKey) { CanonicalKey(k.typeName, k.value) == Some(k.canonical) }

  predicate AllWellMade(keys: seq<GroupKey>) { forall i :: 0 <= i < |keys| ==> WellMade(keys[i]) }

  // What a key stands for, and what a tuple of keys stands for.
  datatype Tag = Tag(typeName: string, payload: string)

  function TagOf(k: GroupKey): Tag {
    Tag(k.typeName, if k.value.Value? && k.value.payload.Some? then k.value.payload.value else "")
  }

  function Identity(keys: seq<GroupKey>): (tags: seq<Tag>)
    ensures |tags| == |keys|
  {
    seq(|keys|, i requires 0 <= i < |keys| => TagOf(keys[i]))
  }

  predicate EqualTuples(left: seq<GroupKey>, right: seq<GroupKey>) {
    |left| == |right| &&
    forall i :: 0 <= i < |left| ==> left[i].typeName == right[i].typeName && left[i].canonical == right[i].canonical
  }

  method EqualKeyTuples(left: seq<GroupKey>, right: seq<GroupKey>) returns (equal: bool)
    ensures equal == EqualTuples(left, right)
  {
    if |left| != |right| { return false; }
    for i := 0 to |left|
      invariant forall j :: 0 <= j < i ==>
          left[j].typeName == right[j].typeName && left[j].canonical == right[j].canonical
    {
      if left[i].typeName != right[i].typeName || left[i].canonical != right[i].canonical { return false; }
    }
    return true;
  }

  // Comparing keys compares what they stand for.
  lemma EqualTuplesAreIdentities(left: seq<GroupKey>, right: seq<GroupKey>)
    requires AllWellMade(left) && AllWellMade(right)
    ensures EqualTuples(left, right) <==> Identity(left) == Identity(right)
  {
    if |left| == |right| {
      forall i | 0 <= i < |left|
        ensures left[i].typeName == right[i].typeName && left[i].canonical == right[i].canonical
                <==> Identity(left)[i] == Identity(right)[i]
      {
        CanonicalKeyInjective(left[i].typeName, left[i].value, right[i].typeName, right[i].value);
      }
    }
  }

  function TupleCanonicalKey(keys: seq<GroupKey>): string {
    if keys == [] then "" else keys[0].canonical + TupleCanonicalKey(keys[1..])
  }

  // The concatenation of the keys alone identifies the whole tuple, whatever the lengths.
  lemma {:induction false} TupleKeyInjective(left: seq<GroupKey>, right: seq<GroupKey>)
    requires AllWellMade(left) && AllWellMade(right)
    ensures TupleCanonicalKey(left) == TupleCanonicalKey(right) <==> Identity(left) == Identity(right)
    decreases |left|
  {
    if left == [] || right == [] {
      if left != [] { KeyNotEmpty(left[0]); }
      if right != [] { KeyNotEmpty(right[0]); }
    } else {
      var a, b := left[0], right[0];
      TupleKeyInjective(left[1..], right[1..]);
      HeadsAndTails(left, right);
      if TupleCanonicalKey(left) == TupleCanonicalKey(right) {
        KeysSplit(a.typeName, a.value, TupleCanonicalKey(left[1..]), b.typeName, b.value,
            TupleCanonicalKey(right[1..]));
      }
      CanonicalKeyInjective(a.typeName, a.value, b.typeName, b.value);
    }
  }

  lemma KeyNotEmpty(k: GroupKey)
    requires WellMade(k)
    ensures k.canonical != ""
  {
  }

  lemma HeadsAndTails(left: seq<GroupKey>, right: seq<GroupKey>)
    requires AllWellMade(left) && AllWellMade(right) && left != [] && right != []
    ensures Identity(left) == Identity(right) <==>
        TagOf(left[0]) == TagOf(right[0]) && Identity(left[1..]) == Identity(right[1..])
  {
    TailIdentity(left);
    TailIdentity(right);
    HeadAndTail(Identity(left), Identity(right));
  }

  lemma TailIdentity(keys: seq<GroupKey>)
    requires keys != []
    ensures Identity(keys)[0] == TagOf(keys[0]) && Identity(keys)[1..] == Identity(keys[1..])
  {
  }
}
