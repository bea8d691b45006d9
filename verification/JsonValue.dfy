// JavaScript values as `canonicalJson` receives them, and when two of them
// are the same request body.
module JsonValue {
  import opened Texts

  predicate IsNumberUnit(c: CodeUnit) {
    IsDigit(c) || c == 43 || c == 45 || c == 46 || c == 69 || c == 101 // + - . E e
  }

  /** A numeral with a fraction or an exponent: how `JSON.stringify` writes a finite non-integral double. */
  predicate IsFractionText(t: Text) {
    && (forall i :: 0 <= i < |t| ==> IsNumberUnit(t[i]))
    && (46 in t || 101 in t)
    && t != [] && (IsDigit(t[0]) || t[0] == MINUS)
  }

  /** A non-integral double is identified with its shortest numeral (ECMA-262, Number::toString). */
  type FractionText = t: Text | IsFractionText(t) witness Half()

  function Half(): (t: Text)
    ensures IsFractionText(t)
  {
    var t: Text := [48, 46, 53];
    assert t[0] == 48 && t[1] == 46;
    t
  }

  datatype Number = Int(n: int) | Fraction(text: FractionText) | NonFinite

  datatype Member = Member(key: Text, value: Json)

  /** `Hole` is an empty slot of a sparse array, and only that. `Other` stands for every value that is not JSON:
      undefined, functions, symbols, class instances. */
  datatype Json =
    | Null
    | Bool(b: bool)
    | Num(num: Number)
    | Str(s: Text)
    | Arr(items: seq<Json>)
    | Obj(members: seq<Member>)
    | Hole
    | Other

  const MAX_SAFE_INTEGER: int := 9007199254740991

  predicate Safe(n: Number) {
    match n
    case Int(i) => -MAX_SAFE_INTEGER <= i <= MAX_SAFE_INTEGER
    case Fraction(_) => true
    case NonFinite => false
  }

  /** Every leaf is JSON and every integer is safe: nothing in the tree makes `canonicalJson` throw. Empty slots are
      passed over wherever an array is mapped. */
  predicate Encodable(v: Json) {
    match v
    case Num(n) => Safe(n)
    case Arr(items) => forall i :: 0 <= i < |items| ==> items[i].Hole? || Encodable(items[i])
    case Obj(members) => forall i :: 0 <= i < |members| ==> Encodable(members[i].value)
    case Hole => false
    case Other => false
    case _ => true
  }

  /** No array of the tree has an empty slot. */
  predicate Dense(v: Json) {
    match v
    case Arr(items) => forall i :: 0 <= i < |items| ==> Dense(items[i])
    case Obj(members) => forall i :: 0 <= i < |members| ==> Dense(members[i].value)
    case Hole => false
    case _ => true
  }

  /** A JSON tree (RFC 8259) whose integers are safe. */
  predicate IsJson(v: Json) {
    Encodable(v) && Dense(v)
  }

  /** The keys of one object are distinct, as the keys of a JavaScript object always are. */
  predicate DistinctKeys(ms: seq<Member>) {
    forall i, j :: 0 <= i < j < |ms| ==> ms[i].key != ms[j].key
  }

  predicate WellFormed(v: Json) {
    match v
    case Arr(items) => forall i :: 0 <= i < |items| ==> WellFormed(items[i])
    case Obj(members) => DistinctKeys(members) && forall i :: 0 <= i < |members| ==> WellFormed(members[i].value)
    case _ => true
  }

  predicate HasKey(ms: seq<Member>, k: Text) {
    exists i :: 0 <= i < |ms| && ms[i].key == k
  }

  /** Equal as JSON data: arrays in order, objects regardless of the order of their members. */
  ghost predicate SameData(a: Json, b: Json)
    decreases a
  {
    match a
    case Arr(xs) =>
      b.Arr? && |xs| == |b.items| && forall i :: 0 <= i < |xs| ==> SameData(xs[i], b.items[i])
    case Obj(ms) =>
      && b.Obj?
      && (forall k :: HasKey(ms, k) <==> HasKey(b.members, k))
      && (forall i, j :: 0 <= i < |ms| && 0 <= j < |b.members| && ms[i].key == b.members[j].key
            ==> SameData(ms[i].value, b.members[j].value))
    case _ => a == b
  }

  function Size(v: Json): nat {
    match v
    case Arr(items) => 1 + ItemsSize(items)
    case Obj(members) => 1 + MembersSize(members)
    case _ => 1
  }

  function ItemsSize(items: seq<Json>): nat {
    if items == [] then 0 else 1 + Size(items[0]) + ItemsSize(items[1..])
  }

  function MembersSize(ms: seq<Member>): nat {
    if ms == [] then 0 else 1 + Size(ms[0].value) + MembersSize(ms[1..])
  }

  /** The members in the order of their keys, as `Object.keys(value).sort()` lists them. */
  function SortMembers(ms: seq<Member>): (r: seq<Member>)
    ensures MembersSize(r) == MembersSize(ms)
    ensures multiset(r) == multiset(ms)
  {
    if ms == [] then []
    else
      assert ms == [ms[0]] + ms[1..];
      Insert(ms[0], SortMembers(ms[1..]))
  }

  function Insert(m: Member, ms: seq<Member>): (r: seq<Member>)
    ensures MembersSize(r) == 1 + Size(m.value) + MembersSize(ms)
    ensures multiset(r) == multiset(ms) + multiset{m}
  {
    if ms == [] || !Less(ms[0].key, m.key) then [m] + ms
    else
      assert ms == [ms[0]] + ms[1..];
      [ms[0]] + Insert(m, ms[1..])
  }

  predicate SortedKeys(ms: seq<Member>) {
    forall i, j :: 0 <= i < j < |ms| ==> Less(ms[i].key, ms[j].key)
  }

  lemma SameMembers(a: seq<Member>, b: seq<Member>)
    requires multiset(a) == multiset(b)
    ensures forall i :: 0 <= i < |a| ==> a[i] in b
    ensures forall i :: 0 <= i < |b| ==> b[i] in a
  {
    forall i | 0 <= i < |a| ensures a[i] in b { assert a[i] in multiset(a); }
    forall i | 0 <= i < |b| ensures b[i] in a { assert b[i] in multiset(b); }
  }

  lemma {:induction false} InsertSorted(m: Member, ms: seq<Member>)
    requires SortedKeys(ms)
    requires forall i :: 0 <= i < |ms| ==> ms[i].key != m.key
    ensures SortedKeys(Insert(m, ms))
  {
    if ms == [] {
    } else if !Less(ms[0].key, m.key) {
      LessTrichotomy(ms[0].key, m.key);
      forall j | 0 <= j < |ms| ensures Less(m.key, ms[j].key) {
        if j > 0 { LessTransitive(m.key, ms[0].key, ms[j].key); }
      }
    } else {
      InsertSorted(m, ms[1..]);
      var r := Insert(m, ms[1..]);
      SameMembers(r, ms[1..] + [m]);
      forall j | 0 <= j < |r| ensures Less(ms[0].key, r[j].key) {
        assert r[j] in ms[1..] + [m];
      }
    }
  }

  /** Sorting puts distinct keys in strictly increasing order and loses no member. */
  lemma {:induction false} SortMembersSorts(ms: seq<Member>)
    requires DistinctKeys(ms)
    ensures SortedKeys(SortMembers(ms))
  {
    if ms != [] {
      SortMembersSorts(ms[1..]);
      SameMembers(SortMembers(ms[1..]), ms[1..]);
      InsertSorted(ms[0], SortMembers(ms[1..]));
    }
  }
}
