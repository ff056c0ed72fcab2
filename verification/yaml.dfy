/** The key/value tree the serializers read and write, and the conversions
    between its nodes and values, as yaml-cpp performs them. A scalar is kept
    as the typed value it was written from; the text of a string, an integer
    or a boolean is spelled out where it is read as a string, and the text of
    a float is not modelled. */
module Yaml {
  import opened Wrappers
  import opened Vectors

  datatype Scalar = Str(s: string) | Int(i: int) | Real(r: real) | Bool(b: bool)

  datatype Node =
    | Null
    | Leaf(scalar: Scalar)
    | Seq(items: seq<Node>)
    | Map(entries: seq<(string, Node)>)

  /** A value read through a conversion: either the value, or the exception
      yaml-cpp throws (a bad conversion, an invalid node, a bad subscript). */
  datatype Outcome<T> = Value(value: T) | Thrown

  /** What `node[key]` gives: the child, a node that is not defined (it
      converts to false), or an exception when the node is a scalar. */
  datatype Lookup = Found(node: Node) | Undefined | BadSubscript

  /** The child under the first entry with key `key`. */
  function Entry(entries: seq<(string, Node)>, key: string): (r: Lookup)
    ensures !r.BadSubscript?
  {
    if |entries| == 0 then Undefined
    else if entries[0].0 == key then Found(entries[0].1)
    else Entry(entries[1..], key)
  }

  /** `node[key]` on a non-const node: a map looks the key up; a null node or
      a sequence gives an undefined node; a scalar throws. */
  function Get(n: Node, key: string): (r: Lookup)
    ensures r.BadSubscript? <==> n.Leaf?
    ensures r.Found? ==> n.Map?
  {
    match n
    case Map(entries) => Entry(entries, key)
    case Leaf(_) => BadSubscript
    case _ => Undefined
  }

  /** Looking a key up in a map built from two parts looks in the first part,
      then in the second. */
  lemma {:induction false} EntryAppend(a: seq<(string, Node)>, b: seq<(string, Node)>, key: string)
    ensures Entry(a + b, key) == if Entry(a, key).Found? then Entry(a, key) else Entry(b, key)
  {
    if |a| > 0 {
      assert (a + b)[1..] == a[1..] + b;
      EntryAppend(a[1..], b, key);
    } else {
      assert a + b == b;
    }
  }

  /** An entry whose key no earlier entry has is the one a lookup finds. */
  lemma {:induction false} EntryAt(entries: seq<(string, Node)>, i: nat)
    requires i < |entries|
    requires forall j :: 0 <= j < i ==> entries[j].0 != entries[i].0
    ensures Entry(entries, entries[i].0) == Found(entries[i].1)
  {
    if i > 0 {
      assert entries[1..][i - 1] == entries[i];
      EntryAt(entries[1..], i - 1);
    }
  }

  /** No two entries share a key. */
  predicate DistinctKeys(entries: seq<(string, Node)>) {
    forall i, j :: 0 <= i < j < |entries| ==> entries[i].0 != entries[j].0
  }

  /** In a map without repeated keys, each key finds its own entry. */
  lemma {:induction false} EntryOf(entries: seq<(string, Node)>, i: nat)
    requires DistinctKeys(entries) && i < |entries|
    ensures Entry(entries, entries[i].0) == Found(entries[i].1)
  {
    if i > 0 {
      assert DistinctKeys(entries[1..]) by {
        forall a, b | 0 <= a < b < |entries[1..]| ensures entries[1..][a].0 != entries[1..][b].0 {
          assert entries[1..][a] == entries[a + 1] && entries[1..][b] == entries[b + 1];
        }
      }
      EntryOf(entries[1..], i - 1);
      assert entries[1..][i - 1] == entries[i];
    }
  }

  /** `node[key]` on the result of another subscript: an undefined node (or
      a failed subscript) throws. */
  function Sub(l: Lookup, key: string): (r: Lookup)
    ensures l.Found? ==> r == Get(l.node, key)
    ensures !l.Found? ==> r.BadSubscript?
  {
    match l
    case Found(n) => Get(n, key)
    case _ => BadSubscript
  }

  /** The decimal digit for `d`. */
  function Digit(d: nat): char
    requires d < 10
  {
    ('0' as int + d) as char
  }

  /** The value of a decimal digit character. */
  function DigitValue(c: char): nat {
    if '0' <= c <= '9' then (c - '0') as nat else 0
  }

  /** The value of a run of decimal digits. */
  function DigitsValue(s: string): nat {
    if |s| == 0 then 0 else DigitsValue(s[..|s| - 1]) * 10 + DigitValue(s[|s| - 1])
  }

  /** The decimal text of a natural number, without leading zeros. */
  function NatText(n: nat): (s: string)
    ensures |s| > 0 && forall i :: 0 <= i < |s| ==> '0' <= s[i] <= '9'
    ensures |s| > 1 ==> s[0] != '0'
    decreases n
  {
    if n < 10 then [Digit(n)] else NatText(n / 10) + [Digit(n % 10)]
  }

  /** Reading the decimal text of `n` gives `n` back. */
  lemma {:induction false} NatTextRoundTrip(n: nat)
    ensures DigitsValue(NatText(n)) == n
  {
    if n >= 10 {
      NatTextRoundTrip(n / 10);
      var s := NatText(n);
      assert s[..|s| - 1] == NatText(n / 10);
    }
  }

  /** The text an integer scalar is written as: its decimal digits, after a
      minus sign when it is negative. */
  function IntText(i: int): (s: string)
    ensures |s| > 0
    ensures i < 0 <==> s[0] == '-'
  {
    if i < 0 then "-" + NatText(-i) else NatText(i)
  }

  /** Reading the text of an integer scalar: a leading minus negates the
      value of the digits after it. */
  function IntValue(s: string): int {
    if |s| > 0 && s[0] == '-' then -(DigitsValue(s[1..]) as int) else DigitsValue(s)
  }

  /** Reading the text of `i` gives `i` back, so different integers are
      written as different texts. */
  lemma IntTextRoundTrip(i: int)
    ensures IntValue(IntText(i)) == i
  {
    var s := IntText(i);
    if i < 0 {
      var digits := NatText(-i);
      assert s == ['-'] + digits;
      assert s[1..] == digits;
      NatTextRoundTrip(-i);
    } else {
      assert s[0] != '-';
      NatTextRoundTrip(i);
    }
  }

  /** `as<std::string>()`: a null node reads as "null", and a scalar reads as
      the text it is written as — a string itself, an integer its decimal
      digits, a boolean "true" or "false"; a sequence, a map or an undefined
      node throws. The text of a float scalar is not modelled: reading one
      as a string throws here. */
  function AsString(l: Lookup): (r: Outcome<string>)
    ensures r.Value? <==> l.Found? && (l.node.Null? || (l.node.Leaf? && !l.node.scalar.Real?))
    ensures l == Found(Null) ==> r == Value("null")
    ensures l.Found? && l.node.Leaf? && l.node.scalar.Str? ==> r == Value(l.node.scalar.s)
    ensures l.Found? && l.node.Leaf? && l.node.scalar.Int? ==> r == Value(IntText(l.node.scalar.i))
    ensures l.Found? && l.node.Leaf? && l.node.scalar.Bool? ==> r.Value? && (r.value == "true" <==> l.node.scalar.b)
  {
    match l
    case Found(Null) => Value("null")
    case Found(Leaf(Str(s))) => Value(s)
    case Found(Leaf(Int(i))) => Value(IntText(i))
    case Found(Leaf(Bool(b))) => Value(if b then "true" else "false")
    case _ => Thrown
  }

  /** `as<float>()`: a real, or an integer read as a real. */
  function AsReal(l: Lookup): (r: Outcome<real>)
    ensures r.Value? <==> l.Found? && l.node.Leaf? && (l.node.scalar.Real? || l.node.scalar.Int?)
    ensures r.Value? && l.node.scalar.Real? ==> r.value == l.node.scalar.r
  {
    match l
    case Found(Leaf(Real(x))) => Value(x)
    case Found(Leaf(Int(i))) => Value(i as real)
    case _ => Thrown
  }

  /** `as<int>()`. */
  function AsInt(l: Lookup): (r: Outcome<int>)
    ensures r.Value? <==> l.Found? && l.node.Leaf? && l.node.scalar.Int?
  {
    match l
    case Found(Leaf(Int(i))) => Value(i)
    case _ => Thrown
  }

  const U64_MODULUS: nat := 0x1_0000_0000_0000_0000

  /** `as<uint64_t>()`: an integer in range; anything else throws. */
  function AsU64(l: Lookup): (r: Outcome<nat>)
    ensures r.Value? <==> l.Found? && l.node.Leaf? && l.node.scalar.Int? && 0 <= l.node.scalar.i < U64_MODULUS
    ensures r.Value? ==> r.value < U64_MODULUS && r.value == l.node.scalar.i
  {
    match l
    case Found(Leaf(Int(i))) => if 0 <= i < U64_MODULUS then Value(i) else Thrown
    case _ => Thrown
  }

  /** `as<bool>()`. */
  function AsBool(l: Lookup): (r: Outcome<bool>)
    ensures r.Value? <==> l.Found? && l.node.Leaf? && l.node.scalar.Bool?
  {
    match l
    case Found(Leaf(Bool(b))) => Value(b)
    case _ => Thrown
  }

  /** The item at `i` of a sequence node, read as a float. */
  function ItemAsReal(items: seq<Node>, i: nat): Outcome<real>
    requires i < |items|
  {
    AsReal(Found(items[i]))
  }

  /** A sequence whose items all read as floats. */
  predicate AllReals(items: seq<Node>) {
    forall i :: 0 <= i < |items| ==> ItemAsReal(items, i).Value?
  }

  function EncodeReal(x: real): Node {
    Leaf(Real(x))
  }

  /** `convert<glm::vec2>::encode`, and `operator<<` for a `vec2`: a flow
      sequence of the components. */
  function EncodeVec2(v: Vec2): (n: Node)
    ensures n.Seq? && |n.items| == 2 && AllReals(n.items)
  {
    Seq([EncodeReal(v.x), EncodeReal(v.y)])
  }

  function EncodeVec3(v: Vec3): (n: Node)
    ensures n.Seq? && |n.items| == 3 && AllReals(n.items)
  {
    Seq([EncodeReal(v.x), EncodeReal(v.y), EncodeReal(v.z)])
  }

  function EncodeVec4(v: Vec4): (n: Node)
    ensures n.Seq? && |n.items| == 4 && AllReals(n.items)
  {
    Seq([EncodeReal(v.x), EncodeReal(v.y), EncodeReal(v.z), EncodeReal(v.w)])
  }

  /** `convert<glm::vec2>::decode`: false unless the node is a sequence of
      exactly two items; each item read throws when it is not a number. */
  function DecodeVec2(n: Node): (r: Outcome<Option<Vec2>>)
    ensures r == Value(None) <==> !(n.Seq? && |n.items| == 2)
    ensures n.Seq? && |n.items| == 2 ==>
      (r.Value? <==> AllReals(n.items))
      && (r.Value? ==> r.value == Some(Vec2(ItemAsReal(n.items, 0).value, ItemAsReal(n.items, 1).value)))
  {
    if !(n.Seq? && |n.items| == 2) then Value(None)
    else match (ItemAsReal(n.items, 0), ItemAsReal(n.items, 1))
      case (Value(x), Value(y)) => Value(Some(Vec2(x, y)))
      case _ => Thrown
  }

  function DecodeVec3(n: Node): (r: Outcome<Option<Vec3>>)
    ensures r == Value(None) <==> !(n.Seq? && |n.items| == 3)
    ensures n.Seq? && |n.items| == 3 ==>
      (r.Value? <==> AllReals(n.items))
      && (r.Value? ==> r.value == Some(Vec3(ItemAsReal(n.items, 0).value, ItemAsReal(n.items, 1).value,
                                              ItemAsReal(n.items, 2).value)))
  {
    if !(n.Seq? && |n.items| == 3) then Value(None)
    else match (ItemAsReal(n.items, 0), ItemAsReal(n.items, 1), ItemAsReal(n.items, 2))
      case (Value(x), Value(y), Value(z)) => Value(Some(Vec3(x, y, z)))
      case _ => Thrown
  }

  function DecodeVec4(n: Node): (r: Outcome<Option<Vec4>>)
    ensures r == Value(None) <==> !(n.Seq? && |n.items| == 4)
    ensures n.Seq? && |n.items| == 4 ==>
      (r.Value? <==> AllReals(n.items))
      && (r.Value? ==> r.value == Some(Vec4(ItemAsReal(n.items, 0).value, ItemAsReal(n.items, 1).value,
                                              ItemAsReal(n.items, 2).value, ItemAsReal(n.items, 3).value)))
  {
    if !(n.Seq? && |n.items| == 4) then Value(None)
    else match (ItemAsReal(n.items, 0), ItemAsReal(n.items, 1), ItemAsReal(n.items, 2), ItemAsReal(n.items, 3))
      case (Value(x), Value(y), Value(z), Value(w)) => Value(Some(Vec4(x, y, z, w)))
      case _ => Thrown
  }

  /** `as<glm::vec2>()`: a decode that returns false throws. */
  function AsVec2(l: Lookup): (r: Outcome<Vec2>)
    ensures r.Value? <==> l.Found? && DecodeVec2(l.node).Value? && DecodeVec2(l.node).value.Some?
  {
    match l
    case Found(n) => (match DecodeVec2(n) case Value(Some(v)) => Value(v) case _ => Thrown)
    case _ => Thrown
  }

  function AsVec3(l: Lookup): (r: Outcome<Vec3>)
    ensures r.Value? <==> l.Found? && DecodeVec3(l.node).Value? && DecodeVec3(l.node).value.Some?
  {
    match l
    case Found(n) => (match DecodeVec3(n) case Value(Some(v)) => Value(v) case _ => Thrown)
    case _ => Thrown
  }

  function AsVec4(l: Lookup): (r: Outcome<Vec4>)
    ensures r.Value? <==> l.Found? && DecodeVec4(l.node).Value? && DecodeVec4(l.node).value.Some?
  {
    match l
    case Found(n) => (match DecodeVec4(n) case Value(Some(v)) => Value(v) case _ => Thrown)
    case _ => Thrown
  }

  /** Encoding a vector and decoding it gives the same components back, and
      reading it with `as` does too. */
  lemma VecRoundTrip(a: Vec2, b: Vec3, c: Vec4)
    ensures DecodeVec2(EncodeVec2(a)) == Value(Some(a)) && AsVec2(Found(EncodeVec2(a))) == Value(a)
    ensures DecodeVec3(EncodeVec3(b)) == Value(Some(b)) && AsVec3(Found(EncodeVec3(b))) == Value(b)
    ensures DecodeVec4(EncodeVec4(c)) == Value(Some(c)) && AsVec4(Found(EncodeVec4(c))) == Value(c)
  {
  }

  /** A vector of the wrong length, or a scalar, does not decode: a two-item
      sequence is not a `vec3` and a `vec3` is not a `vec2`. */
  lemma VecLengthMismatch(a: Vec2, b: Vec3, x: real)
    ensures DecodeVec3(EncodeVec2(a)) == Value(None) && AsVec3(Found(EncodeVec2(a))) == Thrown
    ensures DecodeVec2(EncodeVec3(b)) == Value(None) && DecodeVec4(EncodeVec3(b)) == Value(None)
    ensures DecodeVec2(EncodeReal(x)) == Value(None)
  {
  }

  /** The iteration `for (auto item : node)` as a list of items, or the
      exception raised by the first item's subscript: a map's items are
      key/value pairs whose node part is not valid, so the first `item[key]`
      throws. A null node or a scalar has no items. */
  function Items(n: Node): (r: Outcome<seq<Node>>)
    ensures n.Seq? ==> r == Value(n.items)
    ensures r.Thrown? <==> n.Map? && |n.entries| > 0
  {
    match n
    case Seq(items) => Value(items)
    case Map(entries) => if |entries| == 0 then Value([]) else Thrown
    case _ => Value([])
  }

  /** What `YAML::LoadFile` gives: the tree, a `ParserException`, or another
      exception (an unreadable file). */
  datatype Loaded = Parsed(root: Node) | ParseError | OtherError

  /** How a deserializer ends: it returns a flag, or an exception it does not
      catch leaves it. */
  datatype Ending = Returned(ok: bool) | Escaped
}
