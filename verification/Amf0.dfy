/** AMF0 values, their printer and their parser as functions. */
module Amf0 {
  import opened Bytes

  type i16 = x: int | -0x8000 <= x < 0x8000

  /** Numbers and dates carry the 64-bit pattern of their double. */
  datatype Value =
    | Number(bits: u64)
    | Boolean(flag: bool)
    | String(text: bytes)
    | Object(props: seq<Property>)
    | EcmaArray(props: seq<Property>)
    | StrictArray(items: seq<Value>)
    | Null
    | Undefined
    | Date(bits: u64, tz: i16)

  datatype Property = Property(name: bytes, value: Value)

  const MAX_DEPTH: nat := 32
  const NUMBER: byte := 0x00
  const BOOLEAN: byte := 0x01
  const STRING: byte := 0x02
  const OBJECT: byte := 0x03
  const NULL: byte := 0x05
  const UNDEFINED: byte := 0x06
  const ECMA_ARRAY: byte := 0x08
  const OBJECT_END: byte := 0x09
  const STRICT_ARRAY: byte := 0x0A
  const DATE: byte := 0x0B
  const LONG_STRING: byte := 0x0C

  /** A signed 16-bit number as an unsigned one, and back. */
  function Unsigned(tz: i16): nat {
    if tz < 0 then tz + 0x1_0000 else tz
  }

  function Signed(n: nat): i16
    requires n < 0x1_0000
  {
    if n < 0x8000 then n else n - 0x1_0000
  }

  // ---- the printer; `Be` keeps the low-order octets, as the narrowing casts do

  function Encode(v: Value): (r: bytes)
    ensures r != []
    decreases v, 1
  {
    match v
    case Number(bits) => [NUMBER] + Be(bits, 8)
    case Boolean(flag) => [BOOLEAN, if flag then 1 else 0]
    case String(text) =>
      if |text| > 0xFFFF then [LONG_STRING] + Be(|text|, 4) + text else [STRING] + Be(|text|, 2) + text
    case Object(props) => [OBJECT] + EncodeProps(props)
    case EcmaArray(props) => [ECMA_ARRAY] + Be(|props|, 4) + EncodeProps(props)
    case StrictArray(items) => [STRICT_ARRAY] + Be(|items|, 4) + EncodeItems(items)
    case Null => [NULL]
    case Undefined => [UNDEFINED]
    case Date(bits, tz) => [DATE] + Be(bits, 8) + Be(Unsigned(tz), 2)
  }

  function EncodeProps(ps: seq<Property>): (r: bytes)
    decreases ps, 0
  {
    if ps == [] then [0, 0, OBJECT_END]
    else Be(|ps[0].name|, 2) + ps[0].name + Encode(ps[0].value) + EncodeProps(ps[1..])
  }

  function EncodeItems(vs: seq<Value>): bytes
    decreases vs, 0
  {
    if vs == [] then [] else Encode(vs[0]) + EncodeItems(vs[1..])
  }

  // ---- property lists

  predicate HasName(ps: seq<Property>, name: bytes) {
    exists i :: 0 <= i < |ps| && ps[i].name == name
  }

  /** Replaces the value of a name already present, in place, or appends. */
  function Set(ps: seq<Property>, p: Property): seq<Property> {
    if ps == [] then [p]
    else if ps[0].name == p.name then [p] + ps[1..]
    else [ps[0]] + Set(ps[1..], p)
  }

  // ---- the parser: the value at `pos` and the position after it

  function Decode(s: bytes, pos: nat, depth: nat): (r: Option<(Value, nat)>)
    requires pos <= |s|
    ensures r.Some? ==> pos < r.value.1 <= |s|
    decreases |s| - pos, 0
  {
    if depth > MAX_DEPTH || pos == |s| then None
    else
      var marker, p := s[pos], pos + 1;
      if marker == OBJECT then
        var (props, end) :- DecodeProps(s, p, depth + 1, []);
        Some((Object(props), end))
      else if marker == ECMA_ARRAY then
        if p + 4 > |s| then None
        else
          var (props, end) :- DecodeProps(s, p + 4, depth + 1, []);
          Some((EcmaArray(props), end))
      else if marker == STRICT_ARRAY then
        if p + 4 > |s| then None
        else
          var (items, end) :- DecodeItems(s, p + 4, depth + 1, U32At(s, p));
          Some((StrictArray(items), end))
      else DecodeScalar(s, pos)
  }

  /** The values that hold no other value. */
  function DecodeScalar(s: bytes, pos: nat): (r: Option<(Value, nat)>)
    requires pos < |s|
    ensures r.Some? ==> pos < r.value.1 <= |s|
  {
    var marker, p := s[pos], pos + 1;
    if marker == NUMBER then
      if p + 8 > |s| then None else Some((Number(U64At(s, p)), p + 8))
    else if marker == BOOLEAN then
      if p + 1 > |s| then None else Some((Boolean(s[p] != 0), p + 1))
    else if marker == STRING then
      if p + 2 > |s| then None else DecodeText(s, p + 2, BeAt(s, p, 2))
    else if marker == LONG_STRING then
      if p + 4 > |s| then None else DecodeText(s, p + 4, BeAt(s, p, 4))
    else if marker == NULL then Some((Null, p))
    else if marker == UNDEFINED then Some((Undefined, p))
    else if marker == DATE then
      if p + 10 > |s| then None
      else
        BeAtBound(s, p + 8, 2);
        Some((Date(U64At(s, p), Signed(BeAt(s, p + 8, 2))), p + 10))
    else None
  }

  function U64At(s: bytes, pos: nat): u64
    requires pos + 8 <= |s|
  {
    BeAtBound(s, pos, 8);
    BeAt(s, pos, 8)
  }

  function DecodeText(s: bytes, pos: nat, len: nat): (r: Option<(Value, nat)>)
    requires pos <= |s|
  {
    if pos + len > |s| then None else Some((String(s[pos..pos + len]), pos + len))
  }

  /** Name/value pairs up to the end marker, collected into `acc`. */
  function DecodeProps(s: bytes, pos: nat, depth: nat, acc: seq<Property>): (r: Option<(seq<Property>, nat)>)
    requires pos <= |s|
    ensures r.Some? ==> pos < r.value.1 <= |s|
    decreases |s| - pos, 0
  {
    if pos + 2 > |s| then None
    else
      var len, p := BeAt(s, pos, 2), pos + 2;
      if len == 0 then
        if p + 1 > |s| || s[p] != OBJECT_END then None else Some((acc, p + 1))
      else if p + len > |s| then None
      else
        var (v, end) :- Decode(s, p + len, depth);
        DecodeProps(s, end, depth, Set(acc, Property(s[p..p + len], v)))
  }

  function DecodeItems(s: bytes, pos: nat, depth: nat, count: nat): (r: Option<(seq<Value>, nat)>)
    requires pos <= |s|
    ensures r.Some? ==> pos <= r.value.1 <= |s|
    decreases |s| - pos, 1
  {
    if count == 0 then Some(([], pos))
    else
      var (v, p) :- Decode(s, pos, depth);
      var (rest, end) :- DecodeItems(s, p, depth, count - 1);
      Some(([v] + rest, end))
  }

  /** Consecutive values up to the end of the bytes. */
  function DecodeAll(s: bytes): Option<seq<Value>>
    decreases |s|
  {
    if s == [] then Some([])
    else
      var (v, n) :- Decode(s, 0, 0);
      var rest :- DecodeAll(s[n..]);
      Some([v] + rest)
  }

  // ---- which values can round-trip

  /** Levels of values below this one. */
  function Nesting(v: Value): nat
    decreases v, 1
  {
    match v
    case Object(props) => NestingOfProps(props)
    case EcmaArray(props) => NestingOfProps(props)
    case StrictArray(items) => NestingOfItems(items)
    case _ => 0
  }

  function Max(a: nat, b: nat): nat {
    if a < b then b else a
  }

  function NestingOfProps(ps: seq<Property>): nat
    decreases ps, 0
  {
    if ps == [] then 0 else Max(1 + Nesting(ps[0].value), NestingOfProps(ps[1..]))
  }

  function NestingOfItems(vs: seq<Value>): nat
    decreases vs, 0
  {
    if vs == [] then 0 else Max(1 + Nesting(vs[0]), NestingOfItems(vs[1..]))
  }

  predicate Distinct(ps: seq<Property>) {
    forall i, j :: 0 <= i < j < |ps| ==> ps[i].name != ps[j].name
  }

  /** Names of 1 to 65535 octets, no name twice in an object, lengths that fit their fields. */
  predicate WellFormed(v: Value)
    decreases v, 1
  {
    match v
    case String(text) => |text| < U32_SPAN
    case Object(props) => WellFormedProps(props)
    case EcmaArray(props) => WellFormedProps(props)
    case StrictArray(items) => |items| < U32_SPAN && WellFormedItems(items)
    case _ => true
  }

  predicate WellFormedProps(ps: seq<Property>)
    decreases ps, 0
  {
    Distinct(ps) && forall i :: 0 <= i < |ps| ==> 1 <= |ps[i].name| <= 0xFFFF && WellFormed(ps[i].value)
  }

  predicate WellFormedItems(vs: seq<Value>)
    decreases vs, 0
  {
    forall i :: 0 <= i < |vs| ==> WellFormed(vs[i])
  }

  // ---- one step of each parser

  lemma DecodeObject(s: bytes, pos: nat, depth: nat)
    requires pos < |s| && depth <= MAX_DEPTH && s[pos] == OBJECT
    ensures Decode(s, pos, depth) ==
            match DecodeProps(s, pos + 1, depth + 1, [])
            case None => None
            case Some((props, end)) => Some((Object(props), end))
  {
    hide DecodeScalar, DecodeProps, DecodeItems;
  }

  lemma DecodeEcmaArray(s: bytes, pos: nat, depth: nat)
    requires pos < |s| && depth <= MAX_DEPTH && s[pos] == ECMA_ARRAY
    ensures Decode(s, pos, depth) ==
            if pos + 5 > |s| then None
            else
              match DecodeProps(s, pos + 5, depth + 1, [])
              case None => None
              case Some((props, end)) => Some((EcmaArray(props), end))
  {
    hide DecodeScalar, DecodeProps, DecodeItems;
  }

  lemma DecodeStrictArray(s: bytes, pos: nat, depth: nat)
    requires pos < |s| && depth <= MAX_DEPTH && s[pos] == STRICT_ARRAY
    ensures Decode(s, pos, depth) ==
            if pos + 5 > |s| then None
            else
              match DecodeItems(s, pos + 5, depth + 1, U32At(s, pos + 1))
              case None => None
              case Some((items, end)) => Some((StrictArray(items), end))
  {
    hide DecodeScalar, DecodeProps, DecodeItems, U32At;
  }

  lemma DecodeSimple(s: bytes, pos: nat, depth: nat)
    requires pos < |s| && depth <= MAX_DEPTH
    requires s[pos] != OBJECT && s[pos] != ECMA_ARRAY && s[pos] != STRICT_ARRAY
    ensures Decode(s, pos, depth) == DecodeScalar(s, pos)
  {
    hide DecodeScalar, DecodeProps, DecodeItems;
  }

  lemma DecodePropsUnfold(s: bytes, pos: nat, depth: nat, acc: seq<Property>)
    requires pos + 2 <= |s|
    ensures DecodeProps(s, pos, depth, acc) ==
            var len, p := BeAt(s, pos, 2), pos + 2;
            if len == 0 then if p + 1 > |s| || s[p] != OBJECT_END then None else Some((acc, p + 1))
            else if p + len > |s| then None
            else
              match Decode(s, p + len, depth)
              case None => None
              case Some((v, end)) => DecodeProps(s, end, depth, Set(acc, Property(s[p..p + len], v)))
  {
    hide Decode, Set, BeAt;
  }

  lemma DecodeItemsUnfold(s: bytes, pos: nat, depth: nat, count: nat)
    requires pos <= |s| && count > 0
    ensures DecodeItems(s, pos, depth, count) ==
            match Decode(s, pos, depth)
            case None => None
            case Some((v, p)) =>
              match DecodeItems(s, p, depth, count - 1)
              case None => None
              case Some((rest, end)) => Some(([v] + rest, end))
  {
    hide Decode;
  }

  lemma TooDeep(s: bytes, pos: nat, depth: nat)
    requires pos <= |s| && depth > MAX_DEPTH
    ensures Decode(s, pos, depth) == None
  {
  }

  lemma NotTooDeep(s: bytes, pos: nat, depth: nat)
    requires pos <= |s| && Decode(s, pos, depth).Some?
    ensures depth <= MAX_DEPTH && pos < |s|
  {
  }

  lemma PropsHaveSize(s: bytes, pos: nat, depth: nat, acc: seq<Property>)
    requires pos <= |s| && DecodeProps(s, pos, depth, acc).Some?
    ensures pos + 2 <= DecodeProps(s, pos, depth, acc).value.1
  {
    hide Decode, Set, BeAt;
  }
}
