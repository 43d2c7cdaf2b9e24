/** The AMF0 wire grammar (section 2 of the AMF0 specification), written as syntax trees apart from printer and
    parser, and the proof that the parser accepts exactly what the grammar derives. */
module Amf0Grammar {
  import opened Bytes
  import opened Amf0

  /** One derivation: markers, counts and boolean octets as they stand on the wire, repeated names included. */
  datatype Term =
    | NumberTerm(bits: u64)
    | BooleanTerm(octet: byte)
    | ShortString(text: bytes)
    | LongString(text: bytes)
    | ObjectTerm(pairs: seq<Pair>)
    | EcmaTerm(count: bytes, pairs: seq<Pair>)
    | StrictTerm(items: seq<Term>)
    | NullTerm
    | UndefinedTerm
    | DateTerm(bits: u64, zone: nat)

  datatype Pair = Pair(name: bytes, term: Term)

  predicate Legal(t: Term)
    decreases t, 1
  {
    match t
    case ShortString(text) => |text| <= 0xFFFF
    case LongString(text) => |text| <= 0xFFFF_FFFF
    case ObjectTerm(pairs) => LegalPairs(pairs)
    case EcmaTerm(count, pairs) => |count| == 4 && LegalPairs(pairs)
    case StrictTerm(items) => |items| <= 0xFFFF_FFFF && LegalItems(items)
    case DateTerm(_, zone) => zone <= 0xFFFF
    case _ => true
  }

  predicate LegalPairs(ps: seq<Pair>)
    decreases ps, 0
  {
    ps != [] ==> 1 <= |ps[0].name| <= 0xFFFF && Legal(ps[0].term) && LegalPairs(ps[1..])
  }

  predicate LegalItems(ts: seq<Term>)
    decreases ts, 0
  {
    ts != [] ==> Legal(ts[0]) && LegalItems(ts[1..])
  }

  /** The octets of a derivation. */
  function Print(t: Term): (r: bytes)
    ensures r != []
    decreases t, 1
  {
    match t
    case NumberTerm(bits) => [0x00] + Be(bits, 8)
    case BooleanTerm(octet) => [0x01, octet]
    case ShortString(text) => [0x02] + Be(|text|, 2) + text
    case ObjectTerm(pairs) => [0x03] + PrintPairs(pairs)
    case NullTerm => [0x05]
    case UndefinedTerm => [0x06]
    case EcmaTerm(count, pairs) => [0x08] + count + PrintPairs(pairs)
    case StrictTerm(items) => [0x0A] + Be(|items|, 4) + PrintItems(items)
    case DateTerm(bits, zone) => [0x0B] + Be(bits, 8) + Be(zone, 2)
    case LongString(text) => [0x0C] + Be(|text|, 4) + text
  }

  function PrintPairs(ps: seq<Pair>): (r: bytes)
    decreases ps, 0
  {
    if ps == [] then [0x00, 0x00, 0x09]
    else Be(|ps[0].name|, 2) + ps[0].name + Print(ps[0].term) + PrintPairs(ps[1..])
  }

  function PrintItems(ts: seq<Term>): bytes
    decreases ts, 0
  {
    if ts == [] then [] else Print(ts[0]) + PrintItems(ts[1..])
  }

  /** The value last given to a name. */
  function LastOf(ps: seq<Property>, name: bytes, v: Value): Value {
    if ps == [] then v else LastOf(ps[1..], name, if ps[0].name == name then ps[0].value else v)
  }

  function Dropped(ps: seq<Property>, name: bytes): (r: seq<Property>)
    ensures |r| <= |ps|
  {
    if ps == [] then []
    else if ps[0].name == name then Dropped(ps[1..], name)
    else [ps[0]] + Dropped(ps[1..], name)
  }

  /** Each name once, where it first occurred, with the value it was given last. */
  function Merged(ps: seq<Property>): seq<Property>
    decreases |ps|
  {
    if ps == [] then []
    else [Property(ps[0].name, LastOf(ps[1..], ps[0].name, ps[0].value))] + Merged(Dropped(ps[1..], ps[0].name))
  }

  /** The value a derivation stands for: any non-zero octet is true, counts of ECMA arrays say nothing. */
  function Meaning(t: Term): Value
    requires Legal(t)
    decreases t, 1
  {
    match t
    case NumberTerm(bits) => Number(bits)
    case BooleanTerm(octet) => Boolean(octet != 0)
    case ShortString(text) => String(text)
    case LongString(text) => String(text)
    case ObjectTerm(pairs) => Object(Merged(Meanings(pairs)))
    case EcmaTerm(_, pairs) => EcmaArray(Merged(Meanings(pairs)))
    case StrictTerm(items) => StrictArray(ItemMeanings(items))
    case NullTerm => Null
    case UndefinedTerm => Undefined
    case DateTerm(bits, zone) => Date(bits, if zone < 0x8000 then zone else zone - 0x1_0000)
  }

  function Meanings(ps: seq<Pair>): (r: seq<Property>)
    requires LegalPairs(ps)
    decreases ps, 0
  {
    if ps == [] then [] else [Property(ps[0].name, Meaning(ps[0].term))] + Meanings(ps[1..])
  }

  function ItemMeanings(ts: seq<Term>): (r: seq<Value>)
    requires LegalItems(ts)
    ensures |r| == |ts|
    decreases ts, 0
  {
    if ts == [] then [] else [Meaning(ts[0])] + ItemMeanings(ts[1..])
  }

  /** Levels of terms below this one; values that a later one replaces count too. */
  function Levels(t: Term): nat
    decreases t, 1
  {
    match t
    case ObjectTerm(pairs) => PairLevels(pairs)
    case EcmaTerm(_, pairs) => PairLevels(pairs)
    case StrictTerm(items) => ItemLevels(items)
    case _ => 0
  }

  function PairLevels(ps: seq<Pair>): nat
    decreases ps, 0
  {
    if ps == [] then 0 else Max(1 + Levels(ps[0].term), PairLevels(ps[1..]))
  }

  function ItemLevels(ts: seq<Term>): nat
    decreases ts, 0
  {
    if ts == [] then 0 else Max(1 + Levels(ts[0]), ItemLevels(ts[1..]))
  }

  // ---- repeated names: setting one after the other is merging

  function SetAll(acc: seq<Property>, ps: seq<Property>): seq<Property>
    decreases |ps|
  {
    if ps == [] then acc else SetAll(Set(acc, ps[0]), ps[1..])
  }

  lemma {:induction false} SetAllBehind(q: Property, acc: seq<Property>, ps: seq<Property>)
    ensures SetAll([q] + acc, ps) ==
            [Property(q.name, LastOf(ps, q.name, q.value))] + SetAll(acc, Dropped(ps, q.name))
    decreases |ps|
  {
    if ps != [] {
      var p, tail := ps[0], ps[1..];
      assert ([q] + acc)[1..] == acc;
      if p.name == q.name {
        SetAllBehind(p, acc, tail);
      } else {
        SetAllBehind(q, Set(acc, p), tail);
        assert ([p] + Dropped(tail, q.name))[1..] == Dropped(tail, q.name);
      }
    }
  }

  lemma {:induction false} SetAllMerges(ps: seq<Property>)
    ensures SetAll([], ps) == Merged(ps)
    decreases |ps|
  {
    if ps != [] {
      SetAllBehind(ps[0], [], ps[1..]);
      assert [ps[0]] + [] == [ps[0]];
      SetAllMerges(Dropped(ps[1..], ps[0].name));
    }
  }

  // ---- everything the grammar derives is read

  predicate Simple(t: Term) {
    !t.ObjectTerm? && !t.EcmaTerm? && !t.StrictTerm?
  }

  lemma TextRead(text: bytes, width: nat, s: bytes, pos: nat)
    requires (width == 2 || width == 4) && |text| < Pow256(width)
    requires At(s, pos, Be(|text|, width) + text)
    ensures DecodeText(s, pos + width, BeAt(s, pos, width)) == Some((String(text), pos + width + |text|))
  {
    hide Be, BeAt, Pow256;
    AtConcat(s, pos, Be(|text|, width), text);
    BeRoundTrip(|text|, width, s, pos);
  }

  lemma StringRead(marker: byte, text: bytes, width: nat, s: bytes, pos: nat)
    requires (marker == 0x02 && width == 2 && |text| <= 0xFFFF) || (marker == 0x0C && width == 4 && |text| <= 0xFFFF_FFFF)
    requires At(s, pos, [marker] + Be(|text|, width) + text)
    ensures DecodeScalar(s, pos) == Some((String(text), pos + 1 + width + |text|))
  {
    hide Be, BeAt;
    assert Pow256(2) == 0x1_0000 && Pow256(4) == U32_SPAN;
    AtIndex(s, pos, [marker] + Be(|text|, width) + text, 0);
    assert [marker] + Be(|text|, width) + text == [marker] + (Be(|text|, width) + text);
    AtConcat(s, pos, [marker], Be(|text|, width) + text);
    TextRead(text, width, s, pos + 1);
  }

  lemma NumberRead(bits: u64, s: bytes, pos: nat)
    requires At(s, pos, Be(bits, 8))
    ensures U64At(s, pos) == bits
  {
    assert Pow256(8) == U64_SPAN;
    BeRoundTrip(bits, 8, s, pos);
  }

  lemma ZoneRead(bits: u64, zone: nat, s: bytes, pos: nat)
    requires zone <= 0xFFFF && At(s, pos, Be(bits, 8) + Be(zone, 2))
    ensures U64At(s, pos) == bits && BeAt(s, pos + 8, 2) == zone
  {
    AtConcat(s, pos, Be(bits, 8), Be(zone, 2));
    NumberRead(bits, s, pos);
    assert Pow256(2) == 0x1_0000;
    BeRoundTrip(zone, 2, s, pos + 8);
  }

  lemma SimpleRead(t: Term, s: bytes, pos: nat)
    requires Simple(t) && Legal(t) && At(s, pos, Print(t))
    ensures s[pos] != OBJECT && s[pos] != ECMA_ARRAY && s[pos] != STRICT_ARRAY
    ensures DecodeScalar(s, pos) == Some((Meaning(t), pos + |Print(t)|))
  {
    hide Be, BeAt, U64At;
    AtIndex(s, pos, Print(t), 0);
    match t
    case NumberTerm(bits) =>
      AtConcat(s, pos, [0x00], Be(bits, 8));
      NumberRead(bits, s, pos + 1);
    case BooleanTerm(_) =>
      AtIndex(s, pos, Print(t), 1);
    case ShortString(text) => StringRead(0x02, text, 2, s, pos);
    case LongString(text) => StringRead(0x0C, text, 4, s, pos);
    case DateTerm(bits, zone) =>
      assert Print(t) == [0x0B] + (Be(bits, 8) + Be(zone, 2));
      AtConcat(s, pos, [0x0B], Be(bits, 8) + Be(zone, 2));
      ZoneRead(bits, zone, s, pos + 1);
    case NullTerm =>
    case UndefinedTerm =>
  }

  /** A derivation is read as what it means when its levels are within the limit, and rejected otherwise,
      wherever it stands and whatever follows it. */
  lemma {:induction false} TermRead(t: Term, s: bytes, pos: nat, depth: nat)
    requires Legal(t) && At(s, pos, Print(t))
    ensures Decode(s, pos, depth) ==
            if depth + Levels(t) <= 32 then Some((Meaning(t), pos + |Print(t)|)) else None
    decreases t, 1
  {
    hide Decode, DecodeScalar, Print;
    if depth > 32 {
      TooDeep(s, pos, depth);
    } else if Simple(t) {
      SimpleRead(t, s, pos);
      DecodeSimple(s, pos, depth);
    } else if t.StrictTerm? {
      ListRead(t, s, pos, depth);
    } else {
      NamedRead(t, s, pos, depth);
    }
  }

  lemma {:induction false} NamedRead(t: Term, s: bytes, pos: nat, depth: nat)
    requires (t.ObjectTerm? || t.EcmaTerm?) && Legal(t) && At(s, pos, Print(t)) && depth <= 32
    ensures Decode(s, pos, depth) ==
            if depth + Levels(t) <= 32 then Some((Meaning(t), pos + |Print(t)|)) else None
    decreases t, 0
  {
    hide Decode, DecodeProps, PrintPairs, LegalPairs, PairLevels, Merged, SetAll;
    var head := if t.ObjectTerm? then [0x03] else [0x08] + t.count;
    assert Print(t) == head + PrintPairs(t.pairs);
    AtIndex(s, pos, Print(t), 0);
    AtConcat(s, pos, head, PrintPairs(t.pairs));
    if t.ObjectTerm? {
      DecodeObject(s, pos, depth);
    } else {
      DecodeEcmaArray(s, pos, depth);
    }
    PairsRead(t.pairs, s, pos + |head|, depth, []);
    SetAllMerges(Meanings(t.pairs));
  }

  lemma CountRead(n: nat, s: bytes, pos: nat)
    requires n < U32_SPAN && At(s, pos, Be(n, 4))
    ensures U32At(s, pos) == n
  {
    assert Pow256(4) == U32_SPAN;
    BeRoundTrip(n, 4, s, pos);
  }

  lemma {:induction false} ListRead(t: Term, s: bytes, pos: nat, depth: nat)
    requires t.StrictTerm? && Legal(t) && At(s, pos, Print(t)) && depth <= 32
    ensures Decode(s, pos, depth) ==
            if depth + Levels(t) <= 32 then Some((Meaning(t), pos + |Print(t)|)) else None
    decreases t, 0
  {
    hide Decode, DecodeItems, PrintItems, LegalItems, ItemLevels, Be, BeAt, Pow256;
    var items := t.items;
    AtIndex(s, pos, Print(t), 0);
    DecodeStrictArray(s, pos, depth);
    AtConcat(s, pos, [0x0A] + Be(|items|, 4), PrintItems(items));
    AtConcat(s, pos, [0x0A], Be(|items|, 4));
    CountRead(|items|, s, pos + 1);
    ItemsRead(items, s, pos + 5, depth);
  }

  lemma {:induction false} PairsRead(ps: seq<Pair>, s: bytes, pos: nat, depth: nat, acc: seq<Property>)
    requires LegalPairs(ps) && At(s, pos, PrintPairs(ps)) && depth <= 32
    ensures DecodeProps(s, pos, depth + 1, acc) ==
            if depth + PairLevels(ps) <= 32 then Some((SetAll(acc, Meanings(ps)), pos + |PrintPairs(ps)|)) else None
    decreases ps, 0
  {
    hide Be, BeAt, Print, Levels, Legal, Meaning, Decode, DecodeProps, Set;
    if ps == [] {
      DecodePropsUnfold(s, pos, depth + 1, acc);
      EndRead(s, pos);
    } else {
      var p, tail := ps[0], ps[1..];
      var name := Be(|p.name|, 2) + p.name;
      AtConcat(s, pos, name + Print(p.term), PrintPairs(tail));
      AtConcat(s, pos, name, Print(p.term));
      AtConcat(s, pos, Be(|p.name|, 2), p.name);
      assert Pow256(2) == 0x1_0000;
      BeRoundTrip(|p.name|, 2, s, pos);
      DecodePropsUnfold(s, pos, depth + 1, acc);
      var at, end := pos + |name|, pos + |name| + |Print(p.term)|;
      TermRead(p.term, s, at, depth + 1);
      var q := Property(p.name, Meaning(p.term));
      PairsRead(tail, s, end, depth, Set(acc, q));
      assert ([q] + Meanings(tail))[1..] == Meanings(tail);
    }
  }

  lemma EndRead(s: bytes, pos: nat)
    requires At(s, pos, [0x00, 0x00, 0x09])
    ensures BeAt(s, pos, 2) == 0 && s[pos + 2] == 0x09
  {
    AtIndex(s, pos, [0x00, 0x00, 0x09], 0);
    AtIndex(s, pos, [0x00, 0x00, 0x09], 1);
    AtIndex(s, pos, [0x00, 0x00, 0x09], 2);
    assert BeAt(s, pos, 1) == BeAt(s, pos, 0) * 256 + s[pos];
  }

  lemma {:induction false} ItemsRead(ts: seq<Term>, s: bytes, pos: nat, depth: nat)
    requires LegalItems(ts) && At(s, pos, PrintItems(ts)) && depth <= 32
    ensures DecodeItems(s, pos, depth + 1, |ts|) ==
            if depth + ItemLevels(ts) <= 32 then Some((ItemMeanings(ts), pos + |PrintItems(ts)|)) else None
    decreases ts, 0
  {
    hide Print, Levels, Legal, Meaning, Decode;
    if ts != [] {
      hide DecodeItems;
      DecodeItemsUnfold(s, pos, depth + 1, |ts|);
      AtConcat(s, pos, Print(ts[0]), PrintItems(ts[1..]));
      TermRead(ts[0], s, pos, depth + 1);
      ItemsRead(ts[1..], s, pos + |Print(ts[0])|, depth);
    }
  }

  // ---- everything that is read, the grammar derives

  /** `t` derives `s[pos..end]` and means `v`, within the depth limit. */
  ghost predicate Derives(t: Term, s: bytes, pos: nat, end: nat, v: Value, depth: nat) {
    Legal(t) && pos <= end <= |s| && s[pos..end] == Print(t) && Meaning(t) == v && depth + Levels(t) <= 32
  }

  lemma TextDerived(s: bytes, pos: nat, width: nat)
    requires (width == 2 || width == 4) && pos + width <= |s|
    requires DecodeText(s, pos + width, BeAt(s, pos, width)).Some?
    ensures var len := BeAt(s, pos, width);
            var text := s[pos + width..pos + width + len];
            |text| < Pow256(width) && s[pos..pos + width + len] == Be(|text|, width) + text
  {
    hide Be, BeAt, Pow256;
    BeAtBound(s, pos, width);
    BeOfBeAt(s, pos, width);
    var mid, end := pos + width, pos + width + BeAt(s, pos, width);
    assert s[pos..end] == s[pos..mid] + s[mid..end];
  }

  lemma Cut(s: bytes, i: nat, j: nat)
    requires i < j <= |s|
    ensures s[i..j] == [s[i]] + s[i + 1..j]
  {
  }

  lemma StringDerived(s: bytes, pos: nat) returns (t: Term)
    requires pos < |s| && (s[pos] == 0x02 || s[pos] == 0x0C) && DecodeScalar(s, pos).Some?
    ensures var (v, end) := DecodeScalar(s, pos).value;
            Simple(t) && Legal(t) && s[pos..end] == Print(t) && Meaning(t) == v
  {
    hide Be, BeAt;
    var p, width := pos + 1, if s[pos] == 0x02 then 2 else 4;
    var end := DecodeScalar(s, pos).value.1;
    Cut(s, pos, end);
    assert Pow256(2) == 0x1_0000 && Pow256(4) == U32_SPAN;
    TextDerived(s, p, width);
    var text := s[p + width..end];
    t := if width == 2 then ShortString(text) else LongString(text);
    assert [s[pos]] + (Be(|text|, width) + text) == [s[pos]] + Be(|text|, width) + text;
  }

  lemma DateDerived(s: bytes, pos: nat) returns (t: Term)
    requires pos < |s| && s[pos] == 0x0B && DecodeScalar(s, pos).Some?
    ensures var (v, end) := DecodeScalar(s, pos).value;
            Simple(t) && Legal(t) && s[pos..end] == Print(t) && Meaning(t) == v
  {
    hide Be, BeAt;
    var p := pos + 1;
    Cut(s, pos, p + 10);
    BeOfBeAt(s, p, 8);
    BeOfBeAt(s, p + 8, 2);
    BeAtBound(s, p + 8, 2);
    assert Pow256(2) == 0x1_0000;
    t := DateTerm(U64At(s, p), BeAt(s, p + 8, 2));
    assert s[p..p + 10] == s[p..p + 8] + s[p + 8..p + 10];
  }

  lemma SimpleDerived(s: bytes, pos: nat) returns (t: Term)
    requires pos < |s| && DecodeScalar(s, pos).Some?
    ensures var (v, end) := DecodeScalar(s, pos).value;
            Simple(t) && Legal(t) && s[pos..end] == Print(t) && Meaning(t) == v
  {
    hide Be, BeAt;
    var p, m := pos + 1, s[pos];
    if m == STRING || m == LONG_STRING {
      t := StringDerived(s, pos);
    } else if m == DATE {
      t := DateDerived(s, pos);
    } else if m == NUMBER {
      Cut(s, pos, p + 8);
      BeOfBeAt(s, p, 8);
      t := NumberTerm(U64At(s, p));
    } else {
      t := if m == BOOLEAN then BooleanTerm(s[p]) else if m == NULL then NullTerm else UndefinedTerm;
    }
  }

  lemma {:induction false} TermDerived(s: bytes, pos: nat, depth: nat) returns (t: Term)
    requires pos <= |s| && Decode(s, pos, depth).Some?
    ensures var (v, end) := Decode(s, pos, depth).value;
            Derives(t, s, pos, end, v, depth)
    decreases |s| - pos, 0
  {
    hide Decode, DecodeScalar, DecodeProps, DecodeItems, BeAt, Print, Be;
    NotTooDeep(s, pos, depth);
    var m, p := s[pos], pos + 1;
    if m == OBJECT {
      DecodeObject(s, pos, depth);
      var pairs := PairsDerived(s, p, depth, []);
      t := ObjectTerm(pairs);
      NamedDerived(t, s, pos, depth);
    } else if m == ECMA_ARRAY {
      DecodeEcmaArray(s, pos, depth);
      var pairs := PairsDerived(s, p + 4, depth, []);
      t := EcmaTerm(s[p..p + 4], pairs);
      NamedDerived(t, s, pos, depth);
    } else if m == STRICT_ARRAY {
      DecodeStrictArray(s, pos, depth);
      var items := ItemsDerived(s, p + 4, depth, U32At(s, p));
      t := StrictTerm(items);
      ListDerived(t, s, pos, depth);
    } else {
      DecodeSimple(s, pos, depth);
      t := SimpleDerived(s, pos);
    }
  }

  lemma NamedDerived(t: Term, s: bytes, pos: nat, depth: nat)
    requires pos < |s| && depth <= 32
    requires if t.ObjectTerm? then s[pos] == 0x03
             else t.EcmaTerm? && s[pos] == 0x08 && At(s, pos + 1, t.count) && |t.count| == 4
    requires var p := if t.ObjectTerm? then pos + 1 else pos + 5;
             && p <= |s| && DecodeProps(s, p, depth + 1, []).Some?
             && PairsMatch(t.pairs, s, p, depth, [], DecodeProps(s, p, depth + 1, []).value)
    ensures Decode(s, pos, depth).Some?
    ensures var (v, end) := Decode(s, pos, depth).value;
            Derives(t, s, pos, end, v, depth)
  {
    hide Decode, DecodeProps, PrintPairs, LegalPairs, PairLevels, Meanings, Merged, SetAll;
    var p := if t.ObjectTerm? then pos + 1 else pos + 5;
    var end := DecodeProps(s, p, depth + 1, []).value.1;
    SetAllMerges(Meanings(t.pairs));
    Cut(s, pos, end);
    if t.ObjectTerm? {
      DecodeObject(s, pos, depth);
    } else {
      DecodeEcmaArray(s, pos, depth);
      assert s[pos + 1..end] == t.count + s[p..end];
      assert [0x08] + (t.count + s[p..end]) == [0x08] + t.count + s[p..end];
    }
  }

  /** `ps` derives the property list at `pos`, collected into `acc` with the given result. */
  ghost predicate PairsMatch(
      ps: seq<Pair>, s: bytes, pos: nat, depth: nat, acc: seq<Property>, r: (seq<Property>, nat))
  {
    && LegalPairs(ps) && pos <= r.1 <= |s| && s[pos..r.1] == PrintPairs(ps)
    && SetAll(acc, Meanings(ps)) == r.0 && depth + PairLevels(ps) <= 32
  }

  ghost predicate ItemsMatch(ts: seq<Term>, s: bytes, pos: nat, depth: nat, r: (seq<Value>, nat)) {
    && LegalItems(ts) && pos <= r.1 <= |s| && s[pos..r.1] == PrintItems(ts)
    && ItemMeanings(ts) == r.0 && depth + ItemLevels(ts) <= 32
  }

  lemma ListDerived(t: Term, s: bytes, pos: nat, depth: nat)
    requires t.StrictTerm? && pos + 5 <= |s| && depth <= 32 && s[pos] == 0x0A && |t.items| == U32At(s, pos + 1)
    requires DecodeItems(s, pos + 5, depth + 1, |t.items|).Some?
    requires ItemsMatch(t.items, s, pos + 5, depth, DecodeItems(s, pos + 5, depth + 1, |t.items|).value)
    ensures Decode(s, pos, depth).Some?
    ensures var (v, end) := Decode(s, pos, depth).value;
            Derives(t, s, pos, end, v, depth)
  {
    hide Decode, DecodeItems, PrintItems, LegalItems, ItemLevels, Be, BeAt;
    DecodeStrictArray(s, pos, depth);
    var end := DecodeItems(s, pos + 5, depth + 1, |t.items|).value.1;
    BeOfBeAt(s, pos + 1, 4);
    Cut(s, pos, end);
    assert s[pos + 1..end] == s[pos + 1..pos + 5] + s[pos + 5..end];
    assert [0x0A] + (Be(|t.items|, 4) + s[pos + 5..end]) == [0x0A] + Be(|t.items|, 4) + s[pos + 5..end];
  }

  lemma {:induction false} PairsDerived(s: bytes, pos: nat, depth: nat, acc: seq<Property>) returns (ps: seq<Pair>)
    requires pos <= |s| && DecodeProps(s, pos, depth + 1, acc).Some? && depth <= 32
    ensures PairsMatch(ps, s, pos, depth, acc, DecodeProps(s, pos, depth + 1, acc).value)
    decreases |s| - pos, 0
  {
    hide Decode, DecodeProps, Set, BeAt, Derives, PairsMatch, SetAll;
    PropsHaveSize(s, pos, depth + 1, acc);
    DecodePropsUnfold(s, pos, depth + 1, acc);
    var len, p := BeAt(s, pos, 2), pos + 2;
    if len == 0 {
      ps := [];
      EndDerived(s, pos, depth, acc);
    } else {
      var (v, end) := Decode(s, p + len, depth + 1).value;
      var t := TermDerived(s, p + len, depth + 1);
      var name := s[p..p + len];
      var rest := PairsDerived(s, end, depth, Set(acc, Property(name, v)));
      ps := [Pair(name, t)] + rest;
      PairsGrow(Pair(name, t), v, rest, s, pos, depth, acc, end, DecodeProps(s, pos, depth + 1, acc).value);
    }
  }

  lemma EndDerived(s: bytes, pos: nat, depth: nat, acc: seq<Property>)
    requires pos + 3 <= |s| && BeAt(s, pos, 2) == 0 && s[pos + 2] == 0x09 && depth <= 32
    ensures PairsMatch([], s, pos, depth, acc, (acc, pos + 3))
  {
    hide BeAt;
    BeOfBeAt(s, pos, 2);
    assert Be(0, 2) == Be(0, 1) + [0] == [0, 0];
    assert s[pos..pos + 3] == s[pos..pos + 2] + [s[pos + 2]];
  }

  lemma PairsGrow(
      p: Pair, v: Value, rest: seq<Pair>, s: bytes, pos: nat, depth: nat, acc: seq<Property>, mid: nat,
      r: (seq<Property>, nat))
    requires pos + 2 + |p.name| <= |s| && BeAt(s, pos, 2) == |p.name| > 0 && At(s, pos + 2, p.name)
    requires Derives(p.term, s, pos + 2 + |p.name|, mid, v, depth + 1)
    requires PairsMatch(rest, s, mid, depth, Set(acc, Property(p.name, v)), r)
    ensures PairsMatch([p] + rest, s, pos, depth, acc, r)
  {
    hide Be, BeAt, Print, Legal, Levels, Meaning, Set;
    BeAtBound(s, pos, 2);
    assert Pow256(2) == 0x1_0000;
    BeOfBeAt(s, pos, 2);
    var from := pos + 2 + |p.name|;
    assert ([p] + rest)[1..] == rest;
    var q := Property(p.name, v);
    assert ([q] + Meanings(rest))[1..] == Meanings(rest);
    assert s[pos..r.1] == s[pos..pos + 2] + s[pos + 2..from] + s[from..mid] + s[mid..r.1];
  }

  lemma {:induction false} ItemsDerived(s: bytes, pos: nat, depth: nat, count: nat) returns (ts: seq<Term>)
    requires pos <= |s| && DecodeItems(s, pos, depth + 1, count).Some? && depth <= 32
    ensures |ts| == count && ItemsMatch(ts, s, pos, depth, DecodeItems(s, pos, depth + 1, count).value)
    decreases |s| - pos, 1
  {
    hide Decode, Print, Legal, Levels, Meaning;
    if count == 0 {
      ts := [];
    } else {
      hide DecodeItems;
      DecodeItemsUnfold(s, pos, depth + 1, count);
      var (v, p) := Decode(s, pos, depth + 1).value;
      var t := TermDerived(s, pos, depth + 1);
      var rest := ItemsDerived(s, p, depth, count - 1);
      ts := [t] + rest;
      var end := DecodeItems(s, pos, depth + 1, count).value.1;
      assert s[pos..end] == s[pos..p] + s[p..end];
      assert ts[1..] == rest;
    }
  }

  /** The parser reads a value from `s[pos..end]` exactly when the grammar derives that value from those octets
      within the depth limit. */
  lemma DecodeIffDerived(s: bytes, pos: nat, depth: nat, v: Value, end: nat)
    requires pos <= |s|
    ensures Decode(s, pos, depth) == Some((v, end)) <==> exists t :: Derives(t, s, pos, end, v, depth)
  {
    hide Decode, Print, Meaning, Legal, Levels;
    if Decode(s, pos, depth) == Some((v, end)) {
      var t := TermDerived(s, pos, depth);
    }
    if exists t :: Derives(t, s, pos, end, v, depth) {
      var t :| Derives(t, s, pos, end, v, depth);
      TermRead(t, s, pos, depth);
    }
  }
}
