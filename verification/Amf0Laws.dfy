/** The laws of the AMF0 codec over all byte strings and all values. */
module Amf0Laws {
  import opened Bytes
  import opened Amf0
  import opened Amf0Grammar

  // ---- what the encoder writes is a derivation of its value

  /** The derivation the encoder chooses. */
  function Canonical(v: Value): Term
    decreases v, 1
  {
    match v
    case Number(bits) => NumberTerm(bits)
    case Boolean(flag) => BooleanTerm(if flag then 1 else 0)
    case String(text) => if |text| > 0xFFFF then LongString(text) else ShortString(text)
    case Object(props) => ObjectTerm(CanonicalPairs(props))
    case EcmaArray(props) => EcmaTerm(Be(|props|, 4), CanonicalPairs(props))
    case StrictArray(items) => StrictTerm(CanonicalItems(items))
    case Null => NullTerm
    case Undefined => UndefinedTerm
    case Date(bits, tz) => DateTerm(bits, Unsigned(tz))
  }

  function CanonicalPairs(ps: seq<Property>): seq<Pair>
    decreases ps, 0
  {
    if ps == [] then [] else [Pair(ps[0].name, Canonical(ps[0].value))] + CanonicalPairs(ps[1..])
  }

  function CanonicalItems(vs: seq<Value>): (r: seq<Term>)
    ensures |r| == |vs|
    decreases vs, 0
  {
    if vs == [] then [] else [Canonical(vs[0])] + CanonicalItems(vs[1..])
  }

  lemma {:induction false} CanonicalPrinted(v: Value)
    ensures Print(Canonical(v)) == Encode(v) && Levels(Canonical(v)) == Nesting(v)
    decreases v, 1
  {
    hide Be;
    match v
    case Object(props) => PairsPrinted(props);
    case EcmaArray(props) => PairsPrinted(props);
    case StrictArray(items) => ItemsPrinted(items);
    case _ =>
  }

  lemma {:induction false} PairsPrinted(ps: seq<Property>)
    ensures PrintPairs(CanonicalPairs(ps)) == EncodeProps(ps) && PairLevels(CanonicalPairs(ps)) == NestingOfProps(ps)
    decreases ps, 0
  {
    hide Be, Encode, Print, Levels, Nesting;
    if ps != [] {
      CanonicalPrinted(ps[0].value);
      PairsPrinted(ps[1..]);
      assert CanonicalPairs(ps)[1..] == CanonicalPairs(ps[1..]);
    }
  }

  lemma {:induction false} ItemsPrinted(vs: seq<Value>)
    ensures PrintItems(CanonicalItems(vs)) == EncodeItems(vs) && ItemLevels(CanonicalItems(vs)) == NestingOfItems(vs)
    decreases vs, 0
  {
    hide Encode, Print, Levels, Nesting;
    if vs != [] {
      CanonicalPrinted(vs[0]);
      ItemsPrinted(vs[1..]);
      assert CanonicalItems(vs)[1..] == CanonicalItems(vs[1..]);
    }
  }

  lemma {:induction false} CanonicalMeans(v: Value)
    requires WellFormed(v)
    ensures Legal(Canonical(v)) && Meaning(Canonical(v)) == v
    decreases v, 1
  {
    match v
    case Object(props) =>
      PairsMean(props);
      MergedDistinct(props);
    case EcmaArray(props) =>
      PairsMean(props);
      MergedDistinct(props);
    case StrictArray(items) => ItemsMean(items);
    case _ =>
  }

  lemma {:induction false} PairsMean(ps: seq<Property>)
    requires forall i :: 0 <= i < |ps| ==> 1 <= |ps[i].name| <= 0xFFFF && WellFormed(ps[i].value)
    ensures LegalPairs(CanonicalPairs(ps)) && Meanings(CanonicalPairs(ps)) == ps
    decreases ps, 0
  {
    hide Canonical, WellFormed, Meaning, Legal;
    if ps != [] {
      CanonicalMeans(ps[0].value);
      assert forall i :: 0 <= i < |ps[1..]| ==> ps[1..][i] == ps[i + 1];
      PairsMean(ps[1..]);
      assert CanonicalPairs(ps)[1..] == CanonicalPairs(ps[1..]);
      assert [ps[0]] + ps[1..] == ps;
    }
  }

  lemma {:induction false} ItemsMean(vs: seq<Value>)
    requires WellFormedItems(vs)
    ensures LegalItems(CanonicalItems(vs)) && ItemMeanings(CanonicalItems(vs)) == vs
    decreases vs, 0
  {
    hide Canonical, WellFormed, Meaning, Legal;
    if vs != [] {
      CanonicalMeans(vs[0]);
      assert forall i :: 0 <= i < |vs[1..]| ==> vs[1..][i] == vs[i + 1];
      ItemsMean(vs[1..]);
      assert CanonicalItems(vs)[1..] == CanonicalItems(vs[1..]);
      assert [vs[0]] + vs[1..] == vs;
    }
  }

  lemma {:induction false} DroppedAbsent(ps: seq<Property>, name: bytes, v: Value)
    requires !HasName(ps, name)
    ensures Dropped(ps, name) == ps && LastOf(ps, name, v) == v
    decreases |ps|
  {
    if ps != [] {
      assert ps[0].name != name;
      assert forall i :: 0 <= i < |ps[1..]| ==> ps[1..][i] == ps[i + 1];
      DroppedAbsent(ps[1..], name, v);
    }
  }

  lemma {:induction false} MergedDistinct(ps: seq<Property>)
    requires Distinct(ps)
    ensures Merged(ps) == ps
    decreases |ps|
  {
    if ps != [] {
      var tail := ps[1..];
      assert forall i :: 0 <= i < |tail| ==> tail[i] == ps[i + 1];
      DroppedAbsent(tail, ps[0].name, ps[0].value);
      MergedDistinct(tail);
    }
  }

  // ---- whatever has a derivation is well formed

  ghost predicate Sound(p: Property, n: nat) {
    1 <= |p.name| <= 0xFFFF && WellFormed(p.value) && Nesting(p.value) <= n
  }

  ghost predicate AllSound(ps: seq<Property>, n: nat) {
    forall i :: 0 <= i < |ps| ==> Sound(ps[i], n)
  }

  lemma {:induction false} DroppedSound(ps: seq<Property>, name: bytes, n: nat)
    requires AllSound(ps, n)
    ensures AllSound(Dropped(ps, name), n) && !HasName(Dropped(ps, name), name)
    decreases |ps|
  {
    hide Sound;
    if ps != [] {
      assert forall i :: 0 <= i < |ps[1..]| ==> ps[1..][i] == ps[i + 1];
      DroppedSound(ps[1..], name, n);
    }
  }

  lemma {:induction false} LastSound(ps: seq<Property>, name: bytes, v: Value, n: nat)
    requires AllSound(ps, n) && Sound(Property(name, v), n)
    ensures Sound(Property(name, LastOf(ps, name, v)), n)
    decreases |ps|
  {
    hide WellFormed, Nesting;
    if ps != [] {
      assert forall i :: 0 <= i < |ps[1..]| ==> ps[1..][i] == ps[i + 1];
      assert Sound(ps[0], n);
      LastSound(ps[1..], name, if ps[0].name == name then ps[0].value else v, n);
    }
  }

  lemma {:induction false} MergedNames(ps: seq<Property>, name: bytes)
    requires !HasName(ps, name)
    ensures !HasName(Merged(ps), name)
    decreases |ps|
  {
    if ps != [] {
      assert forall i :: 0 <= i < |ps[1..]| ==> ps[1..][i] == ps[i + 1];
      assert ps[0].name != name;
      DroppedNames(ps[1..], ps[0].name, name);
      MergedNames(Dropped(ps[1..], ps[0].name), name);
    }
  }

  lemma {:induction false} DroppedNames(ps: seq<Property>, dropped: bytes, name: bytes)
    requires !HasName(ps, name)
    ensures !HasName(Dropped(ps, dropped), name)
    decreases |ps|
  {
    if ps != [] {
      assert forall i :: 0 <= i < |ps[1..]| ==> ps[1..][i] == ps[i + 1];
      assert ps[0].name != name;
      DroppedNames(ps[1..], dropped, name);
    }
  }

  lemma {:induction false} MergedSound(ps: seq<Property>, n: nat)
    requires AllSound(ps, n)
    ensures AllSound(Merged(ps), n) && Distinct(Merged(ps))
    decreases |ps|
  {
    hide Sound, Dropped, LastOf;
    if ps != [] {
      var p, tail := ps[0], ps[1..];
      assert forall i :: 0 <= i < |tail| ==> tail[i] == ps[i + 1];
      var rest := Dropped(tail, p.name);
      assert Sound(Property(p.name, p.value), n);
      LastSound(tail, p.name, p.value, n);
      DroppedSound(tail, p.name, n);
      MergedSound(rest, n);
      MergedNames(rest, p.name);
      var all := Merged(ps);
      assert forall i :: 1 <= i < |all| ==> all[i] == Merged(rest)[i - 1];
    }
  }

  lemma {:induction false} PropsNest(ps: seq<Property>, n: nat)
    requires AllSound(ps, n) && n >= 0
    ensures NestingOfProps(ps) <= if ps == [] then 0 else n + 1
    decreases |ps|
  {
    hide Nesting, WellFormed;
    if ps != [] {
      assert forall i :: 0 <= i < |ps[1..]| ==> ps[1..][i] == ps[i + 1];
      assert Sound(ps[0], n);
      PropsNest(ps[1..], n);
    }
  }

  lemma {:induction false} MeaningSound(t: Term)
    requires Legal(t)
    ensures WellFormed(Meaning(t)) && Nesting(Meaning(t)) <= Levels(t)
    decreases t, 1
  {
    match t
    case ObjectTerm(pairs) => NamedSound(pairs);
    case EcmaTerm(_, pairs) => NamedSound(pairs);
    case StrictTerm(items) => ItemsSound(items);
    case _ =>
  }

  lemma {:induction false} NamedSound(ps: seq<Pair>)
    requires LegalPairs(ps)
    ensures var props := Merged(Meanings(ps));
            WellFormedProps(props) && NestingOfProps(props) <= PairLevels(ps)
    decreases ps, 1
  {
    hide WellFormed, Nesting, Merged, LegalPairs, Meanings;
    var n := PairLevels(ps);
    if ps == [] {
      NothingMerged();
    } else {
      PairsSound(ps, n);
      var props := Merged(Meanings(ps));
      MergedSound(Meanings(ps), n - 1);
      PropsNest(props, n - 1);
      assert forall i :: 0 <= i < |props| ==> Sound(props[i], n - 1);
    }
  }

  lemma NothingMerged()
    ensures Merged(Meanings([])) == []
  {
  }

  lemma {:induction false} PairsSound(ps: seq<Pair>, n: nat)
    requires LegalPairs(ps) && PairLevels(ps) <= n
    ensures ps != [] ==> n > 0
    ensures n > 0 ==> AllSound(Meanings(ps), n - 1)
    decreases ps, 0
  {
    hide WellFormed, Nesting, Meaning, Legal, Levels;
    if ps != [] {
      MeaningSound(ps[0].term);
      PairsSound(ps[1..], n);
      assert Sound(Meanings(ps)[0], n - 1);
      assert forall i :: 1 <= i < |Meanings(ps)| ==> Meanings(ps)[i] == Meanings(ps[1..])[i - 1];
    }
  }

  lemma {:induction false} ItemsSound(ts: seq<Term>)
    requires LegalItems(ts)
    ensures WellFormedItems(ItemMeanings(ts)) && NestingOfItems(ItemMeanings(ts)) <= ItemLevels(ts)
    decreases ts, 0
  {
    hide WellFormed, Nesting, Meaning, Legal, Levels;
    if ts != [] {
      MeaningSound(ts[0]);
      ItemsSound(ts[1..]);
      assert ItemMeanings(ts)[1..] == ItemMeanings(ts[1..]);
      assert forall i :: 1 <= i < |ts| ==> ItemMeanings(ts)[i] == ItemMeanings(ts[1..])[i - 1];
    }
  }

  // ---- the laws

  /** What the encoder writes for a well-formed value of legal depth, the grammar derives with that meaning. */
  lemma EncodeDerived(v: Value)
    requires WellFormed(v) && Nesting(v) <= 32
    ensures Derives(Canonical(v), Encode(v), 0, |Encode(v)|, v, 0)
  {
    hide Encode, Print, Meaning, Legal, Levels, WellFormed, Nesting, Canonical;
    CanonicalPrinted(v);
    CanonicalMeans(v);
    assert Encode(v)[0..|Encode(v)|] == Encode(v);
  }

  /** Everything the parser returns is well formed and within the depth limit. */
  lemma DecodedSound(s: bytes, pos: nat, depth: nat)
    requires pos <= |s| && Decode(s, pos, depth).Some?
    ensures var v := Decode(s, pos, depth).value.0;
            WellFormed(v) && depth + Nesting(v) <= 32
  {
    hide Decode, Print, Meaning, Legal, Levels, WellFormed, Nesting;
    var t := TermDerived(s, pos, depth);
    MeaningSound(t);
  }

  lemma EncodeRead(v: Value, rest: bytes)
    requires WellFormed(v)
    ensures Decode(Encode(v) + rest, 0, 0) == if Nesting(v) <= 32 then Some((v, |Encode(v)|)) else None
  {
    hide Decode, Encode, Print, Meaning, Legal, Levels, WellFormed, Nesting, Canonical;
    AtFront(Encode(v), rest);
    CanonicalPrinted(v);
    CanonicalMeans(v);
    TermRead(Canonical(v), Encode(v) + rest, 0, 0);
  }

  /** Round trip, exactly: a value comes back from its own encoding, whatever follows, if and only if its
      names are distinct, non-empty and at most 65535 octets, its lengths fit 32 bits and it nests at
      most 32 levels. */
  lemma RoundTripIff(v: Value, rest: bytes)
    ensures Decode(Encode(v) + rest, 0, 0) == Some((v, |Encode(v)|)) <==> WellFormed(v) && Nesting(v) <= 32
  {
    hide Decode, Encode, WellFormed, Nesting;
    if WellFormed(v) {
      EncodeRead(v, rest);
    }
    if Decode(Encode(v) + rest, 0, 0) == Some((v, |Encode(v)|)) {
      DecodedSound(Encode(v) + rest, 0, 0);
    }
  }

  /** A well-formed value that nests deeper is rejected. */
  lemma TooDeepRejected(v: Value, rest: bytes)
    requires WellFormed(v) && Nesting(v) > 32
    ensures Decode(Encode(v) + rest, 0, 0) == None
  {
    hide Decode, Encode, WellFormed, Nesting;
    EncodeRead(v, rest);
  }

  /** Encodings delimit themselves: what `n` octets decode to, every extension decodes to, and no shorter
      prefix decodes at all. */
  lemma SelfDelimiting(s: bytes, other: bytes)
    requires Decode(s, 0, 0).Some?
    ensures var (v, n) := Decode(s, 0, 0).value;
            && (n <= |other| && other[..n] == s[..n] ==> Decode(other, 0, 0) == Some((v, n)))
            && (other <= s && |other| < n ==> Decode(other, 0, 0) == None)
  {
    hide Decode;
    var (v, n) := Decode(s, 0, 0).value;
    if n <= |other| && other[..n] == s[..n] {
      ReadAgain(s, other);
    }
    if other <= s && |other| < n && Decode(other, 0, 0).Some? {
      var m := Decode(other, 0, 0).value.1;
      assert other[..m] == s[..m];
      ReadAgain(other, s);
    }
  }

  /** A derivation is read wherever its octets stand first. */
  lemma ReadAgain(s: bytes, other: bytes)
    requires Decode(s, 0, 0).Some?
    requires var n := Decode(s, 0, 0).value.1; n <= |other| && other[..n] == s[..n]
    ensures Decode(other, 0, 0) == Decode(s, 0, 0)
  {
    hide Decode, Print, Meaning, Legal, Levels;
    var n := Decode(s, 0, 0).value.1;
    var t := TermDerived(s, 0, 0);
    assert s[0..n] == s[..n] && other[0..n] == other[..n];
    TermRead(t, other, 0, 0);
  }

  /** Decoding normalises: re-encoding what was read - duplicate keys, wrong counts, long-form strings,
      odd booleans and all - and reading it again gives the same value. */
  lemma DecodeEncodeDecode(s: bytes)
    requires Decode(s, 0, 0).Some?
    ensures var v := Decode(s, 0, 0).value.0;
            WellFormed(v) && Nesting(v) <= 32 && Decode(Encode(v), 0, 0) == Some((v, |Encode(v)|))
  {
    hide Decode, Encode, WellFormed, Nesting;
    var v := Decode(s, 0, 0).value.0;
    DecodedSound(s, 0, 0);
    RoundTripIff(v, []);
    assert Encode(v) + [] == Encode(v);
  }

  ghost predicate Codable(vs: seq<Value>) {
    forall i :: 0 <= i < |vs| ==> WellFormed(vs[i]) && Nesting(vs[i]) <= 32
  }

  lemma {:induction false} AllDecoded(vs: seq<Value>)
    requires Codable(vs)
    ensures DecodeAll(EncodeItems(vs)) == Some(vs)
    decreases |vs|
  {
    hide Decode, Encode, WellFormed, Nesting;
    if vs != [] {
      var head, tail := Encode(vs[0]), EncodeItems(vs[1..]);
      assert Codable(vs[1..]) by {
        assert forall i :: 0 <= i < |vs[1..]| ==> vs[1..][i] == vs[i + 1];
      }
      RoundTripIff(vs[0], tail);
      assert (head + tail)[|head|..] == tail;
      AllDecoded(vs[1..]);
      assert [vs[0]] + vs[1..] == vs;
    }
  }

  lemma {:induction false} AllCodable(s: bytes)
    requires DecodeAll(s).Some?
    ensures Codable(DecodeAll(s).value)
    decreases |s|
  {
    hide Decode, WellFormed, Nesting, Encode;
    if s != [] {
      var n := Decode(s, 0, 0).value.1;
      DecodeEncodeDecode(s);
      AllCodable(s[n..]);
    }
  }

  /** `amf0_decode_all` inverts the concatenation of encodings exactly on such values. */
  lemma DecodeAllIff(vs: seq<Value>)
    ensures DecodeAll(EncodeItems(vs)) == Some(vs) <==> Codable(vs)
  {
    hide DecodeAll, EncodeItems, Codable;
    if Codable(vs) {
      AllDecoded(vs);
    }
    if DecodeAll(EncodeItems(vs)) == Some(vs) {
      AllCodable(EncodeItems(vs));
    }
  }

  /** The terms derive the whole of `s`, each within the depth limit, and mean `vs`. */
  ghost predicate DerivesAll(ts: seq<Term>, s: bytes, vs: seq<Value>) {
    LegalItems(ts) && s == PrintItems(ts) && ItemMeanings(ts) == vs && ItemLevels(ts) <= 33
  }

  lemma {:induction false} AllRead(ts: seq<Term>)
    requires LegalItems(ts) && ItemLevels(ts) <= 33
    ensures DecodeAll(PrintItems(ts)) == Some(ItemMeanings(ts))
    decreases |ts|
  {
    hide Decode, Print, Legal, Levels, Meaning;
    if ts != [] {
      var head, tail := Print(ts[0]), PrintItems(ts[1..]);
      AtFront(head, tail);
      TermRead(ts[0], head + tail, 0, 0);
      assert (head + tail)[|head|..] == tail;
      AllRead(ts[1..]);
    }
  }

  lemma {:induction false} AllDerived(s: bytes) returns (ts: seq<Term>)
    requires DecodeAll(s).Some?
    ensures DerivesAll(ts, s, DecodeAll(s).value)
    decreases |s|
  {
    hide Decode, Print, Legal, Levels, Meaning;
    if s == [] {
      ts := [];
    } else {
      var n := Decode(s, 0, 0).value.1;
      var t := TermDerived(s, 0, 0);
      var rest := AllDerived(s[n..]);
      ts := [t] + rest;
      assert ts[1..] == rest && s == s[0..n] + s[n..];
    }
  }

  /** `amf0_decode_all` reads all of the bytes as the values that consecutive derivations give them, or nothing. */
  lemma DecodeAllIffDerived(s: bytes, vs: seq<Value>)
    ensures DecodeAll(s) == Some(vs) <==> exists ts :: DerivesAll(ts, s, vs)
  {
    hide DecodeAll, PrintItems, LegalItems, ItemLevels, ItemMeanings;
    if DecodeAll(s) == Some(vs) {
      var ts := AllDerived(s);
    }
    if exists ts :: DerivesAll(ts, s, vs) {
      var ts :| DerivesAll(ts, s, vs);
      AllRead(ts);
    }
  }
}
