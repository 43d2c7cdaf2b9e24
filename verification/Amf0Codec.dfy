/** The AMF0 codec as it runs: an encoder that appends, a reader that advances. */
module Amf0Codec {
  import opened Bytes
  import opened Amf0

  /** Properties being collected for an object or an ECMA array. */
  class PropertyBag {
    var props: seq<Property>

    constructor ()
      ensures props == []
    {
      props := [];
    }

    method SetProperty(p: Property)
      modifies this
      ensures props == Set(old(props), p)
    {
      hide Set;
      var i := 0;
      assert props[..0] + Set(props[0..], p) == Set(props, p) by {
        assert props[0..] == props;
      }
      while i < |props|
        invariant 0 <= i <= |props| && props == old(props)
        invariant Set(props, p) == props[..i] + Set(props[i..], p)
      {
        SetAt(props, i, p);
        if props[i].name == p.name {
          props := props[i := p];
          return;
        }
        i := i + 1;
      }
      SetAt(props, i, p);
      props := props + [p];
    }
  }

  lemma SetAt(ps: seq<Property>, i: nat, p: Property)
    requires i <= |ps|
    ensures ps[..i] + Set(ps[i..], p) ==
            if i == |ps| then ps + [p]
            else if ps[i].name == p.name then ps[i := p]
            else ps[..i + 1] + Set(ps[i + 1..], p)
  {
    if i < |ps| {
      assert ps[i..][0] == ps[i] && ps[i..][1..] == ps[i + 1..];
      assert ps[..i + 1] == ps[..i] + [ps[i]];
    } else {
      assert ps[..i] == ps && ps[i..] == [];
    }
  }

  // ---- appending encodings

  lemma ExtendProps(ps: seq<Property>, k: nat)
    requires k < |ps|
    ensures EncodeProps(ps[k..]) == Be(|ps[k].name|, 2) + ps[k].name + Encode(ps[k].value) + EncodeProps(ps[k + 1..])
  {
    hide Be, Encode;
    assert ps[k..][0] == ps[k] && ps[k..][1..] == ps[k + 1..];
  }

  lemma ExtendItems(vs: seq<Value>, k: nat)
    requires k < |vs|
    ensures EncodeItems(vs[k..]) == Encode(vs[k]) + EncodeItems(vs[k + 1..])
  {
    hide Encode;
    assert vs[k..][0] == vs[k] && vs[k..][1..] == vs[k + 1..];
  }

  method Append(v: Value, out: Sink)
    modifies out
    ensures out.data == old(out.data) + Encode(v)
    decreases v, 1
  {
    hide Be, EncodeProps, EncodeItems;
    match v
    case Object(props) =>
      out.data := out.data + [OBJECT];
      AppendProps(props, out);
    case EcmaArray(props) =>
      out.data := out.data + [ECMA_ARRAY] + Be(|props|, 4);
      AppendProps(props, out);
    case StrictArray(items) =>
      out.data := out.data + [STRICT_ARRAY] + Be(|items|, 4);
      AppendItems(items, out);
    case _ =>
      out.data := out.data + Encode(v);
  }

  method AppendProps(ps: seq<Property>, out: Sink)
    modifies out
    ensures out.data == old(out.data) + EncodeProps(ps)
    decreases ps, 0
  {
    hide Be, Encode, EncodeProps;
    ghost var done: bytes := [];
    assert ps[0..] == ps;
    for i := 0 to |ps|
      invariant out.data == old(out.data) + done
      invariant EncodeProps(ps) == done + EncodeProps(ps[i..])
    {
      ghost var before := out.data;
      ExtendProps(ps, i);
      out.data := out.data + Be(|ps[i].name|, 2) + ps[i].name;
      Append(ps[i].value, out);
      ghost var one := Be(|ps[i].name|, 2) + ps[i].name + Encode(ps[i].value);
      assert out.data == before + one;
      done := done + one;
    }
    EndOfProps(ps);
    out.data := out.data + [0, 0, OBJECT_END];
  }

  lemma EndOfProps(ps: seq<Property>)
    ensures EncodeProps(ps[|ps|..]) == [0, 0, OBJECT_END]
  {
  }

  method AppendItems(vs: seq<Value>, out: Sink)
    modifies out
    ensures out.data == old(out.data) + EncodeItems(vs)
    decreases vs, 0
  {
    hide Encode;
    ghost var done: bytes := [];
    assert vs[0..] == vs;
    for i := 0 to |vs|
      invariant out.data == old(out.data) + done
      invariant EncodeItems(vs) == done + EncodeItems(vs[i..])
    {
      ExtendItems(vs, i);
      Append(vs[i], out);
      done := done + Encode(vs[i]);
    }
  }

  // ---- the reader

  /** Elements read earlier, in front of the rest. */
  function Prefixed(items: seq<Value>, r: Option<(seq<Value>, nat)>): Option<(seq<Value>, nat)> {
    match r
    case None => None
    case Some((rest, end)) => Some((items + rest, end))
  }

  lemma PrefixedNothing(r: Option<(seq<Value>, nat)>)
    ensures Prefixed([], r) == r
  {
    if r.Some? {
      assert [] + r.value.0 == r.value.0;
    }
  }

  lemma PrefixedStep(items: seq<Value>, s: bytes, pos: nat, depth: nat, count: nat)
    requires pos <= |s| && count > 0
    ensures Prefixed(items, DecodeItems(s, pos, depth, count)) ==
            match Decode(s, pos, depth)
            case None => None
            case Some((v, p)) => Prefixed(items + [v], DecodeItems(s, p, depth, count - 1))
  {
    hide Decode, DecodeItems;
    DecodeItemsUnfold(s, pos, depth, count);
    if Decode(s, pos, depth).Some? {
      var (v, p) := Decode(s, pos, depth).value;
      var r := DecodeItems(s, p, depth, count - 1);
      if r.Some? {
        assert items + ([v] + r.value.0) == items + [v] + r.value.0;
      }
    }
  }

  lemma PrefixedEnd(items: seq<Value>, s: bytes, pos: nat, depth: nat)
    requires pos <= |s|
    ensures Prefixed(items, DecodeItems(s, pos, depth, 0)) == Some((items, pos))
  {
    assert items + [] == items;
  }

  class Reader {
    const data: bytes
    var pos: nat

    predicate Valid()
      reads this
    {
      pos <= |data|
    }

    constructor (data: bytes)
      ensures Valid() && this.data == data && pos == 0
    {
      this.data, pos := data, 0;
    }

    predicate Need(n: nat)
      requires Valid()
      reads this
    {
      |data| - pos >= n
    }

    /** Accumulates a big-endian integer and moves past it. */
    method Unsigned(n: nat) returns (v: nat)
      requires Valid() && Need(n)
      modifies this
      ensures Valid() && pos == old(pos) + n && v == BeAt(data, old(pos), n)
    {
      v := 0;
      for i := 0 to n
        invariant v == BeAt(data, pos, i)
        invariant pos == old(pos)
      {
        v := v * 256 + data[pos + i];
      }
      pos := pos + n;
    }

    /** Succeeds exactly when `Decode` does, with its value and its end position. */
    method DecodeValue(depth: nat) returns (r: Option<Value>)
      requires Valid()
      modifies this
      ensures Valid() && old(pos) <= pos
      ensures match Decode(data, old(pos), depth)
              case None => r.None?
              case Some((v, end)) => r == Some(v) && pos == end
      decreases |data| - pos, 0, 1
    {
      if depth > MAX_DEPTH || !Need(1) {
        return None;
      }
      hide Decode, DecodeScalar;
      if data[pos] == OBJECT || data[pos] == ECMA_ARRAY {
        r := DecodeNamed(depth);
      } else if data[pos] == STRICT_ARRAY {
        r := DecodeListed(depth);
      } else {
        DecodeSimple(data, pos, depth);
        r := DecodeLeaf();
      }
    }

    method DecodeNamed(depth: nat) returns (r: Option<Value>)
      requires Valid() && Need(1) && depth <= MAX_DEPTH && (data[pos] == OBJECT || data[pos] == ECMA_ARRAY)
      modifies this
      ensures Valid() && old(pos) <= pos
      ensures match Decode(data, old(pos), depth)
              case None => r.None?
              case Some((v, end)) => r == Some(v) && pos == end
      decreases |data| - pos, 0, 0
    {
      hide Decode, DecodeProps;
      var ecma := data[pos] == ECMA_ARRAY;
      if ecma {
        DecodeEcmaArray(data, pos, depth);
      } else {
        DecodeObject(data, pos, depth);
      }
      pos := pos + 1;
      if ecma {
        if !Need(4) {
          return None;
        }
        pos := pos + 4;  // the count is advisory, the end marker decides
      }
      var props := DecodeProperties(depth + 1);
      if props.None? {
        return None;
      }
      return Some(if ecma then EcmaArray(props.value) else Object(props.value));
    }

    method DecodeListed(depth: nat) returns (r: Option<Value>)
      requires Valid() && Need(1) && depth <= MAX_DEPTH && data[pos] == STRICT_ARRAY
      modifies this
      ensures Valid() && old(pos) <= pos
      ensures match Decode(data, old(pos), depth)
              case None => r.None?
              case Some((v, end)) => r == Some(v) && pos == end
      decreases |data| - pos, 0, 0
    {
      hide Decode, DecodeItems, BeAt;
      DecodeStrictArray(data, pos, depth);
      pos := pos + 1;
      if !Need(4) {
        return None;
      }
      var count := Unsigned(4);
      var items := DecodeElements(depth + 1, count);
      if items.None? {
        return None;
      }
      return Some(StrictArray(items.value));
    }

    method DecodeLeaf() returns (r: Option<Value>)
      requires Valid() && Need(1)
      modifies this
      ensures Valid() && old(pos) <= pos
      ensures match DecodeScalar(data, old(pos))
              case None => r.None?
              case Some((v, end)) => r == Some(v) && pos == end
    {
      hide BeAt;
      var marker := data[pos];
      pos := pos + 1;
      if marker == NUMBER {
        if !Need(8) {
          return None;
        }
        BeAtBound(data, pos, 8);
        var bits := Unsigned(8);
        return Some(Number(bits));
      } else if marker == BOOLEAN {
        if !Need(1) {
          return None;
        }
        pos := pos + 1;
        return Some(Boolean(data[pos - 1] != 0));
      } else if marker == STRING || marker == LONG_STRING {
        var width := if marker == STRING then 2 else 4;
        if !Need(width) {
          return None;
        }
        var len := Unsigned(width);
        if !Need(len) {
          return None;
        }
        pos := pos + len;
        return Some(String(data[pos - len..pos]));
      } else if marker == NULL {
        return Some(Null);
      } else if marker == UNDEFINED {
        return Some(Undefined);
      } else if marker == DATE {
        if !Need(10) {
          return None;
        }
        BeAtBound(data, pos, 8);
        BeAtBound(data, pos + 8, 2);
        var bits := Unsigned(8);
        var tz := Unsigned(2);
        return Some(Date(bits, Signed(tz)));
      }
      return None;
    }

    method DecodeProperties(depth: nat) returns (r: Option<seq<Property>>)
      requires Valid()
      modifies this
      ensures Valid() && old(pos) <= pos
      ensures match DecodeProps(data, old(pos), depth, [])
              case None => r.None?
              case Some((ps, end)) => r == Some(ps) && pos == end
      decreases |data| - pos, 0
    {
      hide Decode, BeAt, Set;
      var bag := new PropertyBag();
      while true
        invariant Valid() && old(pos) <= pos && fresh(bag)
        invariant DecodeProps(data, old(pos), depth, []) == DecodeProps(data, pos, depth, bag.props)
        decreases |data| - pos
      {
        if !Need(2) {
          return None;
        }
        DecodePropsUnfold(data, pos, depth, bag.props);
        var len := Unsigned(2);
        if len == 0 {
          if !Need(1) {
            return None;
          }
          pos := pos + 1;
          return if data[pos - 1] == OBJECT_END then Some(bag.props) else None;
        }
        if !Need(len) {
          return None;
        }
        var name := data[pos..pos + len];
        pos := pos + len;
        ghost var at := pos;
        var v := DecodeValue(depth);
        if v.None? {
          return None;
        }
        bag.SetProperty(Property(name, v.value));
      }
    }

    method DecodeElements(depth: nat, count: nat) returns (r: Option<seq<Value>>)
      requires Valid()
      modifies this
      ensures Valid() && old(pos) <= pos
      ensures match DecodeItems(data, old(pos), depth, count)
              case None => r.None?
              case Some((vs, end)) => r == Some(vs) && pos == end
      decreases |data| - pos, 1
    {
      hide Decode, DecodeItems, Prefixed;
      var items: seq<Value> := [];
      var i := 0;
      PrefixedNothing(DecodeItems(data, pos, depth, count));
      while i < count
        invariant 0 <= i <= count && Valid() && old(pos) <= pos
        invariant i > 0 ==> old(pos) < pos
        invariant DecodeItems(data, old(pos), depth, count) == Prefixed(items, DecodeItems(data, pos, depth, count - i))
        decreases count - i
      {
        PrefixedStep(items, data, pos, depth, count - i);
        var v := DecodeValue(depth);
        if v.None? {
          return None;
        }
        items := items + [v.value];
        i := i + 1;
      }
      PrefixedEnd(items, data, pos, depth);
      return Some(items);
    }
  }

  method DecodeOne(data: bytes) returns (r: Option<(Value, nat)>)
    ensures r == Decode(data, 0, 0)
  {
    hide Decode;
    var reader := new Reader(data);
    var v := reader.DecodeValue(0);
    return if v.Some? then Some((v.value, reader.pos)) else None;
  }

  /** Values one after the other until the bytes are used up. */
  method DecodeSequence(data: bytes) returns (r: Option<seq<Value>>)
    ensures r == DecodeAll(data)
  {
    hide Decode;
    var values: seq<Value>, pos := [], 0;
    assert data[0..] == data;
    assert DecodeAll(data).Some? ==> [] + DecodeAll(data).value == DecodeAll(data).value;
    while pos < |data|
      invariant 0 <= pos <= |data|
      invariant DecodeAll(data) ==
                match DecodeAll(data[pos..]) case None => None case Some(rest) => Some(values + rest)
    {
      var one := DecodeOne(data[pos..]);
      if one.None? {
        return None;
      }
      assert data[pos..][one.value.1..] == data[pos + one.value.1..];
      ghost var tail := DecodeAll(data[pos + one.value.1..]);
      assert tail.Some? ==> values + ([one.value.0] + tail.value) == values + [one.value.0] + tail.value;
      values, pos := values + [one.value.0], pos + one.value.1;
    }
    assert data[pos..] == [] && values + [] == values;
    return Some(values);
  }
}
