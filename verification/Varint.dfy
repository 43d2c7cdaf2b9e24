/** QUIC variable-length integers (section 16 of RFC 9000). */
module Varint {
  import opened Bytes

  const MAX: u64 := 0x3FFF_FFFF_FFFF_FFFF

  /** Octets needed for `v`, or 0 when it does not fit. */
  function Size(v: u64): nat {
    if v <= 63 then 1
    else if v <= 16383 then 2
    else if v <= 1073741823 then 4
    else if v <= MAX then 8
    else 0
  }

  /** The two-bit length prefix, in its place in the first octet. */
  function Prefix(len: nat): byte {
    if len == 1 then 0 else if len == 2 then 64 else if len == 4 then 128 else 192
  }

  lemma Powers()
    ensures Pow256(1) == 0x100 && Pow256(2) == 0x1_0000 && Pow256(4) == 0x1_0000_0000
    ensures Pow256(3) == 0x100_0000 && Pow256(7) == 0x100_0000_0000_0000
    ensures Pow256(8) == 0x1_0000_0000_0000_0000
  {
    assert Pow256(3) == 256 * Pow256(2);
    assert Pow256(5) == 256 * Pow256(4);
    assert Pow256(7) == 256 * Pow256(6);
  }

  lemma {:induction false} BeFirst(v: nat, n: nat)
    requires 1 <= n && v < 64 * Pow256(n - 1)
    ensures Be(v, n)[0] < 64
    decreases n
  {
    if n > 1 {
      BeFirst(v / 256, n - 1);
      assert Be(v, n)[0] == Be(v / 256, n - 1)[0];
    }
  }

  /** The value fits beside the prefix, so the first octet has its two top bits free. */
  lemma RoomForPrefix(v: u64)
    requires v <= MAX
    ensures Size(v) in {1, 2, 4, 8} && v < Pow256(Size(v))
    ensures Be(v, Size(v))[0] < 64
  {
    Powers();
    BeFirst(v, Size(v));
  }

  function Encode(v: u64): (r: bytes)
    requires v <= MAX
    ensures |r| == Size(v) && r != []
  {
    RoomForPrefix(v);
    var b := Be(v, Size(v));
    b[0 := b[0] + Prefix(|b|)]
  }

  /** 1, 2, 4 or 8 octets, by the two top bits of the first one. */
  function Length(first: byte): nat {
    if first < 64 then 1 else if first < 128 then 2 else if first < 192 then 4 else 8
  }

  /** The value at `pos` and the position after it; None while octets are missing. */
  function Decode(s: bytes, pos: nat): (r: Option<(u64, nat)>)
    requires pos <= |s|
    ensures r.Some? ==> r.value.0 <= MAX && pos < r.value.1 <= |s|
  {
    if pos == |s| || pos + Length(s[pos]) > |s| then None
    else
      DecodeBound(s, pos);
      Some((Masked(s, pos), pos + Length(s[pos])))
  }

  function Masked(s: bytes, pos: nat): nat
    requires pos < |s| && pos + Length(s[pos]) <= |s|
  {
    BeAt(s[pos := s[pos] % 64], pos, Length(s[pos]))
  }

  lemma {:induction false} BeAtBoundFirst(s: bytes, pos: nat, n: nat)
    requires 1 <= n && pos + n <= |s| && s[pos] < 64
    ensures BeAt(s, pos, n) < 64 * Pow256(n - 1)
    decreases n
  {
    if n == 1 {
      assert BeAt(s, pos, 1) == BeAt(s, pos, 0) * 256 + s[pos];
    } else {
      BeAtBoundFirst(s, pos, n - 1);
    }
  }

  /** A value never needs more octets than the ones it was read from. */
  lemma DecodeBound(s: bytes, pos: nat)
    requires pos < |s| && pos + Length(s[pos]) <= |s|
    ensures Masked(s, pos) <= MAX && 1 <= Size(Masked(s, pos)) <= Length(s[pos])
  {
    hide BeAt;
    Powers();
    BeAtBoundFirst(s[pos := s[pos] % 64], pos, Length(s[pos]));
  }

  /** The four forms of section 16 of RFC 9000: two bits of length, then the value, big-endian. */
  predicate Form(b: bytes, v: nat) {
    || (|b| == 1 && b[0] / 64 == 0 && v == b[0])
    || (|b| == 2 && b[0] / 64 == 1 && v == BeAt(b, 0, 2) - 0x4000)
    || (|b| == 4 && b[0] / 64 == 2 && v == BeAt(b, 0, 4) - 0x8000_0000)
    || (|b| == 8 && b[0] / 64 == 3 && v == BeAt(b, 0, 8) - 0xC000_0000_0000_0000)
  }

  lemma {:induction false} BeAtFirst(s: bytes, pos: nat, n: nat, first: byte)
    requires 1 <= n && pos + n <= |s|
    ensures BeAt(s, pos, n) == BeAt(s[pos := first], pos, n) + (s[pos] as int - first as int) * Pow256(n - 1)
    decreases n
  {
    hide BeAt, Pow256;
    var t, d := s[pos := first], s[pos] as int - first as int;
    Pow256Step(n - 1);
    if n == 1 {
      OneOctet(s, pos);
      OneOctet(t, pos);
    } else {
      BeAtFirst(s, pos, n - 1, first);
      BeAtStep(s, pos, n);
      BeAtStep(t, pos, n);
      Carry(d, Pow256(n - 2));
    }
  }

  lemma Pow256Step(n: nat)
    ensures Pow256(n) == if n == 0 then 1 else 256 * Pow256(n - 1)
  {
  }

  lemma Carry(d: int, p: int)
    ensures d * (256 * p) == 256 * (d * p)
  {
  }

  lemma BeAtStep(s: bytes, pos: nat, n: nat)
    requires 1 <= n && pos + n <= |s|
    ensures BeAt(s, pos, n) == BeAt(s, pos, n - 1) * 256 + s[pos + n - 1]
  {
  }

  /** The prefix bits are worth their place in the first octet. */
  lemma MaskedIs(s: bytes, pos: nat)
    requires pos < |s| && pos + Length(s[pos]) <= |s|
    ensures var n := Length(s[pos]);
            && BeAt(s[pos..pos + n], 0, n) == Masked(s, pos) + 64 * (s[pos] / 64) * Pow256(n - 1)
            && (n == 1 ==> Masked(s, pos) == s[pos])
  {
    hide BeAt, Pow256;
    var n := Length(s[pos]);
    BeAtSlice(s, pos, n);
    BeAtFirst(s, pos, n, s[pos] % 64);
    assert s[pos] as int - (s[pos] % 64) as int == 64 * (s[pos] / 64);
    if n == 1 {
      OneOctet(s[pos := s[pos] % 64], pos);
    }
  }

  lemma OneOctet(s: bytes, pos: nat)
    requires pos < |s|
    ensures BeAt(s, pos, 1) == s[pos]
  {
    assert BeAt(s, pos, 0) == 0;
  }

  /** The decoder reads exactly these forms. */
  lemma DecodeIff(s: bytes, pos: nat, v: u64, end: nat)
    requires pos <= |s|
    ensures Decode(s, pos) == Some((v, end)) <==> pos <= end <= |s| && Form(s[pos..end], v)
  {
    hide BeAt, Masked, Pow256;
    if pos < |s| && pos + Length(s[pos]) <= |s| {
      MaskedIs(s, pos);
      hide Pow256;
      Powers();
      assert s[pos..pos + Length(s[pos])][0] == s[pos];
    }
    if pos < end <= |s| {
      assert s[pos..end][0] == s[pos];
    }
  }

  lemma RoundTrip(v: u64, s: bytes, pos: nat)
    requires v <= MAX && At(s, pos, Encode(v))
    ensures Decode(s, pos) == Some((v, pos + Size(v)))
  {
    hide Be, BeAt;
    RoomForPrefix(v);
    var b := Be(v, Size(v));
    AtIndex(s, pos, Encode(v), 0);
    assert Length(s[pos]) == |b| && s[pos] % 64 == b[0];
    var t := s[pos := s[pos] % 64];
    assert t[pos..pos + |b|] == b;
    BeRoundTrip(v, |b|, t, pos);
  }

  /** `Encode` is the shortest of all encodings `Decode` accepts for the value. */
  lemma Shortest(s: bytes, pos: nat)
    requires pos <= |s| && Decode(s, pos).Some?
    ensures var (v, end) := Decode(s, pos).value;
            |Encode(v)| <= end - pos
  {
    DecodeBound(s, pos);
  }

  lemma DecodeAgree(s: bytes, t: bytes, pos: nat)
    requires pos <= |s| && Decode(s, pos).Some?
    requires Decode(s, pos).value.1 <= |t|
    requires forall i :: pos <= i < Decode(s, pos).value.1 ==> s[i] == t[i]
    ensures Decode(t, pos) == Decode(s, pos)
  {
    hide BeAt;
    var n := Length(s[pos]);
    BeAtAgree(s[pos := s[pos] % 64], t[pos := t[pos] % 64], pos, n);
  }

  // ---- the loops

  method EncodeInto(value: u64, out: array<byte>) returns (n: nat)
    modifies out
    ensures n == if value > MAX || out.Length < Size(value) then 0 else Size(value)
    ensures n == 0 ==> out[..] == old(out[..])
    ensures n > 0 ==> out[..n] == Encode(value) && out[n..] == old(out[n..])
  {
    var len := Size(value);
    if len == 0 || out.Length < len {
      return 0;
    }
    var v, i := value, len;
    while i > 0
      invariant 0 <= i <= len
      invariant Be(value, len) == Be(v, i) + out[i..len]
      invariant out[len..] == old(out[len..])
    {
      ghost var done := out[i..len];
      i := i - 1;
      out[i] := v % 256;
      assert Be(v, i + 1) == Be(v / 256, i) + [v % 256];
      assert out[i..len] == [v % 256] + done;
      v := v / 256;
    }
    RoomForPrefix(value);
    assert out[..len] == Be(value, len);
    // The two top bits are clear, so setting the prefix bits adds them.
    out[0] := out[0] + Prefix(len);
    return len;
  }

  method DecodeFrom(s: bytes) returns (r: Option<(u64, nat)>)
    ensures r == Decode(s, 0)
  {
    if s == [] {
      return None;
    }
    var len := Length(s[0]);
    if |s| < len {
      return None;
    }
    ghost var masked := s[0 := s[0] % 64];
    var value: nat, i := s[0] % 64, 1;
    while i < len
      invariant 1 <= i <= len
      invariant value == BeAt(masked, 0, i)
    {
      value := value * 256 + s[i];
      i := i + 1;
    }
    DecodeBound(s, 0);
    r := Some((value, len));
  }
}
