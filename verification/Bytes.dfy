/** Octets, unsigned integers and their big-endian wire images, shared by every codec. */
module Bytes {

  type byte = x: int | 0 <= x < 256
  type bytes = seq<byte>

  const U32_SPAN: int := 0x1_0000_0000
  type u32 = x: int | 0 <= x < U32_SPAN

  const U64_SPAN: int := 0x1_0000_0000_0000_0000
  type u64 = x: int | 0 <= x < U64_SPAN

  datatype Option<+T> = None | Some(value: T) {

    predicate IsFailure() {
      None?
    }

    function PropagateFailure<U>(): Option<U>
      requires None?
    {
      None
    }

    function Extract(): T
      requires Some?
    {
      value
    }
  }

  function Min(a: int, b: int): int {
    if a < b then a else b
  }

  /** `enc` occupies `s` from `pos` on. */
  predicate At(s: bytes, pos: nat, enc: bytes) {
    pos + |enc| <= |s| && s[pos..pos + |enc|] == enc
  }

  lemma AtConcat(s: bytes, pos: nat, a: bytes, b: bytes)
    requires At(s, pos, a + b)
    ensures At(s, pos, a) && At(s, pos + |a|, b)
  {
    assert s[pos..pos + |a|] == s[pos..pos + |a + b|][..|a|] == a;
    assert s[pos + |a|..pos + |a| + |b|] == s[pos..pos + |a + b|][|a|..] == b;
  }

  lemma AtIndex(s: bytes, pos: nat, enc: bytes, i: nat)
    requires At(s, pos, enc) && i < |enc|
    ensures s[pos + i] == enc[i]
  {
    assert s[pos..pos + |enc|][i] == enc[i];
  }

  lemma AtFront(a: bytes, b: bytes)
    ensures At(a + b, 0, a)
  {
  }

  /** The `n` low-order octets of `v`, most significant first. */
  function Be(v: nat, n: nat): (r: bytes)
    ensures |r| == n
    decreases n
  {
    if n == 0 then [] else Be(v / 256, n - 1) + [v % 256]
  }

  /** The unsigned big-endian integer in `s[pos..pos + n]`. */
  function BeAt(s: bytes, pos: nat, n: nat): nat
    requires pos + n <= |s|
    decreases n
  {
    if n == 0 then 0 else BeAt(s, pos, n - 1) * 256 + s[pos + n - 1]
  }

  function Pow256(n: nat): nat {
    if n == 0 then 1 else 256 * Pow256(n - 1)
  }

  lemma {:induction false} BeAtBound(s: bytes, pos: nat, n: nat)
    requires pos + n <= |s|
    ensures BeAt(s, pos, n) < Pow256(n)
    decreases n
  {
    if n > 0 {
      BeAtBound(s, pos, n - 1);
    }
  }

  function U24At(s: bytes, pos: nat): (v: u32)
    requires pos + 3 <= |s|
    ensures v < 0x100_0000
  {
    BeAtBound(s, pos, 3);
    BeAt(s, pos, 3)
  }

  function U32At(s: bytes, pos: nat): (v: u32)
    requires pos + 4 <= |s|
  {
    BeAtBound(s, pos, 4);
    BeAt(s, pos, 4)
  }

  /** Reading back a printed integer. */
  lemma {:induction false} BeRoundTrip(v: nat, n: nat, s: bytes, pos: nat)
    requires v < Pow256(n)
    requires At(s, pos, Be(v, n))
    ensures BeAt(s, pos, n) == v
    decreases n
  {
    if n > 0 {
      AtConcat(s, pos, Be(v / 256, n - 1), [v % 256]);
      BeRoundTrip(v / 256, n - 1, s, pos);
      AtIndex(s, pos, Be(v, n), n - 1);
    }
  }

  /** Printing what was read: fixed-width images are unique. */
  lemma {:induction false} BeOfBeAt(s: bytes, pos: nat, n: nat)
    requires pos + n <= |s|
    ensures Be(BeAt(s, pos, n), n) == s[pos..pos + n]
    decreases n
  {
    if n > 0 {
      BeOfBeAt(s, pos, n - 1);
      assert s[pos..pos + n] == s[pos..pos + n - 1] + [s[pos + n - 1]];
    }
  }

  /** An integer depends on its own octets only. */
  lemma {:induction false} BeAtAgree(s: bytes, t: bytes, pos: nat, n: nat)
    requires pos + n <= |s| && pos + n <= |t|
    requires forall i :: pos <= i < pos + n ==> s[i] == t[i]
    ensures BeAt(s, pos, n) == BeAt(t, pos, n)
    decreases n
  {
    if n > 0 {
      BeAtAgree(s, t, pos, n - 1);
    }
  }

  lemma BeAtSlice(s: bytes, pos: nat, n: nat)
    requires pos + n <= |s|
    ensures BeAt(s[pos..pos + n], 0, n) == BeAt(s, pos, n)
  {
    var t := s[pos..pos + n];
    BeOfBeAt(s, pos, n);
    BeAtBound(s, pos, n);
    assert At(t, 0, t);
    BeRoundTrip(BeAt(s, pos, n), n, t, 0);
  }

  /** Four octets, least significant first. */
  function Le32(v: u32): (r: bytes)
    ensures |r| == 4
  {
    [v % 256, v / 256 % 256, v / 65536 % 256, v / 16777216]
  }

  function Le32At(s: bytes, pos: nat): u32
    requires pos + 4 <= |s|
  {
    s[pos] as int + 256 * s[pos + 1] as int + 65536 * s[pos + 2] as int + 16777216 * s[pos + 3] as int
  }

  lemma Le32RoundTrip(v: u32, s: bytes, pos: nat)
    requires At(s, pos, Le32(v))
    ensures Le32At(s, pos) == v
  {
    AtIndex(s, pos, Le32(v), 0);
    AtIndex(s, pos, Le32(v), 1);
    AtIndex(s, pos, Le32(v), 2);
    AtIndex(s, pos, Le32(v), 3);
    var a := v / 256;
    assert v / 65536 == a / 256 && v / 16777216 == a / 256 / 256;
  }

  lemma Le32OfLe32At(s: bytes, pos: nat)
    requires pos + 4 <= |s|
    ensures Le32(Le32At(s, pos)) == s[pos..pos + 4]
  {
    var c := s[pos + 2] as int + 256 * s[pos + 3] as int;
    var b := s[pos + 1] as int + 256 * c;
    LowOctet(s[pos], b);
    LowOctet(s[pos + 1], c);
    LowOctet(s[pos + 2], s[pos + 3]);
    var v := Le32At(s, pos);
    assert v == s[pos] as int + 256 * b;
    assert v / 65536 == v / 256 / 256 && v / 16777216 == v / 65536 / 256;
  }

  lemma LowOctet(a: byte, rest: nat)
    ensures (a as int + 256 * rest) % 256 == a && (a as int + 256 * rest) / 256 == rest
  {
  }

  /** A byte vector that encoders append to. */
  class Sink {
    var data: bytes

    constructor ()
      ensures data == []
    {
      data := [];
    }
  }
}
