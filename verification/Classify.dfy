/** Media classification of RTMP payloads, legacy and enhanced. */
module Classify {
  import opened Bytes

  datatype MediaClass = SequenceHeader | Metadata | Keyframe | Coded | Control | UnknownClass

  datatype MediaInfo = MediaInfo(
    cls: MediaClass, enhanced: bool, multitrack: bool, forceStream: bool, fourcc: u32, codec: byte)

  const PLAIN: MediaInfo := MediaInfo(UnknownClass, false, false, false, 0, 0)
  const RELIABLE: MediaInfo := PLAIN.(forceStream := true)
  const RELIABLE_ENHANCED: MediaInfo := RELIABLE.(enhanced := true)

  const MODEX: nat := 7

  /** Size of the block's data and where it starts (0 when the size is truncated). */
  function BlockHead(p: bytes, pos: nat): (r: (nat, nat))
    requires pos < |p|
    ensures r.0 >= 1 && (r.1 == 0 || pos < r.1 <= |p|)
  {
    if p[pos] != 255 then (1 + p[pos] as nat, pos + 1)
    else if pos + 3 > |p| then (1, 0)
    else (1 + BeAt(p, pos + 1, 2), pos + 3)
  }

  /** The effective packet type and the position after all ModEx blocks; None on truncation. */
  function SkipModEx(p: bytes, pos: nat, packet: nat): (r: Option<(nat, nat)>)
    requires pos <= |p|
    ensures r.Some? ==> pos <= r.value.1 <= |p|
    decreases |p| - pos
  {
    if packet != MODEX then Some((packet, pos))
    else if pos == |p| then None
    else
      var (size, data) := BlockHead(p, pos);
      if data == 0 || data + size + 1 > |p| then None
      else SkipModEx(p, data + size + 1, p[data + size] % 16)
  }

  method SkipModExLoop(p: bytes, start: nat, first: nat) returns (r: Option<(nat, nat)>)
    requires start <= |p|
    ensures r == SkipModEx(p, start, first)
  {
    var pos: nat, packet: nat := start, first;
    while packet == MODEX
      invariant pos <= |p|
      invariant SkipModEx(p, start, first) == SkipModEx(p, pos, packet)
      decreases |p| - pos
    {
      if pos >= |p| {
        return None;
      }
      var size := p[pos] as nat + 1;
      ghost var at := pos;
      pos := pos + 1;
      if size == 256 {
        if pos + 2 > |p| {
          return None;
        }
        size := BeAt(p, pos, 2) + 1;
        pos := pos + 2;
      }
      if pos + size + 1 > |p| {
        return None;
      }
      pos := pos + size;
      packet := p[pos] % 16;
      pos := pos + 1;
    }
    return Some((packet, pos));
  }

  function ReadFourCc(p: bytes, pos: nat): Option<u32>
    requires pos <= |p|
  {
    if pos + 4 > |p| then None else Some(U32At(p, pos))
  }

  function Multitrack(p: bytes, pos: nat): MediaInfo
    requires pos <= |p|
  {
    var f := if pos < |p| && p[pos] / 16 != 2 then ReadFourCc(p, pos + 1) else None;
    MediaInfo(Coded, true, true, true, if f.Some? then f.value else 0, 0)
  }

  /** Classification from the effective packet type on. */
  function VideoBody(p: bytes, frameType: nat, packet: nat, pos: nat): MediaInfo
    requires pos <= |p|
  {
    if packet == 6 then Multitrack(p, pos)
    else
      match ReadFourCc(p, pos)
      case None => RELIABLE_ENHANCED
      case Some(f) =>
        var info := PLAIN.(enhanced := true, fourcc := f);
        if packet == 0 || packet == 5 then info.(cls := SequenceHeader)
        else if packet == 1 || packet == 3 then info.(cls := if frameType == 1 then Keyframe else Coded)
        else if packet == 2 then info.(cls := Control)
        else if packet == 4 then info.(cls := Metadata)
        else RELIABLE_ENHANCED
  }

  function AudioBody(p: bytes, packet: nat, pos: nat): MediaInfo
    requires pos <= |p|
  {
    if packet == 5 then Multitrack(p, pos)
    else
      match ReadFourCc(p, pos)
      case None => RELIABLE_ENHANCED
      case Some(f) =>
        var info := PLAIN.(enhanced := true, fourcc := f);
        if packet == 0 || packet == 4 then info.(cls := SequenceHeader)
        else if packet == 1 then info.(cls := Coded)
        else if packet == 2 then info.(cls := Control)
        else RELIABLE_ENHANCED
  }

  function ClassifyVideo(p: bytes): MediaInfo {
    if p == [] then RELIABLE
    else
      var frameType, codec := p[0] / 16 % 8, p[0] % 16;
      if p[0] >= 128 then
        match SkipModEx(p, 1, codec)
        case None => RELIABLE_ENHANCED
        case Some((packet, pos)) => VideoBody(p, frameType, packet, pos)
      else
        var info := PLAIN.(codec := codec);
        if frameType == 5 then info.(cls := Control)
        else if codec == 7 && |p| < 2 then RELIABLE
        else if codec == 7 && p[1] == 0 then info.(cls := SequenceHeader)
        else if codec == 7 && p[1] == 2 then info.(cls := Control)
        else info.(cls := if frameType == 1 then Keyframe else Coded)
  }

  function ClassifyAudio(p: bytes): MediaInfo {
    if p == [] then RELIABLE
    else
      var format := p[0] / 16;
      if format == 9 then
        match SkipModEx(p, 1, p[0] % 16)
        case None => RELIABLE_ENHANCED
        case Some((packet, pos)) => AudioBody(p, packet, pos)
      else
        var info := PLAIN.(codec := format);
        if format == 10 && |p| < 2 then RELIABLE
        else info.(cls := if format == 10 && p[1] == 0 then SequenceHeader else Coded)
  }

  // ---- ModEx blocks are invisible

  /** Data of 1 to 65536 octets, in the one-octet or the three-octet size form. */
  datatype ModEx = ModEx(data: bytes, long: bool, kind: nat)

  predicate LegalModEx(b: ModEx) {
    1 <= |b.data| <= (if b.long then 65536 else 255) && b.kind < 16
  }

  function SizeBytes(b: ModEx): bytes
    requires LegalModEx(b)
  {
    if b.long then [255] + Be(|b.data| - 1, 2) else [|b.data| - 1]
  }

  function ModExBytes(b: ModEx, next: nat): bytes
    requires LegalModEx(b) && next < 16
  {
    SizeBytes(b) + b.data + [16 * b.kind + next]
  }

  predicate LegalChain(bs: seq<ModEx>) {
    forall i :: 0 <= i < |bs| ==> LegalModEx(bs[i])
  }

  /** A chain of blocks; only the last one names the effective packet type. */
  function Chain(bs: seq<ModEx>, packet: nat): bytes
    requires LegalChain(bs) && packet < 16
  {
    if bs == [] then []
    else ModExBytes(bs[0], if |bs| == 1 then packet else 7) + Chain(bs[1..], packet)
  }

  lemma SkipOne(p: bytes, pos: nat, b: ModEx, next: nat)
    requires LegalModEx(b) && next < 16 && At(p, pos, ModExBytes(b, next))
    ensures SkipModEx(p, pos, MODEX) == SkipModEx(p, pos + |ModExBytes(b, next)|, next)
  {
    hide BlockHead, SizeBytes, SkipModEx;
    var size, last := SizeBytes(b), [16 * b.kind + next];
    AtConcat(p, pos, size + b.data, last);
    AtConcat(p, pos, size, b.data);
    AtIndex(p, pos + |size + b.data|, last, 0);
    HeadOfBlock(p, pos, b);
    SkipUnfold(p, pos);
    assert (16 * b.kind + next) % 16 == next;
  }

  lemma SkipUnfold(p: bytes, pos: nat)
    requires pos < |p|
    ensures SkipModEx(p, pos, MODEX) ==
            var (size, data) := BlockHead(p, pos);
            if data == 0 || data + size + 1 > |p| then None
            else SkipModEx(p, data + size + 1, p[data + size] % 16)
  {
    hide BlockHead;
  }

  lemma HeadOfBlock(p: bytes, pos: nat, b: ModEx)
    requires LegalModEx(b) && At(p, pos, SizeBytes(b))
    ensures |SizeBytes(b)| >= 1 && pos < |p| && BlockHead(p, pos) == (|b.data|, pos + |SizeBytes(b)|)
  {
    hide Be, BeAt;
    AtIndex(p, pos, SizeBytes(b), 0);
    if b.long {
      AtConcat(p, pos, [255], Be(|b.data| - 1, 2));
      assert Pow256(2) == 65536;
      BeRoundTrip(|b.data| - 1, 2, p, pos + 1);
    }
  }

  lemma {:induction false} SkipChain(p: bytes, pos: nat, bs: seq<ModEx>, packet: nat)
    requires LegalChain(bs) && bs != [] && packet < 16 && At(p, pos, Chain(bs, packet))
    ensures SkipModEx(p, pos, MODEX) == SkipModEx(p, pos + |Chain(bs, packet)|, packet)
    decreases |bs|
  {
    hide SkipModEx, ModExBytes, LegalModEx;
    var next := if |bs| == 1 then packet else MODEX;
    var one, rest := ModExBytes(bs[0], next), Chain(bs[1..], packet);
    AtConcat(p, pos, one, rest);
    SkipOne(p, pos, bs[0], next);
    if |bs| > 1 {
      SkipChain(p, pos + |one|, bs[1..], packet);
    }
  }

  /** `q` from `pos + d` on is `p` from `pos` on. */
  ghost predicate Shifted(p: bytes, q: bytes, pos: nat, d: nat) {
    |q| == |p| + d && forall i :: pos <= i < |p| ==> q[i + d] == p[i]
  }

  lemma {:induction false} BeAtShift(p: bytes, q: bytes, pos: nat, d: nat, n: nat)
    requires Shifted(p, q, pos, d) && pos + n <= |p|
    ensures BeAt(q, pos + d, n) == BeAt(p, pos, n)
    decreases n
  {
    if n > 0 {
      BeAtShift(p, q, pos, d, n - 1);
      assert q[pos + n - 1 + d] == p[pos + n - 1];
    }
  }

  lemma {:induction false} SkipShift(p: bytes, q: bytes, pos: nat, d: nat, packet: nat)
    requires pos <= |p| && Shifted(p, q, pos, d)
    ensures SkipModEx(q, pos + d, packet) ==
            match SkipModEx(p, pos, packet)
            case None => None
            case Some((t, end)) => Some((t, end + d))
    decreases |p| - pos
  {
    hide BlockHead;
    if packet == MODEX && pos < |p| {
      HeadShift(p, q, pos, d);
      var (size, data) := BlockHead(p, pos);
      if data > 0 && data + size + 1 <= |p| {
        assert q[data + size + d] == p[data + size];
        SkipShift(p, q, data + size + 1, d, p[data + size] % 16);
      }
    }
  }

  lemma HeadShift(p: bytes, q: bytes, pos: nat, d: nat)
    requires pos < |p| && Shifted(p, q, pos, d)
    ensures var (size, data) := BlockHead(p, pos);
            BlockHead(q, pos + d) == (size, if data == 0 then 0 else data + d)
  {
    hide BeAt;
    assert q[pos + d] == p[pos];
    if pos + 3 <= |p| {
      BeAtShift(p, q, pos + 1, d, 2);
    }
  }

  lemma FourCcShift(p: bytes, q: bytes, pos: nat, d: nat)
    requires pos <= |p| && Shifted(p, q, pos, d)
    ensures ReadFourCc(q, pos + d) == ReadFourCc(p, pos)
    ensures Multitrack(q, pos + d) == Multitrack(p, pos)
  {
    if pos + 4 <= |p| {
      BeAtShift(p, q, pos, d, 4);
    }
    if pos < |p| {
      assert q[pos + d] == p[pos];
    }
    if pos + 5 <= |p| {
      BeAtShift(p, q, pos + 1, d, 4);
    }
  }

  /** The payload with a ModEx chain put in front of its effective packet type. */
  function WithChain(p: bytes, bs: seq<ModEx>): bytes
    requires p != [] && LegalChain(bs)
  {
    [16 * (p[0] / 16) + 7] + Chain(bs, p[0] % 16) + p[1..]
  }

  lemma ChainSkipped(p: bytes, bs: seq<ModEx>)
    requires p != [] && LegalChain(bs) && bs != []
    ensures var q := WithChain(p, bs);
            var d := |Chain(bs, p[0] % 16)|;
            && Shifted(p, q, 1, d)
            && SkipModEx(q, 1, MODEX) ==
               match SkipModEx(p, 1, p[0] % 16)
               case None => None
               case Some((t, end)) => Some((t, end + d))
  {
    hide SkipModEx, Chain;
    var c := Chain(bs, p[0] % 16);
    var q := WithChain(p, bs);
    assert At(q, 1, c);
    SkipChain(q, 1, bs, p[0] % 16);
    SkipShift(p, q, 1, |c|, p[0] % 16);
  }

  /** Any chain of well-formed ModEx blocks leaves the classification unchanged. */
  lemma ModExInvisible(p: bytes, bs: seq<ModEx>)
    requires p != [] && LegalChain(bs) && bs != []
    ensures p[0] >= 128 ==> ClassifyVideo(WithChain(p, bs)) == ClassifyVideo(p)
    ensures p[0] / 16 == 9 ==> ClassifyAudio(WithChain(p, bs)) == ClassifyAudio(p)
  {
    hide SkipModEx, Chain, ReadFourCc, Multitrack;
    ChainSkipped(p, bs);
    var d := |Chain(bs, p[0] % 16)|;
    var r := SkipModEx(p, 1, p[0] % 16);
    if r.Some? {
      FourCcShift(p, WithChain(p, bs), r.value.1, d);
    }
  }
}
