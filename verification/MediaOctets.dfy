/** Which payload octets get which media class, and which payloads may travel as datagrams. */
module MediaOctets {
  import opened Bytes
  import opened ChunkFormat
  import opened Classify
  import opened Delivery

  // ---- the effective packet type

  /** Packet type `t` is in effect and the ModEx blocks before it end at `end`. */
  ghost predicate Effective(p: bytes, t: nat, end: nat) {
    && p != [] && t < 16 && t != 7
    && if p[0] % 16 != 7 then t == p[0] % 16 && end == 1
       else exists bs :: LegalChain(bs) && bs != [] && At(p, 1, Chain(bs, t)) && end == 1 + |Chain(bs, t)|
  }

  lemma SizeSkipped(p: bytes, pos: nat, b: ModEx)
    requires pos < |p| && b.kind < 16 && b.long == (p[pos] == 255)
    requires var (size, data) := BlockHead(p, pos); data > 0 && |b.data| == size
    ensures LegalModEx(b) && p[pos..BlockHead(p, pos).1] == SizeBytes(b)
  {
    hide BeAt, Be;
    if b.long {
      BeAtBound(p, pos + 1, 2);
      assert Pow256(2) == 65536;
      BeOfBeAt(p, pos + 1, 2);
      assert p[pos..pos + 3] == [255] + p[pos + 1..pos + 3];
    }
  }

  /** The block the skipping loop steps over, with the packet type it names. */
  lemma BlockSkipped(p: bytes, pos: nat) returns (b: ModEx, end: nat)
    requires pos <= |p| && SkipModEx(p, pos, 7).Some?
    ensures LegalModEx(b) && pos < end <= |p|
    ensures p[pos..end] == ModExBytes(b, p[end - 1] % 16)
    ensures SkipModEx(p, pos, 7) == SkipModEx(p, end, p[end - 1] % 16)
  {
    hide BlockHead, SizeBytes, SkipModEx, LegalModEx;
    SkipNeedsBlock(p, pos);
    SkipUnfold(p, pos);
    var (size, data) := BlockHead(p, pos);
    end := data + size + 1;
    b := ModEx(p[data..data + size], p[pos] == 255, p[data + size] / 16);
    SizeSkipped(p, pos, b);
    ThreeParts(p, pos, data, data + size);
  }

  lemma ThreeParts(p: bytes, i: nat, j: nat, k: nat)
    requires i <= j <= k < |p|
    ensures p[i..k + 1] == p[i..j] + p[j..k] + [16 * (p[k] / 16) + p[k] % 16]
  {
  }

  lemma SkipNeedsBlock(p: bytes, pos: nat)
    requires pos <= |p| && SkipModEx(p, pos, 7).Some?
    ensures pos < |p|
  {
  }

  lemma ChainGrows(b: ModEx, bs: seq<ModEx>, t: nat)
    requires LegalModEx(b) && LegalChain(bs) && t < 16
    ensures LegalChain([b] + bs)
    ensures Chain([b] + bs, t) == ModExBytes(b, if bs == [] then t else 7) + Chain(bs, t)
  {
    hide ModExBytes, LegalModEx;
    assert ([b] + bs)[1..] == bs;
  }

  lemma {:induction false} ChainSkippedOver(p: bytes, pos: nat, t: nat, end: nat) returns (bs: seq<ModEx>)
    requires pos <= |p| && SkipModEx(p, pos, 7) == Some((t, end))
    ensures t < 16 && t != 7 && LegalChain(bs) && bs != [] && At(p, pos, Chain(bs, t)) && end == pos + |Chain(bs, t)|
    decreases |p| - pos
  {
    hide LegalModEx, LegalChain, ModExBytes, Chain;
    var b, mid := BlockSkipped(p, pos);
    if p[mid - 1] % 16 == 7 {
      hide SkipModEx;
      var rest := ChainSkippedOver(p, mid, t, end);
      bs := [b] + rest;
      ChainGrows(b, rest, t);
      assert p[pos..end] == p[pos..mid] + p[mid..end];
    } else {
      bs := [b];
      EmptyChain(t);
      ChainGrows(b, [], t);
      assert [b] + [] == bs;
    }
  }

  lemma EmptyChain(t: nat)
    requires t < 16
    ensures LegalChain([]) && Chain([], t) == []
  {
  }

  /** The loop finds a packet type exactly when well-formed blocks lead to it. */
  lemma EffectiveIff(p: bytes, t: nat, end: nat)
    requires p != []
    ensures SkipModEx(p, 1, p[0] % 16) == Some((t, end)) <==> Effective(p, t, end)
  {
    hide Chain, LegalChain;
    if p[0] % 16 == 7 {
      if SkipModEx(p, 1, 7) == Some((t, end)) {
        hide SkipModEx;
        var bs := ChainSkippedOver(p, 1, t, end);
      }
      if Effective(p, t, end) {
        var bs :| LegalChain(bs) && bs != [] && At(p, 1, Chain(bs, t)) && end == 1 + |Chain(bs, t)|;
        SkipChain(p, 1, bs, t);
      }
    }
  }

  /** Packet type `t` is in effect and a FourCC follows. */
  ghost predicate Tagged(p: bytes, t: nat) {
    exists end: nat :: Effective(p, t, end) && end + 4 <= |p|
  }

  ghost predicate InEffect(p: bytes, t: nat) {
    exists end: nat :: Effective(p, t, end)
  }

  lemma TaggedIff(p: bytes, t: nat)
    requires p != []
    ensures var r := SkipModEx(p, 1, p[0] % 16);
            && (InEffect(p, t) <==> r.Some? && r.value.0 == t)
            && (Tagged(p, t) <==> r.Some? && r.value.0 == t && r.value.1 + 4 <= |p|)
  {
    hide Effective, SkipModEx;
    var r := SkipModEx(p, 1, p[0] % 16);
    forall end: nat
      ensures Effective(p, t, end) <==> r == Some((t, end))
    {
      EffectiveIff(p, t, end);
    }
    if r.Some? && r.value.0 == t {
      assert Effective(p, t, r.value.1);
    }
  }

  // ---- video

  /** The first octet's top bit announces the enhanced form; then come the frame type and the codec or packet type. */
  ghost predicate EnhancedVideo(p: bytes) {
    p != [] && p[0] >= 0x80
  }

  ghost predicate LegacyVideo(p: bytes) {
    p != [] && p[0] < 0x80
  }

  /** An H.264 payload of the given packet type. */
  ghost predicate Avc(p: bytes, t: byte) {
    LegacyVideo(p) && p[0] / 16 != 5 && p[0] % 16 == 7 && |p| >= 2 && p[1] == t
  }

  ghost predicate VideoMultitrack(p: bytes) {
    EnhancedVideo(p) && InEffect(p, 6)
  }

  /** One coded frame of a single track. */
  ghost predicate VideoFrame(p: bytes) {
    || (LegacyVideo(p) && p[0] / 16 != 5 && (p[0] % 16 == 7 ==> |p| >= 2 && p[1] != 0 && p[1] != 2))
    || (EnhancedVideo(p) && (Tagged(p, 1) || Tagged(p, 3)))
  }

  ghost predicate VideoIs(p: bytes, cls: MediaClass) {
    match cls
    case SequenceHeader => Avc(p, 0) || (EnhancedVideo(p) && (Tagged(p, 0) || Tagged(p, 5)))
    case Metadata => EnhancedVideo(p) && Tagged(p, 4)
    case Keyframe => VideoFrame(p) && p[0] / 16 % 8 == 1
    case Coded => (VideoFrame(p) && p[0] / 16 % 8 != 1) || VideoMultitrack(p)
    case Control => (LegacyVideo(p) && p[0] / 16 == 5) || Avc(p, 2) || (EnhancedVideo(p) && Tagged(p, 2))
    case UnknownClass =>
      || p == []
      || (|p| == 1 && LegacyVideo(p) && p[0] / 16 != 5 && p[0] % 16 == 7)
      || (EnhancedVideo(p) && !InEffect(p, 6) &&
          !Tagged(p, 0) && !Tagged(p, 1) && !Tagged(p, 2) && !Tagged(p, 3) && !Tagged(p, 4) && !Tagged(p, 5))
  }

  lemma EnhancedVideoExactly(p: bytes, cls: MediaClass)
    requires EnhancedVideo(p)
    ensures ClassifyVideo(p).cls == cls <==> VideoIs(p, cls)
    ensures ClassifyVideo(p).multitrack <==> VideoMultitrack(p)
  {
    hide SkipModEx, Tagged, InEffect;
    forall t: nat
      ensures var r := SkipModEx(p, 1, p[0] % 16);
              && (InEffect(p, t) <==> r.Some? && r.value.0 == t)
              && (Tagged(p, t) <==> r.Some? && r.value.0 == t && r.value.1 + 4 <= |p|)
    {
      TaggedIff(p, t);
    }
  }

  /** The class of every video payload, by its octets. */
  lemma VideoExactly(p: bytes, cls: MediaClass)
    ensures ClassifyVideo(p).cls == cls <==> VideoIs(p, cls)
    ensures ClassifyVideo(p).multitrack <==> VideoMultitrack(p)
    ensures ClassifyVideo(p).enhanced <==> EnhancedVideo(p)
  {
    if EnhancedVideo(p) {
      EnhancedVideoExactly(p, cls);
    }
  }

  // ---- audio

  ghost predicate EnhancedAudio(p: bytes) {
    p != [] && p[0] / 16 == 9
  }

  ghost predicate LegacyAudio(p: bytes) {
    p != [] && p[0] / 16 != 9
  }

  ghost predicate AudioMultitrack(p: bytes) {
    EnhancedAudio(p) && InEffect(p, 5)
  }

  ghost predicate AudioFrame(p: bytes) {
    || (LegacyAudio(p) && (p[0] / 16 == 10 ==> |p| >= 2 && p[1] != 0))
    || (EnhancedAudio(p) && Tagged(p, 1))
  }

  ghost predicate AudioIs(p: bytes, cls: MediaClass) {
    match cls
    case SequenceHeader =>
      || (LegacyAudio(p) && p[0] / 16 == 10 && |p| >= 2 && p[1] == 0)
      || (EnhancedAudio(p) && (Tagged(p, 0) || Tagged(p, 4)))
    case Metadata => false
    case Keyframe => false
    case Coded => AudioFrame(p) || AudioMultitrack(p)
    case Control => EnhancedAudio(p) && Tagged(p, 2)
    case UnknownClass =>
      || p == []
      || (|p| == 1 && p[0] / 16 == 10)
      || (EnhancedAudio(p) && !InEffect(p, 5) && !Tagged(p, 0) && !Tagged(p, 1) && !Tagged(p, 2) && !Tagged(p, 4))
  }

  /** The class of every audio payload, by its octets. */
  lemma AudioExactly(p: bytes, cls: MediaClass)
    ensures ClassifyAudio(p).cls == cls <==> AudioIs(p, cls)
    ensures ClassifyAudio(p).multitrack <==> AudioMultitrack(p)
    ensures ClassifyAudio(p).enhanced <==> EnhancedAudio(p)
  {
    hide SkipModEx, Tagged, InEffect;
    if EnhancedAudio(p) {
      forall t: nat
        ensures var r := SkipModEx(p, 1, p[0] % 16);
                && (InEffect(p, t) <==> r.Some? && r.value.0 == t)
                && (Tagged(p, t) <==> r.Some? && r.value.0 == t && r.value.1 + 4 <= |p|)
      {
        TaggedIff(p, t);
      }
    }
  }

  /** The codec a payload names: a nibble in the legacy forms, a FourCC where one follows the packet type. */
  lemma CodecExactly(p: bytes)
    requires p != []
    ensures LegacyVideo(p) && ClassifyVideo(p).cls != UnknownClass ==> ClassifyVideo(p).codec == p[0] % 16
    ensures LegacyAudio(p) && ClassifyAudio(p).cls != UnknownClass ==> ClassifyAudio(p).codec == p[0] / 16
    ensures forall t: nat, end: nat :: EnhancedVideo(p) && t <= 5 && Effective(p, t, end) && end + 4 <= |p| ==>
                               ClassifyVideo(p).fourcc == U32At(p, end)
    ensures forall t: nat, end: nat :: EnhancedAudio(p) && t in {0, 1, 2, 4} && Effective(p, t, end) && end + 4 <= |p| ==>
                               ClassifyAudio(p).fourcc == U32At(p, end)
  {
    hide SkipModEx, Effective, U32At;
    assert forall end: nat :: end + 4 <= |p| ==> ReadFourCc(p, end) == Some(U32At(p, end));
    forall t: nat, end: nat
      ensures Effective(p, t, end) <==> SkipModEx(p, 1, p[0] % 16) == Some((t, end))
    {
      EffectiveIff(p, t, end);
    }
  }

  // ---- what travels as a datagram

  /** The payload is one coded frame of a single track, by its octets. */
  ghost predicate SingleFrame(m: Message) {
    (m.typ == 9 && VideoFrame(m.payload)) || (m.typ == 8 && AudioFrame(m.payload))
  }

  /** An ingest message becomes a datagram exactly when it is one coded audio or video frame of a single track and
      its frame fits a negotiated datagram; it is never dropped by policy. */
  lemma DatagramIff(m: Message, negotiated: bool, size: nat, max: nat, fallback: Fallback)
    ensures var r := Resolve(m.typ, ModeFor(m), negotiated, size, max, fallback);
            r != Dropped && (r == InDatagram <==> SingleFrame(m) && negotiated && size <= max)
  {
    hide ClassifyVideo, ClassifyAudio, VideoIs, AudioIs, VideoFrame, AudioFrame;
    ForcedIff(m.payload);
    ClassesOfFrames(m.payload);
  }

  /** Coded frames are exactly the payloads of class Keyframe or Coded that are not multitrack. */
  lemma ClassesOfFrames(p: bytes)
    ensures var i := ClassifyVideo(p);
            VideoFrame(p) <==> (i.cls == Keyframe || i.cls == Coded) && !i.multitrack
    ensures var i := ClassifyAudio(p);
            AudioFrame(p) <==> (i.cls == Keyframe || i.cls == Coded) && !i.multitrack
  {
    hide ClassifyVideo, ClassifyAudio, Effective;
    VideoExactly(p, Keyframe);
    VideoExactly(p, Coded);
    AudioExactly(p, Keyframe);
    AudioExactly(p, Coded);
    if EnhancedVideo(p) || EnhancedAudio(p) {
      SingleType(p);
    }
  }

  /** At most one packet type is in effect. */
  lemma SingleType(p: bytes)
    requires p != []
    ensures forall t: nat, u: nat :: InEffect(p, t) && InEffect(p, u) ==> t == u
    ensures forall t: nat :: Tagged(p, t) ==> InEffect(p, t)
  {
    hide Effective;
    forall t: nat
      ensures InEffect(p, t) ==> SkipModEx(p, 1, p[0] % 16).Some? && SkipModEx(p, 1, p[0] % 16).value.0 == t
    {
      TaggedIff(p, t);
    }
  }

  /** No payload that is a sequence header, metadata, a command or unclassifiable by its octets is a frame. */
  lemma ConfigurationIsReliable(m: Message, cls: MediaClass, negotiated: bool, size: nat, max: nat, fallback: Fallback)
    requires cls in {SequenceHeader, Metadata, Control, UnknownClass}
    requires (m.typ == 9 && VideoIs(m.payload, cls)) || (m.typ == 8 && AudioIs(m.payload, cls))
    ensures Resolve(m.typ, ModeFor(m), negotiated, size, max, fallback) == OnStream
  {
    hide ClassifyVideo, ClassifyAudio, VideoIs, AudioIs;
    ForcedIff(m.payload);
    VideoExactly(m.payload, cls);
    AudioExactly(m.payload, cls);
  }
}
