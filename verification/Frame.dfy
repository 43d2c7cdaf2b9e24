/** RoQR frames: five varints and a type octet, then exactly one message payload. */
module Frame {
  import opened Bytes
  import Varint

  datatype Frame = Frame(
    flowId: u64, timestamp: u64, typ: byte, streamId: u64, chunkStreamId: u64, payload: bytes)

  const DEFAULT_MAX_PAYLOAD: nat := 16 * 1024 * 1024

  /** What `frame_encode` accepts. */
  predicate Encodable(f: Frame) {
    && f.payload != [] && |f.payload| <= Varint.MAX
    && f.flowId <= Varint.MAX && f.timestamp <= Varint.MAX
    && f.streamId <= Varint.MAX && f.chunkStreamId <= Varint.MAX
  }

  datatype Header = Header(
    flowId: u64, timestamp: u64, typ: byte, streamId: u64, chunkStreamId: u64, length: u64)

  predicate Printable(h: Header) {
    && h.flowId <= Varint.MAX && h.timestamp <= Varint.MAX
    && h.streamId <= Varint.MAX && h.chunkStreamId <= Varint.MAX && h.length <= Varint.MAX
  }

  function HeaderOf(f: Frame): (h: Header)
    requires Encodable(f)
    ensures Printable(h)
  {
    Header(f.flowId, f.timestamp, f.typ, f.streamId, f.chunkStreamId, |f.payload|)
  }

  function FrameOf(h: Header, payload: bytes): Frame {
    Frame(h.flowId, h.timestamp, h.typ, h.streamId, h.chunkStreamId, payload)
  }

  function EncodeHeader(h: Header): (r: bytes)
    requires Printable(h)
    ensures r != []
  {
    Varint.Encode(h.flowId) + Varint.Encode(h.timestamp) + [h.typ] +
    Varint.Encode(h.streamId) + Varint.Encode(h.chunkStreamId) + Varint.Encode(h.length)
  }

  function Encode(f: Frame): (r: bytes)
    requires Encodable(f)
    ensures r != []
  {
    EncodeHeader(HeaderOf(f)) + f.payload
  }

  /** The header at the front of `s` and its size; None while octets are missing. No header is malformed. */
  function ParseHeader(s: bytes): (r: Option<(Header, nat)>)
    ensures r.Some? ==> Printable(r.value.0) && 0 < r.value.1 <= |s|
  {
    var (flowId, p1) :- Varint.Decode(s, 0);
    var (timestamp, p2) :- Varint.Decode(s, p1);
    if p2 == |s| then None
    else
      var (streamId, p3) :- Varint.Decode(s, p2 + 1);
      var (chunkStreamId, p4) :- Varint.Decode(s, p3);
      var (length, p5) :- Varint.Decode(s, p4);
      Some((Header(flowId, timestamp, s[p2], streamId, chunkStreamId, length), p5))
  }

  /** A header read from some bytes is read from all bytes that agree with them up to its end. */
  lemma HeaderAgree(s: bytes, t: bytes)
    requires ParseHeader(s).Some? && ParseHeader(s).value.1 <= |t|
    requires forall i :: 0 <= i < ParseHeader(s).value.1 ==> s[i] == t[i]
    ensures ParseHeader(t) == ParseHeader(s)
  {
    hide Varint.Decode;
    var (_, p1) := Varint.Decode(s, 0).value;
    var (_, p2) := Varint.Decode(s, p1).value;
    var (_, p3) := Varint.Decode(s, p2 + 1).value;
    var (_, p4) := Varint.Decode(s, p3).value;
    Varint.DecodeAgree(s, t, 0);
    Varint.DecodeAgree(s, t, p1);
    Varint.DecodeAgree(s, t, p2 + 1);
    Varint.DecodeAgree(s, t, p3);
    Varint.DecodeAgree(s, t, p4);
  }

  /** The layout of a frame header: four varints around the type octet, then the length. */
  ghost predicate Fields(s: bytes, p1: nat, p2: nat, p3: nat, p4: nat, n: nat, h: Header) {
    && p1 <= p2 < p3 <= p4 <= n <= |s|
    && Varint.Form(s[0..p1], h.flowId) && Varint.Form(s[p1..p2], h.timestamp) && s[p2] == h.typ
    && Varint.Form(s[p2 + 1..p3], h.streamId) && Varint.Form(s[p3..p4], h.chunkStreamId)
    && Varint.Form(s[p4..n], h.length)
  }

  ghost predicate Layout(s: bytes, n: nat, h: Header) {
    exists p1: nat, p2: nat, p3: nat, p4: nat :: Fields(s, p1, p2, p3, p4, n, h)
  }

  /** The parser reads exactly this layout. */
  lemma HeaderIff(s: bytes, h: Header, n: nat)
    ensures ParseHeader(s) == Some((h, n)) <==> Layout(s, n, h)
  {
    hide Varint.Decode, Fields;
    if ParseHeader(s) == Some((h, n)) {
      var (_, p1) := Varint.Decode(s, 0).value;
      var (_, p2) := Varint.Decode(s, p1).value;
      var (_, p3) := Varint.Decode(s, p2 + 1).value;
      var (_, p4) := Varint.Decode(s, p3).value;
      FieldsIff(s, h, p1, p2, p3, p4, n);
    }
    if Layout(s, n, h) {
      var p1: nat, p2: nat, p3: nat, p4: nat :| Fields(s, p1, p2, p3, p4, n, h);
      FieldsInOrder(s, h, p1, p2, p3, p4, n);
      FieldsIff(s, h, p1, p2, p3, p4, n);
    }
  }

  lemma FieldsInOrder(s: bytes, h: Header, p1: nat, p2: nat, p3: nat, p4: nat, n: nat)
    requires Fields(s, p1, p2, p3, p4, n, h)
    ensures p1 <= p2 < p3 <= p4 <= n <= |s|
  {
  }

  lemma FieldsIff(s: bytes, h: Header, p1: nat, p2: nat, p3: nat, p4: nat, n: nat)
    requires p1 <= p2 < p3 <= p4 <= n <= |s|
    ensures Fields(s, p1, p2, p3, p4, n, h) <==>
            && Varint.Decode(s, 0) == Some((h.flowId, p1)) && Varint.Decode(s, p1) == Some((h.timestamp, p2))
            && s[p2] == h.typ && Varint.Decode(s, p2 + 1) == Some((h.streamId, p3))
            && Varint.Decode(s, p3) == Some((h.chunkStreamId, p4)) && Varint.Decode(s, p4) == Some((h.length, n))
  {
    hide Varint.Decode, Varint.Form;
    Varint.DecodeIff(s, 0, h.flowId, p1);
    Varint.DecodeIff(s, p1, h.timestamp, p2);
    Varint.DecodeIff(s, p2 + 1, h.streamId, p3);
    Varint.DecodeIff(s, p3, h.chunkStreamId, p4);
    Varint.DecodeIff(s, p4, h.length, n);
  }

  /** A datagram is accepted as `f` exactly when it is a header of this layout and `f`'s payload, which is not empty. */
  lemma DatagramLayout(s: bytes, f: Frame)
    ensures DatagramDecode(s) == Some(f) <==>
            && 0 < |f.payload| < U64_SPAN && |f.payload| <= |s| && s[|s| - |f.payload|..] == f.payload
            && Layout(s, |s| - |f.payload|,
                      Header(f.flowId, f.timestamp, f.typ, f.streamId, f.chunkStreamId, |f.payload|))
  {
    hide ParseHeader, Layout;
    if DatagramDecode(s) == Some(f) {
      var (h, n) := ParseHeader(s).value;
      HeaderIff(s, h, n);
    }
    if 0 < |f.payload| < U64_SPAN && |f.payload| <= |s| {
      var h := Header(f.flowId, f.timestamp, f.typ, f.streamId, f.chunkStreamId, |f.payload|);
      HeaderIff(s, h, |s| - |f.payload|);
    }
  }

  lemma HeaderRoundTrip(h: Header, rest: bytes)
    requires Printable(h)
    ensures ParseHeader(EncodeHeader(h) + rest) == Some((h, |EncodeHeader(h)|))
  {
    hide Varint.Decode, Varint.Encode;
    var s := EncodeHeader(h) + rest;
    var a, b := Varint.Encode(h.flowId), Varint.Encode(h.timestamp);
    var c, d, e := Varint.Encode(h.streamId), Varint.Encode(h.chunkStreamId), Varint.Encode(h.length);
    AtFront(EncodeHeader(h), rest);
    AtConcat(s, 0, a + b + [h.typ] + c + d, e);
    AtConcat(s, 0, a + b + [h.typ] + c, d);
    AtConcat(s, 0, a + b + [h.typ], c);
    AtConcat(s, 0, a + b, [h.typ]);
    AtConcat(s, 0, a, b);
    Varint.RoundTrip(h.flowId, s, 0);
    Varint.RoundTrip(h.timestamp, s, |a|);
    AtIndex(s, |a + b|, [h.typ], 0);
    Varint.RoundTrip(h.streamId, s, |a + b| + 1);
    Varint.RoundTrip(h.chunkStreamId, s, |a + b| + 1 + |c|);
    Varint.RoundTrip(h.length, s, |a + b| + 1 + |c| + |d|);
  }

  /** Re-encoding a header never makes it longer. */
  lemma HeaderShortest(s: bytes)
    requires ParseHeader(s).Some?
    ensures |EncodeHeader(ParseHeader(s).value.0)| <= ParseHeader(s).value.1
  {
    hide Varint.Decode, Varint.Encode;
    var (_, p1) := Varint.Decode(s, 0).value;
    var (_, p2) := Varint.Decode(s, p1).value;
    var (_, p3) := Varint.Decode(s, p2 + 1).value;
    var (_, p4) := Varint.Decode(s, p3).value;
    Varint.Shortest(s, 0);
    Varint.Shortest(s, p1);
    Varint.Shortest(s, p2 + 1);
    Varint.Shortest(s, p3);
    Varint.Shortest(s, p4);
  }

  /** A datagram holds exactly one frame. */
  function DatagramDecode(s: bytes): (r: Option<Frame>) {
    var (h, size) :- ParseHeader(s);
    if h.length == 0 || |s| - size != h.length then None else Some(FrameOf(h, s[size..]))
  }

  /** Encoding and datagram decoding are inverse, and encoding is the shortest form: every accepted
      datagram decodes to an encodable frame whose encoding is no longer and decodes to it again. */
  lemma DatagramRoundTrip(f: Frame)
    requires Encodable(f)
    ensures DatagramDecode(Encode(f)) == Some(f)
  {
    hide EncodeHeader, ParseHeader;
    HeaderRoundTrip(HeaderOf(f), f.payload);
  }

  lemma DatagramCanonical(s: bytes)
    requires DatagramDecode(s).Some?
    ensures var f := DatagramDecode(s).value;
            Encodable(f) && |Encode(f)| <= |s| && DatagramDecode(Encode(f)) == Some(f)
  {
    hide EncodeHeader, ParseHeader;
    var (h, size) := ParseHeader(s).value;
    var f := DatagramDecode(s).value;
    HeaderShortest(s);
    assert HeaderOf(f) == h;
    DatagramRoundTrip(f);
  }
}
