/** Which messages may travel as datagrams. */
module Delivery {
  import opened Bytes
  import opened ChunkFormat
  import opened Classify

  datatype DeliveryMode = Stream | Datagram | Auto
  datatype Fallback = ToStream | Drop
  datatype Resolved = OnStream | InDatagram | Dropped

  /** The ingest gateway's request. */
  function ModeFor(m: Message): DeliveryMode {
    if m.typ != 8 && m.typ != 9 then DeliveryMode.Stream
    else
      var info := if m.typ == 9 then ClassifyVideo(m.payload) else ClassifyAudio(m.payload);
      if info.forceStream || info.cls == SequenceHeader || info.cls == Metadata || info.cls == Control
      then DeliveryMode.Stream else Auto
  }

  function Resolve(
      typ: byte, requested: DeliveryMode, negotiated: bool, size: nat, max: nat, fallback: Fallback): Resolved
  {
    var fits := negotiated && size <= max;
    match requested
    case Stream => OnStream
    case Datagram => if fits then InDatagram else if fallback == ToStream then OnStream else Dropped
    case Auto => if (typ == 8 || typ == 9 || typ == 22) && fits then InDatagram else OnStream
  }

  /** Unclassifiable and multitrack payloads are always carried reliably; the others never have to be. */
  lemma ForcedIff(p: bytes)
    ensures var i := ClassifyVideo(p); i.forceStream <==> i.cls == UnknownClass || i.multitrack
    ensures var i := ClassifyAudio(p); i.forceStream <==> i.cls == UnknownClass || i.multitrack
  {
    hide SkipModEx, ReadFourCc;
  }

  /** Every requested mode: a datagram needs a request that allows it, negotiation and room; only an explicit
      datagram request may be dropped, and only when its fallback says so. */
  lemma ResolveIff(typ: byte, requested: DeliveryMode, negotiated: bool, size: nat, max: nat, fallback: Fallback)
    ensures var r := Resolve(typ, requested, negotiated, size, max, fallback);
            var fits := negotiated && size <= max;
            && (r == InDatagram <==> fits && (requested == Datagram || (requested == Auto && typ in {8, 9, 22})))
            && (r == Dropped <==> requested == Datagram && !fits && fallback == Drop)
  {
  }
}
