/** What a stream of frames, possibly ending in an illegal header, yields at every moment. */
module FrameDelivery {
  import opened Bytes
  import opened Frame
  import opened FrameStream

  /** A frame the peer's decoder accepts. */
  predicate Acceptable(max: nat, f: Frame) {
    Encodable(f) && |f.payload| <= max
  }

  predicate AllAcceptable(max: nat, fs: seq<Frame>) {
    forall i :: 0 <= i < |fs| ==> Acceptable(max, fs[i])
  }

  function EncodeAll(max: nat, fs: seq<Frame>): bytes
    requires AllAcceptable(max, fs)
  {
    if fs == [] then [] else Encode(fs[0]) + EncodeAll(max, fs[1..])
  }

  /** How many of the frames are complete within the first `n` octets. */
  function Complete(max: nat, fs: seq<Frame>, n: nat): (k: nat)
    requires AllAcceptable(max, fs)
    ensures k <= |fs|
  {
    if fs == [] || n < |Encode(fs[0])| then 0
    else 1 + Complete(max, fs[1..], n - |Encode(fs[0])|)
  }

  lemma StepOnFrame(max: nat, f: Frame, rest: bytes)
    requires Acceptable(max, f)
    ensures Step(max, Encode(f) + rest) == Got(f, |Encode(f)|)
  {
    hide EncodeHeader, ParseHeader;
    var hb := EncodeHeader(HeaderOf(f));
    HeaderRoundTrip(HeaderOf(f), f.payload + rest);
    assert Encode(f) + rest == hb + (f.payload + rest);
    assert (hb + (f.payload + rest))[|hb|..|hb| + |f.payload|] == f.payload;
  }

  /** A frame that is not complete is waited for, wherever it is cut. */
  lemma StepOnPart(max: nat, f: Frame, w: bytes)
    requires Acceptable(max, f) && w < Encode(f)
    ensures Step(max, w) == Wait
  {
    hide EncodeHeader, ParseHeader;
    HeaderRoundTrip(HeaderOf(f), f.payload);
    if ParseHeader(w).Some? {
      HeaderAgree(w, Encode(f));
    }
  }

  /** The header ends at the end of `bad` and announces an illegal length. */
  predicate BadHeader(max: nat, bad: bytes) {
    ParseHeader(bad).Some? &&
    var (h, size) := ParseHeader(bad).value;
    size == |bad| && (h.length == 0 || h.length > max)
  }

  lemma StepOnBad(max: nat, bad: bytes, w: bytes, junk: bytes)
    requires BadHeader(max, bad) && w <= bad + junk
    ensures Step(max, w) == if |w| >= |bad| then Bad else Wait
  {
    hide ParseHeader;
    if |w| >= |bad| {
      HeaderAgree(bad, w);
    } else if ParseHeader(w).Some? {
      HeaderAgree(w, bad);
    }
  }

  /** At every moment, whatever follows: exactly the complete frames, in order; malformed exactly once the
      illegal header is complete; and after that nothing more, whatever else arrives. */
  lemma {:induction false} StreamParsed(max: nat, fs: seq<Frame>, bad: bytes, junk: bytes, w: bytes)
    requires AllAcceptable(max, fs) && BadHeader(max, bad)
    requires w <= EncodeAll(max, fs) + bad + junk
    ensures var r := Parse(max, w);
            && r.frames == fs[..Complete(max, fs, |w|)]
            && r.malformed == (|w| >= |EncodeAll(max, fs)| + |bad|)
    decreases |fs|
  {
    hide Step, Encode, BadHeader;
    if fs == [] {
      assert EncodeAll(max, fs) + bad + junk == bad + junk;
      StepOnBad(max, bad, w, junk);
    } else {
      var f, tail := fs[0], EncodeAll(max, fs[1..]);
      var e := Encode(f);
      assert EncodeAll(max, fs) + bad + junk == e + (tail + bad + junk);
      if |w| < |e| {
        assert w < e;
        StepOnPart(max, f, w);
      } else {
        var rest := w[|e|..];
        assert w == e + rest && rest <= tail + bad + junk;
        StepOnFrame(max, f, rest);
        StreamParsed(max, fs[1..], bad, junk, rest);
        assert fs[..Complete(max, fs, |w|)] == [f] + fs[1..][..Complete(max, fs[1..], |rest|)];
      }
    }
  }

  /** The same for a decoder that is fed in arbitrary pieces between `next` calls. */
  lemma StreamDelivered(max: nat, fs: seq<Frame>, bad: bytes, junk: bytes, calls: seq<Call>)
    requires AllAcceptable(max, fs) && BadHeader(max, bad)
    requires FedBytes(calls) <= EncodeAll(max, fs) + bad + junk
    ensures var (s, popped) := Run(max, NEW_DECODER, calls);
            var n := |FedBytes(calls)|;
            && popped + s.ready == fs[..Complete(max, fs, n)]
            && s.malformed == (n >= |EncodeAll(max, fs)| + |bad|)
  {
    hide Parse, BadHeader;
    EmptySettled(max);
    FragmentationIndependence(max, NEW_DECODER, calls);
    StreamParsed(max, fs, bad, junk, FedBytes(calls));
    assert [] + FedBytes(calls) == FedBytes(calls);
    var r := Parse(max, FedBytes(calls));
    assert [] + r.frames == r.frames;
  }

  /** Without an illegal header: all frames, nothing left over. */
  lemma {:induction false} FramesParsed(max: nat, fs: seq<Frame>)
    requires AllAcceptable(max, fs)
    ensures Parse(max, EncodeAll(max, fs)) == Outcome(fs, [], false)
    decreases |fs|
  {
    hide Encode;
    if fs == [] {
      assert ParseHeader([]).None?;
    } else {
      hide Step;
      var tail := EncodeAll(max, fs[1..]);
      StepOnFrame(max, fs[0], tail);
      assert (Encode(fs[0]) + tail)[|Encode(fs[0])|..] == tail;
      FramesParsed(max, fs[1..]);
    }
  }

  lemma FramesDelivered(max: nat, fs: seq<Frame>, calls: seq<Call>)
    requires AllAcceptable(max, fs) && FedBytes(calls) == EncodeAll(max, fs)
    ensures var (s, popped) := Run(max, NEW_DECODER, calls);
            popped + s.ready == fs && s.buffer == [] && !s.malformed
  {
    hide Parse;
    EmptySettled(max);
    FragmentationIndependence(max, NEW_DECODER, calls);
    FramesParsed(max, fs);
    assert [] + FedBytes(calls) == FedBytes(calls);
    assert [] + fs == fs;
  }

  /** A datagram is accepted as `f` exactly when a fresh stream decoder fed the same bytes yields `f`,
      only `f`, and keeps nothing. */
  lemma DatagramIffSoleFrame(max: nat, s: bytes, f: Frame)
    ensures (DatagramDecode(s) == Some(f) && |f.payload| <= max) <==> Parse(max, s) == Outcome([f], [], false)
  {
    hide ParseHeader, Parse;
    ParseUnfold(max, s);
    EmptyParsed(max);
    var r := Step(max, s);
    if r.Got? {
      var rest := Parse(max, s[r.size..]);
      assert [r.frame] + rest.frames == [f] <==> r.frame == f && rest.frames == [] by {
        assert ([r.frame] + rest.frames)[0] == r.frame && ([r.frame] + rest.frames)[1..] == rest.frames;
      }
      if rest == Outcome([], [], false) {
        SilentIsEmpty(max, s[r.size..]);
        var (h, size) := ParseHeader(s).value;
        assert s[size..size + h.length] == s[size..];
        assert DatagramDecode(s) == Some(r.frame);
      }
    }
    if DatagramDecode(s) == Some(f) && |f.payload| <= max {
      var (h, size) := ParseHeader(s).value;
      assert s[size..size + h.length] == s[size..];
      assert r == Got(f, |s|) && s[|s|..] == [];
    }
  }

  lemma EmptyParsed(max: nat)
    ensures Parse(max, []) == Outcome([], [], false)
  {
  }

  lemma SilentIsEmpty(max: nat, s: bytes)
    requires Parse(max, s) == Outcome([], [], false)
    ensures s == []
  {
    hide Step;
  }
}
