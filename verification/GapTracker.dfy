/** Continuity of one video timeline. */
module GapTracker {
  import opened Bytes
  import opened Classify

  const JUMP_THRESHOLD: nat := 5000

  datatype Sample = Sample(timestamp: u32, cls: MediaClass)

  predicate Recovers(s: Sample) {
    s.cls == Keyframe || s.cls == SequenceHeader
  }

  /** A regression or a jump of more than 5 s between neighbouring samples, delivered or not. */
  predicate Gap(h: seq<Sample>, j: nat)
    requires 1 <= j < |h|
  {
    h[j].timestamp < h[j - 1].timestamp || h[j].timestamp > h[j - 1].timestamp + 5000
  }

  /** Some gap up to sample `i` has had no recovery frame since. */
  ghost predicate Broken(h: seq<Sample>, i: nat)
    requires i < |h|
  {
    exists j :: 1 <= j <= i && Gap(h, j) && forall r :: j <= r <= i ==> !Recovers(h[r])
  }

  /** The law: a frame is delivered unless it follows an unrepaired gap. */
  ghost predicate Deliverable(h: seq<Sample>, i: nat)
    requires i < |h|
  {
    Recovers(h[i]) || !Broken(h, i)
  }

  /** A snapshot of the tracker, and one call of `accept`. */
  datatype Fields = Fields(discontinuous: bool, have: bool, lastTs: u32)

  function Accepts(f: Fields, s: Sample): (Fields, bool) {
    var gap := f.have && (s.timestamp < f.lastTs || s.timestamp > f.lastTs + JUMP_THRESHOLD);
    var broken := f.discontinuous || gap;
    (Fields(broken && !Recovers(s), true, s.timestamp), !broken || Recovers(s))
  }

  class Tracker {
    var discontinuous: bool
    var have: bool
    var lastTs: u32

    function Contents(): Fields
      reads this
    {
      Fields(discontinuous, have, lastTs)
    }

    constructor ()
      ensures Contents() == Fields(false, false, 0)
    {
      discontinuous, have, lastTs := false, false, 0;
    }

    method Accept(timestamp: u32, cls: MediaClass) returns (ok: bool)
      modifies this
      ensures (Contents(), ok) == Accepts(old(Contents()), Sample(timestamp, cls))
    {
      var recover := cls == Keyframe || cls == SequenceHeader;
      if have && (timestamp < lastTs || timestamp > lastTs + JUMP_THRESHOLD) {
        discontinuous := true;
      }
      have, lastTs := true, timestamp;
      if discontinuous && !recover {
        return false;
      }
      if recover {
        discontinuous := false;
      }
      return true;
    }
  }

  /** How one more sample changes brokenness. */
  lemma BrokenStep(h: seq<Sample>, s: Sample)
    ensures var h' := h + [s];
            Broken(h', |h|) <==>
            !Recovers(s) && h != [] && (Gap(h', |h|) || Broken(h, |h| - 1))
  {
    var h', n := h + [s], |h|;
    assert forall k :: 0 <= k < n ==> h'[k] == h[k];
    if h != [] && Broken(h, n - 1) && !Recovers(s) {
      var j :| 1 <= j <= n - 1 && Gap(h, j) && forall r :: j <= r <= n - 1 ==> !Recovers(h[r]);
      assert Gap(h', j);
      assert forall r :: j <= r <= n ==> !Recovers(h'[r]);
    }
    if h != [] && Gap(h', n) && !Recovers(s) {
      assert forall r :: n <= r <= n ==> !Recovers(h'[r]);
    }
    if Broken(h', n) {
      var j :| 1 <= j <= n && Gap(h', j) && forall r :: j <= r <= n ==> !Recovers(h'[r]);
      assert !Recovers(h'[n]);
      if j < n {
        assert Gap(h, j);
        assert forall r :: j <= r <= n - 1 ==> !Recovers(h[r]) by {
          assert forall r :: j <= r <= n - 1 ==> h'[r] == h[r];
        }
      }
    }
  }

  /** The verdicts on a history, in order. */
  function Verdicts(h: seq<Sample>): (r: (Fields, seq<bool>))
    ensures |r.1| == |h|
    decreases |h|
  {
    if h == [] then (Fields(false, false, 0), [])
    else
      var (f, vs) := Verdicts(h[..|h| - 1]);
      var (f', ok) := Accepts(f, h[|h| - 1]);
      (f', vs + [ok])
  }

  lemma {:induction false} FieldsFollow(h: seq<Sample>)
    ensures var f := Verdicts(h).0;
            && f.have == (h != [])
            && (h != [] ==> f.lastTs == h[|h| - 1].timestamp)
            && f.discontinuous == (h != [] && Broken(h, |h| - 1))
    decreases |h|
  {
    if h != [] {
      var n := |h| - 1;
      FieldsFollow(h[..n]);
      BrokenStep(h[..n], h[n]);
      assert h[..n] + [h[n]] == h;
    }
  }

  /** Frame `i` of any history is accepted exactly when it is a recovery frame or no gap since the last
      recovery frame (or the start) precedes it. */
  lemma {:induction false} AcceptedIffDeliverable(h: seq<Sample>, i: nat)
    requires i < |h|
    ensures Verdicts(h).1[i] == Deliverable(h, i)
    decreases |h|
  {
    var n := |h| - 1;
    assert h[..n] + [h[n]] == h;
    if i < n {
      AcceptedIffDeliverable(h[..n], i);
      BrokenPrefix(h, n, i);
    } else {
      FieldsFollow(h[..n]);
      BrokenStep(h[..n], h[n]);
    }
  }

  lemma BrokenPrefix(h: seq<Sample>, n: nat, i: nat)
    requires i < n <= |h|
    ensures Broken(h[..n], i) == Broken(h, i)
  {
    assert forall k :: 0 <= k < n ==> h[..n][k] == h[k];
    if Broken(h, i) {
      var j :| 1 <= j <= i && Gap(h, j) && forall r :: j <= r <= i ==> !Recovers(h[r]);
      assert Gap(h[..n], j);
    }
    if Broken(h[..n], i) {
      var j :| 1 <= j <= i && Gap(h[..n], j) && forall r :: j <= r <= i ==> !Recovers(h[..n][r]);
      assert Gap(h, j);
      assert forall r :: j <= r <= i ==> !Recovers(h[r]) by {
        assert forall r :: j <= r <= i ==> h[r] == h[..n][r];
      }
    }
  }
}
