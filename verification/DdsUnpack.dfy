/** Unpacking a run-length sequence into the samples the transmitter plays. */
module DdsUnpack {
  import opened Common
  import opened TsgStates
  import opened TsgBuffer

  /** One transmitter sample and the delay that is cut off the front, in microseconds. */
  const STATE_TIME: real := 5.0
  const STATE_DELAY: real := 130.0

  /** A registered pulse sequence. */
  datatype PulseSeq = PulseSeq(step: nat, code: seq<bv8>, rep: seq<Byte>)
  {
    predicate Valid() { |code| == |rep| }
  }

  /** The drive of one step: off, in phase or inverted. */
  function DecodeState(state: bv8): int {
    if state & X_BIT == X_BIT then (if state & P_BIT == P_BIT then -1 else 1) else 0
  }

  /** Transmitter samples per clock step. */
  function Ratio(step: nat): nat {
    (step as real / STATE_TIME + 0.49999999).Floor
  }

  /** A step is held for its length in transmitter samples of 5 microseconds, to the nearest. */
  lemma RatioIs(step: nat)
    ensures Ratio(step) == (step + 2) / 5
  {
    var q, r := step / 5, step % 5;
    assert step as real / 5.0 == q as real + r as real / 5.0;
  }

  /** Transmitter samples that the start delay swallows. */
  const DROPPED: nat := (STATE_DELAY / STATE_TIME).Floor

  /** Every step of a waveform decoded and held for ratio samples. */
  function Stretch(w: seq<bv8>, ratio: nat): (r: seq<int>)
    ensures |r| == |w| * ratio
  {
    if w == [] then []
    else Stretch(w[..|w| - 1], ratio) + Repeat(DecodeState(w[|w| - 1]), ratio)
  }

  function Drop<T>(s: seq<T>, n: nat): seq<T> {
    if |s| <= n then [] else s[n..]
  }

  /** What a sequence unpacks to: its waveform, stretched, without the start delay. */
  function Unpacked(p: PulseSeq): seq<int>
    requires p.Valid()
  {
    Drop(Stretch(Expand(p.code, p.rep), Ratio(p.step)), DROPPED)
  }

  lemma MulStep(n: nat, r: nat)
    requires 0 < n
    ensures n * r == (n - 1) * r + r && 0 <= (n - 1) * r
  {
  }

  lemma {:induction false} StretchAppend(w: seq<bv8>, ratio: nat, c: bv8, n: nat)
    ensures Stretch(w + Repeat(c, n), ratio) == Stretch(w, ratio) + Repeat(DecodeState(c), n * ratio)
  {
    if n == 0 {
      assert w + Repeat(c, n) == w;
    } else {
      StretchAppend(w, ratio, c, n - 1);
      var v := w + Repeat(c, n);
      assert v[..|v| - 1] == w + Repeat(c, n - 1) && v[|v| - 1] == c;
      MulStep(n, ratio);
      RepeatAdd(Stretch(w, ratio), DecodeState(c), (n - 1) * ratio, ratio);
    }
  }

  /** Sample i of the stretched waveform is the decoding of step i / ratio. */
  lemma {:induction false} StretchAt(w: seq<bv8>, ratio: nat, i: nat)
    requires i < |w| * ratio
    ensures ratio > 0 && i / ratio < |w| && Stretch(w, ratio)[i] == DecodeState(w[i / ratio])
  {
    var m := |w| - 1;
    assert |w| * ratio == m * ratio + ratio;
    if i < m * ratio {
      StretchAt(w[..m], ratio, i);
    } else {
      DivUnique(i, ratio, m);
    }
  }

  /** Decoding keeps exactly the transmit bit and, while transmitting, the phase bit. */
  lemma DecodeMeans(c: bv8)
    ensures DecodeState(c) != 0 <==> c & 0x04 != 0
    ensures DecodeState(c) < 0 <==> c & 0x04 != 0 && c & 0x10 != 0
    ensures -1 <= DecodeState(c) <= 1
  {
  }

  function Micros(samples: nat): real { samples as real * STATE_TIME }

  /** Hold one entry for its samples, counting the microseconds; the first ones are cut. */
  method UnpackEntry(code: bv8, count: nat, ghost full: seq<int>, out0: seq<int>, us0: real)
    returns (out: seq<int>, us: real)
    requires us0 == Micros(|full|) && out0 == Drop(full, DROPPED)
    ensures us == Micros(|full| + count)
    ensures out == Drop(full + Repeat(DecodeState(code), count), DROPPED)
  {
    var tempcode := DecodeState(code);
    out, us := out0, us0;
    var j := 0;
    assert full + Repeat(tempcode, 0) == full;
    while j < count
      invariant j <= count
      invariant us == Micros(|full| + j)
      invariant out == Drop(full + Repeat(tempcode, j), DROPPED)
    {
      us := us + STATE_TIME;
      if us > STATE_DELAY {
        out := out + [tempcode];
      }
      assert full + Repeat(tempcode, j + 1) == full + Repeat(tempcode, j) + [tempcode];
      j := j + 1;
    }
  }

  /** The stretched waveform of the first i entries. */
  function Samples(p: PulseSeq, i: nat): seq<int>
    requires p.Valid() && i <= |p.code|
  {
    Stretch(Expand(p.code[..i], p.rep[..i]), Ratio(p.step))
  }

  lemma SamplesNext(p: PulseSeq, i: nat)
    requires p.Valid() && i < |p.code|
    ensures Samples(p, i + 1) == Samples(p, i) + Repeat(DecodeState(p.code[i]), p.rep[i] * Ratio(p.step))
  {
    ExpandNext(p.code, p.rep, i);
    StretchAppend(Expand(p.code[..i], p.rep[..i]), Ratio(p.step), p.code[i], p.rep[i]);
  }

  /** The unpacking loop of the driver. */
  method Unpack(p: PulseSeq) returns (out: seq<int>)
    requires p.Valid()
    ensures out == Unpacked(p)
  {
    var us := 0.0;
    var ratio := Ratio(p.step);
    out := [];
    var i := 0;
    ghost var full := [];
    while i < |p.code|
      invariant i <= |p.code|
      invariant full == Samples(p, i)
      invariant us == Micros(|full|) && out == Drop(full, DROPPED)
    {
      SamplesNext(p, i);
      out, us := UnpackEntry(p.code[i], p.rep[i] * ratio, full, out, us);
      full := full + Repeat(DecodeState(p.code[i]), p.rep[i] * ratio);
      i := i + 1;
    }
    assert p.code[..i] == p.code && p.rep[..i] == p.rep;
  }
}
