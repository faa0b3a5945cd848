/** The ideal waveform: a six-phase pulse wave and a sample square wave, each defined without
    reference to the other, over steps of the clock counted from the end of the start delay. */
module TsgWave {
  import opened Common
  import opened TsgStates

  /** The counter value that stands for "no event pending". */
  const SENTINEL: int := 32767

  /** The derived durations of one sequence, in clock steps.  `half` is half a sample
      separation and `baud` the length of one phase-code baud. */
  datatype Plan = Plan(
    t2: int, t3: int, txp: int, t4: int, t5: int,
    half: int, lgfr: int, mpnc: int, mppul: int, nbaud: int, baud: int,
    pat: seq<int>, code: seq<int>, samples: int)
  {
    /** The length of one whole pulse cycle, guards included. */
    function Cycle(): int { t2 + t3 + txp + t4 + t5 }

    /** Where phase q begins inside a pulse cycle; Offset(6) is the end of the cycle. */
    function Offset(q: int): int
      requires 1 <= q <= 6
    {
      if q == 1 then 0
      else if q == 2 then t2
      else if q == 3 then t2 + t3
      else if q == 4 then t2 + t3 + txp
      else if q == 5 then t2 + t3 + txp + t4
      else Cycle()
    }

    predicate Shaped() { 0 <= mppul <= |pat| }

    /** The step at which pulse k switches the attenuators on.  Pulses beyond the pattern are
        what the compiler emits when the sentinel itself runs out. */
    function Start(k: nat): int
      requires Shaped()
    {
      if k < mppul then pat[k] * mpnc + 1
      else if k == 0 then SENTINEL
      else Start(k - 1) + Cycle() + SENTINEL
    }

    /** The step at which the first sample rises. */
    function FirstRise(): int
      requires Shaped()
    {
      if mppul == 0 then 1 else Start(0) + lgfr + t2 + t3 + txp / 2
    }

    /** The step at which sample n rises. */
    function Rise(n: int): int
      requires Shaped()
    {
      FirstRise() + 2 * n * half
    }

    /** Pulse k starts after the cycle of the pulse before it. */
    predicate Spaced(k: int)
      requires 0 < k < |pat|
    {
      Cycle() < (pat[k] - pat[k - 1]) * mpnc
    }

    /** The pulse cycle can run: every phase lasts, pulses do not overlap, and the phase code
        divides the pulse into bauds and is known for every pulse. */
    predicate Pulses()
      requires Shaped()
    {
      && 1 <= txp && 1 <= t4
      && (mppul == 0 ==> nbaud <= 1)
      && (mppul > 0 ==> 0 <= pat[0] * mpnc)
      && (forall k :: 0 < k < mppul ==> Spaced(k))
      && (nbaud > 1 ==>
            && 1 <= baud && baud * nbaud == txp && txp + t3 < SENTINEL
            && mppul * nbaud <= |code|)
    }

    /** Receive only, and over before the sentinel runs out. */
    predicate Quiet()
      requires Shaped()
    {
      mppul == 0 && Rise(samples - 1) + half < SENTINEL
    }

    predicate Usable() {
      && Shaped()
      && 1 <= t2 && 1 <= t3 && 1 <= t5 && 1 <= half
      && (mppul > 0 ==> 0 <= lgfr)
      && (Pulses() || Quiet())
    }

    predicate InPulse(k: nat, t: int)
      requires Shaped()
    {
      Start(k) <= t < Start(k) + Cycle()
    }

    /** The pulse whose phase code pulse k carries. */
    function CodeRow(k: nat): int {
      if k < mppul then k else mppul - 1
    }

    function CodeIndex(k: nat, tau: int): int
      requires baud != 0
    {
      nbaud * CodeRow(k) + (tau - Offset(3)) / baud
    }

    /** The bits of pulse k at offset tau. */
    function PulseCode(k: nat, tau: int): bv8
      requires Shaped() && Pulses() && 0 <= tau < Cycle()
    {
      if tau < Offset(2) then PhaseBits(1)
      else if tau < Offset(3) then PhaseBits(2)
      else if tau < Offset(4) then
        PhaseBits(3) |
        (if nbaud > 1 then
           BaudInRange(this, k, tau);
           if code[CodeIndex(k, tau)] < 0 then P_BIT else 0
         else 0)
      else if tau < Offset(5) then PhaseBits(4)
      else PhaseBits(5)
    }

    /** The pulse wave, blind to the samples. */
    ghost function PulseWave(t: int): bv8
      requires Shaped()
    {
      if Pulses() && exists k: nat :: InPulse(k, t) then
        var k: nat :| InPulse(k, t);
        PulseCode(k, t - Start(k))
      else 0
    }

    /** The sample wave, blind to the pulses. */
    function SampleWave(t: int): bv8
      requires Shaped() && 1 <= half
    {
      SampleBits(FirstRise() <= t && (t - FirstRise()) / half % 2 == 0)
    }

    /** What every step of the sequence should carry. */
    ghost function Ideal(t: int): bv8
      requires Shaped() && 1 <= half
    {
      PulseWave(t) | SampleWave(t)
    }
  }

  /** The phase code is never read outside the table. */
  lemma BaudInRange(pl: Plan, k: nat, tau: int)
    requires pl.Shaped() && pl.Pulses() && pl.nbaud > 1
    requires pl.Offset(3) <= tau < pl.Offset(4)
    ensures 0 <= (tau - pl.Offset(3)) / pl.baud < pl.nbaud
    ensures 0 <= pl.CodeIndex(k, tau) < |pl.code|
  {
    var b := (tau - pl.Offset(3)) / pl.baud;
    assert b * pl.baud <= tau - pl.Offset(3) < pl.txp;
    if b >= pl.nbaud {
      assert b * pl.baud >= pl.nbaud * pl.baud by { MulMono(pl.nbaud, b, pl.baud); }
      assert false;
    }
    var r := pl.CodeRow(k);
    assert 0 <= r <= pl.mppul - 1;
    MulMono(r, pl.mppul - 1, pl.nbaud);
    assert (pl.mppul - 1) * pl.nbaud == pl.mppul * pl.nbaud - pl.nbaud;
    MulMono(0, r, pl.nbaud);
    assert r * pl.nbaud == pl.nbaud * r;
  }

  /** Successive pulses do not overlap. */
  lemma NextStart(pl: Plan, k: nat)
    requires pl.Shaped() && pl.Pulses()
    ensures pl.Start(k) + pl.Cycle() < pl.Start(k + 1)
  {
    if k + 1 < pl.mppul {
      assert (pl.pat[k + 1] - pl.pat[k]) * pl.mpnc == pl.pat[k + 1] * pl.mpnc - pl.pat[k] * pl.mpnc;
      assert pl.Spaced(k + 1);
    }
  }

  lemma {:induction false} StartsIncrease(pl: Plan, a: nat, b: nat)
    requires pl.Usable() && pl.Pulses() && a < b
    ensures pl.Start(a) + pl.Cycle() < pl.Start(b)
  {
    NextStart(pl, b - 1);
    if a < b - 1 {
      StartsIncrease(pl, a, b - 1);
    }
  }

  /** At most one pulse covers a step, so the pulse wave is well defined. */
  lemma PulseWaveIn(pl: Plan, k: nat, t: int)
    requires pl.Usable() && pl.Pulses() && pl.InPulse(k, t)
    ensures pl.PulseWave(t) == pl.PulseCode(k, t - pl.Start(k))
  {
    forall k': nat | pl.InPulse(k', t) ensures k' == k {
      if k' < k { StartsIncrease(pl, k', k); }
      if k < k' { StartsIncrease(pl, k, k'); }
    }
  }

  /** Between the end of one pulse and the start of the next nothing is asserted. */
  lemma PulseWaveOut(pl: Plan, k: nat, t: int)
    requires pl.Usable() && pl.Pulses()
    requires (k == 0 || pl.Start(k - 1) + pl.Cycle() <= t) && t < pl.Start(k)
    ensures pl.PulseWave(t) == 0
  {
    forall k': nat ensures !pl.InPulse(k', t) {
      if k' < k - 1 { StartsIncrease(pl, k', k - 1); }
      if k < k' { StartsIncrease(pl, k, k'); }
    }
  }

  /** The two waves are blind to each other: the pulse wave does not change with anything the
      samples depend on. */
  lemma PulseWaveIsBlind(a: Plan, b: Plan, t: int)
    requires a.Usable() && b.Usable() && a.Pulses() && b.Pulses()
    requires b == a.(half := b.half, lgfr := b.lgfr, samples := b.samples)
    ensures a.PulseWave(t) == b.PulseWave(t)
  {
    forall k: nat ensures a.InPulse(k, t) == b.InPulse(k, t) { SameStarts(a, b, k); }
    if k: nat :| a.InPulse(k, t) {
      SameStarts(a, b, k);
      PulseWaveIn(a, k, t);
      PulseWaveIn(b, k, t);
    }
  }

  lemma {:induction false} SameStarts(a: Plan, b: Plan, k: nat)
    requires a.Shaped() && b == a.(half := b.half, lgfr := b.lgfr, samples := b.samples)
    ensures a.Start(k) == b.Start(k)
  {
    if a.mppul <= k && 0 < k { SameStarts(a, b, k - 1); }
  }
}
