/** What the compiled waveform means for the radar: pulse shape and guards, phase coding, the
    alignment of samples with pulses, phantom pulses, and the room the buffer needs. */
module TsgProperties {
  import opened Common
  import opened TsgStates
  import opened TsgWave
  import opened TsgBuffer
  import opened TsgEntries
  import opened TsgMake

  predicate Transmits(c: bv8) { c & 0x04 != 0 }
  predicate ReceiverOff(c: bv8) { c & 0x02 != 0 }
  predicate Attenuates(c: bv8) { c & 0x08 != 0 }
  predicate Inverts(c: bv8) { c & 0x10 != 0 }

  /** The bits of an ideal step inside pulse k, one by one. */
  lemma BitsInPulse(pl: Plan, k: nat, t: int)
    requires pl.Usable() && pl.Pulses() && pl.InPulse(k, t)
    ensures var tau, c := t - pl.Start(k), pl.Ideal(t);
            && (Transmits(c) <==> pl.Offset(3) <= tau < pl.Offset(4))
            && (ReceiverOff(c) <==> pl.Offset(2) <= tau < pl.Offset(5))
            && Attenuates(c)
            && (pl.nbaud > 1 && Transmits(c) ==> 0 <= pl.CodeIndex(k, tau) < |pl.code|)
            && (Inverts(c) <==> pl.nbaud > 1 && Transmits(c) && pl.code[pl.CodeIndex(k, tau)] < 0)
  {
    PulseWaveIn(pl, k, t);
    var tau := t - pl.Start(k);
    if pl.nbaud > 1 && pl.Offset(3) <= tau < pl.Offset(4) { BaudInRange(pl, k, tau); }
    JoinKeeps(pl.PulseCode(k, tau), pl.SampleWave(t));
  }

  lemma JoinKeeps(p: bv8, s: bv8)
    requires s == 0 || s == S_BIT
    ensures Transmits(p | s) == Transmits(p) && ReceiverOff(p | s) == ReceiverOff(p)
    ensures Attenuates(p | s) == Attenuates(p) && Inverts(p | s) == Inverts(p)
    ensures HasSample(p | s) == (HasSample(p) || s == S_BIT)
  {
  }

  lemma BitsIdle(pl: Plan, t: int)
    requires pl.Usable() && (pl.Pulses() ==> forall k: nat :: !pl.InPulse(k, t))
    ensures var c := pl.Ideal(t);
            !Transmits(c) && !ReceiverOff(c) && !Attenuates(c) && !Inverts(c)
  {
    JoinKeeps(0, pl.SampleWave(t));
  }

  /** The pulse wave never carries the sample bit. */
  lemma SampleBitIsSampleWave(pl: Plan, t: int)
    requires pl.Usable()
    ensures HasSample(pl.Ideal(t)) == (pl.SampleWave(t) == S_BIT)
  {
    if pl.Pulses() && exists k: nat :: pl.InPulse(k, t) {
      var k: nat :| pl.InPulse(k, t);
      PulseWaveIn(pl, k, t);
      JoinKeeps(pl.PulseCode(k, t - pl.Start(k)), pl.SampleWave(t));
    } else {
      JoinKeeps(0, pl.SampleWave(t));
    }
  }

  /** The code at step t of the sequence proper, counted from the end of the start delay. */
  function CodeAt(stdelay: int, w: seq<bv8>, t: int): bv8 {
    if 0 <= 1 + Held(stdelay) + t < |w| then w[1 + Held(stdelay) + t] else 0
  }

  lemma CodeIsIdeal(pl: Plan, stdelay: int, w: seq<bv8>, t: int)
    requires pl.Usable() && Layout(pl, stdelay, w)
    ensures 0 <= t < Length(pl) ==> CodeAt(stdelay, w, t) == pl.Ideal(t)
    ensures !(0 <= t < Length(pl)) ==> CodeAt(stdelay, w, t) == 0 || CodeAt(stdelay, w, t) == SCOPE
  {
    var lead := 1 + Held(stdelay);
    if 0 <= t < Length(pl) {
      assert w[lead + t] == pl.Ideal(t);
    }
  }

  ghost predicate Covered(pl: Plan, t: int)
    requires pl.Shaped()
  {
    pl.Pulses() && exists k: nat :: pl.InPulse(k, t)
  }

  /** Pulse k switches the attenuators on exactly pat[k]*mpnc+1 steps after the header, and each
      step of it that sampling does not cut is attenuated, then receiver-off, then transmitting,
      for t2, t3 and txp steps, and released in the reverse order over t4 and t5. */
  lemma PulsePlacement(pl: Plan, stdelay: int, w: seq<bv8>, k: nat, tau: int)
    requires pl.Usable() && Layout(pl, stdelay, w) && k < pl.mppul
    requires 0 <= tau < pl.Cycle() && pl.pat[k] * pl.mpnc + 1 + tau < Length(pl)
    ensures var c := CodeAt(stdelay, w, pl.pat[k] * pl.mpnc + 1 + tau);
            && Attenuates(c)
            && (ReceiverOff(c) <==> pl.t2 <= tau < pl.t2 + pl.t3 + pl.txp + pl.t4)
            && (Transmits(c) <==> pl.t2 + pl.t3 <= tau < pl.t2 + pl.t3 + pl.txp)
  {
    StartPositive(pl, k);
    BitsInPulse(pl, k, pl.Start(k) + tau);
    CodeIsIdeal(pl, stdelay, w, pl.Start(k) + tau);
  }

  /** Outside the pulses nothing but the sample bit is set. */
  lemma PulsesOnlyWherePlaced(pl: Plan, stdelay: int, w: seq<bv8>, t: int)
    requires pl.Usable() && Layout(pl, stdelay, w)
    ensures var c := CodeAt(stdelay, w, t);
            Attenuates(c) || ReceiverOff(c) || Transmits(c) || Inverts(c) ==> 0 <= t < Length(pl) && Covered(pl, t)
  {
    CodeIsIdeal(pl, stdelay, w, t);
    if 0 <= t < Length(pl) && !Covered(pl, t) { BitsIdle(pl, t); }
  }

  /** The transmitter never fires unguarded: from t3 steps before until t4 steps after every
      transmitting step the receiver is off and the attenuators are on, as far as the sequence
      has not ended. */
  lemma TransmitIsGuarded(pl: Plan, stdelay: int, w: seq<bv8>, t: int, v: int)
    requires pl.Usable() && Layout(pl, stdelay, w) && Transmits(CodeAt(stdelay, w, t))
    requires t - pl.t3 <= v <= t + pl.t4 && v < Length(pl)
    ensures 0 <= v && ReceiverOff(CodeAt(stdelay, w, v)) && Attenuates(CodeAt(stdelay, w, v))
  {
    PulsesOnlyWherePlaced(pl, stdelay, w, t);
    var k: nat :| pl.InPulse(k, t);
    StartPositive(pl, k);
    CodeIsIdeal(pl, stdelay, w, t);
    BitsInPulse(pl, k, t);
    CodeIsIdeal(pl, stdelay, w, v);
    BitsInPulse(pl, k, v);
  }

  lemma StartPositive(pl: Plan, k: nat)
    requires pl.Usable() && pl.Pulses()
    ensures 1 <= pl.Start(k)
  {
    if 0 < k { StartsIncrease(pl, 0, k); }
  }

  /** At offset tau into the transmission of pulse k the sequence carries the phase-code entry
      that offset belongs to, wherever sample events split the pulse; the entry exists. */
  lemma PhaseCoding(pl: Plan, stdelay: int, w: seq<bv8>, k: nat, tau: int)
    requires pl.Usable() && Layout(pl, stdelay, w) && k < pl.mppul && pl.nbaud > 1
    requires 0 <= tau < pl.txp && pl.Start(k) + pl.Offset(3) + tau < Length(pl)
    ensures 0 <= tau / pl.baud < pl.nbaud && 0 <= k * pl.nbaud + tau / pl.baud < |pl.code|
    ensures Inverts(CodeAt(stdelay, w, pl.Start(k) + pl.Offset(3) + tau)) <==>
            pl.code[k * pl.nbaud + tau / pl.baud] < 0
  {
    var t := pl.Start(k) + pl.Offset(3) + tau;
    BaudInRange(pl, k, pl.Offset(3) + tau);
    CodeIndexIs(pl, k, tau);
    StartPositive(pl, k);
    BitsInPulse(pl, k, t);
    CodeIsIdeal(pl, stdelay, w, t);
  }

  lemma CodeIndexIs(pl: Plan, k: nat, tau: int)
    requires k < pl.mppul && pl.baud != 0
    ensures pl.CodeIndex(k, pl.Offset(3) + tau) == k * pl.nbaud + tau / pl.baud
  {
  }

  /** The sample bit goes up at step t. */
  predicate RisesAt(stdelay: int, w: seq<bv8>, t: int) {
    HasSample(CodeAt(stdelay, w, t)) && !HasSample(CodeAt(stdelay, w, t - 1))
  }

  lemma SampleWaveAt(pl: Plan, t: int, m: int)
    requires pl.Usable() && 0 <= m && pl.FirstRise() + m * pl.half <= t < pl.FirstRise() + (m + 1) * pl.half
    ensures pl.SampleWave(t) == SampleBits(m % 2 == 0)
  {
    assert (m + 1) * pl.half == m * pl.half + pl.half;
    MulMono(0, m, pl.half);
    DivUnique(t - pl.FirstRise(), pl.half, m);
  }

  lemma HighAt(pl: Plan, stdelay: int, w: seq<bv8>, t: int)
    requires pl.Usable() && Layout(pl, stdelay, w) && t < Length(pl)
    ensures HasSample(CodeAt(stdelay, w, t)) == (0 <= t && pl.SampleWave(t) == S_BIT)
  {
    CodeIsIdeal(pl, stdelay, w, t);
    if 0 <= t { SampleBitIsSampleWave(pl, t); }
  }

  /** Sample i goes up at Rise(i). */
  lemma WaveRises(pl: Plan, stdelay: int, w: seq<bv8>, i: int)
    requires pl.Usable() && Layout(pl, stdelay, w) && 0 <= i < pl.samples
    ensures RisesAt(stdelay, w, pl.Rise(i))
  {
    var t := pl.Rise(i);
    MulMono(2 * i, 2 * (pl.samples - 1), pl.half);
    MulMono(0, 2 * i, pl.half);
    assert (2 * i + 1) * pl.half == 2 * i * pl.half + pl.half == (2 * i - 1) * pl.half + 2 * pl.half;
    SampleWaveAt(pl, t, 2 * i);
    HighAt(pl, stdelay, w, t);
    HighAt(pl, stdelay, w, t - 1);
    if i > 0 { SampleWaveAt(pl, t - 1, 2 * i - 1); }
  }

  /** In every sample separation but the last the sample bit is set for the first half and clear for
      the second. */
  lemma SampleShape(pl: Plan, stdelay: int, w: seq<bv8>, i: int, t: int)
    requires pl.Usable() && Layout(pl, stdelay, w) && 0 <= i < pl.samples
    requires pl.Rise(i) <= t < pl.Rise(i) + 2 * pl.half && t < Length(pl)
    ensures HasSample(CodeAt(stdelay, w, t)) <==> t < pl.Rise(i) + pl.half
  {
    assert (2 * i + 1) * pl.half == 2 * i * pl.half + pl.half;
    assert (2 * i + 2) * pl.half == 2 * i * pl.half + 2 * pl.half;
    MulMono(0, 2 * i, pl.half);
    SampleWaveAt(pl, t, if t < pl.Rise(i) + pl.half then 2 * i else 2 * i + 1);
    HighAt(pl, stdelay, w, t);
  }

  /** Where samples are, in steps after the start delay: from the first step on without pulses, and
      from the lag to the first range after the centre of the first pulse on with them. */
  lemma RisesWhere(pl: Plan, i: int)
    requires pl.Usable()
    ensures pl.mppul == 0 ==> pl.Rise(i) == 1 + 2 * i * pl.half
    ensures pl.mppul > 0 ==>
              pl.Rise(i) == pl.pat[0] * pl.mpnc + 1 + pl.t2 + pl.t3 + pl.txp / 2 + pl.lgfr + 2 * i * pl.half
  {
  }

  /** A compiled waveform in numbers: the scope code, the start delay, the sequence, and 10 ms of idle
      time after pulses or one step without. */
  lemma LayoutIs(pl: Plan, stdelay: int, w: seq<bv8>)
    requires pl.Usable() && Layout(pl, stdelay, w) && 0 <= stdelay
    ensures |w| == 1 + stdelay + Length(pl) + (if pl.mppul == 0 then 1 else 1000) && w[0] == 0x80
    ensures forall u :: 1 <= u <= stdelay || 1 + stdelay + Length(pl) <= u < |w| ==> w[u] == 0
  {
  }

  /** The sample-delay readback measures the way to the first sample. */
  lemma LeadIsFirstRise(pl: Plan, stdelay: int, w: seq<bv8>, steps: nat)
    requires pl.Usable() && Layout(pl, stdelay, w) && QuietFor(w, steps)
    ensures steps == if pl.samples <= 0 then |w| else 1 + Held(stdelay) + pl.FirstRise()
  {
    var lead := 1 + Held(stdelay);
    if pl.samples > 0 {
      WaveRises(pl, stdelay, w, 0);
      assert pl.Rise(0) == pl.FirstRise();
      if steps < lead + pl.FirstRise() {
        MulMono(0, 2 * (pl.samples - 1), pl.half);
        HighAt(pl, stdelay, w, steps - lead);
      }
    }
  }

  /** Sample separations divide the pulse spacing and the lag to the first range. */
  predicate Aligned(pl: Plan) {
    1 <= pl.half && pl.mpnc % (2 * pl.half) == 0 && pl.lgfr % (2 * pl.half) == 0
  }

  /** An accepted block settles on whole even sample separations, and is aligned. */
  lemma AcceptedIsAligned(b: Block)
    requires b.Callable() && b.Outcome() == Ok && b.mppul > 0
    ensures var pl := b.Settled().ToPlan();
            Aligned(pl) && 2 * pl.half <= pl.mpnc && 2 * pl.half * CLOCK_PERIOD == b.Settled().smsep
  {
    var s := b.Settled();
    assert s.ToPlan().Usable();
    SettledIsWhole(b);
    WholeSeparations(s.smsep, s.mpinc, s.lagfr);
  }

  /** A seven-pulse sequence: 75 gates of 45 km, pulses of 300 us in steps of 1.5 ms. */
  const SEVEN_PULSES: Block := Block(75, 180, 45, 0, 0, 300, 7, 1500, 0, 1, 0, 0, 0, 0, [0, 9, 12, 20, 22, 26, 27], [])
  const SEVEN_PLAN: Plan := Plan(1, 6, 30, 6, 4, 15, 120, 150, 7, 1, 0, [0, 9, 12, 20, 22, 26, 27], [], 210)

  /** It is accepted, with 210 samples, its last pulse at step 4051, no phantom pulse, and room for
      its entries. */
  lemma SevenPulsesCompile()
    ensures var b := SEVEN_PULSES;
            b.Callable() && b.Outcome() == Ok && b.Settled().ToPlan() == SEVEN_PLAN
    ensures SEVEN_PLAN.Usable() && SEVEN_PLAN.Pulses() && SEVEN_PLAN.Start(6) == 4051
    ensures !Overruns(SEVEN_PLAN) && Roomy(SEVEN_PLAN, 0) && Allocated(SEVEN_PLAN) == 1392
  {
    SevenPulsesSettle();
    SevenPulsesFit();
  }

  lemma SevenPulsesSettle()
    ensures var s := SEVEN_PULSES.Settled();
            s.Divisible() && s.Verdict() == Ok && s.ToPlan() == SEVEN_PLAN
  {
    assert CDiv(3600, 3) == 1200 && CDiv(300, 1) == 300 && WholePeriods(300) == 300;
    SettledPasses(SEVEN_PULSES.(lagfr := 1200, mlag := 27, smsep := 300));
  }

  lemma SettledPasses(s: Block)
    requires s == SEVEN_PULSES.(lagfr := 1200, mlag := 27, smsep := 300)
    ensures s.Divisible() && s.Verdict() == Ok && s.ToPlan() == SEVEN_PLAN
  {
    assert CDiv(300, 10) == 30 && CDiv(30, 2) == 15 && CDiv(1200, 10) == 120 && CDiv(1500, 10) == 150;
    assert CMod(30, 2) == 0 && CMod(1200, 300) == 0 && CMod(1500, 300) == 0;
    assert CDiv(42000, 64200) == 0 && CDiv(4050, 30) == 135 && CDiv(67500, 900) == 75;
    assert s.Span() == 64200;
    assert s.SampleCount() == 210;
  }

  lemma SevenPulsesFit()
    ensures SEVEN_PULSES.PatternIncreases()
    ensures SEVEN_PLAN.Usable() && SEVEN_PLAN.Pulses() && SEVEN_PLAN.Start(6) == 4051
    ensures !Overruns(SEVEN_PLAN) && Roomy(SEVEN_PLAN, 0)
  {
    var pl := SEVEN_PLAN;
    assert pl.pat[1] == 9 && pl.pat[2] == 12 && pl.pat[3] == 20 && pl.pat[4] == 22 && pl.pat[5] == 26;
    assert pl.Spaced(1) && pl.Spaced(2) && pl.Spaced(3) && pl.Spaced(4) && pl.Spaced(5) && pl.Spaced(6);
    assert pl.Start(7) == 36865 && pl.Rise(209) == 6413;
  }

  lemma WholeSeparations(sep: int, inc: int, lag: int)
    requires sep % 10 == 0 && CMod(CDiv(sep, 10), 2) == 0 && 1 <= CDiv(CDiv(sep, 10), 2)
    requires sep <= inc && CMod(inc, sep) == 0 && CMod(lag, sep) == 0
    ensures var h := CDiv(CDiv(sep, 10), 2);
            && CDiv(inc, 10) % (2 * h) == 0 && CDiv(lag, 10) % (2 * h) == 0
            && 2 * h <= CDiv(inc, 10) && 2 * h * 10 == sep
  {
    SeparationIsEven(sep);
    Divides10(inc, CDiv(sep, 10));
    Divides10(lag, CDiv(sep, 10));
  }

  lemma SettledIsWhole(b: Block)
    requires 0 <= b.mppul <= |b.pat|
    ensures b.Settled().smsep % CLOCK_PERIOD == 0
  {
    forall sep: int ensures WholePeriods(sep) % 10 == 0 { PeriodsAreWhole(sep); }
  }

  lemma PeriodsAreWhole(sep: int)
    ensures WholePeriods(sep) % CLOCK_PERIOD == 0
  {
    if CMod(sep, 10) == 0 {
      assert sep == 10 * CDiv(sep, 10);
    }
  }

  lemma SeparationIsEven(sep: int)
    requires CMod(CDiv(sep, 10), 2) == 0
    ensures CDiv(sep, 10) == 2 * CDiv(CDiv(sep, 10), 2)
  {
  }

  lemma Divides10(a: int, x: int)
    requires x > 0 && CMod(a, 10 * x) == 0
    ensures CDiv(a, 10) % x == 0
  {
    var q := CDiv(a, 10 * x);
    assert a == 10 * (q * x);
    assert CDiv(a, 10) == q * x;
    MulMod(q, x);
  }

  lemma MulMod(q: int, x: int)
    requires x > 0
    ensures (q * x) % x == 0 && (q * x) / x == q
  {
    DivUnique(q * x, x, q);
  }

  /** The centre of the transmission of pulse k. */
  function Centre(pl: Plan, k: nat): int
    requires pl.Shaped()
  {
    pl.Start(k) + pl.t2 + pl.t3 + pl.txp / 2
  }

  /** The number of the sample that belongs to pulse k and range gate g. */
  function SampleFor(pl: Plan, k: nat, g: int): int
    requires pl.Shaped() && k < pl.mppul && 1 <= pl.half
  {
    (pl.pat[k] - pl.pat[0]) * pl.mpnc / (2 * pl.half) + g
  }

  lemma SampleForRises(pl: Plan, k: nat, g: int)
    requires pl.Usable() && Aligned(pl) && k < pl.mppul
    ensures pl.Rise(SampleFor(pl, k, g)) == Centre(pl, k) + pl.lgfr + g * (2 * pl.half)
  {
    var h := 2 * pl.half;
    var q, d := pl.mpnc / h, pl.pat[k] - pl.pat[0];
    assert d * pl.mpnc == (d * q) * h by { assert pl.mpnc == q * h; }
    MulMod(d * q, h);
    assert d * pl.mpnc == pl.pat[k] * pl.mpnc - pl.pat[0] * pl.mpnc;
    assert 2 * (d * q + g) * pl.half == (d * q) * h + g * h;
  }

  /** For every pulse k and gate g that is sampled, the sample numbered for them goes up exactly
      the lag to the first range plus g sample separations after the centre of the pulse, and
      the transmitter is on at that centre. */
  lemma LagAlignment(pl: Plan, stdelay: int, w: seq<bv8>, k: nat, g: int)
    requires pl.Usable() && Aligned(pl) && Layout(pl, stdelay, w) && k < pl.mppul
    requires 0 <= SampleFor(pl, k, g) < pl.samples
    ensures RisesAt(stdelay, w, Centre(pl, k) + pl.lgfr + g * (2 * pl.half))
    ensures Centre(pl, k) < Length(pl) ==> Transmits(CodeAt(stdelay, w, Centre(pl, k)))
  {
    SampleForRises(pl, k, g);
    WaveRises(pl, stdelay, w, SampleFor(pl, k, g));
    if Centre(pl, k) < Length(pl) {
      BitsInPulse(pl, k, Centre(pl, k));
      StartPositive(pl, k);
      CodeIsIdeal(pl, stdelay, w, Centre(pl, k));
    }
  }

  /** Samples of two pulses at one range are whole lags apart. */
  lemma WholeLags(pl: Plan, j: nat, k: nat, g: int)
    requires pl.Usable() && Aligned(pl) && j < pl.mppul && k < pl.mppul
    ensures pl.Rise(SampleFor(pl, k, g)) - pl.Rise(SampleFor(pl, j, g)) == (pl.pat[k] - pl.pat[j]) * pl.mpnc
  {
    SampleForRises(pl, j, g);
    SampleForRises(pl, k, g);
  }

  /** The condition in numbers: with pulses the sentinel of 32767 steps runs from the end of the last
      cycle, and without from the start. */
  lemma OverrunsIs(pl: Plan)
    requires pl.Usable()
    ensures var last := if pl.mppul == 0 then 0 else pl.pat[pl.mppul - 1] * pl.mpnc + 1 + pl.t2 + pl.t3 + pl.txp
                                                     + pl.t4 + pl.t5;
            Overruns(pl) <==> 0 < pl.samples && last + 32767 <= pl.Rise(pl.samples - 1)
  {
    if pl.mppul > 0 {
      assert pl.Start(pl.mppul) == pl.Start(pl.mppul - 1) + pl.Cycle() + 32767;
    }
  }

  ghost predicate InPattern(pl: Plan, t: int)
    requires pl.Shaped()
  {
    exists k: nat :: k < pl.mppul && pl.InPulse(k, t)
  }

  /** A compiled sequence switches the attenuators on where its pattern has no pulse if and only if
      it is still being sampled when the sentinel after its last cycle has run out. */
  lemma PhantomPulses(pl: Plan, stdelay: int, w: seq<bv8>)
    requires pl.Usable() && Layout(pl, stdelay, w)
    ensures (exists t :: Attenuates(CodeAt(stdelay, w, t)) && !InPattern(pl, t)) <==> Overruns(pl)
  {
    OverrunsMeans(pl);
    FirstStart(pl);
    if Overruns(pl) {
      PhantomAt(pl, stdelay, w, pl.Start(pl.mppul));
    }
    forall t | Attenuates(CodeAt(stdelay, w, t)) && !InPattern(pl, t) ensures Overruns(pl) {
      PulsesOnlyWherePlaced(pl, stdelay, w, t);
      var k: nat :| pl.InPulse(k, t);
      if pl.mppul < k { StartsIncrease(pl, pl.mppul, k); }
    }
  }

  /** The cycle after the last of the pattern is a whole pulse, as far as the sequence has not ended. */
  lemma PhantomAt(pl: Plan, stdelay: int, w: seq<bv8>, t: int)
    requires pl.Usable() && Layout(pl, stdelay, w) && Overruns(pl)
    requires pl.InPulse(pl.mppul, t) && t < Length(pl)
    ensures Attenuates(CodeAt(stdelay, w, t)) && !InPattern(pl, t)
    ensures Transmits(CodeAt(stdelay, w, t)) <==> pl.Offset(3) <= t - pl.Start(pl.mppul) < pl.Offset(4)
  {
    FirstStart(pl);
    BitsInPulse(pl, pl.mppul, t);
    CodeIsIdeal(pl, stdelay, w, t);
    forall k: nat | k < pl.mppul ensures !pl.InPulse(k, t) { StartsIncrease(pl, k, pl.mppul); }
  }

  /** Receive only: 60 gates of 15000 km, sampled every 100 ms. */
  const SLOW_RECEIVE: Block := Block(60, 0, 15000, 100000, 0, 300, 0, 3000, 0, 1, 0, 0, 0, 0, [], [])

  /** A block that asks for no pulse at all is accepted, transmits all the same, and writes more
      entries than are allocated. */
  lemma ReceiveOnlyTransmits(w: seq<bv8>)
    ensures SLOW_RECEIVE.mppul == 0 && SLOW_RECEIVE.Callable() && SLOW_RECEIVE.Outcome() == Ok
    ensures var pl := SLOW_RECEIVE.Settled().ToPlan();
            Allocated(pl) == 440 && Overruns(pl) && Crowded(pl) && (Layout(pl, 0, w) ==> Transmits(CodeAt(0, w, 32774)))
  {
    SlowReceivePlan();
    var pl := SLOW_RECEIVE.Settled().ToPlan();
    if Layout(pl, 0, w) { PhantomAt(pl, 0, w, SENTINEL + 7); }
  }

  lemma SlowReceivePlan()
    ensures var b := SLOW_RECEIVE;
            && b.Callable() && b.Outcome() == Ok
            && b.Settled().ToPlan() == Plan(1, 6, 30, 6, 4, 5000, 0, 300, 0, 1, 0, [], [], 60)
  {
    var b := SLOW_RECEIVE;
    var s := b.Settled();
    assert s == b.(lagfr := 0, mlag := 0, smsep := 100000);
    assert s.Divisible() && s.Verdict() == Ok;
    assert s.SampleCount() == 60;
  }

  /** The sample delay is the time to the first sample in range gates, rounded to the nearest. */
  lemma DelayIsNearest(steps: nat, rsep: int)
    requires rsep > 0
    ensures var gate := rsep as real / 0.3 * 2.0;
            var d := DelayInGates(steps, rsep) as real;
            var time := (steps * CLOCK_PERIOD) as real;
            d * gate - gate / 2.0 <= time < d * gate + gate / 2.0
  {
    var gate := rsep as real / 0.3 * 2.0;
    var time := (steps * CLOCK_PERIOD) as real;
    var d := DelayInGates(steps, rsep) as real;
    RoundedQuotient(time, gate, time / gate, d);
  }

  lemma RoundedQuotient(x: real, y: real, q: real, d: real)
    requires y > 0.0 && q == x / y && d <= q + 0.5 < d + 1.0
    ensures d * y - y / 2.0 <= x < d * y + y / 2.0
  {
    assert x == q * y;
    MulLess(d - 0.5, q, y);
    MulLess(q, d + 0.5, y);
    assert (d - 0.5) * y == d * y - y / 2.0;
    assert (d + 0.5) * y == d * y + y / 2.0;
  }
}
