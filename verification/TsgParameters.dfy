/** What a parameter block settles on: separations, durations and samples in terms of the parameters
    alone, and the reasons for which a block is turned down. */
module TsgParameters {
  import opened Common
  import opened TsgWave
  import opened TsgMake
  import opened TsgProperties

  /** The pulse length, and the length the sample separation is made from. */
  lemma LengthIs(b: Block)
    requires 0 <= b.mppul <= |b.pat|
    ensures var s := b.Settled();
            && (b.mppul > 0 && b.txpl != 0 ==> s.txpl == b.txpl)
            && (b.mppul > 0 && b.txpl == 0 && b.smsep != 0 ==> s.txpl == b.smsep)
            && (b.mppul > 0 && b.txpl == 0 && b.smsep == 0 && 0 <= b.rsep ==>
                  3 * s.txpl <= 20 * b.rsep < 3 * s.txpl + 3)
            && (b.mppul == 0 ==> s.txpl == b.txpl)
  {
  }

  /** A separation is rounded up to a whole even number of clock periods. */
  lemma WholePeriodsAre(q: int)
    requires 0 <= q && CMod(CDiv(WholePeriods(q), 10), 2) == 0
    ensures var p := WholePeriods(q); p % 20 == 0 && p - 20 < q <= p
  {
    var t := q / 10;
    TenTimes(t);
    TenTimes(t + 1);
    TenTimes(t + 2);
    assert CDiv(q, 10) == t && (CMod(q, 10) == 0 <==> q == 10 * t);
    assert WholePeriods(q) in {10 * t, 10 * (t + 1), 10 * (t + 2)};
  }

  lemma TenTimes(t: int)
    requires 0 <= t
    ensures CDiv(10 * t, 10) == t && (CMod(t, 2) == 0 <==> 10 * t % 20 == 0)
  {
  }

  lemma HalfOf(sep: int)
    requires 0 <= sep && sep % 20 == 0
    ensures 20 * CDiv(CDiv(sep, 10), 2) == sep
  {
    assert CDiv(sep, 10) == sep / 10;
  }

  lemma RoundedShare(length: int, n: int, q: int, sep: int)
    requires 0 < n && n * q <= length < n * q + n && sep - 20 < q <= sep
    ensures length - n < n * sep < length + 20 * n
  {
    MulMono(q, sep, n);
    MulMono(sep - 20, q - 1, n);
    assert (sep - 20) * n == n * sep - 20 * n && (q - 1) * n == n * q - n;
  }

  lemma ExactShare(length: int, n: int, sep: int)
    requires 0 < n && sep % 20 == 0 && sep - 20 < length / n <= sep && length % (20 * n) == 0
    ensures n * sep == length
  {
    var k := length / (20 * n);
    assert length == (20 * n) * k == (20 * k) * n;
    DivUnique(length, n, 20 * k);
  }

  /** What becomes of a length that is shared by n bauds. */
  lemma SeparationOf(length: int, n: int, sep: int, half: int)
    requires 0 < length && 0 < n && sep == WholePeriods(CDiv(length, n))
    requires CMod(CDiv(sep, 10), 2) == 0 && half == CDiv(CDiv(sep, 10), 2) && 1 <= half
    ensures sep == 20 * half && length - n < n * sep < length + 20 * n
    ensures length % (20 * n) == 0 ==> n * sep == length
  {
    CDivTruncates(length, n);
    var q := length / n;
    Quotient(length, n);
    WholePeriodsAre(q);
    HalfOf(sep);
    RoundedShare(length, n, q, sep);
    if length % (20 * n) == 0 { ExactShare(length, n, sep); }
  }

  /** An accepted block samples once a baud: a sample separation for every baud makes up the length,
      exactly where that many even separations can, and otherwise short of it by less than a
      microsecond or over it by less than two clock periods a baud. */
  lemma SeparationIs(b: Block)
    requires b.Callable() && b.Outcome() == Ok && (b.mppul == 0 ==> 0 < b.smsep)
    ensures var pl := b.Settled().ToPlan();
            var length := if b.mppul == 0 then b.smsep else b.Settled().txpl;
            var n := if b.nbaud < 1 then 1 else b.nbaud;
            && 1 <= pl.half && 20 * pl.half == b.Settled().smsep && 0 < length
            && length - n < n * (20 * pl.half) < length + 20 * n
            && (length % (20 * n) == 0 ==> n * (20 * pl.half) == length)
  {
    var s := b.Settled();
    var n := if b.nbaud < 1 then 1 else b.nbaud;
    assert s.ToPlan().Usable();
    LengthPositive(b);
    SeparationOf(if b.mppul == 0 then b.smsep else s.txpl, n, s.smsep, s.ToPlan().half);
  }

  lemma LengthPositive(b: Block)
    requires b.Callable() && b.Outcome() == Ok && (b.mppul == 0 ==> 0 < b.smsep)
    ensures 0 < if b.mppul == 0 then b.smsep else b.Settled().txpl
  {
    assert b.Settled().ToPlan().Usable();
    if b.mppul > 0 { CDivTruncates(b.Settled().txpl, 10); }
  }

  /** In a phase-coded pulse whose length divides evenly, a sample separation is a baud. */
  lemma OneSampleABaud(b: Block)
    requires b.Callable() && b.Outcome() == Ok && b.mppul > 0 && b.nbaud > 1
    requires b.Settled().txpl % (20 * b.nbaud) == 0
    ensures var pl := b.Settled().ToPlan(); 2 * pl.half == pl.baud
  {
    SeparationIs(b);
    BaudOf(b.Settled().txpl, b.nbaud, b.Settled().ToPlan().half);
  }

  lemma BaudOf(length: int, n: int, half: int)
    requires 0 < length && 1 < n && n * (20 * half) == length
    ensures CDiv(CDiv(length, 10), n) == 2 * half
  {
    assert n * (20 * half) == 10 * (n * (2 * half));
    CDivTruncates(length, 10);
    assert length / 10 == n * (2 * half) == 2 * half * n;
    CDivTruncates(length / 10, n);
    DivUnique(length / 10, n, 2 * half);
  }

  /** The durations of an accepted block in clock steps of 10 microseconds: 10 attenuated, 60 with the
      receiver off, the pulse, 60 or what the block asks for until the release, and 40 to the end. */
  lemma DurationsAre(b: Block)
    requires b.Callable() && b.Outcome() == Ok
    ensures var pl := b.Settled().ToPlan();
            && pl.mppul == b.mppul && pl.pat == b.pat && pl.code == b.code
            && pl.nbaud == (if b.nbaud < 1 then 1 else b.nbaud)
            && 10 * pl.t2 == 10 && 10 * pl.t3 == 60 && 10 * pl.t5 == 40
            && (b.rtoxmin == 0 ==> 10 * pl.t4 == 60)
            && (0 < b.rtoxmin ==> 10 * pl.t4 <= b.rtoxmin < 10 * pl.t4 + 10)
            && (b.mppul > 0 ==> 10 * pl.txp <= b.Settled().txpl < 10 * pl.txp + 10)
            && (b.mppul > 0 ==> 10 * pl.mpnc == b.mpinc)
            && (0 <= b.frang ==> 30 * pl.lgfr <= 20 * b.frang < 30 * pl.lgfr + 30)
            && (b.mppul > 0 && b.nbaud > 1 ==> pl.nbaud * pl.baud == pl.txp)
  {
    var s := b.Settled();
    if 0 < b.rtoxmin { CDivTruncates(b.rtoxmin, 10); }
    if b.mppul > 0 {
      LengthPositive(b);
      CDivTruncates(s.txpl, 10);
      AcceptedIsAligned(b);
      SpacingIsWhole(b.mpinc, s.smsep);
      CDivTruncates(s.mpinc, s.smsep);
      CDivTruncates(s.mpinc, 10);
    }
    assert s.ToPlan().Usable();
  }

  lemma SpacingIsWhole(inc: int, sep: int)
    requires 0 < sep && sep % 10 == 0
    ensures inc % sep == 0 ==> inc % 10 == 0
  {
    if inc % sep == 0 {
      var k, j := inc / sep, sep / 10;
      assert inc == k * sep == k * (10 * j) == 10 * (k * j);
    }
  }

  /** An accepted sequence takes a sample every separation up to the last pulse, and then one for every
      separation that the range asked for holds. */
  lemma SamplesAre(b: Block)
    requires b.Callable() && b.Outcome() == Ok && b.mppul > 0 && 0 <= b.nrang
    ensures var pl := b.Settled().ToPlan();
            && 0 < pl.half && pl.mpnc % (2 * pl.half) == 0
            && var gates := pl.samples - b.pat[b.mppul - 1] * (pl.mpnc / (2 * pl.half));
               && 0 <= gates
               && 60 * pl.half * gates <= 20 * b.nrang * b.rsep < 60 * pl.half * gates + 60 * pl.half
  {
    AcceptedIsAligned(b);
    var s := b.Settled();
    var pl := s.ToPlan();
    CDivTruncates(s.smsep, 10);
    LagSamples(s.mlag, pl.mpnc, 2 * pl.half);
    RangeSamples(b.nrang, b.rsep, s.smsep);
  }

  lemma LagSamples(lag: int, spacing: int, step: int)
    requires 0 < step && spacing % step == 0
    ensures CDiv(lag * spacing, step) == lag * (spacing / step)
  {
    var k := spacing / step;
    assert spacing == k * step;
    assert lag * spacing == (lag * k) * step;
    ExactQuotient(lag * k, step);
  }

  lemma RangeSamples(gates: int, rsep: int, sep: int)
    requires 0 <= gates && 0 <= rsep && 0 < sep
    ensures var g := CDiv(gates * (rsep * 20), 3 * sep);
            0 <= g && 3 * sep * g <= 20 * gates * rsep < 3 * sep * g + 3 * sep
  {
    var range := gates * (rsep * 20);
    MulMono(0, gates, rsep * 20);
    assert range == 20 * gates * rsep;
    CDivTruncates(range, 3 * sep);
    Quotient(range, 3 * sep);
  }

  lemma ExactQuotient(q: int, x: int)
    requires 0 < x
    ensures CDiv(q * x, x) == q
  {
    DivUnique(q * x, x, q);
    assert (q * x) % x == 0;
  }

  lemma Quotient(x: int, y: int)
    requires 0 <= x && 0 < y
    ensures 0 <= x / y && y * (x / y) <= x < y * (x / y) + y
  {
  }

  /** The length of a sequence in microseconds, lags, gates and first range together. */
  function SpanOf(b: Block): int
    requires 0 < b.mppul <= |b.pat|
  {
    var n := if b.nbaud < 1 then 1 else b.nbaud;
    b.pat[b.mppul - 1] * b.mpinc + b.nrang * n * b.Settled().smsep + b.Settled().lagfr
  }

  /** Why a block with pulses is turned down, and that it is accepted if there is no reason: spacing
      and lag to the first range are whole separations, less than a twentieth of the sequence is
      transmitted, separations are even and bauds whole. */
  lemma OutcomeMeans(b: Block)
    requires b.Callable() && 0 <= b.frang && 0 < b.rsep && b.PatternIncreases() && b.mppul > 0
    requires 0 < b.Settled().smsep && 0 <= b.Settled().txpl && 0 < SpanOf(b)
    ensures var s, flg := b.Settled(), b.Outcome();
            var txp, n := s.txpl / 10, if b.nbaud < 1 then 1 else b.nbaud;
            && 3 * s.lagfr <= 20 * b.frang < 3 * s.lagfr + 3
            && (flg == Ok <==>
                  && s.smsep <= b.mpinc && s.lagfr % s.smsep == 0 && b.mpinc % s.smsep == 0
                  && 20 * b.mppul * s.txpl < SpanOf(b) && s.smsep / 10 % 2 == 0
                  && (n > 1 ==> txp % n == 0 && n <= txp))
            && (flg == InvMpincSmsep ==> b.mpinc < s.smsep || b.mpinc % s.smsep != 0)
            && (flg == InvLagfrSmsep ==> s.lagfr % s.smsep != 0)
            && (flg == InvDutyCycle ==> SpanOf(b) <= 20 * b.mppul * s.txpl)
            && (flg == InvOddSmsep ==> s.smsep / 10 % 2 != 0)
            && (flg == InvTxplBaud ==> n > 1 && txp % n != 0)
            && (flg == InvPhaseDelay ==> n > 1 && txp < n)
  {
    var s := b.Settled();
    CDivTruncates(s.lagfr, s.smsep);
    CDivTruncates(b.mpinc, s.smsep);
    CDivTruncates(s.smsep, 10);
    CDivTruncates(s.smsep / 10, 2);
    CDivTruncates(s.txpl, 10);
    BaudsMean(s.txpl / 10, s.nbaud);
    DutyMeans(20 * b.mppul * s.txpl, SpanOf(b));
    assert s.Span() == SpanOf(b);
    assert 0 <= 20 * b.mppul * s.txpl by { MulMono(0, 20 * b.mppul, s.txpl); }
  }

  lemma BaudsMean(txp: int, n: int)
    requires 0 <= txp && 1 <= n
    ensures (CMod(txp, n) == 0 <==> txp % n == 0) && (CDiv(txp, n) == 0 <==> txp < n)
  {
    CDivTruncates(txp, n);
    Quotient(txp, n);
    if txp < n { DivUnique(txp, n, 0); }
  }

  lemma DutyMeans(on: int, span: int)
    requires 0 < span
    ensures 0 <= on ==> (CDiv(on, span) >= 1 <==> span <= on)
  {
    if 0 <= on {
      CDivTruncates(on, span);
      Quotient(on, span);
      if on < span { DivUnique(on, span, 0); }
    }
  }

  /** A phase-coded sequence: two bauds of 300 us a pulse, seven pulses in steps of 2.4 ms. */
  const TWO_BAUDS: Block :=
    Block(75, 180, 45, 0, 0, 600, 7, 2400, 0, 2, 0, 0, 0, 0, [0, 9, 12, 20, 22, 26, 27],
          [1, 1, 1, 1, 1, 1, 1, 1, 1, 1, 1, 1, 1, 1])
  const TWO_BAUDS_PLAN: Plan :=
    Plan(1, 6, 60, 6, 4, 15, 120, 240, 7, 2, 30, [0, 9, 12, 20, 22, 26, 27],
         [1, 1, 1, 1, 1, 1, 1, 1, 1, 1, 1, 1, 1, 1], 291)

  /** It is accepted, with a sample every 300 us and 291 of them. */
  lemma TwoBaudsCompile()
    ensures TWO_BAUDS.Callable() && TWO_BAUDS.Outcome() == Ok
    ensures TWO_BAUDS.Settled().smsep == 300 && TWO_BAUDS.Settled().ToPlan() == TWO_BAUDS_PLAN
  {
    TwoBaudsSettle();
    TwoBaudsPass(TWO_BAUDS.Settled());
    TwoBaudsFit();
  }

  lemma TwoBaudsSettle()
    ensures TWO_BAUDS.Settled() == TWO_BAUDS.(lagfr := 1200, mlag := 27, smsep := 300)
  {
    assert CDiv(3600, 3) == 1200 && CDiv(600, 2) == 300 && WholePeriods(300) == 300;
  }

  lemma TwoBaudsPass(s: Block)
    requires s == TWO_BAUDS.(lagfr := 1200, mlag := 27, smsep := 300)
    ensures s.Divisible() && s.Verdict() == Ok && s.ToPlan() == TWO_BAUDS_PLAN
  {
    assert CDiv(300, 10) == 30 && CDiv(30, 2) == 15 && CDiv(1200, 10) == 120 && CDiv(2400, 10) == 240;
    assert CDiv(600, 10) == 60 && CMod(60, 2) == 0 && CDiv(60, 2) == 30;
    assert CMod(30, 2) == 0 && CMod(1200, 300) == 0 && CMod(2400, 300) == 0;
    assert CDiv(84000, 111000) == 0 && CDiv(6480, 30) == 216 && CDiv(67500, 900) == 75;
    assert s.Span() == 111000;
    assert s.SampleCount() == 291;
  }

  lemma TwoBaudsFit()
    ensures TWO_BAUDS.PatternIncreases() && TWO_BAUDS_PLAN.Usable()
  {
    var pl := TWO_BAUDS_PLAN;
    assert pl.pat[1] == 9 && pl.pat[2] == 12 && pl.pat[3] == 20 && pl.pat[4] == 22 && pl.pat[5] == 26;
    assert pl.Spaced(1) && pl.Spaced(2) && pl.Spaced(3) && pl.Spaced(4) && pl.Spaced(5) && pl.Spaced(6);
    assert |pl.code| == 14;
  }
}
