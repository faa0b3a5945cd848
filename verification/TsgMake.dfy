/** The pulse-sequence compiler: validation, time arithmetic, the event loop, and the readback
    of the sample delay. */
module TsgMake {
  import opened Common
  import opened TsgStates
  import opened TsgWave
  import opened TsgSim
  import opened TsgBuffer
  import opened TsgEntries
  import opened TsgRun

  /** Clock period in microseconds. */
  const CLOCK_PERIOD: int := 10
  const END_DELAY: int := 10000 / CLOCK_PERIOD

  /** A sample separation that is not a whole number of clock periods is raised to an even one. */
  function WholePeriods(sep: int): int {
    var up := (CDiv(sep, CLOCK_PERIOD) + 1) * CLOCK_PERIOD;
    if CMod(sep, CLOCK_PERIOD) == 0 then sep
    else if CMod(CDiv(up, CLOCK_PERIOD), 2) == 0 then up else up + CLOCK_PERIOD
  }

  datatype Flag =
    | Ok | InvRsep | InvPat | InvMpincSmsep | InvLagfrSmsep | InvDutyCycle | InvOddSmsep
    | InvTxplBaud | InvPhaseDelay

  /** The parameter block as a value. */
  datatype Block = Block(
    nrang: int, frang: int, rsep: int, smsep: int, lagfr: int, txpl: int, mppul: int, mpinc: int,
    mlag: int, nbaud: int, samples: int, smdelay: int, stdelay: int, rtoxmin: int,
    pat: seq<int>, code: seq<int>)
  {
    predicate PatternIncreases() {
      forall i, j :: 0 <= i < j < mppul && j < |pat| ==> pat[i] < pat[j]
    }

    /** The block after the sample separation has been settled. */
    function Settled(): Block
      requires 0 <= mppul <= |pat|
    {
      var nb := if nbaud < 1 then 1 else nbaud;
      var sep := if mppul == 0 || (txpl == 0 && smsep != 0) then smsep
                 else if txpl != 0 then txpl else CDiv(rsep * 20, 3);
      this.(nbaud := nb,
            lagfr := CDiv(frang * 20, 3),
            txpl := if mppul == 0 then txpl else sep,
            mlag := if mppul == 0 then 0 else pat[mppul - 1],
            smsep := WholePeriods(CDiv(sep, nb)))
    }

    /** The length of the sequence in microseconds, as the duty-cycle test reckons it. */
    function Span(): int {
      mlag * mpinc + nrang * nbaud * smsep + lagfr
    }

    /** The divisors of a settled block are not zero. */
    predicate Divisible() {
      smsep != 0 && CDiv(smsep, CLOCK_PERIOD) != 0 && (mppul > 0 ==> Span() != 0)
    }

    /** The checks on a settled block, in order. */
    function Verdict(): Flag
      requires Divisible() && 1 <= nbaud
    {
      var txp := CDiv(txpl, CLOCK_PERIOD);
      if mppul > 0 && mpinc < smsep then InvMpincSmsep
      else if mppul > 0 && CMod(lagfr, smsep) != 0 then InvLagfrSmsep
      else if mppul > 0 && CMod(mpinc, smsep) != 0 then InvMpincSmsep
      else if mppul > 0 && CDiv(20 * mppul * txpl, Span()) >= 1 then InvDutyCycle
      else if CMod(CDiv(smsep, CLOCK_PERIOD), 2) != 0 then InvOddSmsep
      else if mppul != 0 && nbaud > 1 && CMod(txp, nbaud) != 0 then InvTxplBaud
      else if mppul != 0 && nbaud > 1 && CDiv(txp, nbaud) == 0 then InvPhaseDelay
      else Ok
    }

    /** The number of samples of a settled block. */
    function SampleCount(): int
      requires Divisible()
    {
      CDiv(mlag * CDiv(mpinc, CLOCK_PERIOD), CDiv(smsep, CLOCK_PERIOD)) +
      CDiv(nrang * (rsep * 20), 3 * smsep)
    }

    /** The durations of a settled block in clock steps. */
    function ToPlan(): Plan
      requires Divisible() && 1 <= nbaud
    {
      var c := CLOCK_PERIOD;
      var t2, t3, txp := 10 / c, 60 / c, CDiv(txpl, c);
      Plan(t2, t3, txp, if rtoxmin == 0 then t3 else CDiv(rtoxmin, c), t2 + 30 / c,
           CDiv(CDiv(smsep, c), 2), CDiv(lagfr, c), CDiv(mpinc, c), mppul, nbaud,
           if mppul == 0 || nbaud == 1 then 0 else CDiv(txp, nbaud), pat, code, SampleCount())
    }

    /** What a caller must bring: a pattern as long as it says and, where the compiler gets
        past its first checks, divisors that are not zero and durations the event loop can run. */
    predicate Callable() {
      && 0 <= mppul <= |pat|
      && (0 <= frang && 0 < rsep && PatternIncreases() ==>
            && Settled().Divisible()
            && (Settled().Verdict() == Ok ==> Settled().ToPlan().Usable()))
    }

    /** The outcome of a call. */
    function Outcome(): Flag
      requires Callable()
    {
      if frang < 0 || rsep <= 0 then InvRsep
      else if !PatternIncreases() then InvPat
      else Settled().Verdict()
    }
  }

  /** The idle time that closes a sequence. */
  function Closing(pl: Plan): nat {
    if pl.mppul == 0 then 1 else END_DELAY
  }

  /** The waveform of a compiled sequence: one scope step, the start delay, the ideal steps up to
      and into the last sample, and the closing idle time. */
  ghost predicate Layout(pl: Plan, stdelay: int, w: seq<bv8>)
    requires pl.Usable()
  {
    var lead, n := 1 + Held(stdelay), Length(pl);
    && 0 <= n && |w| == lead + n + Closing(pl)
    && w[0] == SCOPE
    && (forall u :: 1 <= u < lead ==> w[u] == 0)
    && (forall t :: 0 <= t < n ==> w[lead + t] == pl.Ideal(t))
    && (forall u :: lead + n <= u < |w| ==> w[u] == 0)
  }

  /** The number of entries of a compiled sequence. */
  ghost function EntryCount(pl: Plan, stdelay: int): nat
    requires pl.Usable()
  {
    1 + Entries(stdelay) + Opened(Events(pl), Length(pl)) + Entries(Closing(pl))
  }

  /** The bytes allocated for the codes of a sequence. */
  function Allocated(pl: Plan): int {
    2 * (pl.mppul * (6 + 2 * pl.nbaud) + pl.lgfr + 2 * pl.samples + 100)
  }

  /** Half a sample fits one entry, the first pulse comes at once and the start delay, the pulses
      and the sampling are not excessive. */
  predicate Roomy(pl: Plan, stdelay: int)
    requires pl.Usable()
  {
    && pl.half <= 255 && 0 <= pl.samples && 0 <= pl.lgfr && !Overruns(pl)
    && (pl.mppul > 0 ==> pl.pat[0] == 0 && pl.t2 + pl.t3 <= 7)
    && 0 <= stdelay <= 20000 && pl.txp <= 20000
  }

  /** One entry for every 255 steps up to the last sample is more than is allocated. */
  predicate Crowded(pl: Plan)
    requires pl.Shaped()
  {
    0 < pl.samples && 255 * Allocated(pl) <= pl.Rise(pl.samples - 1)
  }

  /** The sample delay in range gates, rounded to the nearest. */
  function DelayInGates(steps: nat, rsep: int): int
    requires rsep > 0
  {
    ((steps * 10) as real / (rsep as real / 0.3 * 2.0) + 0.5).Floor
  }

  class TsgPrm {
    var nrang: int
    var frang: int
    var rsep: int
    var smsep: int
    var lagfr: int
    var txpl: int
    var mppul: int
    var mpinc: int
    var mlag: int
    var nbaud: int
    var samples: int
    var smdelay: int
    var stdelay: int
    var rtoxmin: int
    var pat: seq<int>
    var code: seq<int>

    function Value(): Block
      reads this
    {
      Block(nrang, frang, rsep, smsep, lagfr, txpl, mppul, mpinc, mlag, nbaud, samples,
                  smdelay, stdelay, rtoxmin, pat, code)
    }

    /** Settle the lag to the first range, the pulse length and the sample separation. */
    method Settle()
      requires 0 <= mppul <= |pat|
      modifies this
      ensures Value() == old(Value()).Settled()
    {
      if nbaud < 1 { nbaud := 1; }
      var temp := frang * 20;
      lagfr := CDiv(temp, 3);
      if mppul != 0 { MatchSeparation(); }
      smsep := CDiv(smsep, nbaud);
      mlag := if mppul == 0 then 0 else pat[mppul - 1];
      RoundSeparation();
    }

    /** Make pulse length and sample separation the same. */
    method MatchSeparation()
      modifies `smsep, `txpl
      ensures smsep == txpl == if old(txpl) != 0 then old(txpl)
                               else if old(smsep) == 0 then CDiv(rsep * 20, 3) else old(smsep)
    {
      if txpl != 0 { smsep := txpl; }
      else if smsep == 0 {
        smsep := CDiv(rsep * 20, 3);
        txpl := smsep;
      } else { txpl := smsep; }
    }

    method RoundSeparation()
      modifies `smsep
      ensures smsep == WholePeriods(old(smsep))
    {
      if CMod(smsep, CLOCK_PERIOD) != 0 {
        smsep := (CDiv(smsep, CLOCK_PERIOD) + 1) * CLOCK_PERIOD;
        if CMod(CDiv(smsep, CLOCK_PERIOD), 2) != 0 {
          smsep := smsep + CLOCK_PERIOD;
        }
      }
    }
  }

  /** The first n steps of the ideal waveform. */
  ghost function IdealSteps(pl: Plan, n: nat): seq<bv8>
    requires pl.Usable()
  {
    seq(n, u => pl.Ideal(u))
  }

  lemma IdealAppend(pl: Plan, w: seq<bv8>, t: nat, c: bv8, d: nat)
    requires pl.Usable() && forall u :: t <= u < t + d ==> pl.Ideal(u) == c
    ensures w + IdealSteps(pl, t) + Repeat(c, d) == w + IdealSteps(pl, t + d)
  {
    assert IdealSteps(pl, t) + Repeat(c, d) == IdealSteps(pl, t + d);
    assert w + IdealSteps(pl, t) + Repeat(c, d) == w + (IdealSteps(pl, t) + Repeat(c, d));
  }

  /** The code and duration of the next entry, and the time to the next baud. */
  method NextEntry(pl: Plan, st: State, i: int, j: int, f0: int, s: int, p: int, ghost sim: Sim)
    returns (code: bv8, delay: int, f: int)
    requires sim == Sim(st, i, j, f0, s, p, sim.nSmp, sim.last) && CodeReady(pl, sim)
    ensures code == CodeOf(pl, sim) && delay == Delay(pl, sim) && f == BaudTime(pl, sim)
  {
    f := f0;
    code := Row(st).rfvect;
    if code & X_BIT != 0 && pl.nbaud > 1 {
      if f > pl.txp { f := pl.baud; }
      var pCode := pl.code[pl.nbaud * (i - 1) + j];
      code := code | if pCode < 0 then P_BIT else 0;
    } else {
      f := SENTINEL;
    }
    delay := Min3(f, s, p);
  }

  /** The next state and the times to the events after it. */
  method NextEvent(pl: Plan, st0: State, i0: int, j0: int, f0: int, s0: int, p0: int, delay: int, ghost sim: Sim)
    returns (st: State, i: int, j: int, f: int, s: int, p: int)
    requires pl.Shaped() && 0 <= i0 && (pl.mppul > 0 ==> 0 < i0)
    requires sim == Sim(st0, i0, j0, sim.f, s0, p0, sim.nSmp, sim.last)
    requires f0 == BaudTime(pl, sim) && delay == Delay(pl, sim)
    ensures var next := Advance(pl, sim);
            next == Sim(st, i, j, f, s, p, next.nSmp, next.last)
  {
    st, i, j, f := st0, i0, j0, f0;
    if f < s0 && f < p0 {
      j := j + 1;
    } else if s0 < p0 {
      st := Row(st).onSample;
      if f == s0 { j := j + 1; }
    } else if s0 == p0 {
      st := Row(st).onBoth;
      j := 0;
    } else {
      f := SENTINEL;
      j := 0;
      st := Row(st).onPulse;
    }
    s, p, f := s0 - delay, p0 - delay, f - delay;
    if f <= 0 { f := pl.baud; }
    if s <= 0 { s := pl.half; }
    if p <= 0 { p := Duration(pl, st); }
    if p == 0 {
      if i < pl.mppul {
        p := (pl.pat[i] - pl.pat[i - 1]) * pl.mpnc - (pl.t2 + pl.t3 + pl.t4 + pl.t5 + pl.txp);
        j := 0;
        i := i + 1;
      } else {
        p := SENTINEL;
      }
    }
  }

  /** The buffer holds w and then n ideal steps, and the loop stands at sim. */
  ghost predicate Written(pl: Plan, buf: TsgBuf, cnt: TsgCnt, sim: Sim, w: seq<bv8>, n: nat)
    reads buf, cnt
    requires pl.Usable()
  {
    && buf.Valid() && buf.Counted(cnt)
    && buf.Wave() == w + IdealSteps(pl, n)
    && cnt.nSmp == sim.nSmp && cnt.last == sim.last
  }

  /** Write one entry of the loop. */
  method WriteEntry(pl: Plan, buf: TsgBuf, cnt: TsgCnt, code: bv8, delay: int,
                    ghost sim: Sim, ghost w: seq<bv8>, ghost n: nat)
    requires pl.Usable() && Written(pl, buf, cnt, sim, w, n) && CanPass(pl, sim, n)
    requires code == CodeOf(pl, sim) && delay == Delay(pl, sim)
    modifies buf`code, buf`rep, cnt
    ensures Written(pl, buf, cnt, Advance(pl, sim), w, n + delay)
    ensures |buf.code| == old(|buf.code|) + Entries(delay)
  {
    buf.WrBuf(code, delay, cnt);
    IdealAppend(pl, w, n, code, delay);
  }

  /** The variables before the first pass. */
  method FirstEvent(pl: Plan) returns (st: State, i: int, j: int, f: int, s: int, p: int)
    requires pl.Usable()
    ensures Sim(st, i, j, f, s, p, 0, false) == Initial(pl)
  {
    st, i, j, f := Null, 0, 0, 0;
    if pl.mppul == 0 {
      p, s := SENTINEL, 1;
    } else {
      p := pl.pat[i] * pl.mpnc + 1;
      i := i + 1;
      s := p + pl.lgfr + pl.t2 + pl.t3 + pl.txp / 2;
      f := 32727;
    }
  }

  /** The body of the event loop. */
  method OnePass(pl: Plan, buf: TsgBuf, cnt: TsgCnt,
                 st0: State, i0: int, j0: int, f0: int, s0: int, p0: int,
                 ghost sim: Sim, ghost w: seq<bv8>, ghost n: nat)
    returns (st: State, i: int, j: int, f: int, s: int, p: int)
    requires pl.Usable() && Written(pl, buf, cnt, sim, w, n) && CanPass(pl, sim, n)
    requires sim == Sim(st0, i0, j0, f0, s0, p0, sim.nSmp, sim.last)
    modifies buf`code, buf`rep, cnt
    ensures var next := Advance(pl, sim);
            && next == Sim(st, i, j, f, s, p, next.nSmp, next.last)
            && Written(pl, buf, cnt, next, w, n + Delay(pl, sim))
    ensures |buf.code| == old(|buf.code|) + Entries(Delay(pl, sim))
  {
    var code, delay;
    code, delay, f := NextEntry(pl, st0, i0, j0, f0, s0, p0, sim);
    WriteEntry(pl, buf, cnt, code, delay, sim, w, n);
    st, i, j, f, s, p := NextEvent(pl, st0, i0, j0, f, s0, p0, delay, sim);
  }

  /** The loop stands at sim after n steps and e entries; the buffer held w in c entries before. */
  ghost predicate Stands(pl: Plan, buf: TsgBuf, cnt: TsgCnt, sim: Sim, w: seq<bv8>, c: nat, n: nat, e: nat)
    reads buf, cnt
    requires pl.Usable()
  {
    Written(pl, buf, cnt, sim, w, n) && |buf.code| == c + e && Running(pl, sim, n, e)
  }

  /** A pass while samples are missing. */
  method Turn(pl: Plan, buf: TsgBuf, cnt: TsgCnt,
              st0: State, i0: int, j0: int, f0: int, s0: int, p0: int,
              ghost sim: Sim, ghost w: seq<bv8>, ghost c: nat, ghost n: nat, ghost e: nat)
    returns (st: State, i: int, j: int, f: int, s: int, p: int, ghost next: Sim, ghost d: nat)
    requires pl.Usable() && Stands(pl, buf, cnt, sim, w, c, n, e)
    requires sim == Sim(st0, i0, j0, f0, s0, p0, sim.nSmp, sim.last) && cnt.nSmp < pl.samples
    modifies buf`code, buf`rep, cnt
    ensures next == Sim(st, i, j, f, s, p, next.nSmp, next.last)
    ensures Stands(pl, buf, cnt, next, w, c, n + d, e + Entries(d))
    ensures 1 <= d && n <= pl.Rise(pl.samples - 1)
  {
    CanRun(pl, sim, n, e);
    st, i, j, f, s, p := OnePass(pl, buf, cnt, st0, i0, j0, f0, s0, p0, sim, w, n);
    next, d := Advance(pl, sim), Delay(pl, sim);
    KeepRunning(pl, sim, n, e);
  }

  /** Before the first pass nothing has been written. */
  lemma NothingYet(pl: Plan, buf: TsgBuf, cnt: TsgCnt)
    requires pl.Usable() && buf.Valid() && buf.Counted(cnt) && cnt.nSmp == 0 && !cnt.last
    ensures Stands(pl, buf, cnt, Initial(pl), buf.Wave(), |buf.code|, 0, 0)
  {
    assert buf.Wave() + IdealSteps(pl, 0) == buf.Wave();
    StartRunning(pl);
  }

  /** When the samples are complete the sequence is. */
  lemma LoopDone(pl: Plan, buf: TsgBuf, cnt: TsgCnt, sim: Sim, w: seq<bv8>, c: nat, n: nat, e: nat)
    requires pl.Usable() && Stands(pl, buf, cnt, sim, w, c, n, e) && pl.samples <= cnt.nSmp
    ensures buf.Valid() && buf.Counted(cnt) && buf.Wave() == w + IdealSteps(pl, n) && |buf.code| == c + e
    ensures Ran(pl, n, e) && cnt.nSmp == if pl.samples <= 0 then 0 else pl.samples
  {
    HasRun(pl, sim, n, e);
  }

  /** The event loop.  It appends exactly the ideal waveform, one entry where one must begin, and
      stops with the first event after the last sample has gone up. */
  method EventLoop(pl: Plan, buf: TsgBuf, cnt: TsgCnt) returns (ghost n: nat, ghost e: nat)
    requires pl.Usable() && buf.Valid() && buf.Counted(cnt) && cnt.nSmp == 0 && !cnt.last
    modifies buf`code, buf`rep, cnt
    ensures buf.Valid() && buf.Counted(cnt) && buf.Wave() == old(buf.Wave()) + IdealSteps(pl, n)
    ensures |buf.code| == old(|buf.code|) + e && Ran(pl, n, e)
    ensures cnt.nSmp == if pl.samples <= 0 then 0 else pl.samples
  {
    var st, i, j, f, s, p := FirstEvent(pl);
    n, e := 0, 0;
    ghost var sim, w, c := Initial(pl), buf.Wave(), |buf.code|;
    NothingYet(pl, buf, cnt);
    while cnt.nSmp < pl.samples
      invariant Stands(pl, buf, cnt, sim, w, c, n, e)
      invariant sim == Sim(st, i, j, f, s, p, sim.nSmp, sim.last)
      decreases pl.Rise(pl.samples - 1) - n
    {
      ghost var d;
      st, i, j, f, s, p, sim, d := Turn(pl, buf, cnt, st, i, j, f, s, p, sim, w, c, n, e);
      n, e := n + d, e + Entries(d);
    }
    LoopDone(pl, buf, cnt, sim, w, c, n, e);
  }

  lemma LayoutOf(pl: Plan, stdelay: int, n: nat)
    requires pl.Usable() && n == Length(pl)
    ensures Layout(pl, stdelay,
                   Repeat(SCOPE, 1) + Repeat(0, Held(stdelay)) + IdealSteps(pl, n) + Repeat(0, Closing(pl)))
  {
    assert END_DELAY == 1000;
  }

  /** In the roomy case that bound is within what is allocated. */
  lemma EntriesFit(pl: Plan, stdelay: int)
    requires pl.Usable() && Roomy(pl, stdelay) && 1 <= pl.nbaud
    ensures 1 + Entries(stdelay) + EntryBound(pl) + Entries(Closing(pl)) <= Allocated(pl)
  {
    var fr, lg, m, nb := pl.FirstRise(), pl.lgfr, pl.mppul, pl.nbaud;
    assert 0 < fr <= 8 + lg + 10000;
    assert fr / 254 <= lg + 41;
    MulMono(0, m, 6 + 3 * nb);
    assert 2 * (m * (6 + 2 * nb)) == (6 + nb) * m + m * (6 + 3 * nb);
  }

  lemma {:induction false} ExpandAtMost(code: seq<bv8>, rep: seq<Byte>)
    requires |code| == |rep|
    ensures |Expand(code, rep)| <= 255 * |code|
  {
    if code != [] { ExpandAtMost(code[..|code| - 1], rep[..|rep| - 1]); }
  }

  /** In the crowded case the entries of any buffer with the waveform are more than is allocated. */
  lemma EntriesOverflow(pl: Plan, stdelay: int, code: seq<bv8>, rep: seq<Byte>)
    requires pl.Usable() && Crowded(pl) && |code| == |rep| && Layout(pl, stdelay, Expand(code, rep))
    ensures Allocated(pl) < |code|
  {
    ExpandAtMost(code, rep);
  }

  /** A new buffer with the scope step. */
  method Scope() returns (buf: TsgBuf, cnt: TsgCnt)
    ensures fresh(buf) && fresh(cnt) && buf.Valid() && buf.step == CLOCK_PERIOD
    ensures buf.Counted(cnt) && cnt.nSmp == 0 && !cnt.last
    ensures buf.Wave() == Repeat(SCOPE, 1) && |buf.code| == 1
  {
    buf := new TsgBuf(CLOCK_PERIOD);
    cnt := new TsgCnt();
    assert buf.Wave() == [];
    buf.WrBuf(SCOPE, 1, cnt);
    assert buf.Wave() == Repeat(SCOPE, 1);
  }

  /** The scope step and the start delay. */
  method Lead(stdelay: int) returns (buf: TsgBuf, cnt: TsgCnt)
    ensures fresh(buf) && fresh(cnt) && buf.Valid() && buf.step == CLOCK_PERIOD
    ensures buf.Counted(cnt) && cnt.nSmp == 0 && !cnt.last
    ensures buf.Wave() == Repeat(SCOPE, 1) + Repeat(0, Held(stdelay))
    ensures |buf.code| == 1 + Entries(stdelay)
  {
    buf, cnt := Scope();
    buf.WrBuf(Row(Null).rfvect, stdelay, cnt);
  }

  /** What a buffer holds when its plan is compiled, and how many entries it takes. */
  ghost predicate Compiled(pl: Plan, stdelay: int, code: seq<bv8>, rep: seq<Byte>)
    requires pl.Usable()
  {
    && |code| == |rep| && Layout(pl, stdelay, Expand(code, rep))
    && |code| == EntryCount(pl, stdelay)
    && (Roomy(pl, stdelay) ==> |code| <= Allocated(pl))
    && (Crowded(pl) ==> Allocated(pl) < |code|)
  }

  lemma CompiledIs(pl: Plan, stdelay: int, code: seq<bv8>, rep: seq<Byte>, n: nat, e: nat)
    requires pl.Usable() && 1 <= pl.nbaud && |code| == |rep| && Ran(pl, n, e)
    requires Expand(code, rep) ==
             Repeat(SCOPE, 1) + Repeat(0, Held(stdelay)) + IdealSteps(pl, n) + Repeat(0, Closing(pl))
    requires |code| == 1 + Entries(stdelay) + e + Entries(Closing(pl))
    ensures Compiled(pl, stdelay, code, rep)
  {
    LayoutOf(pl, stdelay, n);
    if Roomy(pl, stdelay) { EntriesFit(pl, stdelay); }
    if Crowded(pl) { EntriesOverflow(pl, stdelay, code, rep); }
  }

  /** Write the closing idle time. */
  method Close(pl: Plan, buf: TsgBuf, cnt: TsgCnt)
    requires buf.Valid() && buf.Counted(cnt)
    modifies buf`code, buf`rep, cnt
    ensures buf.Valid() && buf.Wave() == old(buf.Wave()) + Repeat(0, Closing(pl))
    ensures |buf.code| == old(|buf.code|) + Entries(Closing(pl))
    ensures Rises(buf.Wave()) == old(cnt.nSmp)
  {
    var ttemp := END_DELAY;
    if pl.mppul == 0 || ttemp <= 0 { ttemp := 1; }
    buf.WrBuf(Row(Null).rfvect, ttemp, cnt);
  }

  /** Compile the plan: the scope step, the start delay, the event loop and the idle time. */
  method Emit(pl: Plan, stdelay: int) returns (buf: TsgBuf)
    requires pl.Usable() && 1 <= pl.nbaud
    ensures fresh(buf) && buf.Valid() && buf.step == CLOCK_PERIOD
    ensures Compiled(pl, stdelay, buf.code, buf.rep)
    ensures Rises(buf.Wave()) == if pl.samples <= 0 then 0 else pl.samples
  {
    var cnt;
    buf, cnt := Lead(stdelay);
    ghost var n, e := EventLoop(pl, buf, cnt);
    Close(pl, buf, cnt);
    CompiledIs(pl, stdelay, buf.code, buf.rep, n, e);
  }

  /** Whether the pattern increases. */
  method CheckPattern(tsg: TsgPrm) returns (ok: bool)
    requires 0 <= tsg.mppul <= |tsg.pat|
    ensures ok <==> tsg.Value().PatternIncreases()
  {
    ok := true;
    if tsg.mppul > 0 {
      var i := 1;
      while i < tsg.mppul && tsg.pat[i] > tsg.pat[i - 1]
        invariant 1 <= i <= tsg.mppul
        invariant forall a, c :: 0 <= a < c < i ==> tsg.pat[a] < tsg.pat[c]
      {
        i := i + 1;
      }
      ok := i >= tsg.mppul;
      if !ok { assert !(tsg.pat[i - 1] < tsg.pat[i]); }
    }
  }

  /** The checks on pulse spacing, lag and duty cycle. */
  method CheckSpacing(tsg: TsgPrm) returns (flg: Flag)
    requires tsg.Value().Divisible() && 1 <= tsg.nbaud
    ensures flg == if tsg.Value().Verdict() in {InvMpincSmsep, InvLagfrSmsep, InvDutyCycle}
                   then tsg.Value().Verdict() else Ok
  {
    flg := Ok;
    if tsg.mppul > 0 {
      if tsg.mpinc < tsg.smsep { return InvMpincSmsep; }
      if CMod(tsg.lagfr, tsg.smsep) != 0 { return InvLagfrSmsep; }
      if CMod(tsg.mpinc, tsg.smsep) != 0 { return InvMpincSmsep; }
      if CDiv(20 * tsg.mppul * tsg.txpl,
              tsg.mlag * tsg.mpinc + tsg.nrang * tsg.nbaud * tsg.smsep + tsg.lagfr) >= 1 {
        return InvDutyCycle;
      }
    }
  }

  /** The time arithmetic of a settled block with its checks, and the plan when they pass. */
  method Derive(tsg: TsgPrm) returns (flg: Flag, pl: Plan)
    requires tsg.Value().Divisible() && 1 <= tsg.nbaud
    requires tsg.Value().Verdict() !in {InvMpincSmsep, InvLagfrSmsep, InvDutyCycle}
    modifies tsg`samples
    ensures flg == old(tsg.Value()).Verdict()
    ensures tsg.Value() == if flg == InvOddSmsep then old(tsg.Value())
                           else old(tsg.Value()).(samples := old(tsg.Value()).SampleCount())
    ensures flg == Ok ==> pl == old(tsg.Value()).ToPlan()
  {
    pl := Plan(0, 0, 0, 0, 0, 0, 0, 0, 0, 0, 0, [], [], 0);
    var smsp := CDiv(tsg.smsep, CLOCK_PERIOD);
    var lgfr := CDiv(tsg.lagfr, CLOCK_PERIOD);
    var mpnc := CDiv(tsg.mpinc, CLOCK_PERIOD);
    var txp := CDiv(tsg.txpl, CLOCK_PERIOD);
    if CMod(smsp, 2) != 0 { return InvOddSmsep, pl; }
    var count := CDiv(tsg.mlag * mpnc, smsp) + CDiv(tsg.nrang * (tsg.rsep * 20), 3 * tsg.smsep);
    tsg.samples := count;
    var t3 := 60 / CLOCK_PERIOD;
    var t2 := 10 / CLOCK_PERIOD;
    var t4 := if tsg.rtoxmin == 0 then t3 else CDiv(tsg.rtoxmin, CLOCK_PERIOD);
    var t5 := t2 + 30 / CLOCK_PERIOD;
    smsp := CDiv(smsp, 2);
    var phaseDelay := 0;
    if tsg.mppul != 0 && tsg.nbaud > 1 {
      phaseDelay := CDiv(txp, tsg.nbaud);
      if CMod(txp, tsg.nbaud) != 0 { return InvTxplBaud, pl; }
      if phaseDelay == 0 { return InvPhaseDelay, pl; }
    }
    pl := Plan(t2, t3, txp, t4, t5, smsp, lgfr, mpnc, tsg.mppul, tsg.nbaud, phaseDelay,
               tsg.pat, tsg.code, count);
    flg := Ok;
  }

  /** The checks and the time arithmetic, in the order of the source; the plan when they pass. */
  method Check(tsg: TsgPrm) returns (flg: Flag, pl: Plan)
    requires tsg.Value().Callable()
    modifies tsg
    ensures flg == old(tsg.Value()).Outcome()
    ensures tsg.Value() ==
            if flg in {InvRsep, InvPat} then old(tsg.Value())
            else if flg in {Ok, InvTxplBaud, InvPhaseDelay} then
              old(tsg.Value()).Settled().(samples := old(tsg.Value()).Settled().SampleCount())
            else old(tsg.Value()).Settled()
    ensures flg == Ok ==> pl == old(tsg.Value()).Settled().ToPlan()
  {
    pl := Plan(0, 0, 0, 0, 0, 0, 0, 0, 0, 0, 0, [], [], 0);
    if tsg.frang < 0 || tsg.rsep <= 0 { return InvRsep, pl; }
    var increasing := CheckPattern(tsg);
    if !increasing { return InvPat, pl; }
    tsg.Settle();
    flg := CheckSpacing(tsg);
    if flg == Ok { flg, pl := Derive(tsg); }
  }

  /** Compile a parameter block. */
  method TSGMake(tsg: TsgPrm, index: int) returns (flg: Flag, buf: TsgBuf?)
    requires tsg.Value().Callable()
    modifies tsg
    ensures flg == old(tsg.Value()).Outcome()
    ensures flg != Ok ==> buf == null
    ensures flg == Ok ==>
              var b := old(tsg.Value()).Settled();
              var pl := b.ToPlan();
              && buf != null && fresh(buf) && buf.Valid() && buf.index == index && buf.step == CLOCK_PERIOD
              && Compiled(pl, b.stdelay, buf.code, buf.rep)
              && Rises(buf.Wave()) == (if pl.samples <= 0 then 0 else pl.samples)
              && exists steps: nat ::
                   && QuietFor(buf.Wave(), steps)
                   && tsg.Value() == b.(samples := pl.samples, smdelay := DelayInGates(steps, b.rsep))
  {
    var pl;
    buf := null;
    flg, pl := Check(tsg);
    if flg == Ok {
      buf := Emit(pl, tsg.stdelay);
      var steps := buf.LeadSteps();
      tsg.smdelay := DelayInGates(steps, tsg.rsep);
      buf.index := index;
    }
  }
}
