/** The event loop of the compiler, one event at a time, and what every event keeps. */
module TsgSim {
  import opened Common
  import opened TsgStates
  import opened TsgWave

  /** The loop's variables: the table state, the pulse and baud indices, the times to the next
      baud, sample and pulse events, and the rising-edge counter with the last level written. */
  datatype Sim = Sim(st: State, i: int, j: int, f: int, s: int, p: int, nSmp: int, last: bool)

  function Min3(a: int, b: int, c: int): int {
    if a < (if b < c then b else c) then a else if b < c then b else c
  }

  function Duration(pl: Plan, st: State): int {
    match PhaseOf(st)
    case 0 => if st == End then 1 else 0
    case 1 => pl.t2
    case 2 => pl.t3
    case 3 => pl.txp
    case 4 => pl.t4
    case _ => pl.t5
  }

  predicate Coding(pl: Plan, s: Sim) {
    Row(s.st).rfvect & X_BIT != 0 && pl.nbaud > 1
  }

  function BaudTime(pl: Plan, s: Sim): int {
    if Coding(pl, s) then (if s.f > pl.txp then pl.baud else s.f) else SENTINEL
  }

  function Delay(pl: Plan, s: Sim): int {
    Min3(BaudTime(pl, s), s.s, s.p)
  }

  /** The phase-code table can be read in this state. */
  predicate CodeReady(pl: Plan, s: Sim) {
    Coding(pl, s) ==> 0 <= pl.nbaud * (s.i - 1) + s.j < |pl.code|
  }

  function PhaseBit(pl: Plan, s: Sim): bv8
    requires CodeReady(pl, s)
  {
    if Coding(pl, s) && pl.code[pl.nbaud * (s.i - 1) + s.j] < 0 then P_BIT else 0
  }

  function CodeOf(pl: Plan, s: Sim): bv8
    requires CodeReady(pl, s)
  {
    Row(s.st).rfvect | PhaseBit(pl, s)
  }

  /** One pass of the loop. */
  function Advance(pl: Plan, s: Sim): Sim
    requires pl.Shaped()
  {
    var f, d := BaudTime(pl, s), Delay(pl, s);
    var (st, j, f1) :=
      if f < s.s && f < s.p then (s.st, s.j + 1, f)
      else if s.s < s.p then (Row(s.st).onSample, if f == s.s then s.j + 1 else s.j, f)
      else if s.s == s.p then (Row(s.st).onBoth, 0, f)
      else (Row(s.st).onPulse, 0, SENTINEL);
    var f2 := if f1 - d <= 0 then pl.baud else f1 - d;
    var s2 := if s.s - d <= 0 then pl.half else s.s - d;
    var p2 := if s.p - d <= 0 then Duration(pl, st) else s.p - d;
    var nSmp := if Sampling(s.st) && !s.last then s.nSmp + 1 else s.nSmp;
    if p2 != 0 then Sim(st, s.i, j, f2, s2, p2, nSmp, Sampling(s.st))
    else if 0 < s.i < pl.mppul then
      Sim(st, s.i + 1, 0, f2, s2, (pl.pat[s.i] - pl.pat[s.i - 1]) * pl.mpnc - pl.Cycle(), nSmp, Sampling(s.st))
    else Sim(st, s.i, j, f2, s2, SENTINEL, nSmp, Sampling(s.st))
  }

  function Initial(pl: Plan): Sim
    requires pl.Shaped()
  {
    var (i, f) := if pl.mppul == 0 then (0, 0) else (1, 32727);
    Sim(Null, i, 0, f, pl.FirstRise(), pl.Start(0), 0, false)
  }

  function PhaseBegin(pl: Plan, k: nat, q: Phase): int
    requires pl.Shaped()
  {
    if q != 0 then pl.Start(k) + pl.Offset(q)
    else if k == 0 then 0 else pl.Start(k - 1) + pl.Cycle()
  }

  function PhaseEnd(pl: Plan, k: nat, q: Phase): int
    requires pl.Shaped()
  {
    if q == 0 then pl.Start(k) else pl.Start(k) + pl.Offset(q + 1)
  }

  /** The step of toggle m of the sample wave, counted from 0. */
  function Toggle(pl: Plan, m: int): int
    requires pl.Shaped()
  {
    pl.FirstRise() + m * pl.half
  }

  /** At step t the loop is in pulse cycle k (idle: before pulse k) and m toggles have passed. */
  ghost predicate PulseInv(pl: Plan, s: Sim, t: int, k: nat)
    requires pl.Shaped()
  {
    var q := PhaseOf(s.st);
    && s.st != End && 1 <= s.p
    && s.i == (if k < pl.mppul then k + 1 else pl.mppul)
    && PhaseBegin(pl, k, q) <= t && t + s.p == PhaseEnd(pl, k, q)
    && (!pl.Pulses() ==> k == 0 && q == 0)
  }

  ghost predicate BaudInv(pl: Plan, s: Sim, t: int, k: nat)
    requires pl.Shaped()
  {
    Coding(pl, s) && PhaseOf(s.st) == 3 ==>
      var f := BaudTime(pl, s);
      && 0 <= s.j && 1 <= f <= pl.baud
      && t - (pl.Start(k) + pl.Offset(3)) == s.j * pl.baud + (pl.baud - f)
  }

  ghost predicate SampleInv(pl: Plan, s: Sim, t: int, m: nat)
    requires pl.Shaped()
  {
    && 0 <= t && 1 <= s.s
    && t + s.s == Toggle(pl, m)
    && (m > 0 ==> Toggle(pl, m - 1) <= t)
    && Sampling(s.st) == (m % 2 == 1)
    && (if m % 2 == 0 then s.nSmp == m / 2
        else if t == Toggle(pl, m - 1) then s.nSmp == m / 2 && !s.last
        else s.nSmp == m / 2 + 1 && s.last)
  }

  ghost predicate Inv(pl: Plan, s: Sim, t: int, k: nat, m: nat)
    requires pl.Shaped()
  {
    PulseInv(pl, s, t, k) && BaudInv(pl, s, t, k) && SampleInv(pl, s, t, m)
  }

  lemma InitialFits(pl: Plan)
    requires pl.Usable()
    ensures Inv(pl, Initial(pl), 0, 0, 0)
  {
    assert Row(Null).rfvect & X_BIT == 0;
  }

  lemma XBitIsPhase3(st: State)
    ensures (Row(st).rfvect & X_BIT != 0) == (PhaseOf(st) == 3)
  {
  }

  /** While samples are missing, the loop has not passed the last rising edge. */
  lemma Pending(pl: Plan, s: Sim, t: int, m: nat)
    requires pl.Usable() && SampleInv(pl, s, t, m) && s.nSmp < pl.samples
    ensures t <= pl.Rise(pl.samples - 1)
    ensures Toggle(pl, m) <= pl.Rise(pl.samples - 1) + pl.half
    ensures s.nSmp + 1 == pl.samples && m % 2 == 1 && t == Toggle(pl, m - 1) ==>
              t == pl.Rise(pl.samples - 1)
  {
    var n := 2 * (pl.samples - 1);
    assert n * pl.half == 2 * (pl.samples - 1) * pl.half;
    assert m * pl.half == (m - 1) * pl.half + pl.half;
    if m % 2 == 1 && t == Toggle(pl, m - 1) {
      MulMono(m - 1, n, pl.half);
    } else {
      MulMono(m, n, pl.half);
    }
  }

  /** An event on the pulse clock happens only where a pulse cycle can run. */
  lemma PulseEventMeansPulses(pl: Plan, s: Sim, t: int, k: nat, m: nat)
    requires pl.Usable() && Inv(pl, s, t, k, m) && s.nSmp < pl.samples
    requires s.p <= s.s
    ensures pl.Pulses()
  {
    Pending(pl, s, t, m);
  }

  function ToggleAfter(pl: Plan, s: Sim, m: nat): nat {
    if Delay(pl, s) == s.s then m + 1 else m
  }

  function PulseAfter(pl: Plan, s: Sim, k: nat): nat {
    if Delay(pl, s) == s.p && PhaseOf(s.st) == 5 then k + 1 else k
  }

  /** The table moves the two factors independently, whatever event comes first. */
  lemma FactorsMove(pl: Plan, s: Sim)
    requires pl.Shaped() && 0 <= s.i && s.st != End && 1 <= s.s && 1 <= s.p
    ensures var d, s' := Delay(pl, s), Advance(pl, s);
            && d <= s.s && d <= s.p
            && s'.st == Product(if d == s.p then NextPhase(PhaseOf(s.st)) else PhaseOf(s.st),
                                if d == s.s then !Sampling(s.st) else Sampling(s.st))
  {
    TableIsProduct(PhaseOf(s.st), Sampling(s.st));
  }

  lemma BaudTimePositive(pl: Plan, s: Sim, t: int, k: nat)
    requires pl.Usable() && PulseInv(pl, s, t, k) && BaudInv(pl, s, t, k)
    ensures 1 <= BaudTime(pl, s)
  {
    XBitIsPhase3(s.st);
  }

  /** What the sample counter, the level and the edge counter become. */
  ghost predicate SampleClock(pl: Plan, s: Sim, s': Sim, d: int) {
    && Sampling(s'.st) == (if d == s.s then !Sampling(s.st) else Sampling(s.st))
    && s'.s == (if d == s.s then pl.half else s.s - d)
    && s'.nSmp == (if Sampling(s.st) && !s.last then s.nSmp + 1 else s.nSmp)
    && s'.last == Sampling(s.st)
  }

  lemma SampleClockMoves(pl: Plan, s: Sim)
    requires pl.Shaped() && 0 <= s.i && s.st != End && 1 <= s.s && 1 <= s.p
    ensures SampleClock(pl, s, Advance(pl, s), Delay(pl, s))
  {
    FactorsMove(pl, s);
  }

  lemma SampleKeeps(pl: Plan, s: Sim, s': Sim, t: int, d: int, m: nat)
    requires pl.Usable() && SampleInv(pl, s, t, m) && SampleClock(pl, s, s', d) && 1 <= d <= s.s
    ensures SampleInv(pl, s', t + d, if d == s.s then m + 1 else m)
  {
    assert (m + 1) * pl.half == m * pl.half + pl.half;
  }

  lemma SampleStep(pl: Plan, s: Sim, t: int, k: nat, m: nat)
    requires pl.Usable() && Inv(pl, s, t, k, m)
    ensures SampleInv(pl, Advance(pl, s), t + Delay(pl, s), ToggleAfter(pl, s, m))
  {
    FactorsMove(pl, s);
    BaudTimePositive(pl, s, t, k);
    SampleClockMoves(pl, s);
    SampleKeeps(pl, s, Advance(pl, s), t, Delay(pl, s), m);
  }

  /** What the pulse counter and index become when d steps have passed. */
  ghost predicate PulseClock(pl: Plan, s: Sim, s': Sim, d: int)
    requires pl.Shaped()
  {
    if d < s.p then PhaseOf(s'.st) == PhaseOf(s.st) && s'.i == s.i && s'.p == s.p - d
    else
      && PhaseOf(s'.st) == NextPhase(PhaseOf(s.st))
      && (if PhaseOf(s.st) != 5 then s'.i == s.i && s'.p == Duration(pl, s'.st)
          else if 0 < s.i < pl.mppul then
            s'.i == s.i + 1 && s'.p == (pl.pat[s.i] - pl.pat[s.i - 1]) * pl.mpnc - pl.Cycle()
          else s'.i == s.i && s'.p == SENTINEL)
  }

  lemma PulseClockMoves(pl: Plan, s: Sim)
    requires pl.Usable() && 0 <= s.i && s.st != End && 1 <= s.s && 1 <= s.p
    requires Delay(pl, s) == s.p ==> pl.Pulses()
    ensures PulseClock(pl, s, Advance(pl, s), Delay(pl, s))
  {
    FactorsMove(pl, s);
    assert Delay(pl, s) == s.p && PhaseOf(s.st) != 5 ==> Duration(pl, Advance(pl, s).st) >= 1;
  }

  /** The idle time before pulse i+1 makes up exactly the distance between the two starts. */
  lemma Gap(pl: Plan, k: nat)
    requires pl.Usable() && pl.Pulses()
    ensures pl.Start(k + 1) == pl.Start(k) + pl.Cycle() +
            if k + 1 < pl.mppul then (pl.pat[k + 1] - pl.pat[k]) * pl.mpnc - pl.Cycle() else SENTINEL
  {
    if k + 1 < pl.mppul {
      var a, b, c := pl.pat[k + 1], pl.pat[k], pl.mpnc;
      assert (a - b) * c == a * c - b * c;
    }
  }

  lemma PulseKeeps(pl: Plan, s: Sim, s': Sim, t: int, d: int, k: nat)
    requires pl.Usable() && PulseInv(pl, s, t, k) && PulseClock(pl, s, s', d)
    requires s'.st != End && 0 <= d <= s.p && (d == s.p ==> pl.Pulses())
    ensures PulseInv(pl, s', t + d, if d == s.p && PhaseOf(s.st) == 5 then k + 1 else k)
  {
    if d == s.p {
      var q := PhaseOf(s.st);
      if q == 5 {
        Gap(pl, k);
        NextStart(pl, k);
      } else {
        assert PhaseEnd(pl, k, q) == PhaseBegin(pl, k, q + 1);
        assert PhaseEnd(pl, k, q + 1) == PhaseBegin(pl, k, q + 1) + Duration(pl, s'.st);
        assert Duration(pl, s'.st) >= 1;
      }
    }
  }

  lemma PulseStep(pl: Plan, s: Sim, t: int, k: nat, m: nat)
    requires pl.Usable() && Inv(pl, s, t, k, m) && s.nSmp < pl.samples
    ensures PulseInv(pl, Advance(pl, s), t + Delay(pl, s), PulseAfter(pl, s, k))
  {
    FactorsMove(pl, s);
    BaudTimePositive(pl, s, t, k);
    if Delay(pl, s) == s.p {
      PulseEventMeansPulses(pl, s, t, k, m);
    }
    PulseClockMoves(pl, s);
    PulseKeeps(pl, s, Advance(pl, s), t, Delay(pl, s), k);
  }

  /** What the baud counter and index become: a running code advances, a new pulse starts it. */
  ghost predicate BaudClock(pl: Plan, s: Sim, s': Sim) {
    var f, d := BaudTime(pl, s), Delay(pl, s);
    if d < s.p then
      s'.j == (if d == f then s.j + 1 else s.j) && s'.f == (if d == f then pl.baud else f - d)
    else s'.j == 0 && (f == SENTINEL && d < f ==> s'.f == f - d)
  }

  lemma BaudClockMoves(pl: Plan, s: Sim, t: int, k: nat)
    requires pl.Usable() && PulseInv(pl, s, t, k) && BaudInv(pl, s, t, k)
    requires 1 <= s.s && 1 <= s.p && PhaseOf(s.st) != 5
    requires Delay(pl, s) == s.p ==> pl.Pulses()
    ensures BaudClock(pl, s, Advance(pl, s))
  {
    PulseClockMoves(pl, s);
    BaudTimePositive(pl, s, t, k);
    assert Delay(pl, s) == s.p ==> Duration(pl, Advance(pl, s).st) >= 1;
  }

  lemma BaudFits(pl: Plan)
    requires pl.Shaped() && pl.Pulses() && pl.nbaud > 1
    ensures 1 <= pl.baud <= pl.txp
  {
    MulMono(1, pl.nbaud, pl.baud);
  }

  /** Within a pulse the code moves on exactly when a baud has run out. */
  lemma BaudRuns(pl: Plan, s: Sim, s': Sim, t: int, k: nat)
    requires pl.Usable() && pl.Pulses() && pl.nbaud > 1
    requires BaudInv(pl, s, t, k) && BaudClock(pl, s, s') && 0 <= Delay(pl, s) < s.p
    requires PhaseOf(s.st) == PhaseOf(s'.st) == 3
    ensures BaudInv(pl, s', t + Delay(pl, s), k)
  {
    XBitIsPhase3(s.st);
    XBitIsPhase3(s'.st);
    BaudFits(pl);
    assert (s.j + 1) * pl.baud == s.j * pl.baud + pl.baud;
  }

  /** A pulse is entered at baud 0 with a whole baud ahead. */
  lemma BaudEnters(pl: Plan, s: Sim, s': Sim, t: int, k: nat)
    requires pl.Usable() && pl.Pulses() && pl.nbaud > 1
    requires PulseInv(pl, s, t, k) && BaudClock(pl, s, s') && 1 <= Delay(pl, s) == s.p
    requires PhaseOf(s.st) == 2 && PhaseOf(s'.st) == 3
    ensures BaudInv(pl, s', t + Delay(pl, s), k)
  {
    XBitIsPhase3(s.st);
    XBitIsPhase3(s'.st);
    BaudFits(pl);
  }

  lemma BaudStep(pl: Plan, s: Sim, t: int, k: nat, m: nat)
    requires pl.Usable() && Inv(pl, s, t, k, m) && s.nSmp < pl.samples
    ensures BaudInv(pl, Advance(pl, s), t + Delay(pl, s), PulseAfter(pl, s, k))
  {
    FactorsMove(pl, s);
    XBitIsPhase3(Advance(pl, s).st);
    if Delay(pl, s) == s.p {
      PulseEventMeansPulses(pl, s, t, k, m);
    }
    if PhaseOf(Advance(pl, s).st) == 3 && pl.nbaud > 1 {
      PulseClockMoves(pl, s);
      BaudClockMoves(pl, s, t, k);
      if Delay(pl, s) < s.p {
        BaudRuns(pl, s, Advance(pl, s), t, k);
      } else {
        BaudTimePositive(pl, s, t, k);
        BaudEnters(pl, s, Advance(pl, s), t, k);
      }
    }
  }

  /** Until the next toggle the sample wave holds the level of the state. */
  lemma SampleHolds(pl: Plan, s: Sim, t: int, m: nat, u: int)
    requires pl.Usable() && SampleInv(pl, s, t, m) && t <= u < t + s.s
    ensures pl.SampleWave(u) == SampleBits(Sampling(s.st))
  {
    if m > 0 {
      assert (m - 1) * pl.half + pl.half == m * pl.half;
      DivUnique(u - pl.FirstRise(), pl.half, m - 1);
    }
  }

  lemma CodeIsReady(pl: Plan, s: Sim, t: int, k: nat)
    requires pl.Usable() && PulseInv(pl, s, t, k) && BaudInv(pl, s, t, k)
    ensures CodeReady(pl, s)
  {
    XBitIsPhase3(s.st);
    if Coding(pl, s) {
      var tau := t - pl.Start(k);
      BaudInRange(pl, k, tau);
      DivUnique(tau - pl.Offset(3), pl.baud, s.j);
    }
  }

  /** Phase q of a pulse carries the bits of phase q, and the phase code while transmitting. */
  lemma PulseCodeAt(pl: Plan, k: nat, q: Phase, tau: int)
    requires pl.Usable() && pl.Pulses() && q != 0 && pl.Offset(q) <= tau < pl.Offset(q + 1)
    requires 0 <= tau < pl.Cycle()
    requires q == 3 && pl.nbaud > 1 ==> 0 <= pl.CodeIndex(k, tau) < |pl.code|
    ensures pl.PulseCode(k, tau) == PhaseBits(q) |
            (if q == 3 && pl.nbaud > 1 && pl.code[pl.CodeIndex(k, tau)] < 0 then P_BIT else 0)
  {
  }

  /** In the middle of baud j the phase code is still entry j of its row. */
  lemma BaudHolds(pl: Plan, s: Sim, t: int, k: nat, u: int)
    requires pl.Usable() && PulseInv(pl, s, t, k) && BaudInv(pl, s, t, k) && Coding(pl, s)
    requires t <= u < t + BaudTime(pl, s)
    ensures pl.Pulses() && pl.CodeIndex(k, u - pl.Start(k)) == pl.nbaud * (s.i - 1) + s.j
  {
    XBitIsPhase3(s.st);
    assert (s.j + 1) * pl.baud == s.j * pl.baud + pl.baud;
    DivUnique(u - pl.Start(k) - pl.Offset(3), pl.baud, s.j);
  }

  lemma JoinBits(q: Phase, on: bool, p: bv8)
    ensures (PhaseBits(q) | p) | SampleBits(on) == Row(Product(q, on)).rfvect | p
  {
    TableIsProduct(q, on);
  }

  /** Until the next pulse or baud event the pulse wave holds the bits of the phase. */
  lemma PulseHolds(pl: Plan, s: Sim, t: int, k: nat, u: int)
    requires pl.Usable() && PulseInv(pl, s, t, k) && BaudInv(pl, s, t, k) && CodeReady(pl, s)
    requires t <= u < t + s.p && u < t + BaudTime(pl, s)
    ensures pl.PulseWave(u) == PhaseBits(PhaseOf(s.st)) | PhaseBit(pl, s)
  {
    var q := PhaseOf(s.st);
    XBitIsPhase3(s.st);
    if q == 0 {
      if pl.Pulses() { PulseWaveOut(pl, k, u); }
    } else {
      PulseHoldsIn(pl, s, t, k, u);
    }
  }

  lemma PulseHoldsIn(pl: Plan, s: Sim, t: int, k: nat, u: int)
    requires pl.Usable() && PulseInv(pl, s, t, k) && BaudInv(pl, s, t, k) && CodeReady(pl, s)
    requires t <= u < t + s.p && u < t + BaudTime(pl, s) && PhaseOf(s.st) != 0
    ensures pl.PulseWave(u) == PhaseBits(PhaseOf(s.st)) | PhaseBit(pl, s)
  {
    var q: int := PhaseOf(s.st);
    var tau := u - pl.Start(k);
    assert 0 <= pl.Offset(q) <= tau < pl.Offset(q + 1) <= pl.Cycle();
    PulseWaveIn(pl, k, u);
    XBitIsPhase3(s.st);
    if Coding(pl, s) { BaudHolds(pl, s, t, k, u); }
    PulseCodeAt(pl, k, q, tau);
  }

  /** The entry written for a state is the superposition of the two waves. */
  lemma IdealHolds(pl: Plan, s: Sim, t: int, k: nat, m: nat, u: int)
    requires pl.Usable() && Inv(pl, s, t, k, m) && CodeReady(pl, s)
    requires t <= u < t + Delay(pl, s)
    ensures pl.Ideal(u) == CodeOf(pl, s)
  {
    FactorsMove(pl, s);
    BaudTimePositive(pl, s, t, k);
    SampleHolds(pl, s, t, m, u);
    PulseHolds(pl, s, t, k, u);
    TableIsProduct(PhaseOf(s.st), Sampling(s.st));
    JoinBits(PhaseOf(s.st), Sampling(s.st), PhaseBit(pl, s));
  }

  /** One pass of the loop: time moves on, every step it writes is the ideal one, and the
      loop is again at a place both waves agree on. */
  lemma Pass(pl: Plan, s: Sim, t: int, k: nat, m: nat)
    requires pl.Usable() && Inv(pl, s, t, k, m) && s.nSmp < pl.samples
    ensures 1 <= Delay(pl, s) && 0 <= s.i && t <= pl.Rise(pl.samples - 1)
    ensures CodeReady(pl, s) && HasSample(CodeOf(pl, s)) == Sampling(s.st)
    ensures forall u :: t <= u < t + Delay(pl, s) ==> pl.Ideal(u) == CodeOf(pl, s)
    ensures Inv(pl, Advance(pl, s), t + Delay(pl, s), PulseAfter(pl, s, k), ToggleAfter(pl, s, m))
    ensures Advance(pl, s).nSmp <= pl.samples
    ensures Advance(pl, s).nSmp == pl.samples ==>
              t == pl.Rise(pl.samples - 1) && Delay(pl, s) <= pl.half
  {
    BaudTimePositive(pl, s, t, k);
    CodeIsReady(pl, s, t, k);
    Pending(pl, s, t, m);
    SampleStep(pl, s, t, k, m);
    PulseStep(pl, s, t, k, m);
    BaudStep(pl, s, t, k, m);
    FactorsMove(pl, s);
    SampleBitIsLevel(s.st, PhaseBit(pl, s));
    forall u | t <= u < t + Delay(pl, s) ensures pl.Ideal(u) == CodeOf(pl, s) {
      IdealHolds(pl, s, t, k, m, u);
    }
    Counts(pl, s, t, m);
  }

  lemma SampleBitIsLevel(st: State, p: bv8)
    requires p == 0 || p == P_BIT
    ensures HasSample(Row(st).rfvect | p) == Sampling(st)
  {
  }

  lemma Counts(pl: Plan, s: Sim, t: int, m: nat)
    requires pl.Usable() && SampleInv(pl, s, t, m) && s.nSmp < pl.samples && 0 <= s.i
    requires Delay(pl, s) <= s.s
    ensures Advance(pl, s).nSmp <= pl.samples
    ensures Advance(pl, s).nSmp == pl.samples ==>
              t == pl.Rise(pl.samples - 1) && Delay(pl, s) <= pl.half
  {
    Pending(pl, s, t, m);
    assert m * pl.half == (m - 1) * pl.half + pl.half;
  }
}
