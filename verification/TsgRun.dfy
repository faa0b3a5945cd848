/** Whole runs of the event loop: where it stands after e entries and t steps. */
module TsgRun {
  import opened Common
  import opened TsgStates
  import opened TsgWave
  import opened TsgSim
  import opened TsgBuffer
  import opened TsgEntries

  /** The entries that the events passed so far can have cost: one an event, and before the
      first sample one more for every 254 steps that are split off. */
  function Cost(pl: Plan, s: Sim, t: int, k: nat, m: nat): int
    requires pl.Shaped()
  {
    (if t < pl.FirstRise() then t else pl.FirstRise()) / 254 + m + 6 * k + PhaseOf(s.st) + BaudCost(pl, s, k)
  }

  function BaudCost(pl: Plan, s: Sim, k: nat): int {
    if pl.nbaud <= 1 then 0
    else pl.nbaud * k + if PhaseOf(s.st) < 3 then 0 else if PhaseOf(s.st) == 3 then s.j else pl.nbaud
  }

  lemma BaudIndexBelow(pl: Plan, s: Sim, t: int, k: nat)
    requires pl.Usable() && pl.nbaud > 1 && PulseInv(pl, s, t, k) && BaudInv(pl, s, t, k)
    requires PhaseOf(s.st) == 3
    ensures 0 <= s.j < pl.nbaud
  {
    XBitIsPhase3(s.st);
    BaudInRange(pl, k, t - pl.Start(k));
    DivUnique(t - pl.Start(k) - pl.Offset(3), pl.baud, s.j);
  }

  lemma BaudCostMoves(pl: Plan, s: Sim, s': Sim, k: nat)
    requires pl.nbaud > 1 && (PhaseOf(s.st) == 3 ==> 0 <= s.j < pl.nbaud)
    requires Delay(pl, s) <= s.p
    requires PhaseOf(s'.st) == if Delay(pl, s) == s.p then NextPhase(PhaseOf(s.st)) else PhaseOf(s.st)
    requires PhaseOf(s.st) != 5 ==> BaudClock(pl, s, s')
    ensures var c, c' := BaudCost(pl, s, k), BaudCost(pl, s', PulseAfter(pl, s, k));
            && c <= c'
            && (PhaseOf(s.st) == 3 && Delay(pl, s) == BaudTime(pl, s) && Delay(pl, s) < s.p ==> c < c')
  {
    assert pl.nbaud * (k + 1) == pl.nbaud * k + pl.nbaud;
  }

  lemma BaudCostGrows(pl: Plan, s: Sim, t: int, k: nat, m: nat)
    requires pl.Usable() && Inv(pl, s, t, k, m) && s.nSmp < pl.samples
    ensures var c, c' := BaudCost(pl, s, k), BaudCost(pl, Advance(pl, s), PulseAfter(pl, s, k));
            && c <= c'
            && (Coding(pl, s) && Delay(pl, s) == BaudTime(pl, s) && Delay(pl, s) < s.p ==> c < c')
  {
    if pl.nbaud > 1 {
      FactorsMove(pl, s);
      XBitIsPhase3(s.st);
      if Delay(pl, s) == s.p { PulseEventMeansPulses(pl, s, t, k, m); }
      if PhaseOf(s.st) == 3 { BaudIndexBelow(pl, s, t, k); }
      if PhaseOf(s.st) != 5 { BaudClockMoves(pl, s, t, k); }
      BaudCostMoves(pl, s, Advance(pl, s), k);
    }
  }

  lemma SplitCost(a: int, d: int)
    requires 0 <= a && 1 <= d
    ensures a / 254 + (d - 1) / 255 <= (a + d) / 254
    ensures d == SENTINEL ==> a / 254 + (d - 1) / 255 + 1 <= (a + d) / 254
  {
  }

  /** An event is a toggle, a pulse event, a baud event, or the sentinel running out while the
      first sample is still far off. */
  lemma EventKinds(pl: Plan, s: Sim, t: int, k: nat, m: nat)
    requires pl.Usable() && Inv(pl, s, t, k, m) && pl.half <= 255
    ensures var d := Delay(pl, s);
            && (d == s.s || d == s.p || (d == BaudTime(pl, s) && d < s.p && (Coding(pl, s) || d == SENTINEL)))
            && (m > 0 ==> d <= pl.half && pl.FirstRise() <= t)
            && (m == 0 ==> t + d <= pl.FirstRise())
  {
    if m > 0 { ToggleBefore(pl, m); }
  }

  lemma ToggleBefore(pl: Plan, m: nat)
    requires pl.Usable() && 0 < m
    ensures Toggle(pl, m) == Toggle(pl, m - 1) + pl.half && pl.FirstRise() <= Toggle(pl, m - 1)
  {
    MulMono(0, m - 1, pl.half);
    assert m * pl.half == (m - 1) * pl.half + pl.half;
  }

  /** No event writes more entries than it pays for. */
  lemma CostCovers(pl: Plan, s: Sim, t: int, k: nat, m: nat)
    requires pl.Usable() && Inv(pl, s, t, k, m) && s.nSmp < pl.samples && pl.half <= 255
    requires 1 <= Delay(pl, s)
    ensures var d := Delay(pl, s);
            Cost(pl, Advance(pl, s), t + d, PulseAfter(pl, s, k), ToggleAfter(pl, s, m))
            >= Cost(pl, s, t, k, m) + Entries(d)
  {
    BaudCostGrows(pl, s, t, k, m);
    FactorsMove(pl, s);
    EventKinds(pl, s, t, k, m);
    CostAdds(pl, s, Advance(pl, s), t, k, m);
  }

  lemma CostAdds(pl: Plan, s: Sim, s': Sim, t: int, k: nat, m: nat)
    requires pl.Shaped() && pl.half <= 255 && 0 <= t
    requires var d := Delay(pl, s);
             && 1 <= d <= s.s && d <= s.p
             && (d == s.s || d == s.p || (d == BaudTime(pl, s) && d < s.p && (Coding(pl, s) || d == SENTINEL)))
             && (m > 0 ==> d <= pl.half && pl.FirstRise() <= t)
             && (m == 0 ==> t + d <= pl.FirstRise())
             && PhaseOf(s'.st) == if d == s.p then NextPhase(PhaseOf(s.st)) else PhaseOf(s.st)
    requires var c, c' := BaudCost(pl, s, k), BaudCost(pl, s', PulseAfter(pl, s, k));
             && c <= c'
             && (Coding(pl, s) && Delay(pl, s) == BaudTime(pl, s) && Delay(pl, s) < s.p ==> c < c')
    ensures var d := Delay(pl, s);
            Cost(pl, s', t + d, PulseAfter(pl, s, k), ToggleAfter(pl, s, m)) >= Cost(pl, s, t, k, m) + Entries(d)
  {
    SplitCost(t, Delay(pl, s));
  }

  /** Some place in the pulse train and the sample train fits the loop's variables at step t,
      and the entries written so far are paid for. */
  ghost predicate Reached(pl: Plan, s: Sim, t: int, e: int)
    requires pl.Shaped()
  {
    exists k: nat, m: nat :: Inv(pl, s, t, k, m) && (pl.half <= 255 ==> e <= Cost(pl, s, t, k, m))
  }

  lemma Begin(pl: Plan)
    requires pl.Usable()
    ensures Reached(pl, Initial(pl), 0, 0)
  {
    InitialFits(pl);
    assert Cost(pl, Initial(pl), 0, 0, 0) >= 0;
  }

  /** A pass from step t writes one code, that of the ideal waveform, for as long as it waits. */
  ghost predicate CanPass(pl: Plan, s: Sim, t: int)
    requires pl.Usable()
  {
    && 0 <= s.i && (pl.mppul > 0 ==> 0 < s.i) && CodeReady(pl, s)
    && var d := Delay(pl, s);
       && 1 <= d && HasSample(CodeOf(pl, s)) == Sampling(s.st)
       && (forall u :: t <= u < t + d ==> pl.Ideal(u) == CodeOf(pl, s))
  }

  lemma Step(pl: Plan, s: Sim, t: int, e: int)
    requires pl.Usable() && Reached(pl, s, t, e) && s.nSmp < pl.samples
    ensures CanPass(pl, s, t) && 0 <= t <= pl.Rise(pl.samples - 1)
    ensures Reached(pl, Advance(pl, s), t + Delay(pl, s), e + Entries(Delay(pl, s)))
    ensures Advance(pl, s).nSmp <= pl.samples
    ensures Advance(pl, s).nSmp == pl.samples ==> t == pl.Rise(pl.samples - 1)
  {
    var k: nat, m: nat :| Inv(pl, s, t, k, m) && (pl.half <= 255 ==> e <= Cost(pl, s, t, k, m));
    Pass(pl, s, t, k, m);
    if pl.half <= 255 { CostCovers(pl, s, t, k, m); }
  }

  lemma StepWaits(pl: Plan, s: Sim, t: int, e: int)
    requires pl.Usable() && Reached(pl, s, t, e) && s.nSmp < pl.samples
    ensures Waits(Events(pl), t, Delay(pl, s))
  {
    var k: nat, m: nat :| Inv(pl, s, t, k, m) && (pl.half <= 255 ==> e <= Cost(pl, s, t, k, m));
    PassWaits(pl, s, t, k, m);
  }

  /** An entry is to begin at step n, and e of them began before. */
  ghost predicate OpenedTo(event: int -> bool, n: int, e: int) {
    0 <= n && Since(event, n) == 0 && e == Opened(event, n)
  }

  lemma OpensOn(event: int -> bool, n: int, e: int, d: int)
    requires OpenedTo(event, n, e) && Waits(event, n, d)
    ensures OpenedTo(event, n + d, e + Entries(d))
  {
    WriteOpens(event, n, d);
  }

  /** The loop has stopped where it should: at the end of the sequence, with all its samples. */
  ghost predicate Stops(pl: Plan, nSmp: int, n: int)
    requires pl.Usable()
  {
    n == Length(pl) && nSmp == if pl.samples <= 0 then 0 else pl.samples
  }

  /** The loop can be at step n after e entries, one wherever an entry begins; and if it is done it
      stopped rightly. */
  ghost predicate Running(pl: Plan, s: Sim, n: int, e: int)
    requires pl.Usable()
  {
    && Reached(pl, s, n, e) && OpenedTo(Events(pl), n, e)
    && (s.nSmp < pl.samples || Stops(pl, s.nSmp, n))
  }

  lemma StartRunning(pl: Plan)
    requires pl.Usable()
    ensures Running(pl, Initial(pl), 0, 0)
  {
    Begin(pl);
  }

  lemma RunsOn(pl: Plan, s: Sim, n: int, e: int, next: Sim, d: int)
    requires pl.Usable() && Running(pl, s, n, e) && s.nSmp < pl.samples
    requires Waits(Events(pl), n, d) && Reached(pl, next, n + d, e + Entries(d))
    requires next.nSmp <= pl.samples && (next.nSmp == pl.samples ==> n == pl.Rise(pl.samples - 1))
    ensures Running(pl, next, n + d, e + Entries(d))
  {
    OpensOn(Events(pl), n, e, d);
    if n == pl.Rise(pl.samples - 1) { EndsAtEvent(pl, d); }
  }

  /** While samples are missing, the next pass writes what it should. */
  lemma CanRun(pl: Plan, s: Sim, n: int, e: int)
    requires pl.Usable() && Running(pl, s, n, e) && s.nSmp < pl.samples
    ensures CanPass(pl, s, n) && n <= pl.Rise(pl.samples - 1)
  {
    Step(pl, s, n, e);
  }

  /** And after it the loop is still running. */
  lemma KeepRunning(pl: Plan, s: Sim, n: int, e: int)
    requires pl.Usable() && Running(pl, s, n, e) && s.nSmp < pl.samples
    ensures Running(pl, Advance(pl, s), n + Delay(pl, s), e + Entries(Delay(pl, s)))
  {
    Step(pl, s, n, e);
    StepWaits(pl, s, n, e);
    RunsOn(pl, s, n, e, Advance(pl, s), Delay(pl, s));
  }

  /** The run is over after n steps and e entries: at the end of the sequence, with an entry
      wherever one begins; without phantom pulses these are bounded by the parameters alone. */
  ghost predicate Ran(pl: Plan, n: int, e: int)
    requires pl.Usable()
  {
    && 0 <= n == Length(pl) && e == Opened(Events(pl), n)
    && (pl.half <= 255 && 1 <= pl.nbaud && 0 <= pl.samples && !Overruns(pl) ==> e <= EntryBound(pl))
  }

  lemma HasRun(pl: Plan, s: Sim, n: int, e: int)
    requires pl.Usable() && Running(pl, s, n, e) && pl.samples <= s.nSmp
    ensures Ran(pl, n, e) && s.nSmp == if pl.samples <= 0 then 0 else pl.samples
  {
    OverrunsMeans(pl);
    if pl.half <= 255 && 1 <= pl.nbaud && 0 <= pl.samples && !Overruns(pl) {
      CostBound(pl, s, n, e);
    }
  }

  /** Entries that the loop may write when no pulse beyond the pattern is reached. */
  function EntryBound(pl: Plan): int
    requires pl.Usable()
  {
    pl.FirstRise() / 254 + 2 * pl.samples + (6 + pl.nbaud) * pl.mppul + 2
  }

  /** With no pulse beyond the pattern, the entries are bounded by the parameters alone. */
  lemma CostBound(pl: Plan, s: Sim, t: int, e: int)
    requires pl.Usable() && Reached(pl, s, t, e) && pl.half <= 255 && 1 <= pl.nbaud
    requires 0 <= s.nSmp <= pl.samples && t <= pl.Start(pl.mppul)
    ensures e <= EntryBound(pl)
  {
    var k: nat, m: nat :| Inv(pl, s, t, k, m) && e <= Cost(pl, s, t, k, m);
    PulsesWithin(pl, s, t, k);
    TogglesWithin(pl, s, t, m);
    CostAt(k, pl.mppul, pl.nbaud, PhaseOf(s.st), BaudCost(pl, s, k));
  }

  lemma TogglesWithin(pl: Plan, s: Sim, t: int, m: nat)
    requires pl.Usable() && SampleInv(pl, s, t, m) && s.nSmp <= pl.samples
    ensures m <= 2 * pl.samples + 1
  {
  }

  lemma CostAt(k: nat, n: nat, nbaud: int, q: Phase, c: int)
    requires 1 <= nbaud && k <= n
    requires if k < n then c <= nbaud * k + nbaud else q <= 1 && c <= nbaud * k
    ensures 6 * k + q + c <= (6 + nbaud) * n + 1
  {
    MulMono(k, n, nbaud + 6);
    if k < n { MulMono(k + 1, n, nbaud + 6); }
  }

  lemma PulsesWithin(pl: Plan, s: Sim, t: int, k: nat)
    requires pl.Usable() && PulseInv(pl, s, t, k) && BaudInv(pl, s, t, k) && 1 <= pl.nbaud
    requires t <= pl.Start(pl.mppul)
    ensures k <= pl.mppul
    ensures k == pl.mppul ==> PhaseOf(s.st) <= 1
    ensures k < pl.mppul ==> BaudCost(pl, s, k) <= pl.nbaud * k + pl.nbaud
    ensures k == pl.mppul ==> BaudCost(pl, s, k) <= pl.nbaud * k
  {
    if k > pl.mppul {
      if pl.mppul < k - 1 { StartsIncrease(pl, pl.mppul, k - 1); }
    }
    if PhaseOf(s.st) == 3 && pl.nbaud > 1 { BaudIndexBelow(pl, s, t, k); }
  }
}
