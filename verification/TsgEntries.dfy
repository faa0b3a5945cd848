/** How many steps and entries a sequence has, from the two waves alone: an entry begins at every
    event of either wave, and a long stretch without events is split. */
module TsgEntries {
  import opened Common
  import opened TsgStates
  import opened TsgWave
  import opened TsgSim
  import opened TsgBuffer

  /** The first event from step u on, or the limit if there is none before it. */
  ghost function EventFrom(event: int -> bool, u: int, limit: int): (n: int)
    requires u <= limit
    ensures u <= n <= limit
    ensures forall v :: u <= v <= limit && event(v) ==> n <= v
    decreases limit - u
  {
    if u == limit || event(u) then u else EventFrom(event, u + 1, limit)
  }

  /** The steps since the last event, or since the sentinel last ran out without one. */
  ghost function Since(event: int -> bool, t: int): (r: nat)
    ensures r < SENTINEL
    decreases t
  {
    if t <= 0 || event(t) || Since(event, t - 1) + 1 == SENTINEL then 0 else Since(event, t - 1) + 1
  }

  /** An entry begins at step t: at an event, when the sentinel has run out without one, and every
      255 steps in between. */
  ghost predicate Opens(event: int -> bool, t: int) {
    Since(event, t) % 255 == 0
  }

  /** The number of entries that begin within the first n steps. */
  ghost function Opened(event: int -> bool, n: int): nat
    decreases n
  {
    if n <= 0 then 0 else Opened(event, n - 1) + Bit(Opens(event, n - 1))
  }

  /** Nothing happens for d steps after step t, and then an event, or the sentinel has run out. */
  ghost predicate Waits(event: int -> bool, t: int, d: int) {
    && 1 <= d <= SENTINEL && (d == SENTINEL || event(t + d))
    && forall u :: t < u < t + d ==> !event(u)
  }

  lemma {:induction false} EventFromIs(event: int -> bool, u: int, limit: int, n: int)
    requires u <= n <= limit && (n == limit || event(n))
    requires forall v :: u <= v < n ==> !event(v)
    ensures EventFrom(event, u, limit) == n
    decreases limit - u
  {
    if u < n { EventFromIs(event, u + 1, limit, n); }
  }

  lemma {:induction false} OpenedOver(event: int -> bool, t: int, d: int, limit: int)
    requires 0 <= t && 1 <= d <= limit && Waits(event, t, limit) && Since(event, t) == 0
    ensures Opened(event, t + d) == Opened(event, t) + Entries(d) && Since(event, t + d - 1) == d - 1
  {
    if d == 1 {
      assert Opened(event, t + 1) == Opened(event, t) + Bit(Opens(event, t));
    } else {
      OpenedOver(event, t, d - 1, limit);
      StepOpens(event, t + d - 1, d - 1);
      OneMore(d - 1);
    }
  }

  lemma StepOpens(event: int -> bool, n: int, i: nat)
    requires 0 < n && 1 <= i < SENTINEL && Since(event, n - 1) == i - 1 && !event(n)
    ensures Since(event, n) == i && Opened(event, n + 1) == Opened(event, n) + Bit(i % 255 == 0)
  {
  }

  lemma OneMore(i: nat)
    requires 1 <= i
    ensures Entries(i + 1) == Entries(i) + Bit(i % 255 == 0)
  {
  }

  /** Between two places where an entry must begin lie exactly the entries of one write. */
  lemma WriteOpens(event: int -> bool, t: int, d: int)
    requires 0 <= t && Waits(event, t, d) && Since(event, t) == 0
    ensures Opened(event, t + d) == Opened(event, t) + Entries(d) && Since(event, t + d) == 0
  {
    OpenedOver(event, t, d, d);
  }

  ghost predicate IsToggle(pl: Plan, t: int)
    requires pl.Shaped()
  {
    exists m: nat :: Toggle(pl, m) == t
  }

  function Edge(pl: Plan, k: nat, q: int): int
    requires pl.Shaped() && 1 <= q <= 6
  {
    pl.Start(k) + pl.Offset(q)
  }

  /** A phase of a pulse cycle, or the cycle itself, begins or ends. */
  ghost predicate IsEdge(pl: Plan, t: int)
    requires pl.Shaped()
  {
    pl.Pulses() && exists k: nat, q :: 1 <= q <= 6 && Edge(pl, k, q) == t
  }

  function BaudStart(pl: Plan, k: nat, j: int): int
    requires pl.Shaped()
  {
    pl.Start(k) + pl.Offset(3) + j * pl.baud
  }

  /** A phase-code baud other than the first of its pulse begins. */
  ghost predicate IsBaud(pl: Plan, t: int)
    requires pl.Shaped()
  {
    pl.Pulses() && pl.nbaud > 1 && exists k: nat, j :: 0 < j < pl.nbaud && BaudStart(pl, k, j) == t
  }

  ghost predicate Event(pl: Plan, t: int)
    requires pl.Shaped()
  {
    IsToggle(pl, t) || IsEdge(pl, t) || IsBaud(pl, t)
  }

  ghost function Events(pl: Plan): int -> bool
    requires pl.Shaped()
  {
    t => Event(pl, t)
  }

  /** The number of steps of a sequence proper: it ends with the first event after the last sample
      has gone up. */
  ghost function Length(pl: Plan): (n: int)
    requires pl.Usable()
    ensures if pl.samples <= 0 then n == 0
            else pl.Rise(pl.samples - 1) < n <= pl.Rise(pl.samples - 1) + pl.half
  {
    if pl.samples <= 0 then 0
    else
      var last := pl.Rise(pl.samples - 1);
      assert Events(pl)(last + pl.half) by { assert Toggle(pl, 2 * (pl.samples - 1) + 1) == last + pl.half; }
      EventFrom(Events(pl), last + 1, last + SENTINEL)
  }

  /** What comes next after the last sample has gone up ends the sequence. */
  lemma EndsAtEvent(pl: Plan, d: int)
    requires pl.Usable() && 0 < pl.samples && Waits(Events(pl), pl.Rise(pl.samples - 1), d)
    ensures pl.Rise(pl.samples - 1) + d == Length(pl)
  {
    var last := pl.Rise(pl.samples - 1);
    EventFromIs(Events(pl), last + 1, last + SENTINEL, last + d);
  }

  /** The sequence is still being sampled when the sentinel after the last cycle has run out. */
  predicate Overruns(pl: Plan)
    requires pl.Shaped()
  {
    0 < pl.samples && pl.Start(pl.mppul) <= pl.Rise(pl.samples - 1)
  }

  /** It then runs on into a pulse cycle that the pattern does not have, and only then. */
  lemma OverrunsMeans(pl: Plan)
    requires pl.Usable()
    ensures Overruns(pl) <==> pl.Start(pl.mppul) < Length(pl)
  {
    if 0 < pl.samples && pl.Pulses() && pl.Rise(pl.samples - 1) < pl.Start(pl.mppul) {
      assert Edge(pl, pl.mppul, 1) == pl.Start(pl.mppul);
      assert Events(pl)(pl.Start(pl.mppul));
    }
    if pl.samples <= 0 { FirstStart(pl); }
  }

  lemma FirstStart(pl: Plan)
    requires pl.Usable()
    ensures 1 <= pl.Start(pl.mppul)
  {
    if pl.mppul > 0 { StartsIncrease(pl, 0, pl.mppul); }
  }

  lemma NoToggleInside(pl: Plan, s: Sim, t: int, m: nat, u: int)
    requires pl.Usable() && SampleInv(pl, s, t, m) && t < u < t + s.s
    ensures !IsToggle(pl, u)
  {
    forall m': nat ensures Toggle(pl, m') != u {
      if m' < m { MulMono(m', m - 1, pl.half); } else { MulMono(m, m', pl.half); }
    }
  }

  lemma OffsetsIncrease(pl: Plan, a: int, b: int)
    requires pl.Usable() && pl.Pulses() && 1 <= a <= b <= 6
    ensures 0 <= pl.Offset(a) <= pl.Offset(b) <= pl.Cycle()
  {
  }

  /** Everything pulse k' does, at an offset within its cycle, is outside phase q of pulse k, unless
      k' is k. */
  lemma OtherPulse(pl: Plan, k: nat, q: Phase, k': nat, tau: int, u: int)
    requires pl.Usable() && pl.Pulses() && k' != k && 0 <= tau <= pl.Cycle()
    requires PhaseBegin(pl, k, q) < u < PhaseEnd(pl, k, q)
    ensures pl.Start(k') + tau != u
  {
    if k < k' {
      StartsIncrease(pl, k, k');
      if q != 0 { OffsetsIncrease(pl, q, q + 1); }
    } else {
      StartsIncrease(pl, k', k);
      if k' < k - 1 { StartsIncrease(pl, k', k - 1); }
      if q != 0 { OffsetsIncrease(pl, q, q); }
    }
  }

  lemma NoEdgeInside(pl: Plan, k: nat, q: Phase, u: int)
    requires pl.Usable() && PhaseBegin(pl, k, q) < u < PhaseEnd(pl, k, q)
    ensures !IsEdge(pl, u)
  {
    if pl.Pulses() {
      forall k': nat, q' | 1 <= q' <= 6 ensures Edge(pl, k', q') != u {
        OffsetsIncrease(pl, q', q');
        if k' != k {
          OtherPulse(pl, k, q, k', pl.Offset(q'), u);
        } else if q != 0 && q' <= q {
          OffsetsIncrease(pl, q', q);
        } else if q != 0 {
          OffsetsIncrease(pl, q + 1, q');
        }
      }
    }
  }

  lemma BaudOffset(pl: Plan, j: int)
    requires pl.Usable() && pl.Pulses() && pl.nbaud > 1 && 0 <= j <= pl.nbaud
    ensures pl.Offset(3) <= pl.Offset(3) + j * pl.baud <= pl.Offset(4)
    ensures j < pl.nbaud ==> pl.Offset(3) + j * pl.baud < pl.Offset(4)
  {
    MulMono(0, j, pl.baud);
    MulMono(j, pl.nbaud, pl.baud);
    if j < pl.nbaud { MulMono(j + 1, pl.nbaud, pl.baud); }
  }

  lemma NoBaudInside(pl: Plan, s: Sim, t: int, k: nat, u: int)
    requires pl.Usable() && PulseInv(pl, s, t, k) && BaudInv(pl, s, t, k)
    requires t < u < t + s.p && u < t + BaudTime(pl, s)
    ensures !IsBaud(pl, u)
  {
    if pl.Pulses() && pl.nbaud > 1 {
      var q := PhaseOf(s.st);
      XBitIsPhase3(s.st);
      forall k': nat, j | 0 < j < pl.nbaud ensures BaudStart(pl, k', j) != u {
        BaudOffset(pl, j);
        OffsetsIncrease(pl, 4, 6);
        if k' != k {
          OtherPulse(pl, k, q, k', pl.Offset(3) + j * pl.baud, u);
        } else if q == 3 {
          if j <= s.j { MulMono(j, s.j, pl.baud); } else { MulMono(s.j + 1, j, pl.baud); }
        } else if q == 1 || q == 2 {
          OffsetsIncrease(pl, q + 1, 3);
        } else if q != 0 {
          OffsetsIncrease(pl, 4, q);
        }
      }
    }
  }

  lemma NoEventInside(pl: Plan, s: Sim, t: int, k: nat, m: nat, u: int)
    requires pl.Usable() && Inv(pl, s, t, k, m) && t < u < t + Delay(pl, s)
    ensures !Event(pl, u)
  {
    NoToggleInside(pl, s, t, m, u);
    NoEdgeInside(pl, k, PhaseOf(s.st), u);
    NoBaudInside(pl, s, t, k, u);
  }

  lemma EventAtEnd(pl: Plan, s: Sim, t: int, k: nat, m: nat)
    requires pl.Usable() && Inv(pl, s, t, k, m) && s.nSmp < pl.samples
    ensures var d := Delay(pl, s); 1 <= d <= SENTINEL && (d == SENTINEL || Event(pl, t + d))
  {
    var d := Delay(pl, s);
    BaudTimePositive(pl, s, t, k);
    XBitIsPhase3(s.st);
    if d == s.s {
      assert IsToggle(pl, t + d);
    } else if d == s.p {
      PulseEventMeansPulses(pl, s, t, k, m);
      PhaseEndIsEdge(pl, k, PhaseOf(s.st));
    } else if Coding(pl, s) {
      BaudEndIsBaud(pl, s, t, k);
    }
    if Coding(pl, s) { BaudFits(pl); }
  }

  lemma PhaseEndIsEdge(pl: Plan, k: nat, q: Phase)
    requires pl.Usable() && pl.Pulses()
    ensures IsEdge(pl, PhaseEnd(pl, k, q))
  {
    if q == 0 {
      assert Edge(pl, k, 1) == PhaseEnd(pl, k, q);
    } else {
      var e: int := q + 1;
      assert 1 <= e <= 6 && Edge(pl, k, e) == PhaseEnd(pl, k, q);
    }
  }

  lemma BaudEndIsBaud(pl: Plan, s: Sim, t: int, k: nat)
    requires pl.Usable() && PulseInv(pl, s, t, k) && BaudInv(pl, s, t, k)
    requires Coding(pl, s) && BaudTime(pl, s) < s.p
    ensures IsBaud(pl, t + BaudTime(pl, s))
  {
    XBitIsPhase3(s.st);
    var j := s.j + 1;
    assert j * pl.baud == s.j * pl.baud + pl.baud;
    assert BaudStart(pl, k, j) == t + BaudTime(pl, s);
    assert pl.nbaud * pl.baud == pl.txp;
    if j >= pl.nbaud { MulMono(pl.nbaud, j, pl.baud); }
  }

  /** While a pass of the loop waits, nothing happens; and it waits for what happens next. */
  lemma PassWaits(pl: Plan, s: Sim, t: int, k: nat, m: nat)
    requires pl.Usable() && Inv(pl, s, t, k, m) && s.nSmp < pl.samples
    ensures Waits(Events(pl), t, Delay(pl, s))
  {
    EventAtEnd(pl, s, t, k, m);
    forall u | t < u < t + Delay(pl, s) ensures !Events(pl)(u) { NoEventInside(pl, s, t, k, m, u); }
  }
}
