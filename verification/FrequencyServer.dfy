/** Frequency assignment over whole runs of the server. */
module FrequencyServer {
  import opened Common
  import opened Spectrum

  const MAX_THREADS: nat := 30

  /** The part of a control program that assignment reads and writes.  A program is inactive for
      good once active is 0. */
  datatype Program = Program(
    active: int, currentFreq: int, currentNoise: real, bestFreq: int, bestNoise: real,
    txSideband: int, rxSideband: int)

  function Ceil(x: real): int { -((-x).Floor) }

  /** The sideband in kHz kept clear on either side of a program's frequency. */
  function Sideband(samplerate: real): nat {
    if 2 * Ceil(samplerate / 1000.0) > 0 then 2 * Ceil(samplerate / 1000.0) else 0
  }

  /** The band a program occupies. */
  function Occupied(p: Program): Window {
    Window(p.bestFreq - p.rxSideband, p.bestFreq + p.rxSideband)
  }

  /** The bands of the programs among the first n other than k that are not gone. */
  function Others(ps: seq<Program>, k: nat, n: nat): (r: seq<Window>)
    requires n <= |ps|
    ensures |r| <= n && (k < n ==> |r| < n)
  {
    if n == 0 then []
    else Others(ps, k, n - 1) + if n - 1 != k && ps[n - 1].active != 0 then [Occupied(ps[n - 1])] else []
  }

  lemma {:induction false} OthersHave(ps: seq<Program>, k: nat, n: nat, i: nat)
    requires i < n <= |ps| && i != k && ps[i].active != 0
    ensures Occupied(ps[i]) in Others(ps, k, n)
  {
    if i < n - 1 { OthersHave(ps, k, n - 1, i); }
  }

  /** The list has the bands of those programs and no others: a frequency is in one if and only if it is
      no further than its sideband from the frequency of another program that is not gone. */
  lemma {:induction false} OthersAre(ps: seq<Program>, k: nat, n: nat, w: Window)
    requires n <= |ps|
    ensures w in Others(ps, k, n) <==>
            exists i :: 0 <= i < n && i != k && ps[i].active != 0
              && w == Window(ps[i].bestFreq - ps[i].rxSideband, ps[i].bestFreq + ps[i].rxSideband)
  {
    if n > 0 {
      OthersAre(ps, k, n - 1, w);
      var o := Others(ps, k, n - 1);
      assert Others(ps, k, n) == o + if n - 1 != k && ps[n - 1].active != 0 then [Occupied(ps[n - 1])] else [];
    }
  }

  /** The sideband is the least even number of kHz that is at least twice the sample rate. */
  lemma SidebandIs(samplerate: real)
    ensures var s := Sideband(samplerate);
            && s % 2 == 0 && (samplerate <= 0.0 ==> s == 0)
            && (samplerate > 0.0 ==>
                  1000.0 * (s - 2) as real < 2.0 * samplerate && 2.0 * samplerate <= 1000.0 * s as real)
  {
    var x := samplerate / 1000.0;
    assert samplerate == 1000.0 * x;
    var c := Ceil(x);
    assert x <= c as real && (c - 1) as real < x;
  }

  predicate Excluded(b: Bin, ws: seq<Window>) {
    exists w :: w in ws && w.Holds(b.freq)
  }

  /** The bins outside every window, in order. */
  function Allowed(c: seq<Bin>, ws: seq<Window>): seq<Bin> {
    if c == [] then []
    else Allowed(c[..|c| - 1], ws) + if Excluded(c[|c| - 1], ws) then [] else [c[|c| - 1]]
  }

  lemma {:induction false} AllowedMeans(c: seq<Bin>, ws: seq<Window>, b: Bin)
    ensures b in Allowed(c, ws) <==> b in c && !Excluded(b, ws)
  {
    if c != [] {
      var m := |c| - 1;
      assert c == c[..m] + [c[m]];
      AllowedMeans(c[..m], ws, b);
    }
  }

  predicate Holding(p: Program) { p.active != 0 && p.bestFreq != 0 }

  /** Two programs that hold frequencies are further apart than the smaller sideband. */
  predicate Separated(ps: seq<Program>) {
    forall i, j :: 0 <= i < j < |ps| && Holding(ps[i]) && Holding(ps[j]) ==>
      Abs(ps[i].bestFreq - ps[j].bestFreq) > Min(ps[i].rxSideband, ps[j].rxSideband)
  }

  /** No assigned frequency is in a restricted window. */
  predicate Unrestricted(ps: seq<Program>, restricted: seq<Window>) {
    forall i, w :: 0 <= i < |ps| && w in restricted && ps[i].bestFreq != 0 ==> !w.Holds(ps[i].bestFreq)
  }

  /** A frequency outside the others' bands keeps the programs apart. */
  lemma AssignSeparates(ps: seq<Program>, k: nat, p: Program, restricted: seq<Window>)
    requires k < |ps| && Separated(ps) && Unrestricted(ps, restricted)
    requires p.bestFreq != 0 ==>
               forall w :: w in restricted + Others(ps, k, |ps|) ==> !w.Holds(p.bestFreq)
    ensures Separated(ps[k := p]) && Unrestricted(ps[k := p], restricted)
  {
    forall i | 0 <= i < |ps| && i != k && ps[i].active != 0 && p.bestFreq != 0
      ensures Abs(p.bestFreq - ps[i].bestFreq) > ps[i].rxSideband
    {
      OthersHave(ps, k, |ps|, i);
      assert !Occupied(ps[i]).Holds(p.bestFreq);
    }
  }

  /** What an assignment must make of the program: the weakest allowed bin, with its noise, or
      no frequency when there is none. */
  ghost predicate Assigned(p: Program, was: Program, allowed: seq<Bin>, detrended: bool, s: nat) {
    if allowed == [] then
      p == was.(currentFreq := 0, currentNoise := EDGE, bestFreq := 0, bestNoise := 0.0)
    else
      exists b :: b in allowed && (forall c :: c in allowed ==> b.apwr <= c.apwr) &&
        var noise := if detrended then b.apwr + b.detrend else b.apwr;
        p == was.(currentFreq := b.freq, currentNoise := noise, bestFreq := b.freq, bestNoise := noise,
                  txSideband := s, rxSideband := s)
  }

  class Server {
    /** The control programs, newest first. */
    var programs: seq<Program>
    /** Restricted windows, with room behind them for the bands of the programs. */
    const blacklist: array<Window>
    const restrictedCount: nat
    ghost const restricted: seq<Window>

    ghost predicate Valid()
      reads this, blacklist
    {
      && |programs| <= MAX_THREADS
      && restrictedCount + MAX_THREADS * 4 <= blacklist.Length
      && blacklist[..restrictedCount] == restricted
      && Separated(programs) && Unrestricted(programs, restricted)
    }

    /** Load the restricted windows into an array sized by the lines of the file. */
    constructor (windows: seq<Window>, lines: nat)
      requires |windows| <= lines
      ensures Valid() && programs == [] && restricted == windows && fresh(blacklist)
    {
      programs, restricted, restrictedCount := [], windows, |windows|;
      blacklist := new Window[lines + MAX_THREADS * 4](_ => Window(0, 0));
      new;
      var i := 0;
      while i < |windows|
        modifies blacklist
        invariant i <= |windows| && blacklist[..i] == windows[..i]
      {
        blacklist[i] := windows[i];
        i := i + 1;
      }
    }

    /** A new program: no frequency yet, and a sideband nobody has set. */
    method Connect(sideband: int)
      requires Valid() && |programs| < MAX_THREADS
      modifies `programs
      ensures Valid() && programs == [Program(1, 0, 0.0, 0, 0.0, 0, sideband)] + old(programs)
    {
      programs := [Program(1, 0, 0.0, 0, 0.0, 0, sideband)] + programs;
    }

    method SetActive(k: nat, active: int)
      requires Valid() && k < |programs| && active != 0
      modifies `programs
      ensures Valid() && programs == old(programs)[k := old(programs)[k].(active :=
                                       if old(programs)[k].active != 0 then active else 0)]
    {
      if programs[k].active != 0 {
        programs := programs[k := programs[k].(active := active)];
      }
    }

    method Exit(k: nat)
      requires Valid() && k < |programs|
      modifies `programs
      ensures Valid() && programs == old(programs)[k := old(programs)[k].(active := 0)]
    {
      programs := programs[k := programs[k].(active := 0)];
    }

    method Remove(k: nat)
      requires Valid() && k < |programs|
      modifies `programs
      ensures Valid() && programs == old(programs)[..k] + old(programs)[k + 1..]
    {
      programs := programs[..k] + programs[k + 1..];
    }

    /** Put the bands of the other programs behind the restricted windows. */
    method FillBlacklist(k: nat) returns (count: nat)
      requires Valid() && k < |programs|
      modifies blacklist
      ensures count <= blacklist.Length && blacklist[..restrictedCount] == restricted
      ensures blacklist[..count] == restricted + Others(programs, k, |programs|)
    {
      count := restrictedCount;
      var i := 0;
      while i < |programs|
        invariant i <= |programs| && count == restrictedCount + |Others(programs, k, i)|
        invariant blacklist[..count] == restricted + Others(programs, k, i)
      {
        if i != k && programs[i].active != 0 {
          if count < MAX_THREADS + restrictedCount {
            blacklist[count] := Occupied(programs[i]);
            count := count + 1;
          }
        }
        i := i + 1;
      }
    }

    /** Keep the bins that no window on the list holds. */
    method Exclude(sub: seq<Bin>, count: nat) returns (clear: seq<Bin>)
      requires count <= blacklist.Length
      ensures clear == Allowed(sub, blacklist[..count])
    {
      clear := [];
      var i := 0;
      while i < |sub|
        invariant i <= |sub| && clear == Allowed(sub[..i], blacklist[..count])
      {
        var clean := true;
        var k := 0;
        while k < count && clean
          invariant k <= count
          invariant clean ==> forall x :: 0 <= x < k ==> !blacklist[x].Holds(sub[i].freq)
          invariant !clean ==> Excluded(sub[i], blacklist[..count])
        {
          if blacklist[k].Holds(sub[i].freq) {
            assert blacklist[k] in blacklist[..count];
            clean := false;
          }
          k := k + 1;
        }
        assert clean <==> !Excluded(sub[i], blacklist[..count]);
        assert sub[..i + 1][..i] == sub[..i];
        if clean { clear := clear + [sub[i]]; }
        i := i + 1;
      }
      assert sub[..i] == sub;
    }

    /** Assign a frequency to program k from its spectrum. */
    method AssignFrequency(k: nat, fft: seq<Bin>, band: Window, samplerate: real,
                           detrend: bool, detrendSideband: nat)
      requires Valid() && k < |programs|
      requires band.start < band.end || forall i :: 0 <= i < |fft| ==> !band.Holds(fft[i].freq)
      modifies `programs, blacklist
      ensures Valid() && |programs| == |old(programs)|
      ensures forall i :: 0 <= i < |programs| && i != k ==> programs[i] == old(programs)[i]
      ensures var s := Sideband(samplerate);
              var bins := Smoothed(Detrended(fft, detrend, detrendSideband), s);
              var windows := restricted + Others(old(programs), k, |old(programs)|);
              Assigned(programs[k], old(programs)[k], Allowed(Candidates(bins, band), windows), detrend, s)
    {
      var s := Sideband(samplerate);
      var bins := Detrend(fft, detrend, detrendSideband);
      bins := Smooth(bins, s);
      var sub := LimitToBand(bins, band);
      var count := FillBlacklist(k);
      var considered := if |sub| == 0 then [] else sub[..|sub| - 1];
      var clear := Exclude(considered, count);
      ghost var windows := restricted + Others(programs, k, |programs|);
      assert clear == Allowed(Candidates(bins, band), windows);
      var p := Choose(programs[k], clear, detrend, s);
      AssignedIsClear(p, programs[k], Candidates(bins, band), windows, detrend, s);
      AssignSeparates(programs, k, p, restricted);
      programs := programs[k := p];
    }
  }

  lemma NoneLeft(bins: seq<Bin>)
    ensures multiset(bins) == multiset{} ==> bins == []
  {
    if bins != [] { assert bins[0] in multiset(bins); }
  }

  /** Sort the allowed bins and take the first. */
  method Choose(was: Program, allowed: seq<Bin>, detrended: bool, s: nat) returns (p: Program)
    ensures Assigned(p, was, allowed, detrended, s)
  {
    p := was;
    var sorted := SortByPower(allowed);
    if |sorted| > 0 {
      SortedFirst(sorted, allowed);
      var best := sorted[0];
      if detrended { best := best.(pwr := best.pwr + best.detrend, apwr := best.apwr + best.detrend); }
      p := p.(currentFreq := best.freq, currentNoise := best.apwr,
              bestFreq := best.freq, bestNoise := best.apwr, txSideband := s, rxSideband := s);
      assert allowed != [];
    } else {
      p := p.(currentFreq := 0, currentNoise := EDGE, bestFreq := 0, bestNoise := 0.0);
      NoneLeft(allowed);
    }
  }

  /** Whatever is assigned, a frequency other than 0 is outside every window. */
  lemma AssignedIsClear(p: Program, was: Program, c: seq<Bin>, ws: seq<Window>, detrended: bool, s: nat)
    requires Assigned(p, was, Allowed(c, ws), detrended, s)
    ensures p.bestFreq != 0 ==> forall w :: w in ws ==> !w.Holds(p.bestFreq)
  {
    forall b | b in Allowed(c, ws) ensures !Excluded(b, ws) { AllowedMeans(c, ws, b); }
  }

  /** What is assigned, if anything is allowed, is the frequency of an allowed bin. */
  lemma AssignedFrom(p: Program, was: Program, c: seq<Bin>, ws: seq<Window>, detrended: bool, s: nat) returns (i: nat)
    requires Assigned(p, was, Allowed(c, ws), detrended, s) && Allowed(c, ws) != []
    ensures i < |c| && p.bestFreq == c[i].freq && !Excluded(c[i], ws)
  {
    var b :| b in Allowed(c, ws) && p.bestFreq == b.freq;
    AllowedMeans(c, ws, b);
    i :| 0 <= i < |c| && c[i] == b;
  }

  /** The first of a sorted permutation is a least element. */
  lemma SortedFirst(sorted: seq<Bin>, bins: seq<Bin>)
    requires SortedByPower(sorted) && multiset(sorted) == multiset(bins) && sorted != []
    ensures sorted[0] in bins && forall c :: c in bins ==> sorted[0].apwr <= c.apwr
  {
    assert sorted[0] in multiset(bins);
    forall c | c in bins ensures sorted[0].apwr <= c.apwr {
      assert c in multiset(sorted);
    }
  }

  /** An assigned frequency lies in the search band, outside every window, at a bin the spectrum
      has; and no other such bin that was considered is weaker. */
  lemma AssignedIsBest(p: Program, was: Program, bins: seq<Bin>, band: Window, windows: seq<Window>,
                       detrended: bool, s: nat)
    requires Assigned(p, was, Allowed(Candidates(bins, band), windows), detrended, s)
    requires Allowed(Candidates(bins, band), windows) != []
    ensures exists b :: b in bins && p.bestFreq == b.freq && band.Holds(b.freq) && !Excluded(b, windows)
              && p.bestNoise == (if detrended then b.apwr + b.detrend else b.apwr)
              && p.currentFreq == p.bestFreq && p.currentNoise == p.bestNoise && p.rxSideband == p.txSideband == s
              && forall c :: c in Candidates(bins, band) && !Excluded(c, windows) ==> b.apwr <= c.apwr
  {
    var cand := Candidates(bins, band);
    var allowed := Allowed(cand, windows);
    var b :| b in allowed && (forall c :: c in allowed ==> b.apwr <= c.apwr) &&
      var noise := if detrended then b.apwr + b.detrend else b.apwr;
      p == was.(currentFreq := b.freq, currentNoise := noise, bestFreq := b.freq, bestNoise := noise,
                txSideband := s, rxSideband := s);
    AllowedMeans(cand, windows, b);
    assert b in InBand(bins, band);
    InBandMeans(bins, band, b);
    forall c | c in cand && !Excluded(c, windows) ensures b.apwr <= c.apwr {
      AllowedMeans(cand, windows, c);
    }
  }

  /** With no bin allowed the program gets no frequency and the worst noise. */
  lemma AssignedNone(p: Program, was: Program, bins: seq<Bin>, band: Window, windows: seq<Window>,
                     detrended: bool, s: nat)
    requires Assigned(p, was, Allowed(Candidates(bins, band), windows), detrended, s)
    requires forall c :: c in Candidates(bins, band) ==> Excluded(c, windows)
    ensures p.bestFreq == p.currentFreq == 0 && p.currentNoise == 10000000000.0 && p.bestNoise == 0.0
    ensures p.active == was.active && p.rxSideband == was.rxSideband && p.txSideband == was.txSideband
  {
    var allowed := Allowed(Candidates(bins, band), windows);
    if allowed != [] { AllowedMeans(Candidates(bins, band), windows, allowed[0]); }
  }

  /** A bin that is least among the allowed bins considered. */
  ghost predicate Weakest(b: Bin, allowed: seq<Bin>) {
    b in allowed && forall c :: c in allowed ==> b.apwr <= c.apwr
  }

  /** Every allowed bin passed over is no weaker than some allowed bin that was considered. */
  ghost predicate NothingMissed(bins: seq<Bin>, band: Window, windows: seq<Window>) {
    forall x :: x in PassedOver(bins, band) && !Excluded(x, windows) ==>
      exists c :: c in Allowed(Candidates(bins, band), windows) && c.apwr <= x.apwr
  }

  lemma AllowedJoin(a: seq<Bin>, b: seq<Bin>, windows: seq<Window>, x: Bin)
    ensures x in Allowed(a + b, windows) <==> x in Allowed(a, windows) || (x in b && !Excluded(x, windows))
  {
    AllowedMeans(a + b, windows, x);
    AllowedMeans(a, windows, x);
  }

  /** What is assigned is the weakest allowed bin of the whole band, or none if there is none, if and
      only if nothing was missed. */
  lemma MissedOrBest(bins: seq<Bin>, band: Window, windows: seq<Window>)
    requires band.start < band.end || InBand(bins, band) == []
    ensures var considered, all := Allowed(Candidates(bins, band), windows), Allowed(InBand(bins, band), windows);
            && (forall b :: Weakest(b, considered) ==> (Weakest(b, all) <==> NothingMissed(bins, band, windows)))
            && (considered == [] ==> (all == [] <==> NothingMissed(bins, band, windows)))
  {
    var considered, all := Allowed(Candidates(bins, band), windows), Allowed(InBand(bins, band), windows);
    LastBinsArePassedOver(bins, band);
    forall x ensures x in all <==> x in considered || (x in PassedOver(bins, band) && !Excluded(x, windows)) {
      AllowedJoin(Candidates(bins, band), PassedOver(bins, band), windows, x);
    }
    forall b | Weakest(b, considered) ensures Weakest(b, all) <==> NothingMissed(bins, band, windows) {
      if Weakest(b, all) { assert forall x :: x in PassedOver(bins, band) && !Excluded(x, windows) ==> x in all; }
    }
    if considered == [] && all != [] { assert all[0] in all; }
  }

  /** Where the band has no more bins than it is wide, that is a question of its last bin alone. */
  lemma LastBinDecides(bins: seq<Bin>, band: Window, windows: seq<Window>)
    requires band.start < band.end && 0 < |InBand(bins, band)| <= band.end - band.start
    ensures var last := InBand(bins, band)[|InBand(bins, band)| - 1];
            NothingMissed(bins, band, windows) <==>
              (Excluded(last, windows)
               || exists c :: c in Allowed(Candidates(bins, band), windows) && c.apwr <= last.apwr)
  {
    LastBinsArePassedOver(bins, band);
    var last := InBand(bins, band)[|InBand(bins, band)| - 1];
    assert PassedOver(bins, band) == [last];
  }
}
