/** Clear-frequency search and assignment together: from the request of a program to its frequency. */
module FrequencySearch {
  import opened Common
  import opened Spectrum
  import opened ClearSearch
  import opened FrequencyServer

  /** The band the assignment works with is the window the driver searched, not the one requested. */
  function SearchBand(d: Driver, start: int, end: int): Window
    requires end - start >= 2
  {
    Window(Plan(d, start, end).start, Plan(d, start, end).end)
  }

  /** At most four fifths of the bins are sent, and by the first driver no more than are requested. */
  lemma FourFifths(d: Driver, start: int, end: int)
    requires end - start >= 2
    ensures var s := Plan(d, start, end); 2 <= s.usable && 5 * s.usable <= 4 * s.n
    ensures d == Gc314 ==> Plan(d, start, end).usable <= EvenWidth(start, end)
  {
    PlanIsSound(d, start, end);
    var w := EvenWidth(start, end);
    assert IsPower(1);
    LeastPowerIs(1, 1.25 * w as real);
  }

  /** Every label lies within the window searched, which is at least as wide as there are labels. */
  lemma LabelsInWindow(d: Driver, start: int, end: int)
    requires end - start >= 2 && 0 <= start + end
    ensures var s, band := Plan(d, start, end), SearchBand(d, start, end);
            && band.start <= Label(d, start, end, 0) && Label(d, start, end, s.usable - 1) <= band.end
            && s.usable <= band.end - band.start
  {
    var s := Plan(d, start, end);
    PlanIsSound(d, start, end);
    FourFifths(d, start, end);
    WindowIs(s.centre, s.n);
    FirstLabelIs(d, start, end);
  }

  /** So the whole spectrum is in band, and exactly its last bin is passed over. */
  lemma LastIsPassedOver(bins: seq<Bin>, d: Driver, start: int, end: int)
    requires end - start >= 2 && 0 <= start + end && Labelled(bins, d, start, end)
    ensures var band := SearchBand(d, start, end);
            && 2 <= |bins| <= band.end - band.start && InBand(bins, band) == bins
            && Candidates(bins, band) == bins[..|bins| - 1] && PassedOver(bins, band) == [bins[|bins| - 1]]
  {
    LabelsInWindow(d, start, end);
    FourFifths(d, start, end);
    AllInBand(bins, SearchBand(d, start, end));
  }

  /** The spectrum as the assignment looks at it. */
  function Prepared(fft: seq<Bin>, detrend: bool, w: nat, s: nat): (r: seq<Bin>)
    ensures |r| == |fft| && forall k :: 0 <= k < |r| ==> r[k].freq == fft[k].freq
  {
    Smoothed(Detrended(fft, detrend, w), s)
  }

  function AllButLast(bins: seq<Bin>): seq<Bin> { if bins == [] then [] else bins[..|bins| - 1] }

  /** For the spectrum of a search, the bins considered miss nothing if and only if the last bin is
      excluded or some allowed bin is no stronger than it; with any sideband the last bin carries the
      edge power. */
  lemma WhatIsMissed(fft: seq<Bin>, d: Driver, start: int, end: int, windows: seq<Window>,
                     detrend: bool, w: nat, s: nat)
    requires end - start >= 2 && 0 <= start + end && Labelled(fft, d, start, end)
    ensures var bins := Prepared(fft, detrend, w, s);
            var n := |bins| - 1;
            && 0 < n && bins[n].apwr == (if s >= 1 then EDGE else Detrended(fft, detrend, w)[n].pwr)
            && (NothingMissed(bins, SearchBand(d, start, end), windows) <==>
                  (Excluded(bins[n], windows)
                   || exists c :: c in Allowed(AllButLast(bins), windows) && c.apwr <= bins[n].apwr))
  {
    var bins, band := Prepared(fft, detrend, w, s), SearchBand(d, start, end);
    LastIsPassedOver(bins, d, start, end);
    LastSmoothed(Detrended(fft, detrend, w), s);
    LastBinDecides(bins, band, windows);
  }

  /** The labels are within the request, the last apart, if and only if no more values are sent than
      the even width of the request and one.  The first driver never sends more. */
  lemma LabelsInRequest(d: Driver, start: int, end: int)
    requires end - start >= 2 && 0 <= start + end
    ensures var s := Plan(d, start, end);
            && ((forall k :: 0 <= k < s.usable - 1 ==> start <= Label(d, start, end, k) <= end) <==>
                  s.usable <= EvenWidth(start, end) + 1)
            && (s.usable > EvenWidth(start, end) + 1 ==> Label(d, start, end, 0) < start)
            && (d == Gc314 ==> s.usable <= EvenWidth(start, end))
  {
    FirstLabelIs(d, start, end);
    FourFifths(d, start, end);
    var s, w := Plan(d, start, end), EvenWidth(start, end);
    assert s.centre == start + w / 2;
    if forall k :: 0 <= k < s.usable - 1 ==> start <= Label(d, start, end, k) <= end {
      assert start <= Label(d, start, end, 0);
    }
  }

  /** Where a frequency can be that is assigned from the spectrum of a search: at a label other than
      the last, outside every window, and within the request if the labels are. */
  lemma AssignedWhere(fft: seq<Bin>, d: Driver, start: int, end: int, windows: seq<Window>, p: Program,
                      was: Program, detrend: bool, w: nat, s: nat) returns (k: nat)
    requires end - start >= 2 && 0 <= start + end && Labelled(fft, d, start, end)
    requires Assigned(p, was, Allowed(AllButLast(Prepared(fft, detrend, w, s)), windows), detrend, s)
    requires p.bestFreq != 0
    ensures k < |fft| - 1 && p.bestFreq == Label(d, start, end, k)
    ensures forall win :: win in windows ==> !win.Holds(p.bestFreq)
    ensures Plan(d, start, end).usable <= EvenWidth(start, end) + 1 ==> start <= p.bestFreq <= end
  {
    FourFifths(d, start, end);
    k := AssignedFrom(p, was, AllButLast(Prepared(fft, detrend, w, s)), windows, detrend, s);
    LabelsInRequest(d, start, end);
  }

  /** From the request to the frequency: search, label and assign. */
  method SearchAndAssign(server: Server, k: nat, d: Driver, start: int, end: int, spectrum: int -> real,
                         latest: array<real>, first: int, samplerate: real, detrend: bool, w: nat)
    returns (fft: seq<Bin>)
    requires server.Valid() && k < |server.programs| && end - start >= 2 && 0 <= start + end
    modifies server`programs, server.blacklist, latest
    ensures server.Valid() && |server.programs| == old(|server.programs|)
    ensures forall i :: 0 <= i < |server.programs| && i != k ==> server.programs[i] == old(server.programs[i])
    ensures Labelled(fft, d, start, end)
    ensures var p, s := server.programs[k], Sideband(samplerate);
            var bins := Prepared(fft, detrend, w, s);
            var windows := server.restricted + old(Others(server.programs, k, |server.programs|));
            && Assigned(p, old(server.programs[k]), Allowed(AllButLast(bins), windows), detrend, s)
            && (p.bestFreq != 0 && Plan(d, start, end).usable <= EvenWidth(start, end) + 1 ==>
                  start <= p.bestFreq <= end)
  {
    fft := SearchAndLabel(d, start, end, spectrum, latest, first);
    var band := SearchBand(d, start, end);
    ghost var bins, s := Prepared(fft, detrend, w, Sideband(samplerate)), Sideband(samplerate);
    ghost var was, windows := server.programs[k], server.restricted + Others(server.programs, k, |server.programs|);
    LastIsPassedOver(bins, d, start, end);
    server.AssignFrequency(k, fft, band, samplerate, detrend, w);
    if server.programs[k].bestFreq != 0 {
      var j := AssignedWhere(fft, d, start, end, windows, server.programs[k], was, detrend, w, s);
    }
  }

  /** Where more values are sent, and the whole of the request is restricted, a frequency outside the
      request is assigned, whatever the spectrum. */
  lemma AssignedOutside(fft: seq<Bin>, d: Driver, start: int, end: int, p: Program, was: Program,
                        detrend: bool, w: nat, s: nat)
    requires end - start >= 2 && 0 <= start + end && Labelled(fft, d, start, end)
    requires Plan(d, start, end).usable > EvenWidth(start, end) + 1
    requires Assigned(p, was, Allowed(AllButLast(Prepared(fft, detrend, w, s)), [Window(start, end)]), detrend, s)
    ensures Label(d, start, end, 0) <= p.bestFreq && !(start <= p.bestFreq <= end)
  {
    var considered, windows := AllButLast(Prepared(fft, detrend, w, s)), [Window(start, end)];
    FourFifths(d, start, end);
    LabelsInRequest(d, start, end);
    OnlyWindow(considered, considered[0], windows[0]);
    var i := AssignedFrom(p, was, considered, windows, detrend, s);
    OnlyWindow(considered, considered[i], windows[0]);
  }

  lemma OnlyWindow(c: seq<Bin>, b: Bin, w: Window)
    requires b in c
    ensures Excluded(b, [w]) <==> w.Holds(b.freq)
    ensures w.Holds(b.freq) || Allowed(c, [w]) != []
  {
    assert w in [w];
    AllowedMeans(c, [w], b);
  }

  /** The second driver does so for a request of 40 kHz about 10020 kHz, which it answers with labels
      from 9996 kHz on. */
  lemma WideAnswer()
    ensures var s := Plan(Gc316, 10000, 10040);
            && s.usable == 49 > EvenWidth(10000, 10040) + 1
            && SearchBand(Gc316, 10000, 10040) == Window(9988, 10052) && Label(Gc316, 10000, 10040, 0) == 9996
  {
    var s := Plan(Gc316, 10000, 10040);
    OddPlan();
    FirstLabelIs(Gc316, 10000, 10040);
    WindowIs(10020, 64);
  }

  /** The first driver searches two frequencies, 10000 and 10001 kHz, and the first is restricted:
      nothing is assigned, although the second is allowed, whatever the spectrum. */
  lemma NothingAssigned(fft: seq<Bin>, p: Program, was: Program, detrend: bool, w: nat, s: nat)
    requires Labelled(fft, Gc314, 10000, 10002)
    requires Assigned(p, was, Allowed(AllButLast(Prepared(fft, detrend, w, s)), [Window(10000, 10000)]), detrend, s)
    ensures p.bestFreq == 0 && |fft| == 2 && fft[1].freq == 10001 && !Window(10000, 10000).Holds(10001)
    ensures !NothingMissed(Prepared(fft, detrend, w, s), SearchBand(Gc314, 10000, 10002), [Window(10000, 10000)])
  {
    TwoBins();
    var bins := Prepared(fft, detrend, w, s);
    NoneAllowed(bins[0], Window(10000, 10000));
    assert AllButLast(bins) == [bins[0]];
    WhatIsMissed(fft, Gc314, 10000, 10002, [Window(10000, 10000)], detrend, w, s);
    OnlyWindow(bins, bins[1], Window(10000, 10000));
  }

  lemma NoneAllowed(b: Bin, w: Window)
    requires w.Holds(b.freq)
    ensures Allowed([b], [w]) == []
  {
    assert [b][..0] == [] && w in [w];
  }

  lemma TwoBins()
    ensures var s := Plan(Gc314, 10000, 10002);
            s.usable == 2 && Label(Gc314, 10000, 10002, 0) == 10000
  {
    assert LeastPower(4, 2.5) == 4 && LeastPower(2, 2.5) == 4 && LeastPower(1, 2.5) == 4;
    assert EvenWidth(10000, 10002) == 2 && Bins(2) == 4;
    FirstLabelIs(Gc314, 10000, 10002);
  }
}
