/** The clear-frequency spectrum: detrending, smoothing, band limits and sorting. */
module Spectrum {
  import opened Common

  /** One frequency bin, in kHz; apwr is the smoothed power and detrend what was subtracted. */
  datatype Bin = Bin(freq: int, pwr: real, apwr: real, detrend: real, index: int)

  datatype Window = Window(start: int, end: int)
  {
    predicate Holds(freq: int) { start <= freq <= end }
  }

  /** The power given to bins without a full averaging window. */
  const EDGE: real := 10000000000.0

  function Sum(x: seq<real>, a: nat, b: nat): real
    requires a <= b <= |x|
  {
    if a == b then 0.0 else Sum(x, a, b - 1) + x[b - 1]
  }

  /** Sums of neighbouring stretches add up, and the sum of one bin is the bin. */
  lemma {:induction false} SumSplits(x: seq<real>, a: nat, b: nat, c: nat)
    requires a <= b <= c <= |x|
    ensures Sum(x, a, c) == Sum(x, a, b) + Sum(x, b, c)
    decreases c
  {
    if b < c { SumSplits(x, a, b, c - 1); }
  }

  lemma SumOfOne(x: seq<real>, i: nat)
    requires i < |x|
    ensures Sum(x, i, i + 1) == x[i]
  {
    assert Sum(x, i, i) == 0.0;
  }

  /** Raising one value raises the sum of a stretch by as much if the value lies in it. */
  lemma {:induction false} SumRaised(x: seq<real>, a: nat, b: nat, j: nat, v: real)
    requires a <= b <= |x| && j < |x|
    ensures Sum(x[j := x[j] + v], a, b) == Sum(x, a, b) + if a <= j < b then v else 0.0
  {
    if a < b { SumRaised(x, a, b - 1, j, v); }
  }

  function Lo(i: nat, w: nat): nat { if i < w then 0 else i - w }

  function Hi(i: nat, w: nat, n: nat): nat { if i + w + 1 < n then i + w + 1 else n }

  /** The mean over the w bins on either side, as far as there are any. */
  function Mean(x: seq<real>, i: nat, w: nat): real
    requires i < |x|
  {
    Sum(x, Lo(i, w), Hi(i, w, |x|)) / (Hi(i, w, |x|) - Lo(i, w)) as real
  }

  /** Add up a window and count its bins. */
  method Accumulate(x: seq<real>, i: nat, w: nat) returns (sum: real, count: nat)
    requires i < |x|
    ensures sum == Sum(x, Lo(i, w), Hi(i, w, |x|)) && count == Hi(i, w, |x|) - Lo(i, w) > 0
  {
    sum, count := 0.0, 0;
    var j := 0 - w;
    while j <= w
      invariant 0 - w <= j <= w + 1
      invariant var b := if i + j < Lo(i, w) then Lo(i, w) else if i + j < |x| then i + j else |x|;
                sum == Sum(x, Lo(i, w), b) && count == b - Lo(i, w)
    {
      if 0 <= i + j < |x| {
        sum := sum + x[i + j];
        count := count + 1;
      }
      j := j + 1;
    }
  }

  function Powers(fft: seq<Bin>): (p: seq<real>)
    ensures |p| == |fft|
  {
    seq(|fft|, i requires 0 <= i < |fft| => fft[i].pwr)
  }

  /** Bin i less the mean over the wide window, which is kept. */
  function DetrendedBin(fft: seq<Bin>, enabled: bool, w: nat, i: nat): Bin
    requires i < |fft|
  {
    if enabled then fft[i].(pwr := fft[i].pwr - Mean(Powers(fft), i, w), detrend := Mean(Powers(fft), i, w))
    else fft[i].(detrend := 0.0)
  }

  function Detrended(fft: seq<Bin>, enabled: bool, w: nat): (r: seq<Bin>)
    ensures |r| == |fft|
  {
    seq(|fft|, i requires 0 <= i < |fft| => DetrendedBin(fft, enabled, w, i))
  }

  /** Bin i with the mean over a full window of 2s+1 bins, or the edge power. */
  function SmoothedBin(fft: seq<Bin>, s: nat, i: nat): Bin
    requires i < |fft|
  {
    fft[i].(apwr := if s <= i && i + s < |fft| then Mean(Powers(fft), i, s) else EDGE)
  }

  function Smoothed(fft: seq<Bin>, s: nat): (r: seq<Bin>)
    ensures |r| == |fft|
  {
    seq(|fft|, i requires 0 <= i < |fft| => SmoothedBin(fft, s, i))
  }

  /** The spectrum with the power of bin j raised by v. */
  function Raised(fft: seq<Bin>, j: nat, v: real): (r: seq<Bin>)
    requires j < |fft|
    ensures |r| == |fft|
  {
    fft[j := fft[j].(pwr := fft[j].pwr + v)]
  }

  lemma PowersRaised(fft: seq<Bin>, j: nat, v: real)
    requires j < |fft|
    ensures Powers(Raised(fft, j, v)) == Powers(fft)[j := Powers(fft)[j] + v]
  {
  }

  lemma MeanIs(x: seq<real>, i: nat, w: nat)
    requires i < |x|
    ensures var lo, hi := if i < w then 0 else i - w, if |x| < i + w + 1 then |x| else i + w + 1;
            0 < hi - lo && (hi - lo) as real * Mean(x, i, w) == Sum(x, lo, hi)
  {
    var n := (Hi(i, w, |x|) - Lo(i, w)) as real;
    assert n > 0.0;
  }

  lemma MeanRaised(x: seq<real>, i: nat, w: nat, j: nat, v: real)
    requires i < |x| && j < |x|
    ensures var lo, hi := if i < w then 0 else i - w, if |x| < i + w + 1 then |x| else i + w + 1;
            0 < hi - lo &&
            Mean(x[j := x[j] + v], i, w) == Mean(x, i, w) + if lo <= j < hi then v / (hi - lo) as real else 0.0
  {
    var lo, hi := Lo(i, w), Hi(i, w, |x|);
    SumRaised(x, lo, hi, j, v);
    QuotientAdds(Sum(x, lo, hi), v, (hi - lo) as real);
  }

  lemma QuotientAdds(a: real, b: real, n: real)
    requires n > 0.0
    ensures (a + b) / n == a / n + b / n
  {
    var p, q := (a + b) / n, a / n + b / n;
    assert p * n == a / n * n + b / n * n == q * n;
    MulLess(p, q, n);
    MulLess(q, p, n);
  }

  /** A smoothed bin with s bins on either side carries the mean of these and itself, and any other the
      power of the edge. */
  lemma SmoothedMeans(fft: seq<Bin>, s: nat, i: nat)
    requires i < |fft|
    ensures var b := Smoothed(fft, s)[i];
            && b == fft[i].(apwr := b.apwr)
            && (if s <= i && i + s < |fft| then (2 * s + 1) as real * b.apwr == Sum(Powers(fft), i - s, i + s + 1)
                else b.apwr == 10000000000.0)
  {
    assert Smoothed(fft, s)[i] == SmoothedBin(fft, s, i);
    if s <= i && i + s < |fft| { FullMean(Powers(fft), i, s); }
  }

  lemma FullMean(x: seq<real>, i: nat, s: nat)
    requires s <= i && i + s < |x|
    ensures (2 * s + 1) as real * Mean(x, i, s) == Sum(x, i - s, i + s + 1)
  {
    assert Hi(i, s, |x|) - Lo(i, s) == 2 * s + 1;
    MeanIs(x, i, s);
  }

  /** Every power of the window counts the same, and no other counts. */
  lemma SmoothedRaised(fft: seq<Bin>, s: nat, i: nat, j: nat, v: real)
    requires s <= i && i + s < |fft| && j < |fft|
    ensures Smoothed(Raised(fft, j, v), s)[i].apwr ==
            Smoothed(fft, s)[i].apwr + if i - s <= j <= i + s then v / (2 * s + 1) as real else 0.0
  {
    PowersRaised(fft, j, v);
    MeanRaised(Powers(fft), i, s, j, v);
  }

  /** Detrending takes off, and keeps, the mean over as much of the wide window as there is; without it
      nothing is taken off. */
  lemma DetrendedMeans(fft: seq<Bin>, w: nat, i: nat)
    requires i < |fft|
    ensures var b := Detrended(fft, true, w)[i];
            var lo, hi := if i < w then 0 else i - w, if |fft| < i + w + 1 then |fft| else i + w + 1;
            && b == fft[i].(pwr := b.pwr, detrend := b.detrend) && b.pwr + b.detrend == fft[i].pwr
            && 0 < hi - lo && (hi - lo) as real * b.detrend == Sum(Powers(fft), lo, hi)
    ensures Detrended(fft, false, w)[i] == fft[i].(detrend := 0.0)
  {
    MeanIs(Powers(fft), i, w);
  }

  lemma DetrendedRaised(fft: seq<Bin>, w: nat, i: nat, j: nat, v: real)
    requires i < |fft| && j < |fft|
    ensures var lo, hi := if i < w then 0 else i - w, if |fft| < i + w + 1 then |fft| else i + w + 1;
            0 < hi - lo &&
            Detrended(Raised(fft, j, v), true, w)[i].detrend ==
            Detrended(fft, true, w)[i].detrend + if lo <= j < hi then v / (hi - lo) as real else 0.0
  {
    PowersRaised(fft, j, v);
    MeanRaised(Powers(fft), i, w, j, v);
  }

  method Detrend(fft: seq<Bin>, enabled: bool, w: nat) returns (r: seq<Bin>)
    ensures r == Detrended(fft, enabled, w)
  {
    r := fft;
    var i := 0;
    while i < |fft|
      invariant i <= |fft| == |r|
      invariant forall k :: 0 <= k < i ==> r[k] == DetrendedBin(fft, enabled, w, k)
    {
      if enabled {
        var sum, count := Accumulate(Powers(fft), i, w);
        var mean := sum / count as real;
        r := r[i := fft[i].(pwr := fft[i].pwr - mean, detrend := mean)];
      } else {
        r := r[i := fft[i].(detrend := 0.0)];
      }
      i := i + 1;
    }
  }

  method Smooth(fft: seq<Bin>, s: nat) returns (r: seq<Bin>)
    ensures r == Smoothed(fft, s)
  {
    r := fft;
    var i := 0;
    while i < |fft|
      invariant i <= |fft| == |r|
      invariant forall k :: 0 <= k < i ==> r[k] == SmoothedBin(fft, s, k)
    {
      var sum, count := Accumulate(Powers(fft), i, s);
      r := r[i := fft[i].(apwr := if count > 2 * s then sum / count as real else EDGE)];
      i := i + 1;
    }
  }

  /** The bins of a search band, in order. */
  function InBand(fft: seq<Bin>, band: Window): seq<Bin> {
    if fft == [] then []
    else InBand(fft[..|fft| - 1], band) + if band.Holds(fft[|fft| - 1].freq) then [fft[|fft| - 1]] else []
  }

  lemma {:induction false} InBandMeans(fft: seq<Bin>, band: Window, b: Bin)
    ensures b in InBand(fft, band) <==> b in fft && band.Holds(b.freq)
  {
    if fft != [] {
      var m := |fft| - 1;
      assert fft == fft[..m] + [fft[m]];
      InBandMeans(fft[..m], band, b);
    }
  }

  /** How many bins the assignment looks at: one fewer than the band holds, at most. */
  function Considered(inBand: nat, width: int): nat {
    var kept := Kept(inBand, width);
    if kept <= 1 then 0 else kept - 1
  }

  /** How many bins fit the array made for a band. */
  function Kept(inBand: nat, width: int): int {
    if inBand == 0 || inBand <= width then inBand else width
  }

  /** The bins the assignment chooses from, before any are excluded. */
  function Candidates(fft: seq<Bin>, band: Window): seq<Bin> {
    InBand(fft, band)[..Considered(|InBand(fft, band)|, band.end - band.start)]
  }

  /** The bins of the band that are passed over. */
  function PassedOver(fft: seq<Bin>, band: Window): seq<Bin> {
    InBand(fft, band)[|Candidates(fft, band)|..]
  }

  /** The code and its comments disagree here: not all frequencies of the band are considered.  One
      bin is passed over, the last, if the band has as many bins as it is wide or fewer, and all from
      the width's last on if it has more. */
  lemma LastBinsArePassedOver(fft: seq<Bin>, band: Window)
    requires band.start < band.end || InBand(fft, band) == []
    ensures Candidates(fft, band) + PassedOver(fft, band) == InBand(fft, band)
    ensures var n, width := |InBand(fft, band)|, band.end - band.start;
            |PassedOver(fft, band)| == if n == 0 then 0 else if n <= width then 1 else n - width + 1
  {
  }

  /** A band that holds every bin has them all. */
  lemma {:induction false} AllInBand(fft: seq<Bin>, band: Window)
    requires forall i :: 0 <= i < |fft| ==> band.Holds(fft[i].freq)
    ensures InBand(fft, band) == fft
  {
    if fft != [] { AllInBand(fft[..|fft| - 1], band); }
  }

  /** The last bin of a spectrum has no full window, unless windows are of one bin. */
  lemma LastSmoothed(fft: seq<Bin>, s: nat)
    requires fft != []
    ensures var last := Smoothed(fft, s)[|fft| - 1];
            last.freq == fft[|fft| - 1].freq && last.apwr == if s >= 1 then EDGE else fft[|fft| - 1].pwr
  {
    var x, i := Powers(fft), |fft| - 1;
    if s == 0 {
      assert Sum(x, i, i) == 0.0 && Sum(x, i, i + 1) == x[i];
    }
  }

  /** Copy the bins of the band into an array of one element per kHz of it; past its end the
      last element is overwritten. */
  method LimitToBand(fft: seq<Bin>, band: Window) returns (sub: seq<Bin>)
    requires band.start < band.end || forall i :: 0 <= i < |fft| ==> !band.Holds(fft[i].freq)
    ensures var all, width := InBand(fft, band), band.end - band.start;
            && |sub| == Kept(|all|, width)
            && sub[..Considered(|all|, width)] == Candidates(fft, band)
  {
    var ncfs := band.end - band.start;
    var j := 0;
    sub := [];
    ghost var all := [];
    var i := 0;
    while i < |fft|
      invariant i <= |fft| && all == InBand(fft[..i], band) && (all != [] ==> 0 < ncfs)
      invariant j == |sub| == Kept(|all|, ncfs)
      invariant |all| <= ncfs ==> sub == all
      invariant |all| > ncfs > 0 ==> sub[..ncfs - 1] == all[..ncfs - 1]
    {
      assert fft[..i + 1][..i] == fft[..i];
      if fft[i].freq <= band.end && fft[i].freq >= band.start {
        assert band.Holds(fft[i].freq);
        if j >= ncfs { j := ncfs - 1; }
        sub := sub[..j] + [fft[i]];
        all := all + [fft[i]];
        j := j + 1;
      }
      i := i + 1;
    }
    assert fft[..i] == fft;
  }

  predicate SortedByPower(b: seq<Bin>) {
    forall i, j :: 0 <= i < j < |b| ==> b[i].apwr <= b[j].apwr
  }

  lemma InsertedSorted(r: seq<Bin>, x: Bin, k: nat)
    requires SortedByPower(r) && k <= |r|
    requires k > 0 ==> r[k - 1].apwr <= x.apwr
    requires k < |r| ==> x.apwr < r[k].apwr
    ensures SortedByPower(r[..k] + [x] + r[k..])
  {
    var q := r[..k] + [x] + r[k..];
    forall i, j | 0 <= i < j < |q| ensures q[i].apwr <= q[j].apwr {
      assert i < k ==> q[i] == r[i] && r[i].apwr <= r[k - 1].apwr;
      assert j > k ==> q[j] == r[j - 1] && r[k].apwr <= r[j - 1].apwr;
      assert i > k ==> q[i] == r[i - 1];
      assert j < k ==> q[j] == r[j];
    }
  }

  lemma InsertedSame(r: seq<Bin>, x: Bin, k: nat)
    requires k <= |r|
    ensures multiset(r[..k] + [x] + r[k..]) == multiset(r) + multiset{x}
  {
    assert r == r[..k] + r[k..];
  }

  /** Insert a bin behind all that are not stronger. */
  method Insert(r: seq<Bin>, x: Bin) returns (q: seq<Bin>)
    requires SortedByPower(r)
    ensures SortedByPower(q) && multiset(q) == multiset(r) + multiset{x}
  {
    var k := |r|;
    while k > 0 && r[k - 1].apwr > x.apwr
      invariant 0 <= k <= |r| && (k < |r| ==> x.apwr < r[k].apwr)
    {
      k := k - 1;
    }
    q := r[..k] + [x] + r[k..];
    InsertedSorted(r, x, k);
    InsertedSame(r, x, k);
  }

  /** Sort bins by smoothed power. */
  method SortByPower(b: seq<Bin>) returns (r: seq<Bin>)
    ensures SortedByPower(r) && multiset(r) == multiset(b)
  {
    r := [];
    var i := 0;
    while i < |b|
      invariant i <= |b| && SortedByPower(r) && multiset(r) == multiset(b[..i])
    {
      r := Insert(r, b[i]);
      assert b[..i + 1] == b[..i] + [b[i]];
      i := i + 1;
    }
    assert b[..i] == b;
  }
}
