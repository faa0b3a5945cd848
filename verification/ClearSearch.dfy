/** Which frequency a power value belongs to: the receiver drivers size, shift and trim a
    spectrum, and the server labels what it is sent. */
module ClearSearch {
  import opened Common
  import opened Spectrum

  /** The two receiver drivers differ in how much of the spectrum they send. */
  datatype Driver = Gc314 | Gc316

  /** Conversion of a double to an integer, toward zero. */
  function Trunc(x: real): int { if x < 0.0 then -((-x).Floor) else x.Floor }

  /** The least doubling of n that reaches x. */
  function LeastPower(n: nat, x: real): nat
    requires 1 <= n
    decreases if n as real >= x then 0 else x.Floor + 1 - n
  {
    if n as real >= x then n else LeastPower(2 * n, x)
  }

  predicate IsPower(n: nat)
    decreases n
  {
    n == 1 || (n > 1 && n % 2 == 0 && IsPower(n / 2))
  }

  lemma {:induction false} LeastPowerIs(n: nat, x: real)
    requires IsPower(n)
    ensures var p := LeastPower(n, x);
            IsPower(p) && p as real >= x && n <= p && (p > n ==> (p / 2) as real < x && n <= p / 2)
    decreases if n as real >= x then 0 else x.Floor + 1 - n
  {
    if (n as real) < x { LeastPowerIs(2 * n, x); }
  }

  lemma {:induction false} PowersAbove(p: nat)
    requires IsPower(p) && 4 <= p <= 1024
    ensures p in {4, 8, 16, 32, 64, 128, 256, 512, 1024}
  {
    if p > 512 { HalfPower(p); HalfPower(p / 2); }
    assert IsPower(p / 2) && IsPower(p / 4);
    if p >= 8 { PowersAbove(p / 2); }
  }

  lemma HalfPower(p: nat)
    requires IsPower(p) && p >= 2
    ensures p % 2 == 0 && IsPower(p / 2)
  {
  }

  /** The search a driver makes: n bins of 1 kHz about the centre, usable of them sent. */
  datatype Search = Search(centre: int, n: nat, usable: int, start: int, end: int)

  /** The requested width, made even. */
  function EvenWidth(start: int, end: int): int { CDiv(end - start, 2) * 2 }

  function Bins(width: int): nat
    requires width > 0
  {
    var n := LeastPower(1, 1.25 * width as real);
    if n > 1024 then 512 else n
  }

  function Usable(d: Driver, width: int): int
    requires width > 0
  {
    match d
    case Gc314 => if LeastPower(1, 1.25 * width as real) > 1024 then 300 else width
    case Gc316 => Trunc(Bins(width) as real / 1.3)
  }

  function Plan(d: Driver, start: int, end: int): Search
    requires end - start >= 2
  {
    var centre, w := CDiv(end + start, 2), EvenWidth(start, end);
    var n := Bins(w);
    Search(centre, n, Usable(d, w),
           Trunc(centre as real - n as real / 2.0 + 0.49999),
           Trunc(centre as real + n as real / 2.0 + 0.49999))
  }

  /** The window arithmetic as the drivers do it, one variable at a time. */
  method Prepare(d: Driver, start: int, end: int) returns (s: Search)
    requires end - start >= 2
    ensures s == Plan(d, start, end)
  {
    var centre := CDiv(end + start, 2);
    var usable := end - start;
    usable := CDiv(usable, 2) * 2;
    var n := LeastPower(1, 1.25 * usable as real);
    if n > 1024 {
      n := 512;
      if d == Gc314 { usable := 300; }
    }
    if d == Gc316 { usable := Trunc(n as real / 1.3); }
    var bandwidth := n as real;
    s := Search(centre, n, usable,
                Trunc(centre as real - bandwidth / 2.0 + 0.49999),
                Trunc(centre as real + bandwidth / 2.0 + 0.49999));
  }

  /** The FFT delivers bin m of n at this distance from the centre. */
  function Offset(m: int, n: int): int { if m < n / 2 then m else m - n }

  /** The first bin of the shifted spectrum that is sent. */
  function Trim(s: Search): int { Trunc((s.n as real - s.usable as real) / 2.0) }

  lemma PlanIsSound(d: Driver, start: int, end: int)
    requires end - start >= 2
    ensures var s := Plan(d, start, end);
            && IsPower(s.n) && 4 <= s.n <= 1024 && s.n % 2 == 0
            && 0 < s.usable <= s.n && 0 <= Trim(s) && Trim(s) + s.usable <= s.n
            && Trim(s) == (s.n - s.usable) / 2
  {
    var w := EvenWidth(start, end);
    assert w >= 2 && IsPower(1);
    LeastPowerIs(1, 1.25 * w as real);
    var n := Bins(w);
    assert IsPower(2) && IsPower(4) && IsPower(8) && IsPower(16) && IsPower(32);
    assert IsPower(64) && IsPower(128) && IsPower(256) && IsPower(512);
    PowersAtLeast4(LeastPower(1, 1.25 * w as real));
    assert n >= 4;
    HalfPower(n);
    SharesOf(n, d, w);
    TrimIs(n, Usable(d, w));
  }

  /** A plan in numbers, for a request of an even width w: the centre is the middle, cut toward zero; the
      bins are the least power of two that is at least five quarters of w, or 512 where that is more
      than 1024; the first driver sends w values then and 300 otherwise, the second ten thirteenths of
      the bins, cut down. */
  lemma PlanIs(d: Driver, start: int, end: int)
    requires end - start >= 2
    ensures var s, w := Plan(d, start, end), (end - start) / 2 * 2;
            && (0 <= start + end ==> 2 * s.centre <= start + end < 2 * s.centre + 2)
            && (if 5 * w <= 4096 then IsPower(s.n) && 5 * w <= 4 * s.n && 2 * s.n < 5 * w else s.n == 512)
            && (d == Gc314 ==> s.usable == if 5 * w <= 4096 then w else 300)
            && (d == Gc316 ==> 13 * s.usable <= 10 * s.n < 13 * s.usable + 13)
  {
    var w := EvenWidth(start, end);
    assert IsPower(1) && w == (end - start) / 2 * 2;
    LeastPowerIs(1, 1.25 * w as real);
    PowerPast(LeastPower(1, 1.25 * w as real), w);
  }

  lemma PowerPast(p: nat, w: int)
    requires IsPower(p) && p as real >= 1.25 * w as real && p > 1 && (p / 2) as real < 1.25 * w as real
    ensures 4 * p >= 5 * w && 2 * p < 5 * w && (p <= 1024 <==> 5 * w <= 4096)
  {
    HalfPower(p);
    if p > 1024 && p / 2 < 1024 {
      PowersAbove(p / 2);
    }
  }

  lemma PowersAtLeast4(p: nat)
    requires IsPower(p) && p > 2
    ensures p >= 4
  {
  }

  lemma SharesOf(n: nat, d: Driver, w: int)
    requires w >= 2 && n == Bins(w) && n >= 4
    requires LeastPower(1, 1.25 * w as real) as real >= 1.25 * w as real
    ensures 0 < Usable(d, w) <= n
  {
  }

  lemma TrimIs(n: nat, u: int)
    requires 0 < u <= n
    ensures Trunc((n as real - u as real) / 2.0) == (n - u) / 2
  {
    var x := n - u;
    assert x as real / 2.0 == (x / 2) as real + (if x % 2 == 0 then 0.0 else 0.5);
  }

  /** fftshift and trim: the driver's two loops. */
  method ShiftAndTrim(pwr: seq<real>, s: Search) returns (sent: seq<real>)
    requires |pwr| == s.n && s.n % 2 == 0 && 0 <= s.usable && 0 <= Trim(s) && Trim(s) + s.usable <= s.n
    ensures |sent| == s.usable
    ensures forall k, m :: 0 <= k < s.usable && 0 <= m < s.n && Trim(s) + k == Offset(m, s.n) + s.n / 2 ==>
              sent[k] == pwr[m]
  {
    var pwr2 := new real[s.n](_ => 0.0);
    var i := 0;
    while i < s.n / 2
      invariant i <= s.n / 2
      invariant forall x :: 0 <= x < i ==> pwr2[x] == pwr[s.n / 2 + x]
      invariant forall x :: s.n / 2 <= x < s.n / 2 + i ==> pwr2[x] == pwr[x - s.n / 2]
    {
      pwr2[s.n / 2 + i] := pwr[i];
      pwr2[i] := pwr[s.n / 2 + i];
      i := i + 1;
    }
    sent := pwr2[Trim(s)..Trim(s) + s.usable];
  }

  /** The power the server gives frequencies outside the table it keeps. */
  const UNKNOWN: real := 1000000.0

  /** The frequency the server gives the first of n values of a search. */
  function FirstLabel(start: int, end: int, n: nat): int { CDiv(end + start, 2) - n / 2 }

  /** Label what the driver sent by way of the table of latest powers, which holds count
      frequencies from first on. */
  method Relabel(sent: seq<real>, start: int, end: int, latest: array<real>, first: int)
    returns (fft: seq<Bin>)
    modifies latest
    ensures |fft| == |sent|
    ensures forall k :: 0 <= k < |sent| ==>
              var freq := FirstLabel(start, end, |sent|) + k;
              && fft[k].freq == freq && fft[k].apwr == 0.0 && fft[k].index == k
              && fft[k].pwr == if 0 <= freq - first < latest.Length then sent[k] else UNKNOWN
    ensures var low := FirstLabel(start, end, |sent|);
            forall x :: 0 <= x < latest.Length && (x + first < low || low + |sent| <= x + first) ==>
              latest[x] == old(latest[x])
  {
    var low := FirstLabel(start, end, |sent|);
    var i := 0;
    while i < |sent|
      invariant i <= |sent|
      invariant forall x :: 0 <= x < latest.Length ==>
                  latest[x] == if low <= x + first < low + i then sent[x + first - low] else old(latest[x])
    {
      if 0 <= low + i - first < latest.Length {
        latest[low + i - first] := sent[i];
      }
      i := i + 1;
    }
    fft := [];
    i := 0;
    while i < |sent|
      invariant i <= |sent| && |fft| == i
      invariant forall k :: 0 <= k < i ==>
                  && fft[k].freq == low + k && fft[k].apwr == 0.0 && fft[k].index == k
                  && fft[k].pwr == if 0 <= low + k - first < latest.Length then sent[k] else UNKNOWN
    {
      var freq := low + i;
      var pwr := if 0 <= freq - first < latest.Length then latest[freq - first] else UNKNOWN;
      fft := fft + [Bin(freq, pwr, 0.0, 0.0, i)];
      i := i + 1;
    }
  }

  /** The label of value k less its true frequency is 1 kHz when an odd number of values is sent,
      and 0 otherwise: value k is the power the FFT found at FFT bin m, and the server labels it. */
  lemma LabelError(d: Driver, start: int, end: int, k: int, m: int)
    requires end - start >= 2 && 0 <= start + end
    requires var s := Plan(d, start, end);
             0 <= k < s.usable && 0 <= m < s.n && Trim(s) + k == Offset(m, s.n) + s.n / 2
    ensures var s := Plan(d, start, end);
            FirstLabel(s.start, s.end, s.usable) + k - (s.centre + Offset(m, s.n)) == s.usable % 2
  {
    var s := Plan(d, start, end);
    PlanIsSound(d, start, end);
    FirstLabelIs(d, start, end);
  }

  /** The search window in whole kHz: n bins about the centre, one fewer if it would start below 0. */
  lemma WindowIs(c: int, n: nat)
    requires 0 <= c && n % 2 == 0
    ensures Trunc(c as real - n as real / 2.0 + 0.49999) == if n / 2 <= c then c - n / 2 else c - n / 2 + 1
    ensures Trunc(c as real + n as real / 2.0 + 0.49999) == c + n / 2
  {
    var h := n / 2;
    assert n as real / 2.0 == h as real;
    assert Trunc((c + h) as real + 0.49999) == c + h;
    if c >= h {
      assert Trunc((c - h) as real + 0.49999) == c - h;
    } else {
      assert (-((c - h) as real + 0.49999)).Floor == h - c - 1;
    }
  }

  /** So the server finds the driver's centre again. */
  lemma FirstLabelIs(d: Driver, start: int, end: int)
    requires end - start >= 2 && 0 <= start + end
    ensures var s := Plan(d, start, end);
            FirstLabel(s.start, s.end, s.usable) == s.centre - s.usable / 2
  {
    var s := Plan(d, start, end);
    PlanIsSound(d, start, end);
    WindowIs(s.centre, s.n);
  }

  /** The first driver always sends an even number, so its labels are exact. */
  lemma Gc314LabelsAreExact(start: int, end: int)
    requires end - start >= 2
    ensures Plan(Gc314, start, end).usable % 2 == 0
  {
  }

  /** The second sends N/1.3 values, which is even for 8, 16, 32, 128 and 256 bins only. */
  lemma Gc316LabelsAreExact(start: int, end: int)
    requires end - start >= 2
    ensures var s := Plan(Gc316, start, end);
            s.usable % 2 == 0 <==> s.n in {8, 16, 32, 128, 256}
  {
    PlanIsSound(Gc316, start, end);
    PowersAbove(Plan(Gc316, start, end).n);
  }

  /** The FFT bin whose power is value k sent. */
  function BinOf(s: Search, k: nat): (m: int)
    requires s.n % 2 == 0 && 0 <= Trim(s) && Trim(s) + k < s.n
    ensures 0 <= m < s.n && Trim(s) + k == Offset(m, s.n) + s.n / 2
  {
    if Trim(s) + k < s.n / 2 then Trim(s) + k + s.n / 2 else Trim(s) + k - s.n / 2
  }

  /** The label of value k of a search. */
  function Label(d: Driver, start: int, end: int, k: int): int
    requires end - start >= 2
  {
    FirstLabel(Plan(d, start, end).start, Plan(d, start, end).end, Plan(d, start, end).usable) + k
  }

  /** The frequencies of a spectrum are the labels of a search. */
  predicate Labelled(fft: seq<Bin>, d: Driver, start: int, end: int)
    requires end - start >= 2
  {
    |fft| == Plan(d, start, end).usable && forall k :: 0 <= k < |fft| ==> fft[k].freq == Label(d, start, end, k)
  }

  lemma BinOfLabel(d: Driver, start: int, end: int, k: nat) returns (m: nat)
    requires end - start >= 2 && 0 <= start + end && k < Plan(d, start, end).usable
    ensures var s := Plan(d, start, end);
            && m < s.n && Trim(s) + k == Offset(m, s.n) + s.n / 2
            && Label(d, start, end, k) - s.usable % 2 == s.centre + Offset(m, s.n)
  {
    PlanIsSound(d, start, end);
    m := BinOf(Plan(d, start, end), k);
    LabelError(d, start, end, k, m);
  }

  /** A search of some spectrum, from the request to the labelled powers of the server: the driver
      plans, shifts and trims, the server relabels.  A label carries the power of its own frequency,
      or of the one a kHz below if an odd number of values is sent. */
  method SearchAndLabel(d: Driver, start: int, end: int, spectrum: int -> real, latest: array<real>, first: int)
    returns (fft: seq<Bin>)
    requires end - start >= 2 && 0 <= start + end
    modifies latest
    ensures Labelled(fft, d, start, end)
    ensures forall k :: 0 <= k < |fft| ==>
              fft[k].pwr == if 0 <= fft[k].freq - first < latest.Length
                            then spectrum(fft[k].freq - |fft| % 2) else 1000000.0
  {
    PlanIsSound(d, start, end);
    var s := Prepare(d, start, end);
    var pwr := seq(s.n, m requires 0 <= m < s.n => spectrum(s.centre + Offset(m, s.n)));
    var sent := ShiftAndTrim(pwr, s);
    fft := Relabel(sent, s.start, s.end, latest, first);
    forall k | 0 <= k < |fft| ensures sent[k] == spectrum(Label(d, start, end, k) - |fft| % 2) {
      var m := BinOfLabel(d, start, end, k);
      assert sent[k] == pwr[m];
    }
  }

  lemma OddPlan()
    ensures var s := Plan(Gc316, 10000, 10040);
            s.n == 64 && s.usable == 49 && s.centre == 10020 && EvenWidth(10000, 10040) == 40
  {
    assert LeastPower(32, 50.0) == 64 && LeastPower(8, 50.0) == LeastPower(32, 50.0);
    assert LeastPower(2, 50.0) == LeastPower(8, 50.0) && LeastPower(1, 50.0) == 64;
    assert EvenWidth(10000, 10040) == 40 && Bins(40) == 64;
  }

  /** A search of the second driver about 10020 kHz, 40 kHz wide: 64 bins, 49 of them sent, and every
      label a kHz too high. */
  lemma OddSearch(k: int, m: int)
    requires 0 <= k < 49 && 0 <= m < 64 && Trim(Plan(Gc316, 10000, 10040)) + k == Offset(m, 64) + 32
    ensures Plan(Gc316, 10000, 10040).n == 64 && Plan(Gc316, 10000, 10040).usable == 49
    ensures Label(Gc316, 10000, 10040, k) == 10020 + Offset(m, 64) + 1
  {
    OddPlan();
    LabelError(Gc316, 10000, 10040, k, m);
  }
}
