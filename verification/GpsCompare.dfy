/** The compare register of the GPS card: a time kept as decimal digits of the day of the year
    and the time of day, without the year. */
module GpsCompare {
  import opened Common

  const TIME_INTERVAL: int := 100000000
  const SECOND: int := 1000000000
  const DAY: int := 86400

  datatype Time = Time(sec: int, nsec: int)
  {
    predicate Normal() { 0 <= nsec < SECOND }
    function Nanos(): int { sec * SECOND + nsec }
  }

  /** Years from 1970 to 2099 are leap years every fourth year. */
  predicate InEra(year: int) { 1970 <= year < 2100 }
  predicate Leap(year: int) { year % 4 == 0 }
  function YearLength(year: int): int { if Leap(year) then 366 else 365 }

  /** Days from the start of 1970 to the start of a year. */
  function DaysBefore(year: int): int { 365 * (year - 1970) + (year - 1969) / 4 }

  /** The second lies in the year. */
  predicate InYear(sec: int, year: int) {
    DaysBefore(year) <= sec / DAY < DaysBefore(year) + YearLength(year)
  }

  /** Days of the year before each month. */
  function DaysBeforeMonth(leap: bool, month: int): int {
    var feb := if leap then 1 else 0;
    if month <= 0 then 0
    else if month == 1 then 31
    else if month == 2 then 59 + feb
    else if month == 3 then 90 + feb
    else if month == 4 then 120 + feb
    else if month == 5 then 151 + feb
    else if month == 6 then 181 + feb
    else if month == 7 then 212 + feb
    else if month == 8 then 243 + feb
    else if month == 9 then 273 + feb
    else if month == 10 then 304 + feb
    else 334 + feb
  }

  /** Broken-down time to seconds, as the C library does it in UTC. */
  function MakeTime(year: int, month: int, mday: int, hour: int, minute: int, second: int): int {
    (DaysBefore(year) + DaysBeforeMonth(Leap(year), month) + mday - 1) * DAY + hour * 3600 + minute * 60 + second
  }

  type Digit = d: int | 0 <= d < 16

  /** Digits packed into a word, the first in the lowest place. */
  function Pack(ds: seq<Digit>): nat {
    if ds == [] then 0 else ds[0] + 16 * Pack(ds[1..])
  }

  /** The digit in place k of a word. */
  function Nibble(word: nat, k: nat): Digit {
    if k == 0 then word % 16 else Nibble(word / 16, k - 1)
  }

  lemma {:induction false} NibbleOfPack(ds: seq<Digit>, k: nat)
    requires k < |ds|
    ensures Nibble(Pack(ds), k) == ds[k]
  {
    if k > 0 { NibbleOfPack(ds[1..], k - 1); }
  }

  lemma NibblesOfPack(ds: seq<Digit>)
    requires |ds| == 8
    ensures forall k :: 0 <= k < 8 ==> Nibble(Pack(ds), k) == ds[k]
  {
    forall k | 0 <= k < 8 ensures Nibble(Pack(ds), k) == ds[k] { NibbleOfPack(ds, k); }
  }

  /** The digits of the seconds and their fraction, down to microseconds. */
  function LowDigits(sec: int, nsec: int): seq<Digit>
    requires 0 <= nsec < SECOND
  {
    var s := sec % 60;
    [nsec / 1000 % 10, nsec / 10000 % 10, nsec / 100000 % 10, nsec / 1000000 % 10,
     nsec / 10000000 % 10, nsec / 100000000 % 10, s % 10, s / 10]
  }

  /** The digits of the minute, the hour and the day of the year, counted from 1. */
  function HighDigits(sec: int, year: int, mask: Digit): seq<Digit>
    requires InYear(sec, year)
  {
    var m, h, d := sec / 60 % 60, sec / 3600 % 24, sec / DAY - DaysBefore(year) + 1;
    [m % 10, m / 10, h % 10, h / 10, d % 10, d / 10 % 10, d / 100 % 10, mask]
  }

  /** Months have their lengths, and the years from 1970 on follow each other. */
  lemma CalendarIs(leap: bool, month: nat, year: int)
    requires month < 11 && InEra(year)
    ensures DaysBeforeMonth(leap, 0) == 0 && DaysBefore(1970) == 0
    ensures DaysBeforeMonth(leap, month + 1) - DaysBeforeMonth(leap, month) ==
            if month == 1 then (if leap then 29 else 28) else if month in {3, 5, 8, 10} then 30 else 31
    ensures DaysBefore(year + 1) - DaysBefore(year) == if year % 4 == 0 then 366 else 365
  {
  }

  lemma PackFour(ds: seq<Digit>, rest: nat)
    requires |ds| >= 4 && Pack(ds[4..]) == rest
    ensures Pack(ds) == 0x1 * ds[0] as int + 0x10 * ds[1] as int + 0x100 * ds[2] as int + 0x1000 * ds[3] as int
                        + 0x10000 * rest
  {
    assert ds[1..][1..] == ds[2..] && ds[2..][1..] == ds[3..] && ds[3..][1..] == ds[4..];
    assert Pack(ds[3..]) == ds[3] + 16 * rest;
    assert Pack(ds[2..]) == ds[2] + 16 * Pack(ds[3..]);
    assert Pack(ds[1..]) == ds[1] + 16 * Pack(ds[2..]);
  }

  /** Where the digits are in the two words: from the top tens and ones of the second and the fraction
      down to the microsecond, and the mask, the day of the year, the hour and the minute. */
  lemma WordsAre(sec: int, nsec: int, year: int, mask: Digit)
    requires 0 <= nsec < SECOND && InYear(sec, year)
    ensures Pack(LowDigits(sec, nsec)) ==
            0x10000000 * (sec % 60 / 10) + 0x1000000 * (sec % 60 % 10) + 0x100000 * (nsec / 100000000 % 10)
            + 0x10000 * (nsec / 10000000 % 10) + 0x1000 * (nsec / 1000000 % 10) + 0x100 * (nsec / 100000 % 10)
            + 0x10 * (nsec / 10000 % 10) + nsec / 1000 % 10
    ensures var day := sec / 86400 - DaysBefore(year) + 1;
            Pack(HighDigits(sec, year, mask)) ==
            0x10000000 * mask + 0x1000000 * (day / 100 % 10) + 0x100000 * (day / 10 % 10) + 0x10000 * (day % 10)
            + 0x1000 * (sec / 3600 % 24 / 10) + 0x100 * (sec / 3600 % 24 % 10)
            + 0x10 * (sec / 60 % 60 / 10) + sec / 60 % 60 % 10
  {
    var low, high := LowDigits(sec, nsec), HighDigits(sec, year, mask);
    assert low[4..][4..] == [] && high[4..][4..] == [];
    PackFour(low[4..], 0);
    PackFour(low, Pack(low[4..]));
    PackFour(high[4..], 0);
    PackFour(high, Pack(high[4..]));
  }

  /** Month and day of the month for a day of the year; no month is found for a day past its end. */
  function MonthAndDay(leap: bool, day: nat): (r: Option<(int, int)>)
    ensures r.Some? <==> day <= if leap then 366 else 365
    ensures r.Some? ==> DaysBeforeMonth(leap, r.value.0) + r.value.1 == day && 0 <= r.value.0 <= 11
    ensures r.Some? ==> r.value.1 <= 31 && (1 <= day ==> 1 <= r.value.1)
  {
    if leap then
      if day <= 31 then Some((0, day))
      else if day <= 60 then Some((1, day - 31))
      else if day <= 91 then Some((2, day - 60))
      else if day <= 121 then Some((3, day - 91))
      else if day <= 152 then Some((4, day - 121))
      else if day <= 182 then Some((5, day - 152))
      else if day <= 213 then Some((6, day - 182))
      else if day <= 244 then Some((7, day - 213))
      else if day <= 274 then Some((8, day - 244))
      else if day <= 305 then Some((9, day - 274))
      else if day <= 335 then Some((10, day - 305))
      else if day <= 366 then Some((11, day - 335))
      else None
    else
      if day <= 31 then Some((0, day))
      else if day <= 59 then Some((1, day - 31))
      else if day <= 90 then Some((2, day - 59))
      else if day <= 120 then Some((3, day - 90))
      else if day <= 151 then Some((4, day - 120))
      else if day <= 181 then Some((5, day - 151))
      else if day <= 212 then Some((6, day - 181))
      else if day <= 243 then Some((7, day - 212))
      else if day <= 273 then Some((8, day - 243))
      else if day <= 304 then Some((9, day - 273))
      else if day <= 334 then Some((10, day - 304))
      else if day <= 365 then Some((11, day - 334))
      else None
  }

  /** Day of the year held by the high word. */
  function DayField(high: nat): nat {
    100 * Nibble(high, 6) + 10 * Nibble(high, 5) + Nibble(high, 4)
  }

  function NsecField(low: nat): int {
    1000000 * Nibble(low, 3) + 100000 * Nibble(low, 2) + 10000 * Nibble(low, 1) + 1000 * Nibble(low, 0)
    + 100000000 * Nibble(low, 5) + 10000000 * Nibble(low, 4)
  }

  /** The time the register stands for if it is of the given year, or none if the year has no such
      day: the month is then left unset. */
  function Decode(low: nat, high: nat, year: int): Option<Time> {
    match MonthAndDay(Leap(year), DayField(high))
    case None => None
    case Some((month, mday)) =>
      var hour := 10 * Nibble(high, 3) + Nibble(high, 2);
      var minute := 10 * Nibble(high, 1) + Nibble(high, 0);
      var second := 10 * Nibble(low, 7) + Nibble(low, 6);
      Some(Time(MakeTime(year, month, mday, hour, minute, second), NsecField(low)))
  }

  /** The time of day is made of its hours, minutes and seconds. */
  lemma TimeOfDay(sec: int)
    ensures sec == sec / DAY * DAY + sec / 3600 % 24 * 3600 + sec / 60 % 60 * 60 + sec % 60
  {
    assert sec / 3600 / 24 == sec / DAY && sec / 60 / 60 == sec / 3600;
  }

  lemma DecimalFraction(n: int)
    requires 0 <= n < SECOND
    ensures 1000000 * (n / 1000000 % 10) + 100000 * (n / 100000 % 10) + 10000 * (n / 10000 % 10)
            + 1000 * (n / 1000 % 10) + 100000000 * (n / 100000000 % 10) + 10000000 * (n / 10000000 % 10)
            == n - n % 1000
  {
    assert n / 10000 == n / 1000 / 10 && n / 100000 == n / 10000 / 10 && n / 1000000 == n / 100000 / 10;
    assert n / 10000000 == n / 1000000 / 10 && n / 100000000 == n / 10000000 / 10;
  }

  /** Decoding puts the fields together again. */
  lemma DecodeIs(low: nat, high: nat, year: int, h: int, m: int, s: int)
    requires 10 * Nibble(high, 3) + Nibble(high, 2) == h && 10 * Nibble(high, 1) + Nibble(high, 0) == m
    requires 10 * Nibble(low, 7) + Nibble(low, 6) == s
    ensures var d := DayField(high);
            Decode(low, high, year) ==
              if d > YearLength(year) then None
              else Some(Time((DaysBefore(year) + d - 1) * DAY + h * 3600 + m * 60 + s, NsecField(low)))
  {
  }

  lemma HighFields(sec: int, year: int, mask: Digit)
    requires InYear(sec, year)
    ensures var high := Pack(HighDigits(sec, year, mask));
            && DayField(high) == sec / DAY - DaysBefore(year) + 1
            && 10 * Nibble(high, 3) + Nibble(high, 2) == sec / 3600 % 24
            && 10 * Nibble(high, 1) + Nibble(high, 0) == sec / 60 % 60
  {
    NibblesOfPack(HighDigits(sec, year, mask));
    ThreeDigits(sec / DAY - DaysBefore(year) + 1);
  }

  lemma ThreeDigits(d: int)
    requires 0 <= d < 1000
    ensures 100 * (d / 100 % 10) + 10 * (d / 10 % 10) + d % 10 == d
  {
    assert d / 100 == d / 10 / 10;
  }

  lemma LowFields(sec: int, nsec: int)
    requires 0 <= nsec < SECOND
    ensures var low := Pack(LowDigits(sec, nsec));
            10 * Nibble(low, 7) + Nibble(low, 6) == sec % 60 && NsecField(low) == nsec - nsec % 1000
  {
    NibblesOfPack(LowDigits(sec, nsec));
    DecimalFraction(nsec);
  }

  /** A time written in one year reads in another as the same day and time of that year, down to the
      last microsecond, if that year has the day; and as the time written if and only if it is read in
      its own year. */
  lemma RoundTrip(t: Time, year: int, now: int, mask: Digit)
    requires t.Normal() && InEra(year) && InEra(now) && InYear(t.sec, year)
    ensures var low, high := Pack(LowDigits(t.sec, t.nsec)), Pack(HighDigits(t.sec, year, mask));
            && Decode(low, high, now) ==
                 (if t.sec / DAY - DaysBefore(year) >= YearLength(now) then None
                  else Some(Time(t.sec + (DaysBefore(now) - DaysBefore(year)) * DAY, t.nsec - t.nsec % 1000)))
            && (Decode(low, high, now) == Some(Time(t.sec, t.nsec - t.nsec % 1000)) <==> now == year)
  {
    var low, high := Pack(LowDigits(t.sec, t.nsec)), Pack(HighDigits(t.sec, year, mask));
    HighFields(t.sec, year, mask);
    LowFields(t.sec, t.nsec);
    DecodeIs(low, high, now, t.sec / 3600 % 24, t.sec / 60 % 60, t.sec % 60);
    TimeOfDay(t.sec);
  }

  function Increment(t: Time, inc: int): Time {
    var n := t.nsec + inc;
    if n >= SECOND then Time(t.sec + 1, n - SECOND) else Time(t.sec, n)
  }

  predicate Greater(a: Time, b: Time) {
    a.sec > b.sec || (a.sec == b.sec && a.nsec > b.nsec)
  }

  lemma GreaterIsLater(a: Time, b: Time)
    requires a.Normal() && b.Normal()
    ensures Greater(a, b) <==> a.Nanos() > b.Nanos()
  {
  }

  lemma IncrementAdds(t: Time, inc: int)
    requires t.Normal() && 0 <= inc <= SECOND
    ensures Increment(t, inc).Normal() && Increment(t, inc).Nanos() == t.Nanos() + inc
    ensures t.nsec % 1000 == 0 && inc % 1000 == 0 ==> Increment(t, inc).nsec % 1000 == 0
  {
  }

  /** Taking off the digit worth p leaves the rest below p. */
  lemma Peel(x: nat, p: nat)
    requires 0 < p
    ensures 0 < 10 * p && x % (10 * p) / p == x / p % 10
    ensures x % (10 * p) - x % (10 * p) / p * p == x % p
  {
    var a, b := x / p, x % p;
    var c, d := a / 10, a % 10;
    assert x == a * p + b && a == 10 * c + d;
    assert x == c * (10 * p) + (d * p + b);
    MulMono(0, d, p);
    MulMono(d, 9, p);
    DivModIs(x, 10 * p, c, d * p + b);
    DivModIs(d * p + b, p, d, b);
  }

  lemma DivModIs(x: int, p: int, q: int, r: int)
    requires 0 < p && x == q * p + r && 0 <= r < p
    ensures x / p == q && x % p == r
  {
    DivUnique(x, p, q);
  }

  /** Peel one digit off a rest. */
  method PeelDigit(rest: nat, p: nat, ghost x: nat) returns (digit: int, left: nat)
    requires 0 < p && rest == x % (10 * p)
    ensures digit == x / p % 10 && left == x % p
  {
    Peel(x, p);
    digit := rest / p;
    left := rest - digit * p;
  }

  /** Peel the digits of seconds and fraction off from the left. */
  method EncodeLow(t: Time) returns (low: nat)
    requires t.Normal()
    ensures low == Pack(LowDigits(t.sec, t.nsec))
  {
    var s := t.sec % 60;
    var tsec := s / 10;
    s := s - tsec * 10;
    var hmsec, tmsec, msec, husec, tusec, usec := PeelFraction(t.nsec);
    low := Pack([usec, tusec, husec, msec, tmsec, hmsec, s, tsec]);
  }

  method PeelFraction(x: nat) returns (hmsec: int, tmsec: int, msec: int, husec: int, tusec: int, usec: int)
    requires x < SECOND
    ensures hmsec == x / 100000000 % 10 && tmsec == x / 10000000 % 10 && msec == x / 1000000 % 10
    ensures husec == x / 100000 % 10 && tusec == x / 10000 % 10 && usec == x / 1000 % 10
  {
    var n := x;
    hmsec, n := PeelDigit(n, 100000000, x);
    tmsec, n := PeelDigit(n, 10000000, x);
    msec, n := PeelDigit(n, 1000000, x);
    husec, n := PeelDigit(n, 100000, x);
    tusec, n := PeelDigit(n, 10000, x);
    usec, n := PeelDigit(n, 1000, x);
  }

  /** Peel the digits of minute, hour and day off from the left. */
  method EncodeHigh(sec: int, year: int, mask: Digit) returns (high: nat)
    requires InYear(sec, year)
    ensures high == Pack(HighDigits(sec, year, mask))
  {
    var tmins, mins := PeelTwo(sec / 60 % 60);
    var thours, hours := PeelTwo(sec / 3600 % 24);
    var hdays, tdays, days := PeelThree(sec / DAY - DaysBefore(year) + 1);
    high := Pack([mins, tmins, hours, thours, days, tdays, hdays, mask]);
  }

  method PeelTwo(x: nat) returns (tens: int, ones: int)
    ensures tens == x / 10 && ones == x % 10
  {
    tens := x / 10;
    ones := x - tens * 10;
  }

  method PeelThree(x: nat) returns (hundreds: int, tens: int, ones: int)
    requires x < 1000
    ensures hundreds == x / 100 % 10 && tens == x / 10 % 10 && ones == x % 10
  {
    var rest := x;
    hundreds, rest := PeelDigit(rest, 100, x);
    tens, ones := PeelDigit(rest, 10, x);
  }

  /** The first nanosecond of a year. */
  function YearStart(year: int): int { DaysBefore(year) * DAY * SECOND }

  lemma YearIs(t: Time, year: int)
    requires t.Normal()
    ensures InYear(t.sec, year) <==> YearStart(year) <= t.Nanos() < YearStart(year + 1)
    ensures DaysBefore(year + 1) == DaysBefore(year) + YearLength(year)
  {
    var d := t.sec / DAY;
    assert t.sec == d * DAY + t.sec % DAY;
  }

  /** How the register reads, in nanoseconds, after a pass of the monitor: left alone if it is later
      than now, and otherwise moved on; past the end of the year it reads as the start of it. */
  function NextReading(x: int, now: int, year: int): int {
    if x > now then x
    else if x + TIME_INTERVAL < YearStart(year + 1) then x + TIME_INTERVAL
    else x + TIME_INTERVAL - (YearStart(year + 1) - YearStart(year))
  }

  /** How it reads after k passes while the clock stands still. */
  function Reading(x: int, now: int, year: int, k: nat): int {
    if k == 0 then x else NextReading(Reading(x, now, year, k - 1), now, year)
  }

  /** The first whole number of intervals after x that is later than now. */
  function LeastLater(x: int, now: int): int {
    x + ((now - x) / TIME_INTERVAL + 1) * TIME_INTERVAL
  }

  predicate Within(x: int, year: int) { YearStart(year) <= x < YearStart(year + 1) }

  lemma {:induction false} ReadingAt(x: int, now: int, year: int, k: nat)
    requires Within(x, year) && x <= now && LeastLater(x, now) < YearStart(year + 1)
    requires k <= (now - x) / TIME_INTERVAL + 1
    ensures Reading(x, now, year, k) == x + k * TIME_INTERVAL
  {
    if k > 0 { ReadingAt(x, now, year, k - 1); }
  }

  /** If that time is in the next year, the readings go round and round in this one and never get
      past now. */
  lemma {:induction false} GoesRound(x: int, now: int, year: int, k: nat)
    requires InEra(year) && Within(x, year) && Within(now, year) && x <= now
    requires YearStart(year + 1) <= LeastLater(x, now)
    ensures var y := Reading(x, now, year, k);
            Within(y, year) && y <= now && (y - x) % TIME_INTERVAL == 0
  {
    if k > 0 {
      GoesRound(x, now, year, k - 1);
      RoundOnce(x, Reading(x, now, year, k - 1), now, year);
    }
  }

  lemma RoundOnce(x: int, y: int, now: int, year: int)
    requires InEra(year) && Within(y, year) && Within(now, year) && x <= now && y <= now
    requires (y - x) % TIME_INTERVAL == 0 && YearStart(year + 1) <= LeastLater(x, now)
    ensures var z := NextReading(y, now, year);
            Within(z, year) && z <= now && (z - x) % TIME_INTERVAL == 0
  {
    var i, j := (y - x) / TIME_INTERVAL, (now - x) / TIME_INTERVAL;
    assert y == x + i * TIME_INTERVAL && i <= j;
    if y + TIME_INTERVAL < YearStart(year + 1) {
      assert i < j;
    }
    assert YearStart(year + 1) - YearStart(year) == YearLength(year) * 864000 * TIME_INTERVAL;
    var n := YearLength(year) * 864000;
    assert y + TIME_INTERVAL - n * TIME_INTERVAL - x == (i + 1 - n) * TIME_INTERVAL;
    assert y + TIME_INTERVAL - x == (i + 1) * TIME_INTERVAL;
  }

  /** The passes catch up with the clock if and only if the register is ahead of it or the first time
      due later than now is still in the year of the clock. */
  lemma CatchesUp(x: int, now: int, year: int)
    requires InEra(year) && Within(x, year) && Within(now, year)
    ensures (exists k: nat :: Reading(x, now, year, k) > now) <==>
            (x > now || LeastLater(x, now) < YearStart(year + 1))
  {
    if x > now {
      assert Reading(x, now, year, 0) > now;
    } else if LeastLater(x, now) < YearStart(year + 1) {
      var k := (now - x) / TIME_INTERVAL + 1;
      ReadingAt(x, now, year, k);
      assert Reading(x, now, year, k) > now;
    } else {
      forall k: nat ensures Reading(x, now, year, k) <= now { GoesRound(x, now, year, k); }
    }
  }

  /** A time of last year is read as the same time of this year, so the monitor takes it for one still
      to come until that time of the year has passed. */
  lemma LateAtNewYear(t: Time, now: Time, year: int, mask: Digit)
    requires InEra(year) && InEra(year + 1) && t.Normal() && t.nsec % 1000 == 0 && now.Normal()
    requires InYear(t.sec, year) && InYear(now.sec, year + 1)
    requires t.sec / DAY - DaysBefore(year) < YearLength(year + 1)
    ensures var read := Decode(Pack(LowDigits(t.sec, t.nsec)), Pack(HighDigits(t.sec, year, mask)), year + 1);
            && !Greater(t, now) && read == Some(Time(t.sec + YearLength(year) * DAY, t.nsec))
            && (Greater(read.value, now) <==> now.Nanos() < t.Nanos() + YearLength(year) * DAY * SECOND)
  {
    RoundTrip(t, year, year + 1, mask);
    YearIs(t, year);
  }

  /** The first time that is later than now is reached after k intervals. */
  lemma LeastLaterIs(x: int, now: int, k: nat)
    requires now < x + k * TIME_INTERVAL && (k > 0 ==> x + (k - 1) * TIME_INTERVAL <= now)
    ensures x + k * TIME_INTERVAL == if x > now then x else LeastLater(x, now)
  {
  }

  /** Until then the year does not end. */
  lemma StaysWithin(x: int, now: int, year: int, k: nat)
    requires x > now || LeastLater(x, now) < YearStart(year + 1)
    requires x + k * TIME_INTERVAL <= now
    ensures NextReading(x + k * TIME_INTERVAL, now, year) == x + (k + 1) * TIME_INTERVAL
  {
  }

  /** The card's two words. */
  class Register {
    var low: nat
    var high: nat

    predicate Reads(t: Time, year: int)
      reads this
    {
      Decode(low, high, year) == Some(t)
    }

    /** In the given year the register reads as a time of that year, to the microsecond. */
    predicate Holds(year: int)
      reads this
    {
      var d := Decode(low, high, year);
      d.Some? && d.value.Normal() && d.value.nsec % 1000 == 0 && Within(d.value.Nanos(), year)
    }

    function Held(year: int): Time
      requires Holds(year)
      reads this
    {
      Decode(low, high, year).value
    }

    /** Write a time. */
    method Set(t: Time, year: int, mask: Digit)
      requires t.Normal() && InEra(year) && InYear(t.sec, year)
      modifies this
      ensures Nibble(high, 7) == mask
      ensures forall now :: InEra(now) ==>
                Decode(low, high, now) ==
                  if t.sec / DAY - DaysBefore(year) >= YearLength(now) then None
                  else Some(Time(t.sec + (DaysBefore(now) - DaysBefore(year)) * DAY, t.nsec - t.nsec % 1000))
    {
      NibbleOfPack(HighDigits(t.sec, year, mask), 7);
      low := EncodeLow(t);
      high := EncodeHigh(t.sec, year, mask);
      forall now | InEra(now) ensures Decode(low, high, now) ==
          if t.sec / DAY - DaysBefore(year) >= YearLength(now) then None
          else Some(Time(t.sec + (DaysBefore(now) - DaysBefore(year)) * DAY, t.nsec - t.nsec % 1000))
      {
        RoundTrip(t, year, now, mask);
      }
    }

    /** Write the time one interval after t, which may fall into the next year. */
    method MoveOn(t: Time, year: int)
      requires InEra(year) && InEra(year + 1) && t.Normal() && t.nsec % 1000 == 0 && Within(t.Nanos(), year)
      modifies this
      ensures Holds(year) && Held(year).Nanos() == NextReading(t.Nanos(), t.Nanos(), year)
      ensures Nibble(high, 7) == 0
    {
      IncrementAdds(t, TIME_INTERVAL);
      var next := Increment(t, TIME_INTERVAL);
      YearIs(next, year);
      YearIs(next, year + 1);
      if InYear(next.sec, year) {
        Set(next, year, 0);
      } else {
        Set(next, year + 1, 0);
        assert next.sec / DAY == DaysBefore(year + 1);
        YearIs(Held(year), year);
      }
    }

    /** One pass of the monitor. */
    method Pass(now: Time, year: int) returns (late: bool)
      requires InEra(year) && InEra(year + 1) && now.Normal() && Holds(year)
      modifies this
      ensures Holds(year) && late == !Greater(old(Held(year)), now)
      ensures Held(year).Nanos() == NextReading(old(Held(year)).Nanos(), now.Nanos(), year)
      ensures if late then Nibble(high, 7) == 0 else low == old(low) && high == old(high)
    {
      var t := Held(year);
      GreaterIsLater(t, now);
      late := !Greater(t, now);
      if late { MoveOn(t, year); }
    }

    /** Passes of the monitor while the clock stands still, where they catch up with it: the register
        moves on by whole intervals to the first that is later than now. */
    method CatchUp(now: Time, year: int)
      requires InEra(year) && InEra(year + 1) && now.Normal() && Holds(year)
      requires Held(year).Nanos() > now.Nanos()
               || LeastLater(Held(year).Nanos(), now.Nanos()) < YearStart(year + 1)
      modifies this
      ensures Holds(year)
      ensures var x := old(Held(year)).Nanos();
              Held(year).Nanos() == if x > now.Nanos() then x else LeastLater(x, now.Nanos())
    {
      ghost var x, y, k := Held(year).Nanos(), Held(year).Nanos(), 0;
      var late := true;
      while late
        invariant Holds(year) && Held(year).Nanos() == y == x + k * TIME_INTERVAL && 0 <= k
        invariant k > 0 ==> x + (k - 1) * TIME_INTERVAL <= now.Nanos()
        invariant !late ==> y > now.Nanos()
        decreases if y > now.Nanos() then 0 else now.Nanos() - y + 1, late
      {
        if y <= now.Nanos() { StaysWithin(x, now.Nanos(), year, k); }
        GreaterIsLater(Held(year), now);
        late := Pass(now, year);
        if late { y, k := y + TIME_INTERVAL, k + 1; }
      }
      LeastLaterIs(x, now.Nanos(), k);
    }
  }
}
