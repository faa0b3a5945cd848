/** Filling the DAC frames of a trigger: sixteen outputs a frame, one per transmitter channel. */
module DdsFrames {
  import opened Common

  const OUTPUTS: nat := 16
  const IF_LEVEL: int := 32767

  /** Frames of silence after the longest sequence: 100 microseconds of 5 each. */
  const TAIL: nat := 20

  /** The parameters a control program readies with. */
  datatype Client = Client(radar: int, channel: int, index: int, tbeam: int, tfreq: int, trise: int)
  {
    predicate InRange() { 1 <= radar <= MAX_RADARS && 1 <= channel <= MAX_CHANNELS }

    function Slot(): nat
      requires InRange()
    {
      (radar - 1) * MAX_CHANNELS + channel - 1
    }
  }

  /** Each radar and channel pair is listed at most once. */
  predicate Table(cs: seq<Client>) {
    && (forall i :: 0 <= i < |cs| ==> cs[i].InRange())
    && (forall i, j :: 0 <= i < j < |cs| ==> cs[i].Slot() != cs[j].Slot())
  }

  lemma TablePrefix(cs: seq<Client>, j: nat)
    requires Table(cs) && j <= |cs|
    ensures Table(cs[..j])
  {
  }

  predicate Listed(cs: seq<Client>, slot: int)
    requires Table(cs)
  {
    exists j :: 0 <= j < |cs| && cs[j].Slot() == slot
  }

  /** The number of listed clients of radar r. */
  function NumActive(cs: seq<Client>, r: int): nat {
    if cs == [] then 0
    else NumActive(cs[..|cs| - 1], r) + if cs[|cs| - 1].radar - 1 == r then 1 else 0
  }

  /** A table lists as many clients of a radar as there are channels of it in use. */
  lemma {:induction false} ActiveIsUsed(cs: seq<Client>, r: nat)
    requires Table(cs) && r < MAX_RADARS
    ensures NumActive(cs, r) == Bit(Listed(cs, 4 * r)) + Bit(Listed(cs, 4 * r + 1))
                                + Bit(Listed(cs, 4 * r + 2)) + Bit(Listed(cs, 4 * r + 3))
  {
    if cs != [] {
      var m := |cs| - 1;
      TablePrefix(cs, m);
      ActiveIsUsed(cs[..m], r);
      ListedNext(cs, 4 * r);
      ListedNext(cs, 4 * r + 1);
      ListedNext(cs, 4 * r + 2);
      ListedNext(cs, 4 * r + 3);
      assert !Listed(cs[..m], cs[m].Slot());
    }
  }

  lemma ListedNext(cs: seq<Client>, s: nat)
    requires Table(cs) && cs != []
    ensures Listed(cs, s) <==> Listed(cs[..|cs| - 1], s) || cs[|cs| - 1].Slot() == s
  {
    var m := |cs| - 1;
    if Listed(cs, s) {
      var j :| 0 <= j < |cs| && cs[j].Slot() == s;
      assert j < m ==> cs[..m][j].Slot() == s;
    }
    if Listed(cs[..m], s) {
      var j :| 0 <= j < m && cs[..m][j].Slot() == s;
      assert cs[j].Slot() == s;
    }
  }

  lemma {:induction false} AllActive(cs: seq<Client>)
    requires Table(cs)
    ensures |cs| == NumActive(cs, 0) + NumActive(cs, 1)
  {
    if cs != [] { AllActive(cs[..|cs| - 1]); }
  }

  /** A table never outgrows the pairs there are. */
  lemma TableFits(cs: seq<Client>)
    requires Table(cs)
    ensures |cs| <= SLOTS && NumActive(cs, 0) <= MAX_CHANNELS && NumActive(cs, 1) <= MAX_CHANNELS
  {
    AllActive(cs);
    ActiveIsUsed(cs, 0);
    ActiveIsUsed(cs, 1);
  }

  /** The largest drive of radar r. */
  function MaxOutput(r: int): nat { if r == 0 then 28355 else 26500 }

  /** The drive of one of n active channels. */
  function MaxVal(r: int, n: nat): nat { if n == 0 then 0 else MaxOutput(r) / n }

  /** Unpacked sequences hold -1, 0 and 1 only. */
  predicate Unit(buf: seq<int>) { forall i :: 0 <= i < |buf| ==> -1 <= buf[i] <= 1 }

  predicate Units(bufs: seq<seq<int>>) {
    |bufs| == SLOTS && forall s :: 0 <= s < SLOTS ==> Unit(bufs[s])
  }

  function Longest(cs: seq<Client>, bufs: seq<seq<int>>): nat
    requires Table(cs) && |bufs| == SLOTS
  {
    if cs == [] then 0
    else
      assert Table(cs[..|cs| - 1]);
      var rest, len := Longest(cs[..|cs| - 1], bufs), |bufs[cs[|cs| - 1].Slot()]|;
      if len >= rest then len else rest
  }

  lemma {:induction false} LongestBounds(cs: seq<Client>, bufs: seq<seq<int>>)
    requires Table(cs) && |bufs| == SLOTS
    ensures forall j :: 0 <= j < |cs| ==> |bufs[cs[j].Slot()]| <= Longest(cs, bufs)
  {
    if cs != [] {
      LongestBounds(cs[..|cs| - 1], bufs);
      forall j | 0 <= j < |cs| ensures |bufs[cs[j].Slot()]| <= Longest(cs, bufs) {
        if j < |cs| - 1 { assert cs[..|cs| - 1][j] == cs[j]; }
      }
    }
  }

  /** The RF drive on output ch in frame i once the clients cs are in: the sample of the client
      that owns the output, scaled to its share of the radar's drive. */
  function RfCell(cs: seq<Client>, all: seq<Client>, bufs: seq<seq<int>>, i: nat, ch: nat): int
    requires Table(cs) && |bufs| == SLOTS
  {
    if ch < SLOTS && Listed(cs, ch) && i < |bufs[ch]| then
      bufs[ch][i] * MaxVal(ch / MAX_CHANNELS, NumActive(all, ch / MAX_CHANNELS))
    else 0
  }

  function IfOutput(cl: Client): int { (cl.radar + 1) * MAX_CHANNELS }

  predicate IfListed(cs: seq<Client>, ch: int) {
    exists j :: 0 <= j < |cs| && IfOutput(cs[j]) == ch
  }

  lemma IfListedNext(cs: seq<Client>, ch: int)
    requires cs != []
    ensures IfListed(cs, ch) <==> IfListed(cs[..|cs| - 1], ch) || IfOutput(cs[|cs| - 1]) == ch
  {
    var m := |cs| - 1;
    if IfListed(cs, ch) {
      var j :| 0 <= j < |cs| && IfOutput(cs[j]) == ch;
      assert j < m ==> IfOutput(cs[..m][j]) == ch;
    }
    if IfListed(cs[..m], ch) {
      var j :| 0 <= j < m && IfOutput(cs[..m][j]) == ch;
      assert IfOutput(cs[j]) == ch;
    }
  }

  /** In IF mode the first output of the second bank of a listed radar carries a constant. */
  function IfCell(cs: seq<Client>, ifmode: bool, longest: nat, i: nat, ch: nat): int
    requires Table(cs)
  {
    if ifmode && SLOTS <= ch && ch % MAX_CHANNELS == 0 && i + 1 < longest
       && IfListed(cs, ch)
    then IF_LEVEL else 0
  }

  /** What cell x of the frame buffer holds. */
  function Cell(cs: seq<Client>, all: seq<Client>, bufs: seq<seq<int>>, ifmode: bool, x: nat): int
    requires Table(cs) && Table(all) && |bufs| == SLOTS
  {
    if x % OUTPUTS < SLOTS then RfCell(cs, all, bufs, x / OUTPUTS, x % OUTPUTS)
    else IfCell(cs, ifmode, Longest(all, bufs), x / OUTPUTS, x % OUTPUTS)
  }

  function FrameCount(cs: seq<Client>, bufs: seq<seq<int>>): nat
    requires Table(cs) && |bufs| == SLOTS
  {
    Longest(cs, bufs) + TAIL
  }

  ghost predicate IsFrames(data: seq<int>, cs: seq<Client>, bufs: seq<seq<int>>, ifmode: bool)
    requires Table(cs) && |bufs| == SLOTS
  {
    && |data| == OUTPUTS * FrameCount(cs, bufs)
    && forall x :: 0 <= x < |data| ==> data[x] == Cell(cs, cs, bufs, ifmode, x)
  }

  /** A listed client's output carries its samples, scaled to a share that is not 0. */
  lemma ClientCell(data: seq<int>, cs: seq<Client>, bufs: seq<seq<int>>, ifmode: bool, j: nat, i: nat)
    requires Table(cs) && |bufs| == SLOTS && IsFrames(data, cs, bufs, ifmode) && j < |cs|
    requires i < |bufs[cs[j].Slot()]|
    ensures var share := MaxVal(cs[j].radar - 1, NumActive(cs, cs[j].radar - 1));
            && 0 < share && OUTPUTS * i + cs[j].Slot() < |data|
            && data[OUTPUTS * i + cs[j].Slot()] == bufs[cs[j].Slot()][i] * share
  {
    var slot, x := cs[j].Slot(), OUTPUTS * i + cs[j].Slot();
    LongestBounds(cs, bufs);
    ShareIsPositive(cs, j);
    assert Listed(cs, slot);
    assert x / OUTPUTS == i && x % OUTPUTS == slot && slot / MAX_CHANNELS == cs[j].radar - 1;
    assert data[x] == RfCell(cs, cs, bufs, i, slot);
  }

  lemma ShareIsPositive(cs: seq<Client>, j: nat)
    requires Table(cs) && j < |cs|
    ensures 0 < MaxVal(cs[j].radar - 1, NumActive(cs, cs[j].radar - 1))
  {
    var r := cs[j].radar - 1;
    ActiveIsUsed(cs, r);
    assert Listed(cs, cs[j].Slot());
    assert 0 < NumActive(cs, r) <= 4;
  }

  /** The number of channels of a radar that are listed. */
  function ListedChannels(cs: seq<Client>, radar: int): nat
    requires Table(cs)
  {
    var s := 4 * (radar - 1);
    Bit(Listed(cs, s)) + Bit(Listed(cs, s + 1)) + Bit(Listed(cs, s + 2)) + Bit(Listed(cs, s + 3))
  }

  /** A transmitting client drives its output, in or against phase, with its radar's full drive, 28355 or
      26500, divided by the number of that radar's channels, to the next whole number below. */
  lemma ShareOfDrive(data: seq<int>, cs: seq<Client>, bufs: seq<seq<int>>, ifmode: bool, j: nat, i: nat)
    requires Table(cs) && |bufs| == SLOTS && IsFrames(data, cs, bufs, ifmode) && j < |cs|
    requires i < |bufs[cs[j].Slot()]| && bufs[cs[j].Slot()][i] in {1, -1}
    ensures var n, full := ListedChannels(cs, cs[j].radar), if cs[j].radar == 1 then 28355 else 26500;
            var x := 16 * i + 4 * (cs[j].radar - 1) + cs[j].channel - 1;
            && 1 <= n <= 4 && 0 <= x < |data|
            && n * Abs(data[x]) <= full < n * Abs(data[x]) + n
            && (data[x] > 0 <==> bufs[cs[j].Slot()][i] == 1)
  {
    var r, slot := cs[j].radar - 1, cs[j].Slot();
    ListedIsActive(cs, j);
    ClientCell(data, cs, bufs, ifmode, j, i);
    WholeShare(r, NumActive(cs, r));
    SignedShare(bufs[slot][i], MaxVal(r, NumActive(cs, r)));
  }

  lemma ListedIsActive(cs: seq<Client>, j: nat)
    requires Table(cs) && j < |cs|
    ensures 1 <= ListedChannels(cs, cs[j].radar) == NumActive(cs, cs[j].radar - 1) <= 4
  {
    ActiveIsUsed(cs, cs[j].radar - 1);
    assert Listed(cs, cs[j].Slot());
  }

  lemma SignedShare(u: int, share: nat)
    requires u in {1, -1}
    ensures Abs(u * share) == share && (0 < share ==> (u * share > 0 <==> u == 1))
  {
  }

  lemma WholeShare(r: nat, n: nat)
    requires 0 < n
    ensures var full := if r == 0 then 28355 else 26500;
            n * MaxVal(r, n) <= full < n * MaxVal(r, n) + n
  {
  }

  /** An output of a channel that is not listed, or whose sequence is over, is silent. */
  lemma ElseSilent(data: seq<int>, cs: seq<Client>, bufs: seq<seq<int>>, ifmode: bool, i: nat, ch: nat)
    requires Table(cs) && |bufs| == SLOTS && IsFrames(data, cs, bufs, ifmode) && 16 * i + ch < |data| && ch < 8
    requires Listed(cs, ch) ==> |bufs[ch]| <= i
    ensures data[16 * i + ch] == 0
  {
    var x := 16 * i + ch;
    assert x / OUTPUTS == i && x % OUTPUTS == ch;
  }

  /** The outputs after those of the channels are silent, but for the first of the four that belong to a
      listed radar, which carries a constant in IF mode for all but the last frame of the longest
      sequence. */
  lemma IfOutputs(data: seq<int>, cs: seq<Client>, bufs: seq<seq<int>>, ifmode: bool, i: nat, ch: nat)
    requires Table(cs) && |bufs| == SLOTS && IsFrames(data, cs, bufs, ifmode) && 16 * i + ch < |data| && 8 <= ch < 16
    ensures data[16 * i + ch] ==
            if ifmode && i + 1 < Longest(cs, bufs)
               && ((ch == 8 && 0 < ListedChannels(cs, 1)) || (ch == 12 && 0 < ListedChannels(cs, 2)))
            then 32767 else 0
  {
    var x := 16 * i + ch;
    assert x / OUTPUTS == i && x % OUTPUTS == ch;
    assert data[x] == IfCell(cs, ifmode, Longest(cs, bufs), i, ch);
    IfCellIs(cs, ifmode, Longest(cs, bufs), i, ch);
  }

  lemma IfCellIs(cs: seq<Client>, ifmode: bool, longest: nat, i: nat, ch: nat)
    requires Table(cs) && 8 <= ch < 16
    ensures IfCell(cs, ifmode, longest, i, ch) ==
            if ifmode && i + 1 < longest
               && ((ch == 8 && 0 < ListedChannels(cs, 1)) || (ch == 12 && 0 < ListedChannels(cs, 2)))
            then 32767 else 0
  {
    if ch == 8 {
      IfRadar(cs, 8);
      RadarListed(cs, 0);
    } else if ch == 12 {
      IfRadar(cs, 12);
      RadarListed(cs, 1);
    }
  }

  lemma RadarListed(cs: seq<Client>, r: nat)
    requires Table(cs) && r < MAX_RADARS
    ensures 0 < ListedChannels(cs, r + 1) <==> exists j :: 0 <= j < |cs| && cs[j].radar == r + 1
  {
    if j :| 0 <= j < |cs| && cs[j].radar == r + 1 {
      assert Listed(cs, cs[j].Slot());
    }
  }

  lemma IfRadar(cs: seq<Client>, ch: nat)
    requires Table(cs) && ch in {8, 12}
    ensures IfListed(cs, ch) <==> exists j :: 0 <= j < |cs| && cs[j].radar == (if ch == 8 then 1 else 2)
  {
    if IfListed(cs, ch) {
      var j :| 0 <= j < |cs| && IfOutput(cs[j]) == ch;
      assert cs[j].radar == if ch == 8 then 1 else 2;
    }
    if j :| 0 <= j < |cs| && cs[j].radar == (if ch == 8 then 1 else 2) {
      assert IfOutput(cs[j]) == ch;
    }
  }

  /** After the longest sequence come 20 frames of silence. */
  lemma FramesEnd(data: seq<int>, cs: seq<Client>, bufs: seq<seq<int>>, ifmode: bool)
    requires Table(cs) && |bufs| == SLOTS && IsFrames(data, cs, bufs, ifmode)
    ensures |data| == 16 * (Longest(cs, bufs) + 20)
    ensures forall x :: 16 * Longest(cs, bufs) <= x < |data| ==> data[x] == 0
  {
    LongestBounds(cs, bufs);
  }

  /** The drives of a radar's channels never add up to more than its largest drive. */
  lemma DriveIsBounded(data: seq<int>, cs: seq<Client>, bufs: seq<seq<int>>, ifmode: bool, i: nat, r: nat)
    requires Table(cs) && Units(bufs) && IsFrames(data, cs, bufs, ifmode)
    requires i < FrameCount(cs, bufs) && r < MAX_RADARS
    ensures Abs(data[16 * i + 4 * r]) + Abs(data[16 * i + 4 * r + 1]) + Abs(data[16 * i + 4 * r + 2])
            + Abs(data[16 * i + 4 * r + 3]) <= if r == 0 then 28355 else 26500
  {
    ActiveIsUsed(cs, r);
    DriveShare(data, cs, bufs, ifmode, i, r, 0);
    DriveShare(data, cs, bufs, ifmode, i, r, 1);
    DriveShare(data, cs, bufs, ifmode, i, r, 2);
    DriveShare(data, cs, bufs, ifmode, i, r, 3);
    SharesFit(r, NumActive(cs, r), Bit(Listed(cs, 4 * r)), Bit(Listed(cs, 4 * r + 1)),
              Bit(Listed(cs, 4 * r + 2)), Bit(Listed(cs, 4 * r + 3)));
  }

  lemma DriveShare(data: seq<int>, cs: seq<Client>, bufs: seq<seq<int>>, ifmode: bool, i: nat, r: nat, c: nat)
    requires Table(cs) && Units(bufs) && IsFrames(data, cs, bufs, ifmode)
    requires i < FrameCount(cs, bufs) && r < MAX_RADARS && c < MAX_CHANNELS
    ensures Abs(data[16 * i + 4 * r + c]) <= MaxVal(r, NumActive(cs, r)) * Bit(Listed(cs, 4 * r + c))
  {
    var x, ch, v := 16 * i + 4 * r + c, 4 * r + c, MaxVal(r, NumActive(cs, r));
    assert x / OUTPUTS == i && x % OUTPUTS == ch && ch / MAX_CHANNELS == r;
    assert data[x] == RfCell(cs, cs, bufs, i, ch);
    if Listed(cs, ch) && i < |bufs[ch]| {
      assert Unit(bufs[ch]);
      ScaledUnit(bufs[ch][i], v);
      assert v * Bit(Listed(cs, ch)) == v;
    } else {
      assert v * Bit(Listed(cs, ch)) >= 0;
    }
  }

  lemma ScaledUnit(u: int, v: nat)
    requires -1 <= u <= 1
    ensures Abs(u * v) <= v
  {
  }

  /** Equal shares of a drive do not exceed it. */
  lemma SharesFit(r: nat, n: nat, a: nat, b: nat, c: nat, d: nat)
    requires n == a + b + c + d
    ensures MaxVal(r, n) * a + MaxVal(r, n) * b + MaxVal(r, n) * c + MaxVal(r, n) * d <= MaxOutput(r)
  {
    var v := MaxVal(r, n);
    assert v * a + v * b + v * c + v * d == v * n;
    if n > 0 { assert MaxOutput(r) / n * n <= MaxOutput(r); }
  }

  /** The clients' own channels and the number of active channels of each radar. */
  method CountActive(cs: seq<Client>) returns (active: seq<int>, num: seq<nat>)
    requires Table(cs)
    ensures |active| == SLOTS && |num| == MAX_RADARS
    ensures forall s :: 0 <= s < SLOTS ==> active[s] == if Listed(cs, s) then s % MAX_CHANNELS else -1
    ensures num[0] == NumActive(cs, 0) && num[1] == NumActive(cs, 1)
  {
    active, num := seq(SLOTS, _ => -1), [0, 0];
    var j := 0;
    while j < |cs|
      invariant j <= |cs| && |active| == SLOTS && |num| == MAX_RADARS
      invariant Table(cs[..j])
      invariant forall s :: 0 <= s < SLOTS ==> active[s] == if Listed(cs[..j], s) then s % MAX_CHANNELS else -1
      invariant num[0] == NumActive(cs[..j], 0) && num[1] == NumActive(cs[..j], 1)
    {
      var r, c := cs[j].radar - 1, cs[j].channel - 1;
      TablePrefix(cs, j + 1);
      assert cs[..j + 1][..j] == cs[..j];
      forall s | 0 <= s < SLOTS ensures Listed(cs[..j + 1], s) <==> Listed(cs[..j], s) || cs[j].Slot() == s {
        ListedNext(cs[..j + 1], s);
      }
      active := active[cs[j].Slot() := c];
      num := num[r := num[r] + 1];
      j := j + 1;
    }
    assert cs[..j] == cs;
  }

  /** Write one client's samples, frame by frame, to the output it is active on. */
  method FillClient(data: array<int>, cl: Client, buf: seq<int>, active: seq<int>, val: int)
    requires cl.InRange() && |active| == SLOTS && OUTPUTS * |buf| <= data.Length
    requires forall s :: 0 <= s < SLOTS && s / MAX_CHANNELS == cl.radar - 1 ==>
               (active[s] == cl.channel - 1 <==> s == cl.Slot())
    modifies data
    ensures forall x :: 0 <= x < data.Length ==>
              data[x] == if x % OUTPUTS == cl.Slot() && x / OUTPUTS < |buf| then buf[x / OUTPUTS] * val
                         else old(data[x])
  {
    var r, c := cl.radar - 1, cl.channel - 1;
    var i := 0;
    while i < |buf|
      invariant i <= |buf|
      invariant forall x :: 0 <= x < data.Length ==>
                  data[x] == if x % OUTPUTS == cl.Slot() && x / OUTPUTS < i then buf[x / OUTPUTS] * val
                             else old(data[x])
    {
      var ioff := i * OUTPUTS;
      var cc := 0;
      while cc < MAX_CHANNELS
        invariant cc <= MAX_CHANNELS
        invariant forall x :: 0 <= x < data.Length ==>
                    data[x] == if x % OUTPUTS == cl.Slot() && x / OUTPUTS < (if cc > c then i + 1 else i)
                               then buf[x / OUTPUTS] * val else old(data[x])
      {
        if active[r * MAX_CHANNELS + cc] == c {
          data[ioff + r * MAX_CHANNELS + cc] := buf[i] * val;
        }
        cc := cc + 1;
      }
      i := i + 1;
    }
  }

  /** Write the constant IF drive of a radar. */
  method FillIf(data: array<int>, r: nat, longest: nat)
    requires r < MAX_RADARS && OUTPUTS * longest <= data.Length
    modifies data
    ensures forall x :: 0 <= x < data.Length ==>
              data[x] == if x % OUTPUTS == (r + 2) * MAX_CHANNELS && x / OUTPUTS + 1 < longest then IF_LEVEL
                         else old(data[x])
  {
    var i := 0;
    while i < longest - 1
      invariant 0 <= i && (if longest == 0 then i == 0 else i <= longest - 1)
      invariant forall x :: 0 <= x < data.Length ==>
                  data[x] == if x % OUTPUTS == (r + 2) * MAX_CHANNELS && x / OUTPUTS < i then IF_LEVEL
                             else old(data[x])
    {
      data[i * OUTPUTS + (r + 2) * MAX_CHANNELS] := IF_LEVEL;
      i := i + 1;
    }
  }

  lemma RfNext(cs: seq<Client>, j: nat, bufs: seq<seq<int>>, i: nat, ch: nat)
    requires Table(cs) && j < |cs| && |bufs| == SLOTS && Table(cs[..j]) && Table(cs[..j + 1])
    ensures var r, slot := cs[j].radar - 1, cs[j].Slot();
            RfCell(cs[..j + 1], cs, bufs, i, ch) ==
              if ch == slot && i < |bufs[slot]| then bufs[slot][i] * MaxVal(r, NumActive(cs, r))
              else RfCell(cs[..j], cs, bufs, i, ch)
  {
    assert cs[..j + 1][..j] == cs[..j];
    ListedNext(cs[..j + 1], ch);
    assert cs[j].Slot() / MAX_CHANNELS == cs[j].radar - 1;
  }

  lemma CellNext(cs: seq<Client>, j: nat, bufs: seq<seq<int>>, ifmode: bool, x: nat)
    requires Table(cs) && j < |cs| && |bufs| == SLOTS && Table(cs[..j]) && Table(cs[..j + 1])
    ensures var r, slot := cs[j].radar - 1, cs[j].Slot();
            var i, ch := x / OUTPUTS, x % OUTPUTS;
            Cell(cs[..j + 1], cs, bufs, ifmode, x) ==
              if ch == slot && i < |bufs[slot]| then bufs[slot][i] * MaxVal(r, NumActive(cs, r))
              else if ifmode && ch == (r + 2) * MAX_CHANNELS && i + 1 < Longest(cs, bufs) then IF_LEVEL
              else Cell(cs[..j], cs, bufs, ifmode, x)
  {
    var i, ch := x / OUTPUTS, x % OUTPUTS;
    if ch < SLOTS {
      RfNext(cs, j, bufs, i, ch);
    } else {
      assert cs[..j + 1][..j] == cs[..j];
      IfListedNext(cs[..j + 1], ch);
    }
  }

  /** The whole frame buffer of a trigger. */
  method TimingSequence(cs: seq<Client>, bufs: seq<seq<int>>, longest: nat, ifmode: bool)
    returns (data: array<int>)
    requires Table(cs) && |bufs| == SLOTS && longest == Longest(cs, bufs)
    ensures fresh(data) && IsFrames(data[..], cs, bufs, ifmode)
  {
    data := new int[OUTPUTS * (longest + TAIL)](_ => 0);
    var active, num := CountActive(cs);
    LongestBounds(cs, bufs);
    var j := 0;
    while j < |cs|
      invariant j <= |cs| && fresh(data) && data.Length == OUTPUTS * (longest + TAIL)
      invariant Table(cs[..j])
      invariant forall x :: 0 <= x < data.Length ==> data[x] == Cell(cs[..j], cs, bufs, ifmode, x)
    {
      var r := cs[j].radar - 1;
      assert Listed(cs, cs[j].Slot());
      FillClient(data, cs[j], bufs[cs[j].Slot()], active, MaxVal(r, num[r]));
      if ifmode { FillIf(data, r, longest); }
      TablePrefix(cs, j + 1);
      forall x | 0 <= x < data.Length ensures data[x] == Cell(cs[..j + 1], cs, bufs, ifmode, x) {
        CellNext(cs, j, bufs, ifmode, x);
      }
      j := j + 1;
    }
    assert cs[..j] == cs;
  }
}
