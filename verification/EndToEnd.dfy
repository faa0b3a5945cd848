/** From the parameter block to the transmitter: what the driver plays for a compiled sequence. */
module EndToEnd {
  import opened TsgWave
  import opened TsgBuffer
  import opened TsgEntries
  import opened TsgMake
  import opened TsgProperties
  import opened DdsUnpack
  import F = DdsFrames
  import D = DdsDriver

  /** Step t falls into the transmission of pulse k. */
  predicate TransmitsIn(pl: Plan, k: nat, t: int)
    requires pl.Shaped()
  {
    pl.Start(k) + pl.Offset(3) <= t < pl.Start(k) + pl.Offset(4)
  }

  ghost predicate Transmitting(pl: Plan, t: int)
    requires pl.Shaped()
  {
    pl.Pulses() && exists k: nat :: TransmitsIn(pl, k, t)
  }

  /** The phase code inverts step t. */
  ghost predicate Inverted(pl: Plan, t: int)
    requires pl.Usable()
  {
    pl.Pulses() && pl.nbaud > 1 &&
    exists k: nat :: TransmitsIn(pl, k, t) &&
      0 <= pl.CodeIndex(k, t - pl.Start(k)) < |pl.code| && pl.code[pl.CodeIndex(k, t - pl.Start(k))] < 0
  }

  /** Decoding an ideal step tells transmission and phase, and nothing about samples. */
  lemma DecodeIdeal(pl: Plan, t: int)
    requires pl.Usable()
    ensures var d := DecodeState(pl.Ideal(t));
            && (d != 0 <==> Transmitting(pl, t))
            && (d < 0 <==> Inverted(pl, t))
  {
    DecodeMeans(pl.Ideal(t));
    if Covered(pl, t) {
      var k: nat :| pl.InPulse(k, t);
      BitsInPulse(pl, k, t);
      assert Transmits(pl.Ideal(t)) <==> TransmitsIn(pl, k, t);
      forall k': nat | TransmitsIn(pl, k', t) ensures k' == k {
        if k' < k { StartsIncrease(pl, k', k); }
        if k < k' { StartsIncrease(pl, k, k'); }
      }
    } else {
      BitsIdle(pl, t);
      forall k: nat | pl.Pulses() ensures !TransmitsIn(pl, k, t) {
        assert !pl.InPulse(k, t);
      }
    }
  }

  /** Sample i that the driver plays is the decoding of one step: the waveform is stretched by
      the ratio of the clocks and loses the samples of the start delay. */
  lemma PlayedSource(stdelay: int, p: PulseSeq, i: nat)
    requires p.Valid() && p.step == CLOCK_PERIOD && i < |Unpacked(p)|
    ensures Ratio(p.step) == 2 && DROPPED == 26
    ensures |Unpacked(p)| == 2 * |Expand(p.code, p.rep)| - DROPPED
    ensures Unpacked(p)[i] ==
            DecodeState(CodeAt(stdelay, Expand(p.code, p.rep), (i + DROPPED) / 2 - (1 + Held(stdelay))))
  {
    assert Ratio(10) == 2 && DROPPED == 26;
    StretchAt(Expand(p.code, p.rep), 2, i + DROPPED);
  }

  /** What is played drives the transmitter exactly on the transmitting steps and inverts it
      exactly where the phase code says so, however the waveform was cut into entries. */
  lemma PlayedWaveform(pl: Plan, stdelay: int, p: PulseSeq, i: nat)
    requires pl.Usable() && p.Valid() && p.step == CLOCK_PERIOD
    requires Layout(pl, stdelay, Expand(p.code, p.rep))
    requires i < |Unpacked(p)|
    ensures var t := (i + DROPPED) / Ratio(p.step) - (1 + Held(stdelay));
            && (Unpacked(p)[i] != 0 <==> 0 <= t < Length(pl) && Transmitting(pl, t))
            && (Unpacked(p)[i] < 0 <==> 0 <= t < Length(pl) && Inverted(pl, t))
  {
    PlayedSource(stdelay, p, i);
    var t := (i + DROPPED) / 2 - (1 + Held(stdelay));
    CodeIsIdeal(pl, stdelay, Expand(p.code, p.rep), t);
    DecodeIdeal(pl, t);
  }

  /** The drive of the step that played sample i belongs to, at the given level. */
  ghost function DriveAt(pl: Plan, stdelay: int, i: nat, level: int): int
    requires pl.Usable()
  {
    var t := (i + DROPPED) / 2 - (1 + Held(stdelay));
    if !(0 <= t < Length(pl) && Transmitting(pl, t)) then 0 else if Inverted(pl, t) then -level else level
  }

  /** A played sample, scaled, is the drive of its step. */
  lemma PlayedDrive(pl: Plan, stdelay: int, p: PulseSeq, i: nat, level: int)
    requires pl.Usable() && p.Valid() && p.step == CLOCK_PERIOD
    requires Layout(pl, stdelay, Expand(p.code, p.rep)) && i < |Unpacked(p)|
    ensures Unpacked(p)[i] * level == DriveAt(pl, stdelay, i, level)
  {
    PlayedSource(stdelay, p, i);
    PlayedWaveform(pl, stdelay, p, i);
    D.UnpackedIsUnit(p);
  }

  /** What a DAC output carries for a program whose compiled sequence is registered: in every frame
      of the sequence the program's share of the drive, positive or inverted, exactly while its
      pulse train transmits, and nothing otherwise. */
  lemma DacFollowsPlan(pl: Plan, stdelay: int, p: PulseSeq, reg: D.Registry, cs: seq<F.Client>,
                       j: nat, data: seq<int>, ifmode: bool, i: nat, x: nat)
    requires D.Plays(reg, cs, j, p) && F.IsFrames(data, cs, D.FreshBufs(reg, cs), ifmode)
    requires p.Valid() && p.step == CLOCK_PERIOD && i < |Unpacked(p)| && x == F.OUTPUTS * i + cs[j].Slot()
    requires pl.Usable() && Layout(pl, stdelay, Expand(p.code, p.rep))
    ensures x < |data| && data[x] == DriveAt(pl, stdelay, i, D.Share(cs, j)) && 0 < D.Share(cs, j)
  {
    PlayedDrive(pl, stdelay, p, i, D.Share(cs, j));
    D.FrameCell(reg, cs, j, p, data, ifmode, i, x);
  }
}
