/** Runs of the DDS driver that do not play what is registered. */
module DdsRuns {
  import opened Common
  import opened TsgStates
  import opened TsgBuffer
  import opened DdsUnpack
  import opened DdsFrames
  import opened DdsDriver

  /** A sequence of 100 steps that all carry one code. */
  function Constant(code: bv8): (p: PulseSeq)
    ensures p.Valid()
  {
    PulseSeq(10, [code], [100])
  }

  lemma ConstantUnpacks(code: bv8)
    ensures Unpacked(Constant(code)) == Repeat(DecodeState(code), 174)
  {
    var p := Constant(code);
    assert Ratio(10) == 2 && DROPPED == 26;
    ExpandAppend([], [], code, 100);
    assert [] + [code] == p.code && [] + [100] == p.rep;
    StretchAppend([], 2, code, 100);
    assert Stretch(Expand(p.code, p.rep), 2) == Repeat(DecodeState(code), 200);
  }

  /** Of two registries the second has one sequence more, or another one. */
  predicate Differs(before: Registry, after: Registry, cl: Client, p: PulseSeq)
    requires IsRegistry(before) && IsRegistry(after) && cl.InRange() && 0 <= cl.index < MAX_SEQS
  {
    && after[cl.Slot()][cl.index] == Some(p)
    && forall s, i :: 0 <= s < SLOTS && 0 <= i < MAX_SEQS && (s != cl.Slot() || i != cl.index) ==>
         after[s][i] == before[s][i]
  }

  /** A client registers a sequence. */
  method Register(d: Driver, cl: Client, p: PulseSeq)
    requires d.Valid() && cl.InRange() && 0 <= cl.index < MAX_SEQS && p.Valid()
    modifies d
    ensures d.Valid() && d.round == old(d.round) && d.oldSeqId == NO_ID && d.seqBuf == old(d.seqBuf)
    ensures Differs(old(d.pulseseqs), d.pulseseqs, cl, p)
  {
    d.RegisterSeq(cl, cl.index, p);
  }

  /** A client registers a sequence and gets ready with it. */
  method Enter(d: Driver, cl: Client, p: PulseSeq)
    requires d.Valid() && cl.InRange() && 0 <= cl.index < MAX_SEQS && p.Valid()
    modifies d
    ensures d.Valid() && d.round == Placed(old(d.round), cl) && d.oldSeqId == NO_ID
    ensures Differs(old(d.pulseseqs), d.pulseseqs, cl, p)
    ensures forall s :: 0 <= s < SLOTS ==> d.seqBuf[s] == if s == cl.Slot() then Unpacked(p) else old(d.seqBuf)[s]
  {
    Register(d, cl, p);
    var status := d.Ready(cl);
  }

  lemma RoundOfOne(cl: Client)
    requires cl.InRange()
    ensures Table([cl]) && Placed([], cl) == [cl] && SeqId([cl]) == IdPart(cl) - 1
  {
    assert [cl][..0] == [] && [] + [cl] == [cl];
    assert SeqId([cl]) == SeqId([]) + IdPart(cl);
    PositionIs([], cl.Slot());
  }

  const FIRST: Client := Client(1, 1, 0, 0, 0, 0)

  /** A client gets ready with a sequence that transmits, and then registers one that does not. */
  method StaleReady() returns (d: Driver)
    ensures fresh(d) && d.Valid() && d.round == [FIRST] && d.oldSeqId == NO_ID
    ensures d.seqBuf[0] == Unpacked(Constant(X_BIT)) && d.pulseseqs[0][0] == Some(Constant(0))
  {
    RoundOfOne(FIRST);
    d := new Driver();
    Enter(d, FIRST, Constant(X_BIT));
    Register(d, FIRST, Constant(0));
  }

  /** The trigger comes: the frames are those of the sequence that is gone. */
  method StaleFrames() returns (d: Driver)
    ensures fresh(d) && d.Valid() && d.loaded == [FIRST] && d.pulseseqs[0][0] == Some(Constant(0))
    ensures Table([FIRST]) && !d.Sound([FIRST])
    ensures |d.frames| == 16 * 194 && d.frames[0] == 28355
  {
    d := StaleReady();
    RoundOfOne(FIRST);
    StaleAgree(d.seqBuf, d.pulseseqs);
    var reload := d.Pretrigger();
    StaleData(d.frames, d.made);
  }

  lemma StaleAgree(bufs: seq<seq<int>>, reg: Registry)
    requires |bufs| == SLOTS && bufs[0] == Unpacked(Constant(X_BIT))
    requires IsRegistry(reg) && reg[0][0] == Some(Constant(0)) && Table([FIRST])
    ensures !Agree([FIRST], bufs, FreshBufs(reg, [FIRST]))
  {
    ConstantUnpacks(X_BIT);
    ConstantUnpacks(0);
    LongestOfOne(bufs);
    FreshBuf(reg, [FIRST], 0, Constant(0));
    assert Listed([FIRST], 0) by { assert [FIRST][0].Slot() == 0; }
    assert At(bufs[0], 0) == 1 && At(FreshBufs(reg, [FIRST])[0], 0) == 0;
  }

  lemma LongestOfOne(bufs: seq<seq<int>>)
    requires |bufs| == SLOTS && Table([FIRST])
    ensures Longest([FIRST], bufs) == |bufs[0]| && NumActive([FIRST], 0) == 1
  {
    assert [FIRST][..0] == [] && [FIRST][0] == FIRST;
    assert Longest([], bufs) == 0 && NumActive([], 0) == 0;
  }

  lemma StaleData(data: seq<int>, made: Source)
    requires made.Valid() && made.cs == [FIRST] && made.bufs[0] == Unpacked(Constant(X_BIT))
    requires MadeFrom(data, made)
    ensures |data| == OUTPUTS * 194 && data[0] == MaxOutput(0)
  {
    ConstantUnpacks(X_BIT);
    LongestOfOne(made.bufs);
    BufferCell(data, made.cs, made.bufs, made.ifmode, 0, made.bufs[0], 0, 0);
  }

  /** Two clients have two sequences each, one that transmits and one that does not. */
  predicate TwoEach(reg: Registry)
    requires IsRegistry(reg)
  {
    forall s :: 0 <= s < 2 ==> reg[s][0] == Some(Constant(X_BIT)) && reg[s][1] == Some(Constant(0))
  }

  lemma RoundOfTwo(i: int, j: int)
    ensures var cs := RoundOf(2, i, j);
            && Table(cs) && Placed([], cs[0]) == [cs[0]] && Table([cs[0]]) && Placed([cs[0]], cs[1]) == cs
            && cs[0].Slot() == 0 && cs[1].Slot() == 1 && cs[0].index == i && cs[1].index == j
  {
    var cs := RoundOf(2, i, j);
    RoundIsTable(2, i, j);
    RoundOfOne(cs[0]);
    PositionIs([cs[0]], 1);
    assert [cs[0]] + [cs[1]] == cs;
  }

  /** The two register their sequences and get ready, the first with the one that transmits. */
  method TwoReady() returns (d: Driver)
    ensures fresh(d) && d.Valid() && TwoEach(d.pulseseqs) && d.oldSeqId == NO_ID
    ensures d.round == RoundOf(2, 0, 1)
    ensures d.seqBuf[0] == Unpacked(Constant(X_BIT)) && d.seqBuf[1] == Unpacked(Constant(0))
  {
    var cs := RoundOf(2, 0, 1);
    RoundOfTwo(0, 1);
    RoundOfTwo(1, 0);
    d := new Driver();
    Register(d, RoundOf(2, 1, 0)[0], Constant(0));
    Register(d, RoundOf(2, 1, 0)[1], Constant(X_BIT));
    Enter(d, cs[0], Constant(X_BIT));
    Enter(d, cs[1], Constant(0));
  }

  /** The first trigger plays what they registered. */
  method FirstTrigger() returns (d: Driver)
    ensures fresh(d) && d.Valid() && d.round == [] && TwoEach(d.pulseseqs)
    ensures d.loaded == d.made.cs == RoundOf(2, 0, 1) && d.oldSeqId == SeqId(RoundOf(2, 0, 1))
    ensures d.made.bufs[0] == Unpacked(Constant(X_BIT)) && d.Sound(d.loaded)
  {
    d := TwoReady();
    FreshAgrees(d.pulseseqs, d.seqBuf);
    IdIsNat(RoundOf(2, 0, 1));
    var reload := d.Pretrigger();
  }

  /** They trade sequences. */
  method TradeReady() returns (d: Driver)
    ensures fresh(d) && d.Valid() && d.round == RoundOf(2, 1, 0) && TwoEach(d.pulseseqs)
    ensures d.loaded == d.made.cs == RoundOf(2, 0, 1) && d.oldSeqId == SeqId(RoundOf(2, 0, 1))
    ensures d.made.bufs[0] == Unpacked(Constant(X_BIT)) && d.Sound(d.loaded)
  {
    d := FirstTrigger();
    var cs := RoundOf(2, 1, 0);
    RoundOfTwo(1, 0);
    var status := d.Ready(cs[0]);
    status := d.Ready(cs[1]);
  }

  lemma FreshAgrees(reg: Registry, bufs: seq<seq<int>>)
    requires IsRegistry(reg) && TwoEach(reg) && |bufs| == SLOTS
    requires bufs[0] == Unpacked(Constant(X_BIT)) && bufs[1] == Unpacked(Constant(0))
    ensures var cs := RoundOf(2, 0, 1);
            Table(cs) && Agree(cs, bufs, FreshBufs(reg, cs))
  {
    var cs := RoundOf(2, 0, 1);
    RoundOfTwo(0, 1);
    RoundIsTable(2, 0, 1);
    FreshBuf(reg, cs, 0, Constant(X_BIT));
    FreshBuf(reg, cs, 1, Constant(0));
    SameLongest(cs, bufs, FreshBufs(reg, cs));
  }

  /** The next trigger comes: the frames of the round before are kept, which were right for it and are
      wrong for this one. */
  method TradedSequences() returns (d: Driver)
    ensures fresh(d) && d.Valid() && TwoEach(d.pulseseqs) && d.loaded == RoundOf(2, 1, 0)
    ensures Table(RoundOf(2, 0, 1)) && d.Sound(RoundOf(2, 0, 1)) && !d.Sound(d.loaded)
  {
    d := TradeReady();
    IdsCollide(2);
    TradedOutput(d.made, d.Wanted(RoundOf(2, 1, 0)), d.pulseseqs);
    var reload := d.Pretrigger();
  }

  lemma TradedOutput(made: Source, wanted: Source, reg: Registry)
    requires made.Valid() && made.cs == RoundOf(2, 0, 1) && made.bufs[0] == Unpacked(Constant(X_BIT))
    requires IsRegistry(reg) && TwoEach(reg) && wanted.Valid()
    requires wanted.cs == RoundOf(2, 1, 0) && wanted.bufs == FreshBufs(reg, wanted.cs)
    ensures !SameOutput(made, wanted)
  {
    RoundOfTwo(0, 1);
    RoundOfTwo(1, 0);
    ConstantUnpacks(X_BIT);
    ConstantUnpacks(0);
    FreshBuf(reg, wanted.cs, 0, Constant(0));
    LongestBounds(made.cs, made.bufs);
    ShareIsPositive(made.cs, 0);
    assert Listed(made.cs, 0) && made.Drive(0, 0) == MaxVal(0, NumActive(made.cs, 0));
    assert wanted.Drive(0, 0) == 0;
  }

  /** The first n pairs have a sequence that transmits, and are ready with it. */
  ghost predicate AllReady(d: Driver, n: nat)
    reads d
  {
    && d.Valid() && n <= SLOTS && d.round == RoundOf(n, 0, 0) && d.oldSeqId == NO_ID
    && forall s :: 0 <= s < n ==> d.pulseseqs[s][0] == Some(Constant(X_BIT))
  }

  method NextReady(d: Driver, n: nat)
    requires AllReady(d, n) && n < SLOTS
    modifies d
    ensures AllReady(d, n + 1)
  {
    RoundGrows(n);
    Enter(d, RoundOf(SLOTS, 0, 0)[n], Constant(X_BIT));
  }

  /** All eight pairs register a sequence and get ready. */
  method EveryoneReady() returns (d: Driver)
    ensures fresh(d) && AllReady(d, SLOTS)
  {
    d := new Driver();
    var i := 0;
    assert RoundOf(0, 0, 0) == [];
    while i < SLOTS
      invariant 0 <= i <= SLOTS && fresh(d) && AllReady(d, i)
    {
      NextReady(d, i);
      i := i + 1;
    }
  }

  /** The trigger plays silence. */
  method EightReady() returns (d: Driver)
    ensures fresh(d) && d.Valid() && |d.frames| == 16 * 20
    ensures forall x :: 0 <= x < |d.frames| ==> d.frames[x] == 0
    ensures forall s :: 0 <= s < SLOTS ==> d.pulseseqs[s][0] == Some(Constant(X_BIT))
    ensures Table(RoundOf(SLOTS, 0, 0)) && !d.Sound(RoundOf(SLOTS, 0, 0))
  {
    d := EveryoneReady();
    EightPlay(d.pulseseqs);
    var reload := d.Pretrigger();
    NoClients(d.frames, d.seqBuf, d.ifmode);
  }

  lemma RoundGrows(i: nat)
    requires i < SLOTS
    ensures var cl := RoundOf(SLOTS, 0, 0)[i];
            && cl.InRange() && cl.Slot() == i && cl.index == 0
            && Table(RoundOf(i, 0, 0)) && Placed(RoundOf(i, 0, 0), cl) == RoundOf(i + 1, 0, 0)
  {
    RoundIsTable(SLOTS, 0, 0);
    RoundIsTable(i, 0, 0);
    PositionIs(RoundOf(i, 0, 0), i);
  }

  lemma NoClients(data: seq<int>, bufs: seq<seq<int>>, ifmode: bool)
    requires |bufs| == SLOTS && IsFrames(data, [], bufs, ifmode)
    ensures |data| == OUTPUTS * TAIL && forall x :: 0 <= x < |data| ==> data[x] == 0
  {
    assert !IfListed([], 8) && !IfListed([], 12);
  }

  lemma EightPlay(reg: Registry)
    requires IsRegistry(reg) && forall s :: 0 <= s < SLOTS ==> reg[s][0] == Some(Constant(X_BIT))
    ensures var cs := RoundOf(SLOTS, 0, 0);
            Table(cs) && Longest(cs, FreshBufs(reg, cs)) >= 174
  {
    var cs := RoundOf(SLOTS, 0, 0);
    RoundIsTable(SLOTS, 0, 0);
    ConstantUnpacks(X_BIT);
    assert cs[0].Slot() == 0;
    FreshBuf(reg, cs, 0, Constant(X_BIT));
    LongestBounds(cs, FreshBufs(reg, cs));
  }
}
