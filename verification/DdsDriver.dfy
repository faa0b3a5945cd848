/** The state the DDS driver keeps between messages: registered sequences, the unpacked copies
    it caches, the table of ready clients, and the frames it last loaded. */
module DdsDriver {
  import opened Common
  import opened TsgBuffer
  import opened DdsUnpack
  import opened DdsFrames

  const MAX_SEQS: nat := 4
  const NO_ID: int := -10

  type Registry = seq<seq<Option<PulseSeq>>>

  predicate IsRegistry(reg: Registry) {
    && |reg| == SLOTS
    && (forall s {:trigger reg[s]} :: 0 <= s < SLOTS ==> |reg[s]| == MAX_SEQS)
    && (forall s, p :: 0 <= s < SLOTS && 0 <= p < MAX_SEQS && reg[s][p].Some? ==> reg[s][p].value.Valid())
  }

  predicate Registered(reg: Registry, s: nat, p: int)
    requires IsRegistry(reg) && s < SLOTS
  {
    0 <= p < MAX_SEQS && reg[s][p].Some?
  }

  /** A cached unpacking is that of the sequence now registered under its index. */
  predicate Coherent(reg: Registry, oldPulse: seq<int>, bufs: seq<seq<int>>)
    requires IsRegistry(reg) && |oldPulse| == SLOTS && |bufs| == SLOTS
  {
    forall s :: 0 <= s < SLOTS && oldPulse[s] >= 0 ==>
      Registered(reg, s, oldPulse[s]) && bufs[s] == Unpacked(reg[s][oldPulse[s]].value)
  }

  /** Unpacked samples are -1, 0 or 1. */
  lemma UnpackedIsUnit(p: PulseSeq)
    requires p.Valid()
    ensures Unit(Unpacked(p))
  {
    var w, ratio := Expand(p.code, p.rep), Ratio(p.step);
    forall i | 0 <= i < |Stretch(w, ratio)| ensures -1 <= Stretch(w, ratio)[i] <= 1 {
      StretchAt(w, ratio, i);
    }
  }

  /** The position of a client's pair in the ready table, or -1. */
  function Position(cs: seq<Client>, slot: nat): int
    requires forall i :: 0 <= i < |cs| ==> cs[i].InRange()
  {
    if cs == [] then -1
    else if cs[|cs| - 1].Slot() == slot then |cs| - 1
    else Position(cs[..|cs| - 1], slot)
  }

  lemma {:induction false} PositionIs(cs: seq<Client>, slot: nat)
    requires Table(cs)
    ensures var k := Position(cs, slot);
            && -1 <= k < |cs| && (k >= 0 <==> Listed(cs, slot))
            && (k >= 0 ==> cs[k].Slot() == slot)
            && (forall i :: 0 <= i < |cs| && cs[i].Slot() == slot ==> i == k)
  {
    if cs != [] {
      PositionIs(cs[..|cs| - 1], slot);
      ListedNext(cs, slot);
    }
  }

  /** The table after a client gets ready: its entry replaced, or appended. */
  function Placed(cs: seq<Client>, cl: Client): seq<Client>
    requires Table(cs) && cl.InRange()
  {
    PositionIs(cs, cl.Slot());
    var k := Position(cs, cl.Slot());
    if k >= 0 then cs[k := cl] else cs + [cl]
  }

  /** Placing keeps every other pair's entry and leaves one entry, the latest, for this pair. */
  lemma PlacedIsLatest(cs: seq<Client>, cl: Client)
    requires Table(cs) && cl.InRange()
    ensures Table(Placed(cs, cl)) && cl in Placed(cs, cl)
    ensures forall other: Client :: other.InRange() && other.Slot() != cl.Slot() ==>
              (other in Placed(cs, cl) <==> other in cs)
    ensures |Placed(cs, cl)| <= SLOTS
  {
    PositionIs(cs, cl.Slot());
    var k := Position(cs, cl.Slot());
    var t := Placed(cs, cl);
    if k >= 0 {
      assert t[k] == cl;
    } else {
      assert t[|cs|] == cl;
      forall i | 0 <= i < |cs| ensures t[i].Slot() != cl.Slot() {
        assert t[i] == cs[i];
      }
    }
    forall other: Client | other.InRange() && other.Slot() != cl.Slot() && other in cs ensures other in t {
      var i :| 0 <= i < |cs| && cs[i] == other;
      assert t[i] == other;
    }
    TableFits(t);
  }

  /** The reload id of a round. */
  function SeqId(cs: seq<Client>): int {
    if cs == [] then -1
    else SeqId(cs[..|cs| - 1]) + IdPart(cs[|cs| - 1])
  }

  function IdPart(cl: Client): int {
    (cl.radar - 1) * 1000 + (cl.channel - 1) * 100 + cl.index + 1
  }

  /** The id starts at -1, and every client adds 1, its index, 100 for each channel before its own and
      1000 for each radar. */
  lemma IdGrows(cs: seq<Client>, cl: Client)
    ensures SeqId([]) == -1
    ensures SeqId(cs + [cl]) == SeqId(cs) + 1000 * (cl.radar - 1) + 100 * (cl.channel - 1) + cl.index + 1
  {
    assert (cs + [cl])[..|cs|] == cs;
  }

  /** The registered sequence of every client of a round, unpacked. */
  function FreshBufs(reg: Registry, cs: seq<Client>): seq<seq<int>>
    requires IsRegistry(reg) && Table(cs)
  {
    seq(SLOTS, s requires 0 <= s < SLOTS =>
      PositionIs(cs, s);
      var k := Position(cs, s);
      if k >= 0 && Registered(reg, s, cs[k].index) then Unpacked(reg[s][cs[k].index].value) else [])
  }

  /** Client j of the round has sequence p registered. */
  predicate Plays(reg: Registry, cs: seq<Client>, j: nat, p: PulseSeq)
  {
    && IsRegistry(reg) && Table(cs) && j < |cs|
    && Registered(reg, cs[j].Slot(), cs[j].index) && reg[cs[j].Slot()][cs[j].index] == Some(p)
  }

  /** The drive client j gets. */
  function Share(cs: seq<Client>, j: nat): nat
    requires j < |cs|
  {
    MaxVal(cs[j].radar - 1, NumActive(cs, cs[j].radar - 1))
  }

  /** The output of a client carries its unpacked sequence, scaled to a share that is not 0. */
  lemma FrameCell(reg: Registry, cs: seq<Client>, j: nat, p: PulseSeq, data: seq<int>, ifmode: bool,
                  i: nat, x: nat)
    requires Plays(reg, cs, j, p) && p.Valid() && i < |Unpacked(p)| && x == OUTPUTS * i + cs[j].Slot()
    requires IsFrames(data, cs, FreshBufs(reg, cs), ifmode)
    ensures x < |data| && 0 < Share(cs, j) && data[x] == Unpacked(p)[i] * Share(cs, j)
  {
    FreshBuf(reg, cs, j, p);
    BufferCell(data, cs, FreshBufs(reg, cs), ifmode, j, Unpacked(p), i, x);
  }

  lemma BufferCell(data: seq<int>, cs: seq<Client>, bufs: seq<seq<int>>, ifmode: bool, j: nat,
                   buf: seq<int>, i: nat, x: nat)
    requires Table(cs) && |bufs| == SLOTS && IsFrames(data, cs, bufs, ifmode) && j < |cs|
    requires bufs[cs[j].Slot()] == buf && i < |buf| && x == OUTPUTS * i + cs[j].Slot()
    ensures x < |data| && 0 < Share(cs, j) && data[x] == buf[i] * Share(cs, j)
  {
    ClientCell(data, cs, bufs, ifmode, j, i);
  }

  lemma FreshBuf(reg: Registry, cs: seq<Client>, j: nat, p: PulseSeq)
    requires Plays(reg, cs, j, p) && p.Valid()
    ensures FreshBufs(reg, cs)[cs[j].Slot()] == Unpacked(p)
  {
    PositionIs(cs, cs[j].Slot());
  }

  /** Sample i of a buffer, 0 past its end. */
  function At(buf: seq<int>, i: nat): int { if i < |buf| then buf[i] else 0 }

  /** Listed clients have the same samples in both, frame by frame, and the longest buffers of the
      two are equally long. */
  predicate Agree(cs: seq<Client>, a: seq<seq<int>>, b: seq<seq<int>>)
    requires Table(cs) && |a| == SLOTS && |b| == SLOTS
  {
    && Longest(cs, a) == Longest(cs, b)
    && forall s, i :: 0 <= s < SLOTS && Listed(cs, s) && 0 <= i < Longest(cs, a) ==> At(a[s], i) == At(b[s], i)
  }

  /** Frames made from some buffers are also those of others if and only if the two agree. */
  lemma FramesAgree(data: seq<int>, cs: seq<Client>, a: seq<seq<int>>, b: seq<seq<int>>, ifmode: bool)
    requires Table(cs) && |a| == SLOTS && |b| == SLOTS && IsFrames(data, cs, a, ifmode)
    ensures IsFrames(data, cs, b, ifmode) <==> Agree(cs, a, b)
  {
    if IsFrames(data, cs, b, ifmode) {
      forall s, i | 0 <= s < SLOTS && Listed(cs, s) && 0 <= i < Longest(cs, a) ensures At(a[s], i) == At(b[s], i) {
        SameSample(data, cs, a, b, ifmode, s, i);
      }
    }
    if Agree(cs, a, b) {
      LongestBounds(cs, a);
      LongestBounds(cs, b);
      forall x | 0 <= x < |data| ensures Cell(cs, cs, a, ifmode, x) == Cell(cs, cs, b, ifmode, x) {
        if x % OUTPUTS < SLOTS { AgreeCell(cs, a, b, x / OUTPUTS, x % OUTPUTS); }
      }
    }
  }

  lemma SampleCell(data: seq<int>, cs: seq<Client>, bufs: seq<seq<int>>, ifmode: bool, j: nat, i: nat)
    requires Table(cs) && |bufs| == SLOTS && IsFrames(data, cs, bufs, ifmode) && j < |cs|
    requires i < FrameCount(cs, bufs)
    ensures data[OUTPUTS * i + cs[j].Slot()] == At(bufs[cs[j].Slot()], i) * Share(cs, j)
  {
    var slot, x := cs[j].Slot(), OUTPUTS * i + cs[j].Slot();
    assert Listed(cs, slot);
    assert x / OUTPUTS == i && x % OUTPUTS == slot && slot / MAX_CHANNELS == cs[j].radar - 1;
    assert data[x] == RfCell(cs, cs, bufs, i, slot);
  }

  lemma SameSample(data: seq<int>, cs: seq<Client>, a: seq<seq<int>>, b: seq<seq<int>>, ifmode: bool,
                   s: nat, i: nat)
    requires Table(cs) && |a| == SLOTS && |b| == SLOTS && s < SLOTS && Listed(cs, s)
    requires IsFrames(data, cs, a, ifmode) && IsFrames(data, cs, b, ifmode) && i < Longest(cs, a)
    ensures At(a[s], i) == At(b[s], i)
  {
    var j :| 0 <= j < |cs| && cs[j].Slot() == s;
    SampleCell(data, cs, a, ifmode, j, i);
    SampleCell(data, cs, b, ifmode, j, i);
    ShareIsPositive(cs, j);
    MulCancel(At(a[s], i), At(b[s], i), Share(cs, j));
  }

  lemma MulCancel(a: int, b: int, c: nat)
    requires 0 < c && a * c == b * c
    ensures a == b
  {
    if a < b { MulMono(a + 1, b, c); }
    if b < a { MulMono(b + 1, a, c); }
  }

  lemma AgreeCell(cs: seq<Client>, a: seq<seq<int>>, b: seq<seq<int>>, i: nat, ch: nat)
    requires Table(cs) && |a| == SLOTS && |b| == SLOTS && ch < SLOTS && Agree(cs, a, b)
    requires forall j :: 0 <= j < |cs| ==>
               |a[cs[j].Slot()]| <= Longest(cs, a) && |b[cs[j].Slot()]| <= Longest(cs, b)
    ensures RfCell(cs, cs, a, i, ch) == RfCell(cs, cs, b, i, ch)
  {
    var share := MaxVal(ch / MAX_CHANNELS, NumActive(cs, ch / MAX_CHANNELS));
    if Listed(cs, ch) {
      assert RfCell(cs, cs, a, i, ch) == At(a[ch], i) * share;
      assert RfCell(cs, cs, b, i, ch) == At(b[ch], i) * share;
      if i < Longest(cs, a) { assert At(a[ch], i) == At(b[ch], i); }
    }
  }

  /** What frames are made from: a round, buffers and the IF mode. */
  datatype Source = Source(cs: seq<Client>, bufs: seq<seq<int>>, ifmode: bool)
  {
    predicate Valid() { Table(cs) && |bufs| == SLOTS }

    function Length(): nat
      requires Valid()
    {
      Longest(cs, bufs)
    }

    /** The drive of a channel in frame i: its sample times its share, or none. */
    function Drive(s: nat, i: nat): int
      requires Valid() && s < SLOTS
    {
      if Listed(cs, s) then At(bufs[s], i) * MaxVal(s / MAX_CHANNELS, NumActive(cs, s / MAX_CHANNELS)) else 0
    }

    /** The constant goes out on the IF output ch. */
    predicate Constant(ch: nat) { ifmode && IfListed(cs, ch) }
  }

  /** Two sources call for the same number of frames, the same drive of every channel in each, and the
      same constants. */
  predicate SameOutput(a: Source, b: Source)
    requires a.Valid() && b.Valid()
  {
    && a.Length() == b.Length()
    && (forall s, i :: 0 <= s < SLOTS && 0 <= i < a.Length() ==> a.Drive(s, i) == b.Drive(s, i))
    && (1 < a.Length() ==> a.Constant(8) == b.Constant(8) && a.Constant(12) == b.Constant(12))
  }

  ghost predicate MadeFrom(data: seq<int>, m: Source)
    requires m.Valid()
  {
    IsFrames(data, m.cs, m.bufs, m.ifmode)
  }

  lemma DriveIsCell(m: Source, s: nat, i: nat)
    requires m.Valid() && s < SLOTS
    ensures RfCell(m.cs, m.cs, m.bufs, i, s) == m.Drive(s, i)
    ensures m.Length() <= i ==> m.Drive(s, i) == 0
  {
    LongestBounds(m.cs, m.bufs);
  }

  lemma ConstantIsCell(m: Source, ch: nat, i: nat)
    requires m.Valid() && SLOTS <= ch < OUTPUTS
    ensures IfCell(m.cs, m.ifmode, m.Length(), i, ch) ==
            if ch in {8, 12} && i + 1 < m.Length() && m.Constant(ch) then IF_LEVEL else 0
  {
  }

  /** Frames made from one source are those of another if and only if the two call for the same
      output, whatever rounds they are. */
  lemma FramesSame(data: seq<int>, a: Source, b: Source)
    requires a.Valid() && b.Valid() && MadeFrom(data, a)
    ensures MadeFrom(data, b) <==> SameOutput(a, b)
  {
    if MadeFrom(data, b) {
      forall s, i | 0 <= s < SLOTS && 0 <= i < a.Length() ensures a.Drive(s, i) == b.Drive(s, i) {
        DriveAt(data, a, s, i);
        DriveAt(data, b, s, i);
      }
      if 1 < a.Length() {
        ConstantAt(data, a, 8);
        ConstantAt(data, b, 8);
        ConstantAt(data, a, 12);
        ConstantAt(data, b, 12);
      }
    }
    if SameOutput(a, b) {
      forall x | 0 <= x < |data| ensures data[x] == Cell(b.cs, b.cs, b.bufs, b.ifmode, x) {
        SameCells(a, b, x);
      }
    }
  }

  lemma DriveAt(data: seq<int>, m: Source, s: nat, i: nat)
    requires m.Valid() && MadeFrom(data, m) && s < SLOTS && i < m.Length()
    ensures data[OUTPUTS * i + s] == m.Drive(s, i)
  {
    var x := OUTPUTS * i + s;
    assert x / OUTPUTS == i && x % OUTPUTS == s;
    DriveIsCell(m, s, i);
  }

  lemma ConstantAt(data: seq<int>, m: Source, ch: nat)
    requires m.Valid() && MadeFrom(data, m) && ch in {8, 12} && 1 < m.Length()
    ensures data[ch] == if m.Constant(ch) then IF_LEVEL else 0
  {
    assert ch / OUTPUTS == 0 && ch % OUTPUTS == ch;
    ConstantIsCell(m, ch, 0);
  }

  lemma SameCells(a: Source, b: Source, x: nat)
    requires a.Valid() && b.Valid() && SameOutput(a, b)
    ensures Cell(a.cs, a.cs, a.bufs, a.ifmode, x) == Cell(b.cs, b.cs, b.bufs, b.ifmode, x)
  {
    var i, ch := x / OUTPUTS, x % OUTPUTS;
    if ch < SLOTS {
      DriveIsCell(a, ch, i);
      DriveIsCell(b, ch, i);
      if i < a.Length() { assert a.Drive(ch, i) == b.Drive(ch, i); }
    } else {
      ConstantIsCell(a, ch, i);
      ConstantIsCell(b, ch, i);
    }
  }

  /** The sum of the indices of the sequences of a round. */
  function IndexSum(cs: seq<Client>): int {
    if cs == [] then 0 else IndexSum(cs[..|cs| - 1]) + cs[|cs| - 1].index
  }

  /** What a pair adds to the reload id, whatever its sequence. */
  function PairPart(cs: seq<Client>, s: nat): int
    requires Table(cs)
  {
    if Listed(cs, s) then s / MAX_CHANNELS * 1000 + s % MAX_CHANNELS * 100 + 1 else 0
  }

  function PairParts(cs: seq<Client>): int
    requires Table(cs)
  {
    PairPart(cs, 0) + PairPart(cs, 1) + PairPart(cs, 2) + PairPart(cs, 3)
    + PairPart(cs, 4) + PairPart(cs, 5) + PairPart(cs, 6) + PairPart(cs, 7)
  }

  /** The reload id is made of the pairs and the sum of the indices, and of nothing else. */
  lemma {:induction false} IdIsSum(cs: seq<Client>)
    requires Table(cs)
    ensures SeqId(cs) == PairParts(cs) + IndexSum(cs) - 1
  {
    if cs != [] {
      var m := |cs| - 1;
      TablePrefix(cs, m);
      IdIsSum(cs[..m]);
      assert !Listed(cs[..m], cs[m].Slot());
      forall s: nat ensures Listed(cs, s) <==> Listed(cs[..m], s) || cs[m].Slot() == s { ListedNext(cs, s); }
      PairPartsNext(cs, m);
    }
  }

  lemma PairPartsNext(cs: seq<Client>, m: nat)
    requires Table(cs) && m == |cs| - 1 && Table(cs[..m]) && !Listed(cs[..m], cs[m].Slot())
    requires forall s: nat :: Listed(cs, s) <==> Listed(cs[..m], s) || cs[m].Slot() == s
    ensures PairParts(cs) == PairParts(cs[..m]) + IdPart(cs[m]) - cs[m].index
  {
    var slot := cs[m].Slot();
    forall s: nat | s < SLOTS
      ensures PairPart(cs, s) == PairPart(cs[..m], s) + if s == slot then PairPart(cs, slot) else 0 {}
    assert PairPart(cs, slot) == IdPart(cs[m]) - cs[m].index;
  }

  /** For rounds of the same pairs the reload id is equal if and only if the indices add up to the
      same. */
  lemma SamePairIds(a: seq<Client>, b: seq<Client>)
    requires Table(a) && Table(b) && forall s: nat :: s < SLOTS ==> (Listed(a, s) <==> Listed(b, s))
    ensures SeqId(a) == SeqId(b) <==> IndexSum(a) == IndexSum(b)
  {
    IdIsSum(a);
    IdIsSum(b);
    SamePairParts(a, b);
  }

  lemma SamePairParts(a: seq<Client>, b: seq<Client>)
    requires Table(a) && Table(b) && forall s: nat :: s < SLOTS ==> (Listed(a, s) <==> Listed(b, s))
    ensures PairParts(a) == PairParts(b)
  {
    forall s: nat | s < SLOTS ensures PairPart(a, s) == PairPart(b, s) {}
  }

  /** So a round in which one client alone has changed its sequence is always told apart. */
  lemma OneChangeIsSeen(cs: seq<Client>, j: nat, cl: Client)
    requires Table(cs) && j < |cs| && cl.InRange() && cl.Slot() == cs[j].Slot() && cl.index != cs[j].index
    ensures Table(cs[j := cl]) && SeqId(cs[j := cl]) != SeqId(cs)
  {
    var t := cs[j := cl];
    forall s: nat ensures Listed(t, s) <==> Listed(cs, s) {
      if Listed(t, s) { var i :| 0 <= i < |t| && t[i].Slot() == s; assert cs[i].Slot() == s; }
      if Listed(cs, s) { var i :| 0 <= i < |cs| && cs[i].Slot() == s; assert t[i].Slot() == s; }
    }
    SamePairIds(cs, t);
    IndexSumAt(cs, j, cl);
  }

  lemma {:induction false} IndexSumAt(cs: seq<Client>, j: nat, cl: Client)
    requires j < |cs|
    ensures IndexSum(cs[j := cl]) == IndexSum(cs) - cs[j].index + cl.index
  {
    var m, t := |cs| - 1, cs[j := cl];
    if j < m {
      IndexSumAt(cs[..m], j, cl);
      assert t[..m] == cs[..m][j := cl];
    } else {
      assert t[..m] == cs[..m];
    }
  }

  /** The first n pairs, the first two with the sequences i and j. */
  function RoundOf(n: nat, i: int, j: int): (r: seq<Client>)
    ensures |r| == n
  {
    seq(n, s => Client(s / MAX_CHANNELS + 1, s % MAX_CHANNELS + 1, if s == 0 then i else if s == 1 then j else 0,
                       0, 0, 0))
  }

  lemma RoundIsTable(n: nat, i: int, j: int)
    requires n <= SLOTS
    ensures Table(RoundOf(n, i, j)) && forall s :: 0 <= s < n ==> RoundOf(n, i, j)[s].Slot() == s
    ensures forall s: nat :: Listed(RoundOf(n, i, j), s) <==> s < n
  {
    var cs := RoundOf(n, i, j);
    assert forall s :: 0 <= s < n ==> cs[s].InRange() && cs[s].Slot() == s;
    forall s: nat | s < n ensures Listed(cs, s) { assert cs[s].Slot() == s; }
  }

  lemma {:induction false} RoundSum(n: nat, i: int, j: int)
    requires 2 <= n
    ensures IndexSum(RoundOf(n, i, j)) == i + j
  {
    var cs := RoundOf(n, i, j);
    if n == 2 {
      assert cs[..1] == [cs[0]] && [cs[0]][..0] == [] && IndexSum([cs[0]]) == i;
    } else {
      assert cs[..n - 1] == RoundOf(n - 1, i, j);
      RoundSum(n - 1, i, j);
    }
  }

  /** Rounds of any larger size are not told apart: when two clients trade sequences, the frames of
      the round before stay loaded. */
  lemma IdsCollide(n: nat)
    requires 2 <= n < SLOTS
    ensures var a, b := RoundOf(n, 0, 1), RoundOf(n, 1, 0);
            && Table(a) && Table(b) && InSeqs(a) && InSeqs(b) && |a| == |b| == n
            && SeqId(a) == SeqId(b) && !SamePairs(a, b)
  {
    var a, b := RoundOf(n, 0, 1), RoundOf(n, 1, 0);
    RoundIsTable(n, 0, 1);
    RoundIsTable(n, 1, 0);
    RoundSum(n, 0, 1);
    RoundSum(n, 1, 0);
    SamePairIds(a, b);
    PositionIs(a, 0);
    PositionIs(b, 0);
    assert a[0].Slot() == 0 && b[0].Slot() == 0;
    assert SequenceOf(a, 0) != SequenceOf(b, 0);
  }

  /** Nor are rounds of different pairs: the second and third channel on their first sequence have
      the id of the fourth channel on its second. */
  lemma PairsCollide()
    ensures var a, b := Client(1, 2, 0, 0, 0, 0), Client(1, 3, 0, 0, 0, 0);
            var c := Client(1, 4, 1, 0, 0, 0);
            Table([a, b]) && Table([c]) && SeqId([a, b]) == SeqId([c]) && !SamePairs([a, b], [c])
  {
    var a, b, c := Client(1, 2, 0, 0, 0, 0), Client(1, 3, 0, 0, 0, 0), Client(1, 4, 1, 0, 0, 0);
    assert [a, b][..1] == [a] && [a][..0] == [] && [c][..0] == [];
    assert SeqId([a]) == 100;
    PositionIs([a, b], 3);
    assert [a, b][1] == b && [c][0] == c;
    PositionIs([c], 3);
    assert Listed([c], 3) && !Listed([a, b], 3);
    assert SequenceOf([a, b], 3) != SequenceOf([c], 3);
  }

  /** The driver's table and position index hold the clients of the round; the count of clients
      wraps to 0 when every pair is ready. */
  predicate TableHolds(clients: seq<Client>, readyIndex: seq<int>, numclients: nat, round: seq<Client>) {
    && Table(round) && |round| <= SLOTS && |clients| == |readyIndex| == SLOTS
    && (forall s :: 0 <= s < SLOTS ==> readyIndex[s] == Position(round, s))
    && clients[..|round|] == round
    && numclients == |round| % SLOTS
    && InSeqs(round)
  }

  predicate InSeqs(cs: seq<Client>) {
    forall i :: 0 <= i < |cs| ==> 0 <= cs[i].index < MAX_SEQS
  }

  /** A remembered reload id is that of the round of the last trigger, and frames with one were made
      from their source. */
  ghost predicate LoadedHolds(id: int, loaded: seq<Client>, frames: seq<int>, made: Source) {
    && Table(loaded) && InSeqs(loaded) && made.Valid()
    && (id != NO_ID ==> 0 <= id == SeqId(loaded) && MadeFrom(frames, made))
  }

  /** The count of clients wraps when every pair is ready, and only then. */
  lemma CountWraps(n: nat)
    requires n <= SLOTS
    ensures n % SLOTS == if n == SLOTS then 0 else n
  {
  }

  /** Placing a client keeps the table. */
  lemma TableKeeps(clients: seq<Client>, readyIndex: seq<int>, round: seq<Client>, cl: Client)
    requires TableHolds(clients, readyIndex, |round| % SLOTS, round)
    requires cl.InRange() && 0 <= cl.index < MAX_SEQS
    ensures var k, t := readyIndex[cl.Slot()], Placed(round, cl);
            && (0 <= k < |round| || (k == -1 && |round| < SLOTS))
            && |t| == (if k >= 0 then |round| else |round| + 1)
            && TableHolds(clients[(if k >= 0 then k else |round|) := cl],
                          readyIndex[cl.Slot() := if k >= 0 then k else |round|], |t| % SLOTS, t)
  {
    PositionIs(round, cl.Slot());
    PlacedIsLatest(round, cl);
    IndexKeeps(readyIndex, round, cl);
    var k := readyIndex[cl.Slot()];
    if k >= 0 {
      assert clients[k := cl][..|round|] == round[k := cl];
    } else {
      assert clients[|round| := cl][..|round| + 1] == round + [cl];
    }
  }

  lemma IndexKeeps(readyIndex: seq<int>, round: seq<Client>, cl: Client)
    requires Table(round) && cl.InRange() && Table(Placed(round, cl)) && |readyIndex| == SLOTS
    requires forall s :: 0 <= s < SLOTS ==> readyIndex[s] == Position(round, s)
    ensures var k := Position(round, cl.Slot());
            forall s :: 0 <= s < SLOTS ==>
              readyIndex[cl.Slot() := if k >= 0 then k else |round|][s] == Position(Placed(round, cl), s)
  {
    forall s: nat | s < SLOTS
      ensures Position(Placed(round, cl), s) ==
              if s == cl.Slot() && Position(round, s) < 0 then |round| else Position(round, s)
    {
      PositionIs(round, s);
      PlacedPosition(round, cl, s);
    }
  }

  lemma SurveyNext(cs: seq<Client>, i: nat, bufs: seq<seq<int>>)
    requires Table(cs) && i < |cs| && |bufs| == SLOTS && Table(cs[..i])
    ensures Table(cs[..i + 1]) && SeqId(cs[..i + 1]) == SeqId(cs[..i]) + IdPart(cs[i])
    ensures var len, rest := |bufs[cs[i].Slot()]|, Longest(cs[..i], bufs);
            Longest(cs[..i + 1], bufs) == if len >= rest then len else rest
  {
    TablePrefix(cs, i + 1);
    assert cs[..i + 1][..i] == cs[..i];
  }

  /** Go through the clients of a table. */
  method SurveyOf(cs: seq<Client>, bufs: seq<seq<int>>) returns (id: int, longest: nat)
    requires Table(cs) && |bufs| == SLOTS
    ensures id == SeqId(cs) && longest == Longest(cs, bufs)
  {
    id, longest := -1, 0;
    var i := 0;
    while i < |cs|
      invariant i <= |cs| && Table(cs[..i])
      invariant id == SeqId(cs[..i]) && longest == Longest(cs[..i], bufs)
    {
      SurveyNext(cs, i, bufs);
      var r, c := cs[i].radar - 1, cs[i].channel - 1;
      var slot := r * MAX_CHANNELS + c;
      if |bufs[slot]| >= longest { longest := |bufs[slot]|; }
      id := id + (r * 1000 + c * 100 + cs[i].index + 1);
      i := i + 1;
    }
    assert cs[..i] == cs;
  }

  /** The cached copy of every client of a round is of the sequence it is ready with. */
  predicate IsCurrent(cs: seq<Client>, oldPulse: seq<int>)
    requires Table(cs) && |oldPulse| == SLOTS
  {
    forall i :: 0 <= i < |cs| ==> oldPulse[cs[i].Slot()] == cs[i].index
  }

  /** So is that of every client but one. */
  predicate CurrentBut(cs: seq<Client>, s: nat, oldPulse: seq<int>)
    requires Table(cs) && |oldPulse| == SLOTS
  {
    forall i :: 0 <= i < |cs| && cs[i].Slot() != s ==> oldPulse[cs[i].Slot()] == cs[i].index
  }

  class Driver {
    var pulseseqs: Registry
    var oldPulse: seq<int>
    var readyIndex: seq<int>
    var seqBuf: seq<seq<int>>
    var clients: seq<Client>
    var numclients: nat
    var oldSeqId: int
    var newSeqId: int
    var ifmode: bool
    /** The frames last sent to the transmitter card. */
    var frames: seq<int>
    /** The clients ready in this round, in order, with their latest parameters. */
    ghost var round: seq<Client>
    /** The round of the last trigger, and what the frames were made from. */
    ghost var loaded: seq<Client>
    ghost var made: Source

    ghost predicate Valid()
      reads this
    {
      && IsRegistry(pulseseqs) && |oldPulse| == |seqBuf| == SLOTS
      && Coherent(pulseseqs, oldPulse, seqBuf) && Units(seqBuf)
      && TableHolds(clients, readyIndex, numclients, round)
      && LoadedHolds(oldSeqId, loaded, frames, made)
    }

    /** No client of the round has had a sequence registered since it got ready. */
    ghost predicate Current()
      reads this
      requires |oldPulse| == SLOTS && Table(round)
    {
      IsCurrent(round, oldPulse)
    }

    /** The table holds the whole round: it does unless every pair is ready. */
    ghost predicate Complete()
      reads this
    {
      |round| < SLOTS
    }

    constructor ()
      ensures Valid() && round == [] && oldSeqId == NO_ID
      ensures forall s :: 0 <= s < SLOTS ==> oldPulse[s] == -1
    {
      pulseseqs := seq(SLOTS, _ => seq(MAX_SEQS, _ => None));
      oldPulse, readyIndex, seqBuf := seq(SLOTS, _ => -1), seq(SLOTS, _ => -1), seq(SLOTS, _ => []);
      clients, numclients := seq(SLOTS, _ => Client(0, 0, 0, 0, 0, 0)), 0;
      oldSeqId, newSeqId, ifmode, frames := NO_ID, -1, false, [];
      round, loaded, made := [], [], Source([], seq(SLOTS, _ => []), false);
    }

    method RegisterSeq(cl: Client, index: nat, p: PulseSeq)
      requires Valid() && cl.InRange() && index < MAX_SEQS && p.Valid()
      modifies `pulseseqs, `oldPulse, `oldSeqId, `newSeqId
      ensures Valid() && oldPulse == old(oldPulse)[cl.Slot() := -1]
      ensures oldSeqId == NO_ID && newSeqId == -1
      ensures pulseseqs == old(pulseseqs)[cl.Slot() := old(pulseseqs)[cl.Slot()][index := Some(p)]]
      ensures Current() <==> old(Current()) && !Listed(round, cl.Slot())
    {
      CurrentUnless(round, cl.Slot(), oldPulse);
      pulseseqs := pulseseqs[cl.Slot() := pulseseqs[cl.Slot()][index := Some(p)]];
      oldPulse := oldPulse[cl.Slot() := -1];
      oldSeqId, newSeqId := NO_ID, -1;
    }

    method End()
      requires Valid()
      modifies `oldSeqId, `newSeqId
      ensures Valid() && oldSeqId == NO_ID && newSeqId == -1
    {
      oldSeqId, newSeqId := NO_ID, -1;
    }

    method RxfeSettings(mode: bool)
      requires Valid()
      modifies `ifmode
      ensures Valid() && ifmode == mode
    {
      ifmode := mode;
    }

    /** Put a client into the ready table. */
    method Place(cl: Client) returns (full: bool)
      requires TableHolds(clients, readyIndex, numclients, round)
      requires cl.InRange() && 0 <= cl.index < MAX_SEQS
      modifies `clients, `readyIndex, `numclients, `round
      ensures TableHolds(clients, readyIndex, numclients, round) && round == Placed(old(round), cl)
      ensures full <==> |round| == SLOTS && |old(round)| < SLOTS
    {
      TableKeeps(clients, readyIndex, round, cl);
      CountWraps(|round|);
      CountWraps(|Placed(round, cl)|);
      ghost var c, x, k := clients, readyIndex, readyIndex[cl.Slot()];
      if 0 <= readyIndex[cl.Slot()] < SLOTS {
        assert 0 <= k < |round|;
        clients := clients[readyIndex[cl.Slot()] := cl];
      } else {
        assert k == -1 && numclients == |round|;
        clients := clients[numclients := cl];
        readyIndex := readyIndex[cl.Slot() := numclients];
        numclients := numclients + 1;
      }
      assert clients == c[(if k >= 0 then k else |round|) := cl];
      assert readyIndex == x[cl.Slot() := if k >= 0 then k else |round|];
      round := Placed(round, cl);
      full := numclients >= SLOTS;
      numclients := numclients % SLOTS;
    }

    method Ready(cl: Client) returns (status: int)
      requires Valid() && cl.InRange() && Registered(pulseseqs, cl.Slot(), cl.index)
      modifies `clients, `readyIndex, `numclients, `round, `oldPulse, `seqBuf
      ensures Valid() && round == Placed(old(round), cl)
      ensures oldPulse == old(oldPulse)[cl.Slot() := cl.index]
      ensures seqBuf == old(seqBuf)[cl.Slot() := Unpacked(pulseseqs[cl.Slot()][cl.index].value)]
      ensures status == if |round| == SLOTS && |old(round)| < SLOTS then -2 else 1
      ensures Current() <==> old(CurrentBut(round, cl.Slot(), oldPulse))
      ensures old(Current()) ==> Current()
    {
      PlacedIsLatest(round, cl);
      StaysCurrent(round, cl, oldPulse);
      var full := Place(cl);
      Refresh(cl);
      status := if full then -2 else 1;
    }

    /** Unpack the client's sequence if it is not the one unpacked last. */
    method Refresh(cl: Client)
      requires IsRegistry(pulseseqs) && |oldPulse| == |seqBuf| == SLOTS
      requires Coherent(pulseseqs, oldPulse, seqBuf) && Units(seqBuf)
      requires cl.InRange() && Registered(pulseseqs, cl.Slot(), cl.index)
      modifies `oldPulse, `seqBuf
      ensures oldPulse == old(oldPulse)[cl.Slot() := cl.index]
      ensures seqBuf == old(seqBuf)[cl.Slot() := Unpacked(pulseseqs[cl.Slot()][cl.index].value)]
      ensures Coherent(pulseseqs, oldPulse, seqBuf) && Units(seqBuf)
    {
      UnpackedIsUnit(pulseseqs[cl.Slot()][cl.index].value);
      if cl.index != oldPulse[cl.Slot()] {
        var buf := Unpack(pulseseqs[cl.Slot()][cl.index].value);
        seqBuf := seqBuf[cl.Slot() := buf];
      }
      oldPulse := oldPulse[cl.Slot() := cl.index];
    }

    /** The reload id and the length of the longest sequence of the table. */
    method Survey() returns (id: int, longest: nat)
      requires Valid()
      ensures var cs := if Complete() then round else [];
              id == SeqId(cs) && longest == Longest(cs, seqBuf) && clients[..numclients] == cs
    {
      CountWraps(|round|);
      ghost var cs := if Complete() then round else [];
      assert clients[..numclients] == cs;
      id, longest := SurveyOf(clients[..numclients], seqBuf);
    }

    /** What the frames of a round should be made from: the registered sequences. */
    ghost function Wanted(cs: seq<Client>): Source
      reads this
      requires IsRegistry(pulseseqs) && Table(cs)
    {
      Source(cs, FreshBufs(pulseseqs, cs), ifmode)
    }

    /** The frames are those of the registered sequences of a round. */
    ghost predicate Sound(cs: seq<Client>)
      reads this
      requires IsRegistry(pulseseqs) && Table(cs)
    {
      MadeFrom(frames, Wanted(cs))
    }

    /** Make and send new frames for the round. */
    method SendFrames(cs: seq<Client>, longest: nat)
      requires Valid() && Table(cs) && InSeqs(cs) && longest == Longest(cs, seqBuf)
      modifies `frames, `made
      ensures made == Source(cs, seqBuf, ifmode) && MadeFrom(frames, made)
      ensures Sound(cs) <==> Agree(cs, seqBuf, FreshBufs(pulseseqs, cs))
      ensures IsCurrent(cs, oldPulse) ==> Sound(cs)
    {
      var data := TimingSequence(cs, seqBuf, longest, ifmode);
      frames := data[..];
      made := Source(cs, seqBuf, ifmode);
      FramesAgree(frames, cs, seqBuf, FreshBufs(pulseseqs, cs), ifmode);
      if IsCurrent(cs, oldPulse) { CurrentAgree(cs, seqBuf, pulseseqs, oldPulse); }
    }

    lemma KeptFrames(cs: seq<Client>)
      requires Valid() && Table(cs) && SamePairs(loaded, cs)
      ensures Sound(cs) <==> Sound(loaded)
    {
      SameSymmetric(loaded, cs);
      if Sound(loaded) { SameFrames(frames, loaded, cs, pulseseqs, ifmode); }
      if Sound(cs) { SameFrames(frames, cs, loaded, pulseseqs, ifmode); }
    }

    /** Send new frames unless the reload id is that of the last ones. */
    method Load() returns (reload: bool)
      requires Valid()
      modifies `frames, `newSeqId, `loaded, `made
      ensures var cs := if Complete() then round else [];
              && newSeqId == SeqId(cs) && reload == (SeqId(cs) != oldSeqId) && loaded == cs
              && (if reload then made == Source(cs, seqBuf, ifmode) else frames == old(frames) && made == old(made))
              && made.Valid() && MadeFrom(frames, made)
              && (reload ==> (Sound(cs) <==> Agree(cs, seqBuf, FreshBufs(pulseseqs, cs))))
              && (reload && Current() ==> Sound(cs))
              && (!reload && SamePairs(old(loaded), cs) ==> (Sound(cs) <==> old(Sound(loaded))))
    {
      var longest;
      newSeqId, longest := Survey();
      var cs := clients[..numclients];
      IdIsNat(cs);
      reload := newSeqId != oldSeqId;
      if reload {
        SendFrames(cs, longest);
      } else if SamePairs(loaded, cs) {
        KeptFrames(cs);
      }
      loaded := cs;
    }

    /** Make the frames of a trigger unless the reload id is that of the last ones, and start a
        new round.  The frames are those of the registered sequences if and only if what they were
        made from calls for the same output: for frames made anew, if the cached buffers of the
        round agree with the registered sequences, as they do for a current round; for frames kept
        for a round of the same pairs and sequences, if they were right before. */
    method Pretrigger() returns (reload: bool)
      requires Valid()
      modifies this
      ensures Valid() && round == [] && Current() && pulseseqs == old(pulseseqs)
      ensures oldPulse == old(oldPulse) && seqBuf == old(seqBuf) && ifmode == old(ifmode)
      ensures var cs := if old(Complete()) then old(round) else [];
              && reload == (SeqId(cs) != old(oldSeqId))
              && loaded == cs && oldSeqId == (if cs == [] then NO_ID else SeqId(cs))
              && (if reload then made == Source(cs, seqBuf, ifmode) else frames == old(frames) && made == old(made))
              && MadeFrom(frames, made) && (Sound(cs) <==> SameOutput(made, Wanted(cs)))
              && (reload ==> (Sound(cs) <==> Agree(cs, seqBuf, FreshBufs(pulseseqs, cs))))
              && (reload && old(Current()) ==> Sound(cs))
              && (!reload && SamePairs(old(loaded), cs) ==> (Sound(cs) <==> old(Sound(loaded))))
    {
      reload := Load();
      FramesSame(frames, made, Wanted(loaded));
      NewRound();
    }

    method NewRound()
      requires IsRegistry(pulseseqs) && |oldPulse| == |seqBuf| == SLOTS
      requires Coherent(pulseseqs, oldPulse, seqBuf) && Units(seqBuf)
      requires |clients| == SLOTS && Table(loaded) && InSeqs(loaded) && newSeqId == SeqId(loaded)
      requires made.Valid() && MadeFrom(frames, made)
      modifies `numclients, `readyIndex, `round, `oldSeqId, `newSeqId
      ensures Valid() && round == []
      ensures oldSeqId == if loaded == [] then NO_ID else SeqId(loaded)
    {
      IdIsNat(loaded);
      numclients := 0;
      readyIndex := seq(SLOTS, _ => -1);
      round := [];
      oldSeqId := if newSeqId < 0 then NO_ID else newSeqId;
      newSeqId := -1;
    }
  }

  lemma {:induction false} IdIsNat(cs: seq<Client>)
    requires Table(cs) && InSeqs(cs)
    ensures SeqId(cs) >= |cs| - 1 && (cs == [] <==> SeqId(cs) < 0)
  {
    if cs != [] { IdIsNat(cs[..|cs| - 1]); }
  }

  /** The cached buffers of current clients are those of the registered sequences. */
  lemma CurrentAgree(cs: seq<Client>, bufs: seq<seq<int>>, reg: Registry, oldPulse: seq<int>)
    requires IsRegistry(reg) && Table(cs) && InSeqs(cs) && |oldPulse| == |bufs| == SLOTS
    requires Coherent(reg, oldPulse, bufs) && IsCurrent(cs, oldPulse)
    ensures Agree(cs, bufs, FreshBufs(reg, cs))
  {
    var own := FreshBufs(reg, cs);
    forall s | 0 <= s < SLOTS && Listed(cs, s) ensures bufs[s] == own[s] {
      PositionIs(cs, s);
    }
    SameLongest(cs, bufs, own);
  }

  lemma {:induction false} SameLongest(cs: seq<Client>, a: seq<seq<int>>, b: seq<seq<int>>)
    requires Table(cs) && |a| == SLOTS && |b| == SLOTS
    requires forall s :: 0 <= s < SLOTS && Listed(cs, s) ==> a[s] == b[s]
    ensures Longest(cs, a) == Longest(cs, b)
  {
    if cs != [] {
      var m := |cs| - 1;
      forall s: nat ensures Listed(cs[..m], s) ==> Listed(cs, s) { ListedNext(cs, s); }
      assert Listed(cs, cs[m].Slot());
      SameLongest(cs[..m], a, b);
    }
  }

  /** Two rounds have the same pairs ready with the same sequences. */
  predicate SamePairs(a: seq<Client>, b: seq<Client>)
    requires Table(a) && Table(b)
  {
    forall s :: 0 <= s < SLOTS ==> SequenceOf(a, s) == SequenceOf(b, s)
  }

  /** The sequence a pair is ready with, if it is. */
  function SequenceOf(cs: seq<Client>, s: nat): Option<int>
    requires Table(cs)
  {
    PositionIs(cs, s);
    if Position(cs, s) >= 0 then Some(cs[Position(cs, s)].index) else None
  }

  lemma ListedHasSequence(cs: seq<Client>, s: nat)
    requires Table(cs)
    ensures Listed(cs, s) <==> SequenceOf(cs, s).Some?
  {
    PositionIs(cs, s);
  }

  lemma SameListed(a: seq<Client>, b: seq<Client>, s: nat)
    requires Table(a) && Table(b) && SamePairs(a, b)
    ensures Listed(a, s) == Listed(b, s)
  {
    ListedHasSequence(a, s);
    ListedHasSequence(b, s);
  }

  lemma SameActive(a: seq<Client>, b: seq<Client>, r: nat)
    requires Table(a) && Table(b) && SamePairs(a, b) && r < MAX_RADARS
    ensures NumActive(a, r) == NumActive(b, r)
  {
    ActiveIsUsed(a, r);
    ActiveIsUsed(b, r);
    SameListed(a, b, 4 * r);
    SameListed(a, b, 4 * r + 1);
    SameListed(a, b, 4 * r + 2);
    SameListed(a, b, 4 * r + 3);
  }

  lemma LongestAtMost(a: seq<Client>, b: seq<Client>, bufs: seq<seq<int>>)
    requires Table(a) && Table(b) && SamePairs(a, b) && |bufs| == SLOTS
    ensures Longest(a, bufs) <= Longest(b, bufs)
  {
    LongestBounds(b, bufs);
    if Longest(a, bufs) > 0 {
      var j := LongestIs(a, bufs);
      SameListed(a, b, a[j].Slot());
    }
  }

  lemma {:induction false} LongestIs(cs: seq<Client>, bufs: seq<seq<int>>) returns (j: nat)
    requires Table(cs) && |bufs| == SLOTS && Longest(cs, bufs) > 0
    ensures j < |cs| && Longest(cs, bufs) == |bufs[cs[j].Slot()]|
  {
    j := |cs| - 1;
    if Longest(cs, bufs) != |bufs[cs[j].Slot()]| {
      j := LongestIs(cs[..j], bufs);
    }
  }

  lemma SameIfListed(a: seq<Client>, b: seq<Client>, ch: int)
    requires Table(a) && Table(b) && SamePairs(a, b) && IfListed(a, ch)
    ensures IfListed(b, ch)
  {
    var j :| 0 <= j < |a| && IfOutput(a[j]) == ch;
    SameListed(a, b, a[j].Slot());
    var k :| 0 <= k < |b| && b[k].Slot() == a[j].Slot();
    assert IfOutput(b[k]) == ch;
  }

  lemma SameSymmetric(a: seq<Client>, b: seq<Client>)
    requires Table(a) && Table(b) && SamePairs(a, b)
    ensures SamePairs(b, a)
  {
  }

  /** Such rounds call for the same frames. */
  lemma SameFrames(data: seq<int>, a: seq<Client>, b: seq<Client>, reg: Registry, ifmode: bool)
    requires IsRegistry(reg) && Table(a) && Table(b) && SamePairs(a, b)
    requires IsFrames(data, a, FreshBufs(reg, a), ifmode)
    ensures IsFrames(data, b, FreshBufs(reg, b), ifmode)
  {
    var fa, fb := FreshBufs(reg, a), FreshBufs(reg, b);
    forall s | 0 <= s < SLOTS ensures fa[s] == fb[s] {
      assert SequenceOf(a, s) == SequenceOf(b, s);
    }
    assert fa == fb;
    SameSymmetric(a, b);
    LongestAtMost(a, b, fa);
    LongestAtMost(b, a, fa);
    forall x: nat ensures Cell(a, a, fa, ifmode, x) == Cell(b, b, fa, ifmode, x) {
      SameCell(a, b, fa, ifmode, x);
    }
  }

  lemma SameCell(a: seq<Client>, b: seq<Client>, bufs: seq<seq<int>>, ifmode: bool, x: nat)
    requires Table(a) && Table(b) && SamePairs(a, b) && |bufs| == SLOTS
    requires Longest(a, bufs) == Longest(b, bufs)
    ensures Cell(a, a, bufs, ifmode, x) == Cell(b, b, bufs, ifmode, x)
  {
    var ch := x % OUTPUTS;
    if ch < SLOTS {
      SameListed(a, b, ch);
      SameActive(a, b, ch / MAX_CHANNELS);
    } else {
      SameSymmetric(a, b);
      if IfListed(a, ch) { SameIfListed(a, b, ch); }
      if IfListed(b, ch) { SameIfListed(b, a, ch); }
    }
  }

  lemma IdPartsAreDistinct(a: Client, b: Client)
    requires a.InRange() && b.InRange() && 0 <= a.index < MAX_SEQS && 0 <= b.index < MAX_SEQS
    ensures IdPart(a) == IdPart(b) <==> a.Slot() == b.Slot() && a.index == b.index
  {
  }

  lemma SequenceOfOne(cs: seq<Client>, s: nat)
    requires Table(cs) && |cs| == 1
    ensures SequenceOf(cs, s) == if cs[0].Slot() == s then Some(cs[0].index) else None
  {
    PositionIs(cs, s);
  }

  lemma IdOfOne(cs: seq<Client>)
    requires |cs| == 1
    ensures SeqId(cs) == IdPart(cs[0]) - 1
  {
    assert cs[..0] == [];
  }

  /** For rounds of one client the reload id tells the pair and the sequence apart. */
  lemma SingleIdsAreDistinct(a: seq<Client>, b: seq<Client>)
    requires Table(a) && Table(b) && InSeqs(a) && InSeqs(b) && |a| == |b| == 1
    ensures SeqId(a) == SeqId(b) <==> SamePairs(a, b)
  {
    IdOfOne(a);
    IdOfOne(b);
    IdPartsAreDistinct(a[0], b[0]);
    forall s: nat ensures SequenceOf(a, s) == (if a[0].Slot() == s then Some(a[0].index) else None)
                  ensures SequenceOf(b, s) == (if b[0].Slot() == s then Some(b[0].index) else None) {
      SequenceOfOne(a, s);
      SequenceOfOne(b, s);
    }
    if SamePairs(a, b) {
      assert SequenceOf(a, a[0].Slot()) == SequenceOf(b, a[0].Slot());
    }
  }

  /** A ready request makes its own client current and leaves the others as they are. */
  lemma StaysCurrent(cs: seq<Client>, cl: Client, oldPulse: seq<int>)
    requires Table(cs) && cl.InRange() && |oldPulse| == SLOTS && Table(Placed(cs, cl))
    ensures IsCurrent(Placed(cs, cl), oldPulse[cl.Slot() := cl.index]) <==> CurrentBut(cs, cl.Slot(), oldPulse)
  {
    PositionIs(cs, cl.Slot());
    var k, t, o := Position(cs, cl.Slot()), Placed(cs, cl), oldPulse[cl.Slot() := cl.index];
    if IsCurrent(t, o) {
      forall i | 0 <= i < |cs| && cs[i].Slot() != cl.Slot() ensures oldPulse[cs[i].Slot()] == cs[i].index {
        assert t[i] == cs[i];
      }
    }
  }

  /** Forgetting a cached copy leaves a round current if and only if its pair is not in the round. */
  lemma CurrentUnless(cs: seq<Client>, s: nat, oldPulse: seq<int>)
    requires Table(cs) && InSeqs(cs) && |oldPulse| == SLOTS && s < SLOTS
    ensures IsCurrent(cs, oldPulse[s := -1]) <==> IsCurrent(cs, oldPulse) && !Listed(cs, s)
  {
    var o := oldPulse[s := -1];
    if IsCurrent(cs, o) {
      forall i | 0 <= i < |cs| ensures cs[i].Slot() != s && oldPulse[cs[i].Slot()] == cs[i].index {
        assert o[cs[i].Slot()] == cs[i].index;
      }
    }
  }

  lemma PlacedPosition(cs: seq<Client>, cl: Client, s: nat)
    requires Table(cs) && cl.InRange() && Table(Placed(cs, cl))
    ensures Position(Placed(cs, cl), s) == if s == cl.Slot() && !Listed(cs, s) then |cs| else Position(cs, s)
  {
    PositionIs(cs, cl.Slot());
    PositionIs(cs, s);
    var t := Placed(cs, cl);
    PositionIs(t, s);
    var k := Position(cs, s);
    if k >= 0 {
      assert t[k].Slot() == s;
    }
    var k' := Position(t, s);
    if k' >= 0 && k' < |cs| {
      assert cs[k'].Slot() == s;
    }
  }
}
