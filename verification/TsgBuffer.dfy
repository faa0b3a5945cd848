/** The run-length buffer of a pulse sequence and the waveform it stands for. */
module TsgBuffer {
  import opened Common
  import opened TsgStates

  function Repeat<T>(x: T, n: nat): (r: seq<T>) {
    seq(n, _ => x)
  }

  /** The waveform: every code held for its repeat count. */
  function Expand(code: seq<bv8>, rep: seq<Byte>): seq<bv8>
    requires |code| == |rep|
  {
    if code == [] then []
    else Expand(code[..|code| - 1], rep[..|rep| - 1]) + Repeat(code[|code| - 1], rep[|rep| - 1])
  }

  lemma ExpandAppend(code: seq<bv8>, rep: seq<Byte>, c: bv8, n: Byte)
    requires |code| == |rep|
    ensures Expand(code + [c], rep + [n]) == Expand(code, rep) + Repeat(c, n)
  {
    assert (code + [c])[..|code|] == code && (rep + [n])[..|rep|] == rep;
  }

  lemma RepeatAdd<T>(w: seq<T>, x: T, a: nat, b: nat)
    ensures w + Repeat(x, a) + Repeat(x, b) == w + Repeat(x, a + b)
  {
  }

  lemma {:induction false} ExpandPrefix(code: seq<bv8>, rep: seq<Byte>, c: nat)
    requires |code| == |rep| && c <= |code|
    ensures Expand(code[..c], rep[..c]) <= Expand(code, rep)
    decreases |code|
  {
    if c < |code| {
      var m := |code| - 1;
      ExpandPrefix(code[..m], rep[..m], c);
      assert code[..m][..c] == code[..c] && rep[..m][..c] == rep[..c];
    } else {
      assert code[..c] == code && rep[..c] == rep;
    }
  }

  lemma ExpandNext(code: seq<bv8>, rep: seq<Byte>, c: nat)
    requires |code| == |rep| && c < |code|
    ensures Expand(code[..c + 1], rep[..c + 1]) == Expand(code[..c], rep[..c]) + Repeat(code[c], rep[c])
  {
    ExpandAppend(code[..c], rep[..c], code[c], rep[c]);
    assert code[..c] + [code[c]] == code[..c + 1] && rep[..c] + [rep[c]] == rep[..c + 1];
  }

  /** The sample bit is clear for exactly the first n steps. */
  predicate QuietFor(w: seq<bv8>, n: nat) {
    && n <= |w| && (forall u :: 0 <= u < n ==> !HasSample(w[u]))
    && (n < |w| ==> HasSample(w[n]))
  }

  /** A delay that does not fit a byte and is not split is truncated to one. */
  function Held(delay: int): nat {
    if delay < 0 then delay % 256 else delay
  }

  /** How many entries one write takes. */
  function Entries(delay: int): nat {
    if delay <= 255 then 1 else 1 + (delay - 1) / 255
  }

  /** A write takes no more entries than 255 steps each make necessary, and at least one. */
  lemma EntriesAreLeast(delay: int)
    ensures delay <= 0 ==> Entries(delay) == 1
    ensures 0 < delay ==> 255 * (Entries(delay) - 1) < delay <= 255 * Entries(delay)
    ensures 0 <= delay ==> Held(delay) == delay
    ensures delay < 0 ==> Held(delay) < 256 && (Held(delay) - delay) % 256 == 0
  {
  }

  predicate EndsHigh(w: seq<bv8>) { w != [] && HasSample(w[|w| - 1]) }

  /** The number of rising edges of the sample bit. */
  function Rises(w: seq<bv8>): nat {
    if w == [] then 0
    else Rises(w[..|w| - 1]) +
         if HasSample(w[|w| - 1]) && !EndsHigh(w[..|w| - 1]) then 1 else 0
  }

  lemma {:induction false} RisesAppend(w: seq<bv8>, c: bv8, n: nat)
    ensures Rises(w + Repeat(c, n)) == Rises(w) + if n > 0 && HasSample(c) && !EndsHigh(w) then 1 else 0
    ensures EndsHigh(w + Repeat(c, n)) == if n > 0 then HasSample(c) else EndsHigh(w)
  {
    if n == 0 {
      assert w + Repeat(c, n) == w;
    } else {
      RisesAppend(w, c, n - 1);
      assert (w + Repeat(c, n))[..|w| + n - 1] == w + Repeat(c, n - 1);
    }
  }

  class TsgCnt {
    var last: bool
    var nSmp: int

    constructor ()
      ensures !last && nSmp == 0
    {
      last, nSmp := false, 0;
    }
  }

  class TsgBuf {
    var index: int
    var step: int
    var code: seq<bv8>
    var rep: seq<Byte>

    predicate Valid()
      reads this
    {
      && |code| == |rep|
      && forall c :: 0 <= c < |code| && HasSample(code[c]) ==> rep[c] > 0
    }

    function Wave(): seq<bv8>
      reads this
      requires Valid()
    {
      Expand(code, rep)
    }

    /** The counter has seen exactly the buffer's waveform. */
    predicate Counted(cnt: TsgCnt)
      reads this, cnt
      requires Valid()
    {
      cnt.nSmp == Rises(Wave()) && cnt.last == EndsHigh(Wave())
    }

    constructor (step: int)
      ensures Valid() && code == [] && rep == [] && this.step == step
    {
      index, code, rep := 0, [], [];
      this.step := step;
    }

    /** Append one entry. */
    method Put(c: bv8, n: Byte)
      requires Valid() && (HasSample(c) ==> n > 0)
      modifies this`code, this`rep
      ensures Valid() && Wave() == old(Wave()) + Repeat(c, n) && |code| == old(|code|) + 1
    {
      ExpandAppend(code, rep, c, n);
      code, rep := code + [c], rep + [n];
    }

    method WrBuf(c: bv8, delay: int, cnt: TsgCnt)
      requires Valid() && (HasSample(c) ==> delay > 0)
      requires Counted(cnt)
      requires Held(delay) == 0 ==> !cnt.last
      modifies this`code, this`rep, cnt
      ensures Valid() && Wave() == old(Wave()) + Repeat(c, Held(delay))
      ensures |code| == old(|code|) + Entries(delay)
      ensures cnt.nSmp == old(cnt.nSmp) + (if HasSample(c) && !old(cnt.last) then 1 else 0)
      ensures cnt.last == HasSample(c)
      ensures Counted(cnt)
    {
      ghost var w := Wave();
      WrEntries(c, delay);
      RisesAppend(w, c, Held(delay));
      if HasSample(c) && !cnt.last { cnt.nSmp := cnt.nSmp + 1; }
      cnt.last := HasSample(c);
    }

    /** The splitting loop of WrBuf: entries of 255 and one of what is left. */
    method WrEntries(c: bv8, delay: int)
      requires Valid() && (HasSample(c) ==> delay > 0)
      modifies this`code, this`rep
      ensures Valid() && Wave() == old(Wave()) + Repeat(c, Held(delay))
      ensures |code| == old(|code|) + Entries(delay)
    {
      var delay := delay;
      ghost var total, w, n := delay, Wave(), 0;
      while delay > 255
        invariant Valid() && (n > 0 ==> delay > 0) && delay == total - 255 * n
        invariant Wave() == w + Repeat(c, 255 * n)
        invariant |code| == old(|code|) + n
      {
        Put(c, 255);
        RepeatAdd(w, c, 255 * n, 255);
        delay, n := delay - 255, n + 1;
      }
      Put(c, delay % 256);
      RepeatAdd(w, c, 255 * n, delay % 256);
    }

    /** The number of steps before the first sample. */
    method LeadSteps() returns (steps: nat)
      requires Valid()
      ensures QuietFor(Wave(), steps)
    {
      var c := 0;
      steps := 0;
      ExpandPrefix(code, rep, 0);
      while c < |code| && code[c] & S_BIT == 0
        invariant c <= |code| && steps == |Expand(code[..c], rep[..c])|
        invariant Expand(code[..c], rep[..c]) <= Wave()
        invariant forall u :: 0 <= u < steps ==> !HasSample(Wave()[u])
      {
        ExpandNext(code, rep, c);
        ExpandPrefix(code, rep, c + 1);
        steps := steps + rep[c];
        c := c + 1;
      }
      if c < |code| {
        ExpandNext(code, rep, c);
        ExpandPrefix(code, rep, c + 1);
      } else {
        assert code[..c] == code && rep[..c] == rep;
      }
    }
  }
}
