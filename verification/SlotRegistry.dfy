/** The table that gives control programs their radar and channel. */
module SlotRegistry {
  import opened Common

  /** A radar and channel; 0 or less asks for any. */
  datatype Pair = Pair(radar: int, channel: int)

  function PairOf(slot: nat): Pair { Pair(slot / MAX_CHANNELS + 1, slot % MAX_CHANNELS + 1) }

  /** The first free slot, or the number of slots. */
  function FirstFree(slots: seq<Option<nat>>): (i: nat)
    ensures i <= |slots| && (i < |slots| ==> slots[i].None?)
    ensures forall j :: 0 <= j < i ==> slots[j].Some?
  {
    if slots == [] || slots[0].None? then 0 else 1 + FirstFree(slots[1..])
  }

  /** The slots without a program. */
  function Freed(slots: seq<Option<nat>>, p: nat): (r: seq<Option<nat>>)
    ensures |r| == |slots|
    ensures forall i :: 0 <= i < |r| ==> r[i] == if slots[i] == Some(p) then None else slots[i]
  {
    seq(|slots|, i requires 0 <= i < |slots| => if slots[i] == Some(p) then None else slots[i])
  }

  /** What a request becomes: what it leaves open is taken from the first free slot. */
  function Settled(slots: seq<Option<nat>>, r: Pair): Pair {
    var i := FirstFree(slots);
    if i == |slots| then r
    else Pair(if r.radar <= 0 then PairOf(i).radar else r.radar,
              if r.channel <= 0 then PairOf(i).channel else r.channel)
  }

  /** Distinct slots have distinct pairs. */
  lemma PairsAreDistinct(i: nat, j: nat)
    ensures PairOf(i) == PairOf(j) <==> i == j
    ensures 1 <= PairOf(i).radar && 1 <= PairOf(i).channel <= 4
    ensures 4 * (PairOf(i).radar - 1) + PairOf(i).channel - 1 == i
  {
  }

  /** A request gets the radar and channel it names, and what it leaves open from the first free slot. */
  lemma GrantedAsNamed(slots: seq<Option<nat>>, r: Pair, i: nat)
    requires i < |slots| && slots[i].None? && PairOf(i) == Settled(slots, r)
    ensures (0 < r.radar ==> PairOf(i).radar == r.radar) && (0 < r.channel ==> PairOf(i).channel == r.channel)
    ensures var free := FirstFree(slots);
            && free <= i && slots[free].None? && (forall j :: 0 <= j < free ==> slots[j].Some?)
            && (r.radar <= 0 ==> PairOf(i).radar == PairOf(free).radar)
            && (r.channel <= 0 ==> PairOf(i).channel == PairOf(free).channel)
  {
  }

  class Registry {
    var slots: seq<Option<nat>>
    /** The pair each program was last given. */
    var info: map<nat, Pair>

    ghost predicate Valid()
      reads this
    {
      && |slots| == SLOTS
      && (forall i, j :: 0 <= i < j < SLOTS && slots[i].Some? ==> slots[i] != slots[j])
      && (forall i :: 0 <= i < SLOTS && slots[i].Some? ==>
            slots[i].value in info && info[slots[i].value] == PairOf(i))
    }

    constructor ()
      ensures Valid() && forall i :: 0 <= i < SLOTS ==> slots[i].None?
    {
      slots, info := seq(SLOTS, _ => None), map[];
    }

    method Unregister(p: nat) returns (status: nat)
      requires Valid()
      modifies `slots
      ensures Valid() && slots == Freed(old(slots), p)
      ensures status == if Some(p) in old(slots) then 1 else 0
    {
      status := 0;
      var i := 0;
      while i < SLOTS
        invariant i <= SLOTS == |slots|
        invariant forall j :: 0 <= j < SLOTS ==>
                    slots[j] == if j < i && old(slots)[j] == Some(p) then None else old(slots)[j]
        invariant status == if exists j :: 0 <= j < i && old(slots)[j] == Some(p) then 1 else 0
      {
        if slots[i] == Some(p) {
          status := status + 1;
          slots := slots[i := None];
        }
        i := i + 1;
      }
    }

    /** Give program p a slot.  Once p's own slot is freed, the request is completed from the
        first free slot, and it succeeds exactly if the slot it then names exists and is free. */
    method Register(p: nat, r: Pair) returns (status: int)
      requires Valid()
      modifies this
      ensures Valid() && status in {-1, 1}
      ensures var freed := Freed(old(slots), p);
              && (status == 1 <==>
                    exists i :: 0 <= i < SLOTS && freed[i].None? && PairOf(i) == Settled(freed, r))
              && (if status == 1 then
                    exists i :: 0 <= i < SLOTS && freed[i].None? && PairOf(i) == Settled(freed, r)
                      && slots == freed[i := Some(p)] && info == old(info)[p := PairOf(i)]
                  else slots == freed && info == old(info))
    {
      var n := Unregister(p);
      status := -1;
      var radar, channel := r.radar, r.channel;
      ghost var free := FirstFree(slots);
      var i := 0;
      while i < SLOTS && status == -1
        invariant i <= SLOTS && Valid() && status in {-1, 1}
        invariant status == -1 ==> slots == Freed(old(slots), p) && info == old(info)
        invariant status == -1 ==> Pair(radar, channel) == if i <= free then r else Settled(slots, r)
        invariant status == -1 && free < i ==>
                    forall j :: 0 <= j < i && slots[j].None? ==> PairOf(j) != Settled(slots, r)
        invariant status == 1 ==> exists j :: 0 <= j < SLOTS && var freed := Freed(old(slots), p);
                    && freed[j].None? && PairOf(j) == Settled(freed, r)
                    && slots == freed[j := Some(p)] && info == old(info)[p := PairOf(j)]
      {
        var rr, cc := i / MAX_CHANNELS + 1, i % MAX_CHANNELS + 1;
        if slots[i].None? {
          if radar <= 0 { radar := rr; }
          if channel <= 0 { channel := cc; }
          if radar == rr && channel == cc {
            status := 1;
            info := info[p := Pair(radar, channel)];
            slots := slots[i := Some(p)];
          }
        }
        i := i + 1;
      }
    }

    /** The program that holds a radar and channel. */
    method Find(r: Pair) returns (p: Option<nat>)
      requires Valid()
      ensures forall i :: 0 <= i < SLOTS && PairOf(i) == r ==> p == slots[i]
      ensures (forall i :: 0 <= i < SLOTS ==> PairOf(i) != r) ==> p == None
    {
      p := None;
      var i := 0;
      while i < SLOTS
        invariant i <= SLOTS && p == None
        invariant forall j :: 0 <= j < i ==> PairOf(j) != r
      {
        if r.radar == i / MAX_CHANNELS + 1 && r.channel == i % MAX_CHANNELS + 1 {
          forall j | 0 <= j < SLOTS && PairOf(j) == r ensures j == i { PairsAreDistinct(i, j); }
          return slots[i];
        }
        i := i + 1;
      }
    }
  }

  /** An explicit request succeeds if nobody else holds its slot; one that leaves everything open
      gets the first slot nobody else holds. */
  lemma RequestsMean(slots: seq<Option<nat>>, p: nat, r: Pair)
    requires |slots| == SLOTS
    ensures var freed := Freed(slots, p);
            && (forall k :: 0 <= k < SLOTS && r == PairOf(k) ==>
                  ((exists i :: 0 <= i < SLOTS && freed[i].None? && PairOf(i) == Settled(freed, r))
                   <==> slots[k] == None || slots[k] == Some(p)))
            && (r.radar <= 0 && r.channel <= 0 ==>
                  ((exists i :: 0 <= i < SLOTS && freed[i].None? && PairOf(i) == Settled(freed, r))
                   <==> FirstFree(freed) < SLOTS)
                  && (FirstFree(freed) < SLOTS ==> Settled(freed, r) == PairOf(FirstFree(freed))))
  {
    var freed := Freed(slots, p);
    forall k | 0 <= k < SLOTS && r == PairOf(k)
      ensures (exists i :: 0 <= i < SLOTS && freed[i].None? && PairOf(i) == Settled(freed, r))
              <==> slots[k] == None || slots[k] == Some(p)
    {
      assert Settled(freed, r) == r;
      if slots[k] == None || slots[k] == Some(p) { assert freed[k].None?; }
    }
    if FirstFree(freed) < SLOTS {
      assert freed[FirstFree(freed)].None?;
    }
  }

  /** Leaving only one of the two open can fail while a fitting slot is free: the open half is
      taken from the first free slot whatever radar it belongs to. */
  lemma HalfOpenRequestsCanFail()
    ensures var slots: seq<Option<nat>> := [None, Some(1), Some(2), Some(3), Some(4), None, None, None];
            var r := Pair(2, 0);
            && slots[5].None? && PairOf(5) == Pair(2, 2)
            && !exists i :: 0 <= i < SLOTS && slots[i].None? && PairOf(i) == Settled(slots, r)
  {
    var slots: seq<Option<nat>> := [None, Some(1), Some(2), Some(3), Some(4), None, None, None];
    assert FirstFree(slots) == 0;
    assert Settled(slots, Pair(2, 0)) == Pair(2, 1) == PairOf(4);
  }
}
