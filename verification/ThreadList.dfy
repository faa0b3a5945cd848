/** The server's list of control-program threads: a doubly linked list, newest first, whose
    prev links lead to older items. */
module ThreadList {

  /** Time differences are kept in an unsigned long of 32 bits. */
  const WORD: int := 0x1_0000_0000

  class Item {
    var prev: Item?
    var next: Item?
    var lastSeen: int
    const timeout: int

    constructor (lastSeen: int, timeout: int)
      ensures prev == null && next == null && this.lastSeen == lastSeen && this.timeout == timeout
    {
      this.prev, this.next, this.lastSeen, this.timeout := null, null, lastSeen, timeout;
    }

    /** Not heard of for longer than its timeout. */
    predicate Expired(now: int)
      reads this
    {
      (now - lastSeen) % WORD > timeout
    }
  }

  /** Seen no later than now, and less than 2^32 seconds ago, an item has expired once more seconds
      have passed than its timeout; seen later than now, it is taken for not seen for ages. */
  lemma ExpiredMeans(item: Item, now: int)
    ensures item.lastSeen <= now < item.lastSeen + 4294967296 ==>
              (item.Expired(now) <==> now - item.lastSeen > item.timeout)
    ensures now < item.lastSeen <= now + 4294967296 ==>
              (item.Expired(now) <==> now - item.lastSeen + 4294967296 > item.timeout)
  {
  }

  /** The items of a list that have expired. */
  ghost function Late(s: seq<Item>, now: int): set<Item>
    reads s
  {
    set x | x in s && x.Expired(now)
  }

  /** The items of a list that are not in a set, in order. */
  ghost function Without(s: seq<Item>, late: set<Item>): seq<Item> {
    if s == [] then []
    else Without(s[..|s| - 1], late) + if s[|s| - 1] in late then [] else [s[|s| - 1]]
  }

  /** An item is kept exactly if it is not in the set. */
  lemma {:induction false} WithoutMeans(s: seq<Item>, late: set<Item>, x: Item)
    ensures x in Without(s, late) <==> x in s && x !in late
  {
    if s != [] {
      var m := |s| - 1;
      assert s == s[..m] + [s[m]];
      WithoutMeans(s[..m], late, x);
    }
  }

  /** The head and the links of the items make up exactly the list s, and no item comes twice. */
  predicate Linked(head: Item?, s: seq<Item>)
    reads s
  {
    && head == (if s == [] then null else s[0])
    && (forall i {:trigger s[i].prev} :: 0 <= i < |s| ==> s[i].prev == if i + 1 < |s| then s[i + 1] else null)
    && (forall i {:trigger s[i].next} :: 0 <= i < |s| ==> s[i].next == if 0 < i then s[i - 1] else null)
    && (forall i, j :: 0 <= i < j < |s| ==> s[i] != s[j])
  }

  class Threads {
    var head: Item?
    ghost var items: seq<Item>

    ghost predicate Valid()
      reads this, items
    {
      Linked(head, items)
    }

    constructor ()
      ensures Valid() && items == []
    {
      head, items := null, [];
    }

    /** Link a new item in at the head. */
    method Insert(lastSeen: int, timeout: int) returns (item: Item)
      requires Valid()
      modifies this, if items == [] then {} else {items[0]}
      ensures Valid() && fresh(item) && items == [item] + old(items)
      ensures item.lastSeen == lastSeen && item.timeout == timeout
      ensures forall x :: x in old(items) ==> x.lastSeen == old(x.lastSeen)
    {
      item := new Item(lastSeen, timeout);
      if head == null {
        head := item;
      } else {
        head.next := item;
        item.prev := head;
        head := item;
      }
      items := [item] + items;
    }

    /** Count the items along the prev links. */
    method Count() returns (n: nat)
      requires Valid()
      ensures n == |items|
    {
      n := 0;
      var cur := head;
      while cur != null
        invariant n <= |items| && cur == if n < |items| then items[n] else null
        decreases |items| - n
      {
        cur := cur.prev;
        n := n + 1;
      }
    }

    /** Take the item at position j out of the list. */
    method Unlink(item: Item, ghost j: nat) returns (cur: Item?)
      requires Valid() && j < |items| && items[j] == item
      modifies this, set x | x in items
      ensures Valid() && items == old(items)[..j] + old(items)[j + 1..]
      ensures cur == if j < |items| then items[j] else null
      ensures forall x :: x in old(items) ==> x.lastSeen == old(x.lastSeen)
    {
      var next := item.next;
      cur := item.prev;
      if next != null { next.prev := cur; } else { head := cur; }
      if cur != null { cur.next := item.next; }
      items := items[..j] + items[j + 1..];
    }

    /** The sweep has looked at the first done of all items and stands at the next. */
    ghost predicate Sweeping(now: int, all: seq<Item>, late: set<Item>, done: nat, cur: Item?)
      reads this, items, all
    {
      && Valid() && done <= |all| && items == Swept(all, late, done)
      && (forall x :: x in all ==> (x.Expired(now) <==> x in late))
      && cur == if done < |all| then all[done] else null
    }

    /** Look at one item: take it out if it has expired, and go on to the older one. */
    method Look(item: Item, now: int, ghost all: seq<Item>, ghost late: set<Item>, ghost done: nat)
      returns (cur: Item?)
      requires Valid() && done < |all| && items == Swept(all, late, done) && item == all[done]
      requires item.Expired(now) <==> item in late
      modifies this, set x | x in items
      ensures Valid() && items == Swept(all, late, done + 1)
      ensures cur == if done + 1 < |all| then all[done + 1] else null
      ensures forall x :: x in old(items) ==> x.lastSeen == old(x.lastSeen)
    {
      SweepStep(all, late, done);
      if item.Expired(now) {
        cur := Unlink(item, |Without(all[..done], late)|);
      } else {
        cur := item.prev;
      }
    }

    /** One step of the sweep. */
    method SweepOne(item: Item, now: int, ghost all: seq<Item>, ghost late: set<Item>, ghost done: nat)
      returns (cur: Item?)
      requires Sweeping(now, all, late, done, item)
      modifies this, set x | x in items
      ensures Sweeping(now, all, late, done + 1, cur)
      ensures forall x :: x in all ==> x.lastSeen == old(x.lastSeen)
    {
      cur := Look(item, now, all, late, done);
      assert forall x :: x in all ==> x.lastSeen == old(x.lastSeen);
    }

    /** The expiry sweep: exactly the expired items go, the others stay in order. */
    method Sweep(now: int)
      requires Valid()
      modifies this, set x | x in items
      ensures Valid() && items == Without(old(items), old(Late(items, now)))
      ensures forall x :: x in old(items) ==> x.lastSeen == old(x.lastSeen)
    {
      var cur := head;
      ghost var all, late, done := items, Late(items, now), 0;
      SweepStart(all, late);
      while cur != null
        invariant Sweeping(now, all, late, done, cur)
        invariant forall x :: x in all ==> x.lastSeen == old(x.lastSeen)
        decreases |all| - done
      {
        SweptWithin(all, late, done);
        cur := SweepOne(cur, now, all, late, done);
        done := done + 1;
      }
      SweepEnd(all, late);
    }
  }

  lemma SweptWithin(all: seq<Item>, late: set<Item>, done: nat)
    requires done <= |all|
    ensures forall x :: x in Swept(all, late, done) ==> x in all
  {
    forall x | x in Without(all[..done], late) ensures x in all {
      WithoutMeans(all[..done], late, x);
    }
  }

  lemma SweepEnd(all: seq<Item>, late: set<Item>)
    ensures Swept(all, late, |all|) == Without(all, late)
  {
    assert all[..|all|] == all;
  }

  /** The list when the first done of all items have been looked at. */
  ghost function Swept(all: seq<Item>, late: set<Item>, done: nat): seq<Item>
    requires done <= |all|
  {
    Without(all[..done], late) + all[done..]
  }

  lemma SweepStart(all: seq<Item>, late: set<Item>)
    ensures Swept(all, late, 0) == all
  {
  }

  /** Where the next item stands, and what looking at it makes of the list. */
  lemma SweepStep(all: seq<Item>, late: set<Item>, done: nat)
    requires done < |all|
    ensures var j, s := |Without(all[..done], late)|, Swept(all, late, done);
            && j < |s| && s[j] == all[done] && (j + 1 < |s| <==> done + 1 < |all|)
            && (j + 1 < |s| ==> s[j + 1] == all[done + 1])
            && Swept(all, late, done + 1) == if all[done] in late then s[..j] + s[j + 1..] else s
  {
    assert all[..done + 1][..done] == all[..done];
  }
}
