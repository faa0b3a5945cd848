/** The trigger coordinator: when the programs that are ready get a pulse. */
module Coordinator {
  import opened Common

  /** A control program; once it has exited its state is gone. */
  datatype Program = Program(active: int, ready: bool, processing: bool, gone: bool)

  predicate Due(p: Program) { p.active == 1 }

  /** Every active program is ready, and there is one. */
  predicate TriggerIsDue(ps: seq<Program>) {
    && (exists p :: p in ps && Due(p))
    && (forall p :: p in ps && Due(p) ==> p.ready)
  }

  function NumActive(ps: seq<Program>): nat {
    if ps == [] then 0 else NumActive(ps[..|ps| - 1]) + Bit(Due(ps[|ps| - 1]))
  }

  function NumReady(ps: seq<Program>): nat {
    if ps == [] then 0
    else NumReady(ps[..|ps| - 1]) + Bit(Due(ps[|ps| - 1]) && ps[|ps| - 1].ready)
  }

  /** The programs that hold the ready flag, active or not. */
  function Flagged(ps: seq<Program>): nat {
    if ps == [] then 0 else Flagged(ps[..|ps| - 1]) + Bit(!ps[|ps| - 1].gone && ps[|ps| - 1].ready)
  }

  /** Counting decides whether a trigger is due. */
  lemma {:induction false} CountsDecide(ps: seq<Program>)
    ensures NumReady(ps) <= NumActive(ps)
    ensures NumActive(ps) > 0 <==> exists p :: p in ps && Due(p)
    ensures NumReady(ps) > 0 <==> exists p :: p in ps && Due(p) && p.ready
    ensures NumReady(ps) == NumActive(ps) <==> forall p :: p in ps && Due(p) ==> p.ready
  {
    if ps != [] {
      var m := |ps| - 1;
      CountsDecide(ps[..m]);
      assert ps == ps[..m] + [ps[m]];
    }
  }

  /** Changing one program changes the number of flags by at most its own. */
  lemma {:induction false} FlaggedUpdate(ps: seq<Program>, k: nat, p: Program)
    requires k < |ps|
    ensures Flagged(ps[k := p]) == Flagged(ps) - Bit(!ps[k].gone && ps[k].ready) + Bit(!p.gone && p.ready)
  {
    var m := |ps| - 1;
    if k < m {
      FlaggedUpdate(ps[..m], k, p);
      assert ps[k := p][..m] == ps[..m][k := p];
    } else {
      assert ps[k := p][..m] == ps[..m];
    }
  }

  lemma {:induction false} FlaggedConcat(a: seq<Program>, b: seq<Program>)
    ensures Flagged(a + b) == Flagged(a) + Flagged(b)
  {
    if b == [] {
      assert a + b == a;
    } else {
      FlaggedConcat(a, b[..|b| - 1]);
      assert (a + b)[..|a| + |b| - 1] == a + b[..|b| - 1];
    }
  }

  lemma {:induction false} NoneFlagged(ps: seq<Program>)
    requires forall i :: 0 <= i < |ps| && !ps[i].gone ==> !ps[i].ready
    ensures Flagged(ps) == 0
  {
    if ps != [] { NoneFlagged(ps[..|ps| - 1]); }
  }

  /** A program after the trigger: what was ready is being processed. */
  function Triggered(p: Program): Program {
    if !p.gone && p.ready then p.(ready := false, processing := true) else p
  }

  /** The list once program k has marked itself ready, if it is active. */
  function Marked(ps: seq<Program>, k: nat): seq<Program>
    requires k < |ps|
  {
    ps[k := if ps[k].active == 1 then ps[k].(ready := true, processing := false) else ps[k]]
  }

  /** The list after a pass: every flag handed over if the trigger fired, else unchanged. */
  predicate Settled(after: seq<Program>, before: seq<Program>, fired: bool) {
    if fired then |after| == |before| && forall i :: 0 <= i < |before| ==> after[i] == Triggered(before[i])
    else after == before
  }

  /** What a pass for program k makes of the programs, in their own terms.  It fires if and only if some
      program is active and every active one other than k was ready.  What was ready, and k if it is
      active, is ready and not processing if it does not fire, and the other way round if it does.
      Nothing else changes. */
  ghost predicate Coordinated(after: seq<Program>, before: seq<Program>, k: nat, fired: bool) {
    && |after| == |before|
    && (fired <==>
          && (exists i :: 0 <= i < |before| && before[i].active == 1)
          && (forall i :: 0 <= i < |before| && i != k && before[i].active == 1 ==> before[i].ready))
    && forall i :: 0 <= i < |before| ==>
         var p, q := before[i], after[i];
         && q.active == p.active && q.gone == p.gone
         && (if i == k && p.active == 1 then q.ready != fired && q.processing == fired
             else if fired && p.ready && !p.gone then !q.ready && q.processing
             else q == p)
  }

  lemma CoordinatedIs(after: seq<Program>, before: seq<Program>, k: nat, fired: bool)
    requires k < |before| && !before[k].gone
    requires var marked := Marked(before, k); fired == TriggerIsDue(marked) && Settled(after, marked, fired)
    ensures Coordinated(after, before, k, fired)
  {
    var marked := Marked(before, k);
    if fired {
      var p :| p in marked && Due(p);
      var i :| 0 <= i < |marked| && marked[i] == p;
      assert before[i].active == 1;
      forall i | 0 <= i < |before| && i != k && before[i].active == 1 ensures before[i].ready {
        assert marked[i] in marked && Due(marked[i]);
      }
    }
    if (exists i :: 0 <= i < |before| && before[i].active == 1)
       && (forall i :: 0 <= i < |before| && i != k && before[i].active == 1 ==> before[i].ready) {
      var i :| 0 <= i < |before| && before[i].active == 1;
      assert marked[i] in marked && Due(marked[i]);
      assert TriggerIsDue(marked);
    }
  }

  class Server {
    var programs: seq<Program>
    /** 0: none ready, 1: some ready, 2: all ready. */
    var readyState: int
    /** 0: no activity, 1: pre-trigger, 2: triggering, 3: post-trigger. */
    var triggerState: int
    var readyCount: int

    ghost predicate Valid()
      reads this
    {
      && triggerState == 0 && (readyState == 0 || readyState == 1)
      && (forall i :: 0 <= i < |programs| ==> !(programs[i].ready && programs[i].processing))
      && (forall i :: 0 <= i < |programs| ==> (programs[i].gone ==> programs[i].active == 0))
      && Flagged(programs) <= readyCount
    }

    constructor ()
      ensures Valid() && programs == []
    {
      programs, readyState, triggerState, readyCount := [], 0, 0, 0;
    }

    /** Count the active programs and the ready ones among them. */
    method Survey() returns (numActive: nat, numReady: nat)
      ensures numActive == NumActive(programs) && numReady == NumReady(programs)
    {
      numActive, numReady := 0, 0;
      var i := 0;
      while i < |programs|
        invariant i <= |programs| && numActive == NumActive(programs[..i]) && numReady == NumReady(programs[..i])
      {
        assert programs[..i + 1][..i] == programs[..i];
        if programs[i].active == 1 {
          numActive := numActive + 1;
          if programs[i].ready { numReady := numReady + 1; }
        }
        i := i + 1;
      }
      assert programs[..i] == programs;
    }

    /** Hand every ready program over to processing. */
    method Release()
      modifies `programs
      ensures |programs| == |old(programs)|
      ensures forall i :: 0 <= i < |programs| ==> programs[i] == Triggered(old(programs)[i])
    {
      var i := 0;
      while i < |programs|
        invariant i <= |programs| == |old(programs)|
        invariant forall x :: 0 <= x < |programs| ==>
                    programs[x] == if x < i then Triggered(old(programs)[x]) else old(programs)[x]
      {
        if !programs[i].gone && programs[i].ready {
          programs := programs[i := programs[i].(ready := false, processing := true)];
        }
        i := i + 1;
      }
    }

    /** Mark program k ready if it is active. */
    method Mark(k: nat)
      requires Valid() && k < |programs| && !programs[k].gone
      modifies `programs, `readyCount
      ensures Valid() && programs == Marked(old(programs), k)
      ensures readyCount == old(readyCount) + Bit(old(programs)[k].active == 1)
    {
      if programs[k].active == 1 {
        FlaggedUpdate(programs, k, programs[k].(ready := true, processing := false));
        readyCount := readyCount + 1;
        programs := programs[k := programs[k].(ready := true, processing := false)];
      }
    }

    /** Work out the ready state and fire the trigger if all active programs are ready. */
    method Trigger() returns (fired: bool)
      requires Valid()
      modifies this
      ensures Valid() && |programs| == |old(programs)| && !TriggerIsDue(programs)
      ensures fired == TriggerIsDue(old(programs)) && Settled(programs, old(programs), fired)
      ensures if fired then Flagged(programs) == 0 == readyCount else readyCount == old(readyCount)
      ensures readyState == if !fired && NumReady(programs) > 0 then 1 else 0
    {
      var numActive, numReady := Survey();
      CountsDecide(programs);
      if triggerState < 2 {
        readyState := if numReady == 0 then 0 else if numReady != numActive then 1 else 2;
      }
      fired := readyState == 2;
      if fired {
        triggerState := 1;
        triggerState := 2;
        triggerState := 3;
        Release();
        NoneFlagged(programs);
        ReleasedIsNotDue(old(programs), programs);
        triggerState, readyCount, readyState := 0, 0, 0;
      }
    }

    /** One pass under the coordination lock, for program k.  A trigger fires exactly when every
        active program is ready, with k ready if it is active; then what was ready is processed
        and nothing is left ready.  No trigger is left due. */
    method CoordinationHandler(k: nat) returns (fired: bool)
      requires Valid() && k < |programs| && !programs[k].gone
      modifies this
      ensures Valid() && |programs| == |old(programs)| && !TriggerIsDue(programs)
      ensures var marked := Marked(old(programs), k);
              fired == TriggerIsDue(marked) && Settled(programs, marked, fired)
      ensures Coordinated(programs, old(programs), k, fired)
      ensures readyCount == if fired then 0 else old(readyCount) + Bit(old(programs)[k].active == 1)
      ensures readyState == if !fired && NumReady(programs) > 0 then 1 else 0
    {
      Mark(k);
      fired := Trigger();
      CoordinatedIs(programs, old(programs), k, fired);
    }

    method Connect()
      requires Valid()
      modifies `programs
      ensures Valid() && programs == [Program(1, false, false, false)] + old(programs) && !TriggerIsDue(programs)
    {
      var p := Program(1, false, false, false);
      FlaggedConcat([p], programs);
      assert [p][..0] == [];
      programs := [p] + programs;
      assert p in programs && Due(p) && !p.ready;
    }

    /** Make a program active or idle; one that is on its way out stays so. */
    method SetActive(k: nat, active: int) returns (fired: bool)
      requires Valid() && k < |programs| && !programs[k].gone && active in {-1, 1}
      modifies this
      ensures Valid() && (old(programs)[k].active != 0 ==> !TriggerIsDue(programs))
      ensures if old(programs)[k].active == 0 then !fired && programs == old(programs)
              else
                var asked := old(programs)[k := old(programs)[k].(active := active)];
                fired == TriggerIsDue(Marked(asked, k)) && Settled(programs, Marked(asked, k), fired)
                && Coordinated(programs, asked, k, fired)
    {
      fired := false;
      if programs[k].active != 0 {
        FlaggedUpdate(programs, k, programs[k].(active := active));
        programs := programs[k := programs[k].(active := active)];
        fired := CoordinationHandler(k);
      }
    }

    /** The first half of a ready request only reactivates the program. */
    method Reactivate(k: nat)
      requires Valid() && k < |programs| && !programs[k].gone
      modifies `programs
      ensures Valid()
      ensures programs == old(programs)[k := old(programs)[k].(active := if old(programs)[k].active != 0 then 1 else 0)]
    {
      if programs[k].active != 0 {
        FlaggedUpdate(programs, k, programs[k].(active := 1));
        programs := programs[k := programs[k].(active := 1)];
      }
    }

    /** A program leaves: the others no longer wait for it. */
    method Exit(k: nat) returns (fired: bool)
      requires Valid() && k < |programs| && !programs[k].gone
      modifies this
      ensures Valid() && |programs| == |old(programs)| && programs[k].gone && !TriggerIsDue(programs)
      ensures var left := old(programs)[k := old(programs)[k].(active := 0)];
              && fired == TriggerIsDue(left)
              && exists after: seq<Program> :: Settled(after, left, fired) && |after| == |left|
                   && Coordinated(after, left, k, fired) && programs == after[k := after[k].(gone := true)]
    {
      FlaggedUpdate(programs, k, programs[k].(active := 0));
      programs := programs[k := programs[k].(active := 0)];
      assert programs[k := programs[k]] == programs;
      fired := CoordinationHandler(k);
      ghost var was := programs;
      FlaggedUpdate(programs, k, programs[k].(gone := true));
      programs := programs[k := programs[k].(gone := true)];
      GoneChangesNothing(was, k);
    }

    method Remove(k: nat)
      requires Valid() && k < |programs| && programs[k].gone
      modifies `programs
      ensures Valid() && programs == old(programs)[..k] + old(programs)[k + 1..]
      ensures TriggerIsDue(programs) == TriggerIsDue(old(programs))
    {
      ghost var was := programs;
      programs := programs[..k] + programs[k + 1..];
      RemovedIsNotDue(was, k);
      RemovedFlags(was, k);
    }
  }

  /** Once the trigger has fired no active program is ready. */
  lemma ReleasedIsNotDue(ps: seq<Program>, qs: seq<Program>)
    requires |qs| == |ps| && forall i :: 0 <= i < |ps| ==> qs[i] == Triggered(ps[i])
    requires forall i :: 0 <= i < |ps| ==> (ps[i].gone ==> ps[i].active == 0)
    requires TriggerIsDue(ps)
    ensures !TriggerIsDue(qs)
  {
    var i :| 0 <= i < |ps| && Due(ps[i]);
    assert qs[i] in qs && Due(qs[i]) && !qs[i].ready;
  }

  lemma GoneChangesNothing(ps: seq<Program>, k: nat)
    requires k < |ps| && ps[k].active == 0
    ensures TriggerIsDue(ps[k := ps[k].(gone := true)]) == TriggerIsDue(ps)
  {
    assert ps[k := ps[k].(gone := true)] == ps[..k] + [ps[k].(gone := true)] + ps[k + 1..];
    assert ps == ps[..k] + [ps[k]] + ps[k + 1..];
  }

  lemma RemovedIsNotDue(ps: seq<Program>, k: nat)
    requires k < |ps| && ps[k].active == 0
    ensures TriggerIsDue(ps[..k] + ps[k + 1..]) == TriggerIsDue(ps)
  {
    assert ps == ps[..k] + [ps[k]] + ps[k + 1..];
  }

  lemma RemovedFlags(ps: seq<Program>, k: nat)
    requires k < |ps|
    ensures Flagged(ps[..k] + ps[k + 1..]) <= Flagged(ps)
  {
    var a, b := ps[..k], ps[k + 1..];
    assert ps == a + ([ps[k]] + b);
    FlaggedConcat(a, b);
    FlaggedConcat([ps[k]], b);
    FlaggedConcat(a, [ps[k]] + b);
  }
}
