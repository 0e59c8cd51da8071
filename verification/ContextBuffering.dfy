/** The pass that buffers contexts, as a log of the edits it makes, and what all of them together
    do to the runs of a work-group. */
module ContextBuffering {
  import opened Graphs
  import opened WorkItems
  import opened Interleaving
  import opened Contexts

  // ------------------------------------------------------------------- a log of edits

  ghost function Made(k: Kernel, e: Edit): Kernel {
    if InRange(k, e) then Applied(k, e) else k
  }

  ghost function Result(k: Kernel, edits: seq<Edit>): Kernel {
    if edits == [] then k else Made(Result(k, edits[..|edits| - 1]), edits[|edits| - 1])
  }

  ghost predicate AllOk(k: Kernel, edits: seq<Edit>) {
    edits != [] ==>
      AllOk(k, edits[..|edits| - 1]) && EditOk(Result(k, edits[..|edits| - 1]), edits[|edits| - 1])
  }

  /** The state of an item in the original kernel that a state in the result stands for. */
  ghost function Before(k: Kernel, edits: seq<Edit>, l: Local): Local {
    if edits == [] then l
    else
      var init, e := edits[..|edits| - 1], edits[|edits| - 1];
      Before(k, init, Back(Result(k, init), e, l))
  }

  ghost function BeforeMem(edits: seq<Edit>, m: Memory): Memory {
    if edits == [] then m else BeforeMem(edits[..|edits| - 1], BackMem(edits[|edits| - 1], m))
  }

  ghost predicate Invs(k: Kernel, edits: seq<Edit>, id: nat, l: Local, m: Memory) {
    edits != [] ==>
      var init, e := edits[..|edits| - 1], edits[|edits| - 1];
      var k1 := Result(k, init);
      && InRange(k1, e) && Inv(k1, e, id, l, m)
      && Invs(k, init, id, Back(k1, e, l), BackMem(e, m))
  }

  lemma LastEdit(k: Kernel, edits: seq<Edit>)
    requires AllOk(k, edits) && edits != []
    ensures var init, e := edits[..|edits| - 1], edits[|edits| - 1];
            && AllOk(k, init) && EditOk(Result(k, init), e) && InRange(Result(k, init), e)
            && Result(k, edits) == Applied(Result(k, init), e)
  {
    EditInRange(Result(k, edits[..|edits| - 1]), edits[|edits| - 1]);
  }

  /** A step of the result is a step of the original or goes unnoticed there. */
  lemma {:induction false} StepBefore(k: Kernel, edits: seq<Edit>, id: nat, l: Local, m: Memory)
    requires AllOk(k, edits) && Invs(k, edits, id, l, m)
    ensures var k' := Result(k, edits);
            var (l', m') := Step(k', id, l, m);
            var now, then' := (Before(k, edits, l), BeforeMem(edits, m)), (Before(k, edits, l'), BeforeMem(edits, m'));
            && Invs(k, edits, id, l', m')
            && (then' == now || then' == Step(k, id, now.0, now.1))
            && (Stopped(k', l) ==> Stopped(k, now.0))
    decreases |edits|
  {
    hide AllOk, EditOk, Applied, Step, Stopped, Back, BackMem, Inv;
    if edits != [] {
      var init, e := edits[..|edits| - 1], edits[|edits| - 1];
      var k1 := Result(k, init);
      LastEdit(k, edits);
      StepBack(k1, e, id, l, m);
      InvAfterStep(k1, e, id, l, m);
      StepBefore(k, init, id, Back(k1, e, l), BackMem(e, m));
    }
  }

  lemma {:induction false} InvsBesideStep(k: Kernel, edits: seq<Edit>, id: nat, l: Local, m: Memory, id': nat,
                                          l': Local)
    requires AllOk(k, edits) && Invs(k, edits, id, l, m) && id != id' && Invs(k, edits, id', l', m)
    ensures Invs(k, edits, id', l', Step(Result(k, edits), id, l, m).1)
    decreases |edits|
  {
    hide AllOk, EditOk, Applied, Step, Stopped, Back, BackMem, Inv;
    if edits != [] {
      var init, e := edits[..|edits| - 1], edits[|edits| - 1];
      var k1 := Result(k, init);
      LastEdit(k, edits);
      StepBack(k1, e, id, l, m);
      InvBesideStep(k1, e, id, l, m, id', l');
      InvsBesideStep(k, init, id, Back(k1, e, l), BackMem(e, m), id', Back(k1, e, l'));
    }
  }

  // --------------------------------------------------------------------- runs of a group

  ghost function BeforeState(k: Kernel, edits: seq<Edit>, s: State): (r: State)
    ensures |r.items| == |s.items|
  {
    State(seq(|s.items|, w requires 0 <= w < |s.items| => Before(k, edits, s.items[w])), BeforeMem(edits, s.mem))
  }

  ghost predicate GroupInvs(k: Kernel, edits: seq<Edit>, s: State) {
    forall w :: 0 <= w < |s.items| ==> Invs(k, edits, w, s.items[w], s.mem)
  }

  lemma GroupStep(k: Kernel, edits: seq<Edit>, s: State, w: nat)
    requires AllOk(k, edits) && GroupInvs(k, edits, s) && w < |s.items|
    ensures var x := Step(Result(k, edits), w, s.items[w], s.mem);
            var s', o := State(s.items[w := x.0], x.1), BeforeState(k, edits, s);
            var y := Step(k, w, o.items[w], o.mem);
            && GroupInvs(k, edits, s')
            && (BeforeState(k, edits, s') == o || BeforeState(k, edits, s') == State(o.items[w := y.0], y.1))
  {
    hide AllOk, Result, Before, BeforeMem, Invs, Step;
    var x := Step(Result(k, edits), w, s.items[w], s.mem);
    var s', o := State(s.items[w := x.0], x.1), BeforeState(k, edits, s);
    var y := Step(k, w, o.items[w], o.mem);
    StepBefore(k, edits, w, s.items[w], s.mem);
    forall v | 0 <= v < |s.items|
      ensures Invs(k, edits, v, s'.items[v], s'.mem)
    {
      if v != w {
        InvsBesideStep(k, edits, w, s.items[w], s.mem, v, s.items[v]);
      }
    }
    if (Before(k, edits, x.0), BeforeMem(edits, x.1)) == y {
      assert BeforeState(k, edits, s').items == o.items[w := y.0];
    } else {
      assert BeforeState(k, edits, s').items == o.items;
    }
  }

  /** Every schedule of the buffered kernel is a schedule of the original one with the inserted
      stores and reloads added in between. */
  lemma {:induction false} BufferedRunsAreOriginalRuns(k: Kernel, edits: seq<Edit>, s: State, sched: seq<nat>)
    returns (orig: seq<nat>)
    requires AllOk(k, edits) && GroupInvs(k, edits, s) && Respects(Result(k, edits), s, sched)
    ensures var r, o := Run(Result(k, edits), s, sched), BeforeState(k, edits, s);
            && GroupInvs(k, edits, r)
            && Respects(k, o, orig) && Run(k, o, orig) == BeforeState(k, edits, r)
            && (Complete(Result(k, edits), r) ==> Complete(k, BeforeState(k, edits, r)))
    ensures InFlatOrder(sched) ==> InFlatOrder(orig)
    ensures forall w :: w in orig ==> w in sched
    decreases |sched|
  {
    hide AllOk, Result, BeforeState, Step, Stopped, GroupInvs, Respects, Run, Complete, InFlatOrder;
    EmptyIsFlat();
    var k', o := Result(k, edits), BeforeState(k, edits, s);
    CompleteBefore(k, edits, Run(k', s, sched));
    if sched == [] {
      orig := [];
      NoStepYet(k', s);
      NoStepYet(k, o);
    } else {
      var before, w := sched[..|sched| - 1], sched[|sched| - 1];
      assert sched == before + [w];
      RespectsStep(k', s, before, w);
      var init := BufferedRunsAreOriginalRuns(k, edits, s, before);
      var r, r' := Run(k', s, before), Run(k', s, sched);
      GroupStep(k, edits, r, w);
      RunOfStep(k', s, before, w);
      if BeforeState(k, edits, r') == BeforeState(k, edits, r) {
        orig := init;
      } else {
        orig := init + [w];
        StoppedStays(k, w, BeforeState(k, edits, r));
        OneMoreStep(k, o, init, w);
        assert w in sched;
      }
      if InFlatOrder(sched) {
        FlatOrderStep(before, w, init);
      }
    }
  }

  lemma FlatOrderStep(before: seq<nat>, w: nat, init: seq<nat>)
    requires InFlatOrder(before + [w]) && forall v :: v in init ==> v in before
    ensures InFlatOrder(before)
    ensures InFlatOrder(init) ==> InFlatOrder(init + [w])
  {
    var sched := before + [w];
    forall i, j | 0 <= i < j < |before|
      ensures before[i] <= before[j]
    {
      assert sched[i] <= sched[j];
    }
    forall k | 0 <= k < |init|
      ensures init[k] <= w
    {
      assert init[k] in before;
      var i :| 0 <= i < |before| && before[i] == init[k];
      assert sched[i] <= sched[|before|];
    }
  }

  lemma EmptyIsFlat()
    ensures InFlatOrder([])
  {
  }

  lemma NoStepYet(k: Kernel, s: State)
    ensures Respects(k, s, []) && Run(k, s, []) == s
  {
  }

  lemma OneMoreStep(k: Kernel, s: State, init: seq<nat>, w: nat)
    requires Respects(k, s, init) && w < |s.items| && !Stopped(k, Run(k, s, init).items[w])
    ensures var r := Run(k, s, init); var y := Step(k, w, r.items[w], r.mem);
            Respects(k, s, init + [w]) && Run(k, s, init + [w]) == State(r.items[w := y.0], y.1)
  {
    assert (init + [w])[..|init|] == init;
    RunOfStep(k, s, init, w);
  }

  lemma StoppedStays(k: Kernel, w: nat, s: State)
    requires w < |s.items|
    ensures var y := Step(k, w, s.items[w], s.mem);
            Stopped(k, s.items[w]) ==> State(s.items[w := y.0], y.1) == s
  {
  }

  lemma CompleteBefore(k: Kernel, edits: seq<Edit>, s: State)
    requires AllOk(k, edits)
    ensures GroupInvs(k, edits, s) && Complete(Result(k, edits), s) ==> Complete(k, BeforeState(k, edits, s))
  {
    hide AllOk, Result, Before, BeforeMem, Invs, Step, Stopped;
    forall w | 0 <= w < |s.items|
      ensures GroupInvs(k, edits, s) && Stopped(Result(k, edits), s.items[w]) ==>
              Stopped(k, Before(k, edits, s.items[w]))
    {
      if GroupInvs(k, edits, s) {
        StepBefore(k, edits, w, s.items[w], s.mem);
      }
    }
  }

  // --------------------------------------------------------------------------- the slots

  ghost predicate AllHold(k: Kernel, n: Name, s: State) {
    forall w :: 0 <= w < |s.items| ==> Holds(k, n, w, s.items[w], s.mem)
  }

  /** However the items are interleaved, the slot of an item holds the item's register whenever
      the item is not just about to save it. */
  lemma {:induction false} SlotsHold(k: Kernel, n: Name, s: State, sched: seq<nat>)
    requires Saved(k, n) && AllHold(k, n, s)
    ensures AllHold(k, n, Run(k, s, sched))
    decreases |sched|
  {
    hide Saved, Holds, Step;
    if sched != [] {
      var before, w := sched[..|sched| - 1], sched[|sched| - 1];
      SlotsHold(k, n, s, before);
      var r := Run(k, s, before);
      if w < |s.items| {
        var x := Step(k, w, r.items[w], r.mem);
        assert sched == before + [w];
        RunOfStep(k, s, before, w);
        var items := r.items[w := x.0];
        forall v | 0 <= v < |items|
          ensures Holds(k, n, v, items[v], x.1)
        {
          assert Holds(k, n, v, r.items[v], r.mem);
          if v == w {
            HoldsAfterStep(k, n, w, r.items[w], r.mem);
          } else {
            assert Holds(k, n, w, r.items[w], r.mem);
            HoldsBesideStep(k, n, w, r.items[w], r.mem, v, r.items[v]);
          }
        }
      }
    }
  }

  /** A reload gives an item what the item has last computed. */
  lemma ReloadYieldsRegister(k: Kernel, n: Name, id: nat, l: Local, m: Memory)
    requires Holds(k, n, id, l, m) && AtInst(k, l) && Code(k, l.at)[l.pc].Reload? && Code(k, l.at)[l.pc].slot == n
    ensures Value(Step(k, id, l, m).0.env, Reg(Code(k, l.at)[l.pc].dst)) == Value(l.env, Reg(n))
  {
  }

  ghost predicate Fresh(l: Local, m: Memory) {
    l.pc == 0 && l.env == map[] && forall a :: a in m ==> a.Global?
  }

  /** An item that begins stands for itself. */
  lemma {:induction false} FreshInvs(k: Kernel, edits: seq<Edit>, id: nat, l: Local, m: Memory)
    requires AllOk(k, edits) && Fresh(l, m)
    ensures Invs(k, edits, id, l, m) && Before(k, edits, l) == l && BeforeMem(edits, m) == m
    decreases |edits|
  {
    hide EditOk, Applied, AllOk;
    if edits != [] {
      var init, e := edits[..|edits| - 1], edits[|edits| - 1];
      LastEdit(k, edits);
      assert BackMem(e, m) == m;
      assert BackEnv(e, l.env) == l.env;
      FreshInvs(k, init, id, l, m);
    }
  }

  lemma FreshHolds(k: Kernel, n: Name, id: nat, l: Local, m: Memory)
    requires Fresh(l, m)
    ensures Holds(k, n, id, l, m)
  {
  }

  /** Being let past a barrier leaves registers and slots as they are. */
  lemma ReleaseHolds(k: Kernel, n: Name, s: State)
    requires AllHold(k, n, s) && AtBarrier(k, s)
    ensures AllHold(k, n, Release(s))
    ensures forall w :: 0 <= w < |s.items| ==> Peek(s.mem, Slot(n, w)) == Value(s.items[w].env, Reg(n))
  {
  }

  /** What holds between two barriers holds throughout an execution. */
  lemma {:induction false} SlotsHoldThroughout(k: Kernel, n: Name, s: State, rounds: seq<seq<nat>>, i: nat)
    requires Saved(k, n) && AllHold(k, n, s) && Allowed(k, s, rounds) && i <= |rounds|
    ensures AllHold(k, n, StateAt(k, s, rounds, i))
    decreases |rounds|
  {
    hide Saved, AllHold, Respects, Run, AtBarrier, Release;
    if i > 0 {
      SlotsHold(k, n, s, rounds[0]);
      if |rounds| > 1 {
        ReleaseHolds(k, n, Run(k, s, rounds[0]));
        SlotsHoldThroughout(k, n, Release(Run(k, s, rounds[0])), rounds[1..], i - 1);
      }
    }
  }
}
