/** The whole transformation: buffer the contexts, then run each region in a loop over the items.

    The looped kernel is one thread with one set of registers. From barrier to barrier it runs a
    region for all items in flat order, or code outside the looped regions once. For a kernel
    without races, whose items come to the same barriers, it ends in the memory in which every
    execution of the original by independent work-items ends, however their steps are
    interleaved. */
module Coarsening {
  import opened Graphs
  import opened WorkItems
  import opened Interleaving
  import opened Contexts
  import opened ContextBuffering
  import opened ContextPass
  import opened SharedRegisters
  import opened UniformStretch

  /** From one barrier to the next: around a region, item w making steps[w] steps in it, or along
      code outside the looped regions, all items making the same number of steps. Between
      contiguous barriers that is one step. */
  datatype Interval = Around(region: nat, steps: seq<nat>) | Along(length: nat)

  predicate Fits(pr: seq<ParallelRegion>, n: nat, j: Interval) {
    j.Around? ==> j.region < |pr| && |j.steps| == n
  }

  /** A barrier hived off into a block of its own, outside the regions. PHIs stay in front. */
  predicate BarrierBlock(k: Kernel, b: Block) {
    Code(k, b) == [Barrier] && Phis(k, b) == []
  }

  predicate Standing(s: State, b: Block, pc: nat) {
    |s.items| > 0 && forall w :: 0 <= w < |s.items| ==> s.items[w].at == b && s.items[w].pc == pc
  }

  function Times(n: nat, w: nat): (r: seq<nat>)
    ensures |r| == w && forall v :: 0 <= v < w ==> r[v] == n
  {
    seq(w, _ => n)
  }

  /** The items, each with its own registers, after one interval that begins behind barrier b. */
  function Privately(k: Kernel, pr: seq<ParallelRegion>, s: State, b: Block, j: Interval): (r: State)
    ensures |r.items| == |s.items|
  {
    if !Fits(pr, |s.items|, j) then s
    else
      match j
      case Around(i, ns) =>
        var (items, m) := PrivateLoop(k, Entering(k, s.items, b, pr[i].entry), s.mem, ns, |s.items|);
        State(items, m)
      case Along(n) =>
        var (items, m) := PrivateLoop(k, s.items, s.mem, Times(n, |s.items|), |s.items|);
        State(items, m)
  }

  /** The one thread after the same interval. */
  function Looped(k: Kernel, pr: seq<ParallelRegion>, sh: map<Name, int>, m: Memory, b: Block, j: Interval)
    : (map<Name, int>, Memory)
  {
    match j
    case Around(i, ns) => if i < |pr| then SharedLoop(k, b, pr[i].entry, sh, m, ns, |ns|) else (sh, m)
    case Along(n) =>
      var (l, m') := Alone(k, 0, Local(b, 1, sh), m, n);
      (l.env, m')
  }

  ghost predicate BetweenBarriers(k: Kernel, pr: seq<ParallelRegion>, s: State, b: Block, j: Interval, b': Block) {
    && Standing(s, b, 1) && BarrierBlock(k, b) && BarrierBlock(k, b') && !InRegion(pr, b) && !InRegion(pr, b')
    && !Terminator(k, b).Return? && Fits(pr, |s.items|, j)
  }

  /** Behind barrier b the items enter a region, leave it for barrier b', and hold the same in the
      registers that are uniform. */
  ghost predicate GoesAround(k: Kernel, pr: seq<ParallelRegion>, s: State, b: Block, j: Interval, b': Block)
    requires j.Around? && Fits(pr, |s.items|, j)
  {
    var r := pr[j.region];
    && (forall w :: 0 <= w < |s.items| && !Terminator(k, b).Return? ==>
       Target(Terminator(k, b), s.items[w].env) == r.entry)
    && SingleEntry(k, r) && AllLeave(k, r, Entering(k, s.items, b, r.entry), s.mem, j.steps, |s.items|)
    && Standing(Privately(k, pr, s, b, j), b', 0) && AllSame(k, pr, Privately(k, pr, s, b, j).items)
  }

  /** What is asked of an execution: visits to looped regions leave for one barrier, with uniform
      results; through uniform code it is enough to follow item 0. */
  ghost predicate IntervalMet(k: Kernel, pr: seq<ParallelRegion>, s: State, b: Block, j: Interval, b': Block) {
    && BetweenBarriers(k, pr, s, b, j, b')
    && match j
       case Around(_, _) => GoesAround(k, pr, s, b, j, b')
       case Along(n) =>
         && Goes(k, pr, 0, s.items[0], s.mem, n)
         && Alone(k, 0, s.items[0], s.mem, n).0.at == b' && Alone(k, 0, s.items[0], s.mem, n).0.pc == 0
  }

  /** What follows for all items when they do not race. */
  ghost predicate IntervalOk(k: Kernel, pr: seq<ParallelRegion>, s: State, b: Block, j: Interval, b': Block) {
    && BetweenBarriers(k, pr, s, b, j, b')
    && match j
       case Around(_, _) => GoesAround(k, pr, s, b, j, b')
       case Along(n) => GoesAlong(k, pr, s, b, n, b')
  }

  ghost predicate GoesAlong(k: Kernel, pr: seq<ParallelRegion>, s: State, b: Block, n: nat, b': Block) {
    && (forall w :: 0 <= w < |s.items| ==> Goes(k, pr, w, s.items[w], s.mem, n))
    && Quiet(k, s.items, s.mem, n) && Standing(Privately(k, pr, s, b, Along(n)), b', 0)
  }

  ghost predicate LoopedMet(k: Kernel, pr: seq<ParallelRegion>, s: State, bs: seq<Block>, js: seq<Interval>)
    requires |bs| == |js| + 1
    decreases |js|
  {
    if js == [] then AtEnd(k, s, bs[0])
    else IntervalMet(k, pr, s, bs[0], js[0], bs[1])
         && LoopedMet(k, pr, Release(Privately(k, pr, s, bs[0], js[0])), bs[1..], js[1..])
  }

  ghost predicate LoopedOk(k: Kernel, pr: seq<ParallelRegion>, s: State, bs: seq<Block>, js: seq<Interval>)
    requires |bs| == |js| + 1
    decreases |js|
  {
    if js == [] then AtEnd(k, s, bs[0])
    else IntervalOk(k, pr, s, bs[0], js[0], bs[1])
         && LoopedOk(k, pr, Release(Privately(k, pr, s, bs[0], js[0])), bs[1..], js[1..])
  }

  ghost predicate AtEnd(k: Kernel, s: State, b: Block) {
    Standing(s, b, 1) && BarrierBlock(k, b) && Terminator(k, b).Return?
  }

  /** The looped kernel from the first barrier to the end. */
  function LoopedRun(k: Kernel, pr: seq<ParallelRegion>, sh: map<Name, int>, m: Memory, bs: seq<Block>,
                     js: seq<Interval>)
    : (map<Name, int>, Memory)
    requires |bs| == |js| + 1
    decreases |js|
  {
    if js == [] then (sh, m)
    else
      var (sh1, m1) := Looped(k, pr, sh, m, bs[0], js[0]);
      LoopedRun(k, pr, sh1, m1, bs[1..], js[1..])
  }

  function PrivateRun(k: Kernel, pr: seq<ParallelRegion>, s: State, bs: seq<Block>, js: seq<Interval>): State
    requires |bs| == |js| + 1
    decreases |js|
  {
    if js == [] then s
    else
      var r := Release(Privately(k, pr, s, bs[0], js[0]));
      PrivateRun(k, pr, r, bs[1..], js[1..])
  }

  // -------------------------------------------------------- items in turn are a schedule

  function Repeat(w: nat, n: nat): seq<nat> {
    seq(n, _ => w)
  }

  function FlatSchedule(ms: seq<nat>, w: nat): seq<nat>
    requires w <= |ms|
  {
    if w == 0 then [] else FlatSchedule(ms, w - 1) + Repeat(w - 1, ms[w - 1])
  }

  lemma {:induction false} FlatScheduleIsFlat(ms: seq<nat>, w: nat)
    requires w <= |ms|
    ensures InFlatOrder(FlatSchedule(ms, w)) && forall v :: v in FlatSchedule(ms, w) ==> v < w
    decreases w
  {
    if w > 0 {
      FlatScheduleIsFlat(ms, w - 1);
      var init, sched := FlatSchedule(ms, w - 1), FlatSchedule(ms, w);
      forall i, j | 0 <= i < j < |sched|
        ensures sched[i] <= sched[j]
      {
        if i < |init| {
          assert sched[i] in init;
        }
      }
    }
  }

  lemma {:induction false} AloneAfterStep(k: Kernel, id: nat, l: Local, m: Memory, n: nat)
    ensures var (l', m') := Step(k, id, l, m);
            Alone(k, id, l, m, n + 1) == Alone(k, id, l', m', n)
    decreases n
  {
    hide Step;
    if n > 0 {
      AloneAfterStep(k, id, l, m, n - 1);
    } else {
      assert Alone(k, id, l, m, 0) == (l, m);
    }
  }

  lemma {:induction false} RunRepeat(k: Kernel, s: State, before: seq<nat>, w: nat, n: nat)
    requires w < |s.items| && Respects(k, s, before)
    requires var r := Run(k, s, before);
             forall i :: 0 <= i < n ==> !Stopped(k, Alone(k, w, r.items[w], r.mem, i).0)
    ensures var r := Run(k, s, before); var (l, m) := Alone(k, w, r.items[w], r.mem, n);
            Respects(k, s, before + Repeat(w, n)) && Run(k, s, before + Repeat(w, n)) == State(r.items[w := l], m)
    decreases n
  {
    hide Respects, Run, Stopped, Step;
    var r := Run(k, s, before);
    if n == 0 {
      assert before + Repeat(w, 0) == before;
      assert r.items[w := r.items[w]] == r.items;
    } else {
      RunRepeat(k, s, before, w, n - 1);
      var init := before + Repeat(w, n - 1);
      assert before + Repeat(w, n) == init + [w];
      OneMoreStep(k, s, init, w);
    }
  }

  /** Where the items stand when the first w of them have made their steps one by one. */
  ghost predicate OnSchedule(k: Kernel, s: State, ms: seq<nat>, w: nat)
    requires w <= |s.items| == |ms|
  {
    var (items, m) := PrivateLoop(k, s.items, s.mem, ms, w);
    var r := Run(k, s, FlatSchedule(ms, w));
    Respects(k, s, FlatSchedule(ms, w)) && r == State(items, m)
  }

  /** No item stops before it has made its steps. */
  ghost predicate NoneStops(k: Kernel, s: State, ms: seq<nat>)
    requires |s.items| == |ms|
  {
    forall w, i :: 0 <= w < |ms| && 0 <= i < ms[w] ==>
      !Stopped(k, Alone(k, w, s.items[w], PrivateLoop(k, s.items, s.mem, ms, w).1, i).0)
  }

  /** The items in turn are a schedule. */
  lemma {:induction false} VisitsAreSchedule(k: Kernel, s: State, ms: seq<nat>, w: nat)
    requires w <= |s.items| == |ms| && NoneStops(k, s, ms)
    ensures OnSchedule(k, s, ms, w)
    decreases w
  {
    hide Stopped, Run, Respects, Alone;
    if w > 0 {
      VisitsAreSchedule(k, s, ms, w - 1);
      RunRepeat(k, s, FlatSchedule(ms, w - 1), w - 1, ms[w - 1]);
    } else {
      NoStepYet(k, s);
    }
  }

  // --------------------------------------------------------------- around a region

  /** Going on from the barrier is one step more. */
  lemma FirstStepEnters(k: Kernel, w: nat, l: Local, m: Memory, entry: Block, n: nat)
    requires BarrierBlock(k, l.at) && l.pc == 1 && !Terminator(k, l.at).Return?
             && Target(Terminator(k, l.at), l.env) == entry
    requires forall i :: 0 <= i < n ==> !Stopped(k, Alone(k, w, Enter(k, l.at, entry, l.env), m, i).0)
    ensures Alone(k, w, l, m, n + 1) == Alone(k, w, Enter(k, l.at, entry, l.env), m, n)
    ensures forall i :: 0 <= i < n + 1 ==> !Stopped(k, Alone(k, w, l, m, i).0)
  {
    hide Enter;
    var l' := Enter(k, l.at, entry, l.env);
    assert Step(k, w, l, m) == (l', m);
    forall i: nat
      ensures Alone(k, w, l, m, i + 1) == Alone(k, w, l', m, i)
    {
      AloneAfterStep(k, w, l, m, i);
    }
    forall i | 0 <= i < n + 1
      ensures !Stopped(k, Alone(k, w, l, m, i).0)
    {
      if i > 0 {
        assert Alone(k, w, l, m, (i - 1) + 1) == Alone(k, w, l', m, i - 1);
      }
    }
  }

  function OneMore(ns: seq<nat>): (ms: seq<nat>)
    ensures |ms| == |ns| && forall v :: 0 <= v < |ns| ==> ms[v] == ns[v] + 1
  {
    seq(|ns|, v requires 0 <= v < |ns| => ns[v] + 1)
  }

  lemma VisitOf(k: Kernel, pr: seq<ParallelRegion>, s: State, b: Block, j: Interval, b': Block, w: nat)
    requires IntervalOk(k, pr, s, b, j, b') && j.Around? && w < |s.items|
    ensures var m := PrivateLoop(k, Entering(k, s.items, b, pr[j.region].entry), s.mem, j.steps, w).1;
            && Alone(k, w, s.items[w], m, j.steps[w] + 1)
               == Alone(k, w, Enter(k, b, pr[j.region].entry, s.items[w].env), m, j.steps[w])
            && forall i :: 0 <= i < j.steps[w] + 1 ==> !Stopped(k, Alone(k, w, s.items[w], m, i).0)
  {
    hide Stopped, Step, Uniform, Privately, PrivateLoop, Alone, SingleEntry, Enter;
    var m := PrivateLoop(k, Entering(k, s.items, b, pr[j.region].entry), s.mem, j.steps, w).1;
    FirstStepEnters(k, w, s.items[w], m, pr[j.region].entry, j.steps[w]);
  }

  /** From the barrier on, items make one step more than from the region's entry on. */
  lemma {:induction false} FromBarrier(k: Kernel, pr: seq<ParallelRegion>, s: State, b: Block, j: Interval, b': Block,
                                       w: nat)
    requires IntervalOk(k, pr, s, b, j, b') && j.Around? && w <= |s.items|
    ensures var (items, m) := PrivateLoop(k, s.items, s.mem, OneMore(j.steps), w);
            var (items', m') := PrivateLoop(k, Entering(k, s.items, b, pr[j.region].entry), s.mem, j.steps, w);
            m == m' && forall v :: 0 <= v < w ==> items[v] == items'[v]
    decreases w
  {
    hide IntervalOk, Alone, Enter;
    if w > 0 {
      AroundFits(k, pr, s, b, j, b');
      FromBarrier(k, pr, s, b, j, b', w - 1);
      VisitOf(k, pr, s, b, j, b', w - 1);
    }
  }

  lemma AroundFits(k: Kernel, pr: seq<ParallelRegion>, s: State, b: Block, j: Interval, b': Block)
    requires IntervalOk(k, pr, s, b, j, b')
    ensures Fits(pr, |s.items|, j) && |s.items| > 0
  {
  }

  lemma AroundNoneStops(k: Kernel, pr: seq<ParallelRegion>, s: State, b: Block, j: Interval, b': Block)
    requires IntervalOk(k, pr, s, b, j, b') && j.Around?
    ensures |s.items| == |j.steps| && NoneStops(k, s, OneMore(j.steps))
  {
    hide IntervalOk, Alone, Stopped, PrivateLoop;
    AroundFits(k, pr, s, b, j, b');
    var ms := OneMore(j.steps);
    forall w, i | 0 <= w < |ms| && 0 <= i < ms[w]
      ensures !Stopped(k, Alone(k, w, s.items[w], PrivateLoop(k, s.items, s.mem, ms, w).1, i).0)
    {
      FromBarrier(k, pr, s, b, j, b', w);
      VisitOf(k, pr, s, b, j, b', w);
    }
  }

  lemma AlongNoneStops(k: Kernel, pr: seq<ParallelRegion>, s: State, b: Block, j: Interval, b': Block)
    requires IntervalOk(k, pr, s, b, j, b') && j.Along?
    ensures NoneStops(k, s, Times(j.length, |s.items|))
  {
    hide Alone, Stopped, PrivateLoop, InRegion;
    var ms := Times(j.length, |s.items|);
    forall w, i | 0 <= w < |ms| && 0 <= i < ms[w]
      ensures !Stopped(k, Alone(k, w, s.items[w], PrivateLoop(k, s.items, s.mem, ms, w).1, i).0)
    {
      StretchMemory(k, s.items, s.mem, j.length, ms, w);
      GoesAt(k, pr, w, s.items[w], s.mem, j.length, i);
    }
  }

  lemma StretchMemory(k: Kernel, items: seq<Local>, m: Memory, n: nat, ns: seq<nat>, w: nat)
    requires w < |items| == |ns| && (forall v :: 0 <= v < |ns| ==> ns[v] == n) && Quiet(k, items, m, n)
    ensures PrivateLoop(k, items, m, ns, w).1 == m
  {
    hide PrivateLoop, StoresNothing, Alone;
    StretchLoop(k, items, m, n, ns, w);
    if w > 0 {
      MemoryStays(k, 0, items[0], m, n);
    }
  }

  lemma IntervalIsSchedule(k: Kernel, pr: seq<ParallelRegion>, s: State, b: Block, j: Interval, b': Block)
    returns (sched: seq<nat>)
    requires IntervalOk(k, pr, s, b, j, b')
    ensures Fits(pr, |s.items|, j) && Respects(k, s, sched) && InFlatOrder(sched)
    ensures Run(k, s, sched) == Privately(k, pr, s, b, j) && AtBarrier(k, Run(k, s, sched))
  {
    hide Respects, Run, PrivateLoop, NoneStops, AtBarrier, IntervalOk, InFlatOrder;
    AroundFits(k, pr, s, b, j, b');
    var ms: seq<nat>;
    if j.Around? {
      ms := OneMore(j.steps);
      AroundNoneStops(k, pr, s, b, j, b');
      FromBarrier(k, pr, s, b, j, b', |s.items|);
    } else {
      ms := Times(j.length, |s.items|);
      AlongNoneStops(k, pr, s, b, j, b');
    }
    VisitsAreSchedule(k, s, ms, |ms|);
    FlatScheduleIsFlat(ms, |ms|);
    sched := FlatSchedule(ms, |ms|);
    assert Run(k, s, sched).items == Privately(k, pr, s, b, j).items;
    IntervalFacts(k, pr, s, b, j, b');
    StandingAtBarrier(k, Run(k, s, sched), b');
  }

  lemma StandingAtBarrier(k: Kernel, s: State, b: Block)
    requires Standing(s, b, 0) && Code(k, b) == [Barrier]
    ensures AtBarrier(k, s)
  {
  }

  lemma IntervalFacts(k: Kernel, pr: seq<ParallelRegion>, s: State, b: Block, j: Interval, b': Block)
    requires IntervalOk(k, pr, s, b, j, b')
    ensures Fits(pr, |s.items|, j) && Standing(Privately(k, pr, s, b, j), b', 0) && Code(k, b') == [Barrier]
  {
    hide Privately, SingleEntry, AllLeave, AllSame, Quiet, Goes;
  }

  // -------------------------------------------------------------------- the one thread

  /** The thread passes the interval as well, led by its own registers: into each iteration and
      out of it, or along. */
  ghost predicate ThreadPasses(k: Kernel, pr: seq<ParallelRegion>, sh: map<Name, int>, m: Memory, b: Block, j: Interval,
                               b': Block) {
    && !Terminator(k, b).Return? && !InRegion(pr, b) && BarrierBlock(k, b) && BarrierBlock(k, b') && !InRegion(pr, b')
    && match j
       case Around(i, ns) =>
         && i < |pr| && Target(Terminator(k, b), sh) == pr[i].entry
         && forall w :: 0 <= w < |ns| ==> IterationPasses(k, pr[i], sh, m, b, ns, b', w)
       case Along(n) =>
         var l := Local(b, 1, sh);
         Goes(k, pr, 0, l, m, n) && Alone(k, 0, l, m, n).0.at == b' && Alone(k, 0, l, m, n).0.pc == 0
  }

  ghost predicate IterationPasses(k: Kernel, r: ParallelRegion, sh: map<Name, int>, m: Memory, b: Block, ns: seq<nat>,
                                  b': Block, w: nat)
    requires w < |ns|
  {
    var (sh1, m1) := SharedLoop(k, b, r.entry, sh, m, ns, w);
    var l := Enter(k, b, r.entry, sh1);
    Leaves(k, r, w, l, m1, ns[w]) && Alone(k, w, l, m1, ns[w]).0.at == b' && Alone(k, w, l, m1, ns[w]).0.pc == 0
  }

  ghost predicate ThreadRuns(k: Kernel, pr: seq<ParallelRegion>, sh: map<Name, int>, m: Memory, bs: seq<Block>,
                             js: seq<Interval>)
    requires |bs| == |js| + 1
    decreases |js|
  {
    js != [] ==>
      && ThreadPasses(k, pr, sh, m, bs[0], js[0], bs[1])
      && var (sh1, m1) := Looped(k, pr, sh, m, bs[0], js[0]);
         ThreadRuns(k, pr, sh1, m1, bs[1..], js[1..])
  }

  lemma {:induction false} PrivateKeeps(k: Kernel, items: seq<Local>, m: Memory, ns: seq<nat>, v: nat, w: nat)
    requires v < w <= |items| == |ns|
    ensures PrivateLoop(k, items, m, ns, w).0[v] == Alone(k, v, items[v], PrivateLoop(k, items, m, ns, v).1, ns[v]).0
    decreases w
  {
    hide Alone;
    if v < w - 1 {
      PrivateKeeps(k, items, m, ns, v, w - 1);
    }
  }

  /** On one set of registers the interval leaves the same memory, by the same barrier. */
  lemma IntervalIsLoop(k: Kernel, pr: seq<ParallelRegion>, s: State, b: Block, j: Interval, b': Block,
                       sh: map<Name, int>)
    requires Ssa(k) && RegionsOk(k, pr) && UniformCode(k, pr) && (forall x :: !Cross(k, pr, x))
    requires IntervalOk(k, pr, s, b, j, b') && Agree(k, pr, s.items, sh)
    ensures Fits(pr, |s.items|, j) && ThreadPasses(k, pr, sh, s.mem, b, j, b')
    ensures var (sh', m) := Looped(k, pr, sh, s.mem, b, j);
            var r := Privately(k, pr, s, b, j);
            m == r.mem && Agree(k, pr, Release(r).items, sh')
  {
    hide Ssa, RegionsOk, Cross, UniformCode, IntervalOk, ThreadPasses;
    AroundFits(k, pr, s, b, j, b');
    if j.Around? {
      AroundIsLoop(k, pr, s, b, j, b', sh);
    } else {
      AlongIsOnce(k, pr, s, b, j, b', sh);
    }
  }

  lemma AroundIsLoop(k: Kernel, pr: seq<ParallelRegion>, s: State, b: Block, j: Interval, b': Block, sh: map<Name, int>)
    requires Ssa(k) && RegionsOk(k, pr) && (forall x :: !Cross(k, pr, x))
    requires IntervalOk(k, pr, s, b, j, b') && Agree(k, pr, s.items, sh) && j.Around? && Fits(pr, |s.items|, j)
    ensures ThreadPasses(k, pr, sh, s.mem, b, j, b')
    ensures var (sh', m) := Looped(k, pr, sh, s.mem, b, j);
            var r := Privately(k, pr, s, b, j);
            m == r.mem && Agree(k, pr, Release(r).items, sh')
  {
    hide Ssa, RegionsOk, Cross, SingleEntry, AllLeave, PrivateLoop, SharedLoop, Uniform, BarrierBlock, AllSame;
    hide IterationLeaves, IterationPasses, Enter;
    var r := pr[j.region];
    assert b !in r.blocks;
    LoopMatchesItems(k, pr, j.region, b, s.items, sh, s.mem, j.steps);
    TargetUniform(k, pr, b, s.items[0].env, sh);
    forall w | 0 <= w < |j.steps|
      ensures IterationPasses(k, r, sh, s.mem, b, j.steps, b', w)
    {
      PassesLike(k, pr, s, b, j, b', sh, w);
    }
  }

  lemma PassesLike(k: Kernel, pr: seq<ParallelRegion>, s: State, b: Block, j: Interval, b': Block, sh: map<Name, int>,
                   w: nat)
    requires j.Around? && Fits(pr, |s.items|, j) && w < |s.items| && Standing(Privately(k, pr, s, b, j), b', 0)
    requires IterationLeaves(k, pr[j.region], b, s.items, sh, s.mem, j.steps, w)
    ensures IterationPasses(k, pr[j.region], sh, s.mem, b, j.steps, b', w)
  {
    hide PrivateLoop, SharedLoop, Alone, Enter, Leaves;
    PrivateKeeps(k, Entering(k, s.items, b, pr[j.region].entry), s.mem, j.steps, w, |s.items|);
  }

  lemma AlongIsOnce(k: Kernel, pr: seq<ParallelRegion>, s: State, b: Block, j: Interval, b': Block, sh: map<Name, int>)
    requires UniformCode(k, pr)
    requires IntervalOk(k, pr, s, b, j, b') && Agree(k, pr, s.items, sh) && j.Along?
    ensures ThreadPasses(k, pr, sh, s.mem, b, j, b')
    ensures var (sh', m) := Looped(k, pr, sh, s.mem, b, j);
            var r := Privately(k, pr, s, b, j);
            m == r.mem && Agree(k, pr, Release(r).items, sh')
  {
    hide UniformCode, PrivateLoop, Uniform, Goes, Quiet, Alone;
    StretchShared(k, pr, s.items, sh, b, s.mem, j.length, Times(j.length, |s.items|));
    assert Privately(k, pr, s, b, j).items[0].at == b' && Privately(k, pr, s, b, j).items[0].pc == 0;
  }

  // ------------------------------------------------------------- no stores without races

  /** All items stand together, but for what is not uniform. */
  ghost predicate AllTogether(k: Kernel, pr: seq<ParallelRegion>, s: State) {
    forall w :: 0 <= w < |s.items| ==> Together(k, pr, (s.items[0], s.mem), (s.items[w], s.mem))
  }

  lemma StandTogether(k: Kernel, pr: seq<ParallelRegion>, s: State, b: Block, pc: nat)
    requires Standing(s, b, pc) && AllSame(k, pr, s.items)
    ensures AllTogether(k, pr, s)
  {
    hide Uniform;
  }

  /** Items that stand together store at the same place. */
  lemma StoresTogether(k: Kernel, pr: seq<ParallelRegion>, v: nat, w: nat, l: Local, l': Local, m: Memory)
    requires UniformCode(k, pr) && !InRegion(pr, l.at) && Together(k, pr, (l, m), (l', m))
    ensures StoresNext(k, l) <==> StoresNext(k, l')
    ensures StoresNext(k, l) ==> exists a :: a in WritesAt(k, v, l) && a in WritesAt(k, w, l')
  {
    hide Uniform, InRegion;
    if StoresNext(k, l) {
      var x := Code(k, l.at)[l.pc];
      assert ForAllItems(x);
      if x.addr.Reg? {
        assert UsedBy(x.addr.name, x) && ReadIn(k, x.addr.name, l.at);
        UniformRead(k, pr, x.addr.name, l.at);
      }
      assert Global(Value(l.env, x.addr)) in WritesAt(k, v, l) && Global(Value(l.env, x.addr)) in WritesAt(k, w, l');
    }
  }

  /** Two items that have come to a store by themselves can race. */
  lemma TwoStoresRace(k: Kernel, s: State, t: nat, l: Local, l': Local, a: Addr)
    requires |s.items| > 1 && StoresNothing(k, 0, s.items[0], s.mem, t) && StoresNothing(k, 1, s.items[1], s.mem, t)
    requires forall i :: 0 <= i <= t ==> !Stopped(k, Alone(k, 0, s.items[0], s.mem, i).0)
    requires forall i :: 0 <= i <= t ==> !Stopped(k, Alone(k, 1, s.items[1], s.mem, i).0)
    requires l == Alone(k, 0, s.items[0], s.mem, t).0 && l' == Alone(k, 1, s.items[1], s.mem, t).0
    requires a in WritesAt(k, 0, l) && a in WritesAt(k, 1, l')
    ensures !NoRaces(k, s)
  {
    hide Run, Respects, Alone, Stopped, Step, WritesAt, StoresNothing, Reads;
    NoStepYet(k, s);
    MemoryStays(k, 0, s.items[0], s.mem, t);
    MemoryStays(k, 1, s.items[1], s.mem, t);
    var first := [] + Repeat(0, t);
    RunRepeat(k, s, [], 0, t);
    var both := first + Repeat(1, t);
    RunRepeat(k, s, first, 1, t);
    assert Run(k, s, both) == State(s.items[0 := l][1 := l'], s.mem);
    OneMoreStep(k, s, both, 0);
    LogsOfStep(k, s, both, 0, 0);
    var third := both + [0];
    OneMoreStep(k, s, third, 1);
    LogsOfStep(k, s, third, 1, 0);
    LogsOfStep(k, s, third, 1, 1);
    var all := third + [1];
    assert a in Writes(k, s, all, 0) && a in Writes(k, s, all, 1);
    if NoRaces(k, s) {
      NoRaceIn(k, s, all);
    }
  }

  /** Without races, several items that run through uniform code together store nothing. */
  lemma {:induction false} StretchIsQuiet(k: Kernel, pr: seq<ParallelRegion>, s: State, n: nat, t: nat)
    requires UniformCode(k, pr) && AllTogether(k, pr, s) && NoRaces(k, s) && |s.items| > 1
    requires Goes(k, pr, 0, s.items[0], s.mem, n) && t <= n
    ensures forall w :: 0 <= w < |s.items| ==> StoresNothing(k, w, s.items[w], s.mem, t)
    decreases t
  {
    hide UniformCode, Together, NoRaces, Goes, Alone, StoresNext, InRegion;
    if t > 0 {
      StretchIsQuiet(k, pr, s, n, t - 1);
      FirstTwoQuiet(k, pr, s, n, t - 1);
      forall w | 0 <= w < |s.items|
        ensures !StoresNext(k, Alone(k, w, s.items[w], s.mem, t - 1).0)
      {
        SameStore(k, pr, s, n, t - 1, w);
      }
    }
  }

  lemma SameStore(k: Kernel, pr: seq<ParallelRegion>, s: State, n: nat, t: nat, w: nat)
    requires UniformCode(k, pr) && AllTogether(k, pr, s) && w < |s.items|
    requires Goes(k, pr, 0, s.items[0], s.mem, n) && t < n
    requires StoresNothing(k, 0, s.items[0], s.mem, t) && StoresNothing(k, w, s.items[w], s.mem, t)
    ensures var l, l' := Alone(k, 0, s.items[0], s.mem, t).0, Alone(k, w, s.items[w], s.mem, t).0;
            && (StoresNext(k, l) <==> StoresNext(k, l')) && !Stopped(k, l')
            && (StoresNext(k, l) ==> exists a :: a in WritesAt(k, 0, l) && a in WritesAt(k, w, l'))
  {
    hide UniformCode, Goes, Alone, StoresNext, InRegion, Alongside, WritesAt, Stopped, StoresNothing;
    RunTogether(k, pr, 0, w, (s.items[0], s.mem), (s.items[w], s.mem), n, t);
    GoesAt(k, pr, 0, s.items[0], s.mem, n, t);
    MemoryStays(k, 0, s.items[0], s.mem, t);
    MemoryStays(k, w, s.items[w], s.mem, t);
    var l, l' := Alone(k, 0, s.items[0], s.mem, t).0, Alone(k, w, s.items[w], s.mem, t).0;
    SameStop(k, l, l');
    StoresTogether(k, pr, 0, w, l, l', s.mem);
  }

  lemma FirstTwoQuiet(k: Kernel, pr: seq<ParallelRegion>, s: State, n: nat, t: nat)
    requires UniformCode(k, pr) && AllTogether(k, pr, s) && NoRaces(k, s) && |s.items| > 1
    requires Goes(k, pr, 0, s.items[0], s.mem, n) && t < n
    requires forall w :: 0 <= w < |s.items| ==> StoresNothing(k, w, s.items[w], s.mem, t)
    ensures !StoresNext(k, Alone(k, 0, s.items[0], s.mem, t).0)
  {
    hide UniformCode, Together, NoRaces, Goes, Alone, StoresNext, InRegion, WritesAt, Stopped, StoresNothing;
    var l, l' := Alone(k, 0, s.items[0], s.mem, t).0, Alone(k, 1, s.items[1], s.mem, t).0;
    SameStore(k, pr, s, n, t, 1);
    if StoresNext(k, l) {
      var a :| a in WritesAt(k, 0, l) && a in WritesAt(k, 1, l');
      forall i | 0 <= i <= t
        ensures !Stopped(k, Alone(k, 0, s.items[0], s.mem, i).0) && !Stopped(k, Alone(k, 1, s.items[1], s.mem, i).0)
      {
        GoesAt(k, pr, 0, s.items[0], s.mem, n, i);
        Shorter(k, 0, s.items[0], s.mem, t, i);
        Shorter(k, 1, s.items[1], s.mem, t, i);
        SameStore(k, pr, s, n, i, 1);
      }
      TwoStoresRace(k, s, t, l, l', a);
    }
  }

  lemma Shorter(k: Kernel, id: nat, l: Local, m: Memory, n: nat, i: nat)
    requires StoresNothing(k, id, l, m, n) && i <= n
    ensures StoresNothing(k, id, l, m, i)
  {
  }

  lemma AlongMetIsOk(k: Kernel, pr: seq<ParallelRegion>, s: State, b: Block, j: Interval, b': Block)
    requires UniformCode(k, pr) && NoRaces(k, s) && AllSame(k, pr, s.items)
    requires IntervalMet(k, pr, s, b, j, b') && j.Along?
    ensures IntervalOk(k, pr, s, b, j, b') && AllSame(k, pr, Privately(k, pr, s, b, j).items)
  {
    hide UniformCode, NoRaces, Goes, Alone, InRegion, Uniform, BarrierBlock, StoresNothing;
    StandTogether(k, pr, s, b, 1);
    if |s.items| > 1 {
      StretchIsQuiet(k, pr, s, j.length, j.length);
    }
    StretchLoop(k, s.items, s.mem, j.length, Times(j.length, |s.items|), |s.items|);
    forall w | 0 <= w < |s.items|
      ensures Goes(k, pr, w, s.items[w], s.mem, j.length)
      ensures Together(k, pr, Alone(k, 0, s.items[0], s.mem, j.length), Alone(k, w, s.items[w], s.mem, j.length))
    {
      GoTogether(k, pr, 0, w, (s.items[0], s.mem), (s.items[w], s.mem), j.length);
    }
  }

  lemma ReleasedSame(k: Kernel, pr: seq<ParallelRegion>, s: State)
    requires AllSame(k, pr, s.items)
    ensures AllSame(k, pr, Release(s).items)
  {
    hide Uniform;
  }

  /** What is asked of an execution is enough when the items do not race. */
  lemma {:induction false} MetIsOk(k: Kernel, pr: seq<ParallelRegion>, s: State, bs: seq<Block>, js: seq<Interval>)
    requires |bs| == |js| + 1 && UniformCode(k, pr) && NoRaces(k, s) && AllSame(k, pr, s.items)
    requires LoopedMet(k, pr, s, bs, js)
    ensures LoopedOk(k, pr, s, bs, js)
    decreases |js|
  {
    hide UniformCode, NoRaces, AllSame, IntervalMet, IntervalOk, Privately, Run, Respects, AtBarrier;
    if js != [] {
      MetFits(k, pr, s, bs[0], js[0], bs[1]);
      if js[0].Along? {
        AlongMetIsOk(k, pr, s, bs[0], js[0], bs[1]);
      }
      var r := Privately(k, pr, s, bs[0], js[0]);
      var sched := IntervalIsSchedule(k, pr, s, bs[0], js[0], bs[1]);
      NoRacesAfter(k, s, sched);
      ReleasedSame(k, pr, r);
      MetIsOk(k, pr, Release(r), bs[1..], js[1..]);
    }
  }

  lemma MetFits(k: Kernel, pr: seq<ParallelRegion>, s: State, b: Block, j: Interval, b': Block)
    requires IntervalMet(k, pr, s, b, j, b')
    ensures Fits(pr, |s.items|, j)
    ensures j.Around? ==> IntervalOk(k, pr, s, b, j, b') && AllSame(k, pr, Privately(k, pr, s, b, j).items)
  {
  }

  // ------------------------------------------------------------------ barriers in both kernels

  lemma BarrierUnedited(k: Kernel, e: Edit, b: Block)
    requires EditOk(k, e) && InRange(k, e) && Code(Applied(k, e), b) == [Barrier]
    ensures b != EditedBlock(e) && Code(k, b) == [Barrier]
    ensures Terminator(Applied(k, e), b).Return? <==> Terminator(k, b).Return?
  {
    hide EditOk, Applied;
    EditInRange(k, e);
    CodeAt(k, e, b, 0);
    SameElsewhere(k, e, b);
    if b == EditedBlock(e) {
      CodeAt(k, e, b, EditedPos(k, e));
    }
  }

  lemma {:induction false} BarrierBefore(k: Kernel, edits: seq<Edit>, b: Block)
    requires AllOk(k, edits) && Code(Result(k, edits), b) == [Barrier]
    ensures Code(k, b) == [Barrier] && (Terminator(Result(k, edits), b).Return? <==> Terminator(k, b).Return?)
    decreases |edits|
  {
    hide EditOk, Applied, AllOk;
    if edits != [] {
      var init, e := edits[..|edits| - 1], edits[|edits| - 1];
      LastEdit(k, edits);
      BarrierUnedited(Result(k, init), e, b);
      BarrierBefore(k, init, b);
    }
  }

  /** At a barrier the original stands where the result stands, before and behind it. */
  lemma {:induction false} PassingBefore(k: Kernel, edits: seq<Edit>, id: nat, l: Local, m: Memory)
    requires AllOk(k, edits) && Code(Result(k, edits), l.at) == [Barrier] && l.pc == 0 && Invs(k, edits, id, l, m)
    ensures var l' := l.(pc := 1);
            && Invs(k, edits, id, l', m) && Before(k, edits, l') == Before(k, edits, l).(pc := 1)
            && Before(k, edits, l).at == l.at && Before(k, edits, l).pc == 0
    decreases |edits|
  {
    hide EditOk, Applied, AllOk;
    if edits != [] {
      var init, e := edits[..|edits| - 1], edits[|edits| - 1];
      var k1 := Result(k, init);
      LastEdit(k, edits);
      BarrierUnedited(k1, e, l.at);
      PassingBefore(k, init, id, Back(k1, e, l), BackMem(e, m));
      assert Back(k1, e, l.(pc := 1)) == Back(k1, e, l).(pc := 1);
    }
  }

  lemma {:induction false} BeforeKeepsBlock(k: Kernel, edits: seq<Edit>, l: Local)
    requires AllOk(k, edits) && Code(Result(k, edits), l.at) == [Barrier]
    ensures Before(k, edits, l).at == l.at && Before(k, edits, l).pc == l.pc
    decreases |edits|
  {
    hide EditOk, Applied, AllOk;
    if edits != [] {
      var init, e := edits[..|edits| - 1], edits[|edits| - 1];
      LastEdit(k, edits);
      BarrierUnedited(Result(k, init), e, l.at);
      BeforeKeepsBlock(k, init, Back(Result(k, init), e, l));
    }
  }

  lemma ReleaseBefore(k: Kernel, edits: seq<Edit>, s: State, b: Block)
    requires AllOk(k, edits) && GroupInvs(k, edits, s) && Standing(s, b, 0) && Code(Result(k, edits), b) == [Barrier]
    ensures GroupInvs(k, edits, Release(s)) && BeforeState(k, edits, Release(s)) == Release(BeforeState(k, edits, s))
    ensures AtBarrier(k, BeforeState(k, edits, s))
  {
    hide AllOk, Result, Invs, Before, BeforeMem;
    BarrierBefore(k, edits, b);
    var r, o := Release(s), BeforeState(k, edits, s);
    forall w | 0 <= w < |s.items|
      ensures Invs(k, edits, w, r.items[w], s.mem)
              && Before(k, edits, r.items[w]) == o.items[w].(pc := o.items[w].pc + 1)
      ensures o.items[w].at == b && o.items[w].pc == 0
    {
      PassingBefore(k, edits, w, s.items[w], s.mem);
    }
    assert BeforeState(k, edits, r).items == Release(o).items;
  }

  lemma EndedBefore(k: Kernel, edits: seq<Edit>, s: State, b: Block)
    requires AllOk(k, edits) && Standing(s, b, 1)
    requires Code(Result(k, edits), b) == [Barrier] && Terminator(Result(k, edits), b).Return?
    ensures Ended(k, BeforeState(k, edits, s))
  {
    hide AllOk, Result, Before, BeforeMem;
    BarrierBefore(k, edits, b);
    forall w | 0 <= w < |s.items|
      ensures Finished(k, Before(k, edits, s.items[w]))
    {
      BeforeKeepsBlock(k, edits, s.items[w]);
    }
  }

  // --------------------------------------------------------------------------- the theorem

  /** Work-items never race between barriers. */
  ghost predicate NoRaces(k: Kernel, s: State) {
    forall rounds :: Allowed(k, s, rounds) ==> RaceFreeThroughout(k, s, rounds)
  }

  lemma NoRaceIn(k: Kernel, s: State, sched: seq<nat>)
    requires NoRaces(k, s) && Respects(k, s, sched)
    ensures RaceFree(k, s, sched)
  {
    hide RaceFree, Respects, Run;
    assert Allowed(k, s, [sched]);
    assert StateAt(k, s, [sched], 0) == s && [sched][0] == sched;
  }

  lemma NoRacesAfter(k: Kernel, s: State, sched: seq<nat>)
    requires NoRaces(k, s) && Respects(k, s, sched) && AtBarrier(k, Run(k, s, sched))
    ensures NoRaces(k, Release(Run(k, s, sched)))
  {
    hide RaceFree, Respects, Run, AtBarrier, Release;
    var s' := Release(Run(k, s, sched));
    forall rounds | Allowed(k, s', rounds)
      ensures RaceFreeThroughout(k, s', rounds)
    {
      var all := [sched] + rounds;
      assert all[1..] == rounds;
      assert Allowed(k, s, all);
      forall i | 0 <= i < |rounds|
        ensures RaceFree(k, StateAt(k, s', rounds, i), rounds[i])
      {
        assert RaceFree(k, StateAt(k, s, all, i + 1), all[i + 1]);
      }
    }
  }

  lemma AfterFirst(k: Kernel, s: State, sched: seq<nat>, rest: seq<seq<nat>>)
    requires |rest| > 0
    ensures After(k, s, [sched] + rest) == After(k, Release(Run(k, s, sched)), rest)
  {
    hide Run, Release;
    assert ([sched] + rest)[1..] == rest;
  }

  lemma CoarsenedFirst(k: Kernel, s: State, sched: seq<nat>, rest: seq<seq<nat>>)
    requires Respects(k, s, sched) && InFlatOrder(sched) && RaceFree(k, s, sched) && AtBarrier(k, Run(k, s, sched))
    requires Coarsened(k, Release(Run(k, s, sched)), rest)
    ensures Coarsened(k, s, [sched] + rest)
  {
    hide Respects, RaceFree, Run, Release, AtBarrier, Ended, InFlatOrder;
    assert ([sched] + rest)[1..] == rest;
  }

  lemma NothingLeft(k: Kernel, s: State)
    requires NoRaces(k, s) && Ended(k, s)
    ensures Coarsened(k, s, [[]]) && After(k, s, [[]]) == s
  {
    hide NoRaces, RaceFree, Ended;
    NoStepYet(k, s);
    NoRaceIn(k, s, []);
    EmptyIsFlat();
  }

  /** What the items do interval by interval is, in the original, a flat-order execution. */
  lemma {:induction false} LoopsAreCoarsened(k: Kernel, edits: seq<Edit>, pr: seq<ParallelRegion>, s: State,
                                             bs: seq<Block>, js: seq<Interval>) returns (rounds: seq<seq<nat>>)
    requires |bs| == |js| + 1 && AllOk(k, edits) && GroupInvs(k, edits, s) && LoopedOk(Result(k, edits), pr, s, bs, js)
    requires NoRaces(k, BeforeState(k, edits, s))
    ensures forall j :: j in js ==> Fits(pr, |s.items|, j)
    ensures Coarsened(k, BeforeState(k, edits, s), rounds) && |rounds| == |js| + 1
    ensures After(k, BeforeState(k, edits, s), rounds)
            == BeforeState(k, edits, PrivateRun(Result(k, edits), pr, s, bs, js))
    decreases |js|
  {
    hide AllOk, Result, BeforeState, GroupInvs, Coarsened, After, NoRaces, Respects, Run, IntervalOk, Privately;
    hide AtBarrier, InFlatOrder;
    var k', o := Result(k, edits), BeforeState(k, edits, s);
    if js == [] {
      EndedBefore(k, edits, s, bs[0]);
      NothingLeft(k, o);
      rounds := [[]];
    } else {
      var j := js[0];
      IntervalFacts(k', pr, s, bs[0], j, bs[1]);
      var r := Privately(k', pr, s, bs[0], j);
      var sched := IntervalIsSchedule(k', pr, s, bs[0], j, bs[1]);
      var orig := BufferedRunsAreOriginalRuns(k, edits, s, sched);
      ReleaseBefore(k, edits, r, bs[1]);
      NoRaceIn(k, o, orig);
      NoRacesAfter(k, o, orig);
      var rest := LoopsAreCoarsened(k, edits, pr, Release(r), bs[1..], js[1..]);
      CoarsenedFirst(k, o, orig, rest);
      CoarsenedIsNotEmpty(k, BeforeState(k, edits, Release(r)), rest);
      AfterFirst(k, o, orig, rest);
      rounds := [orig] + rest;
    }
  }

  lemma CoarsenedIsNotEmpty(k: Kernel, s: State, rounds: seq<seq<nat>>)
    requires Coarsened(k, s, rounds)
    ensures |rounds| > 0
  {
  }

  lemma {:induction false} LoopedIsPrivate(k: Kernel, pr: seq<ParallelRegion>, s: State, sh: map<Name, int>,
                                           bs: seq<Block>, js: seq<Interval>)
    requires Ssa(k) && RegionsOk(k, pr) && UniformCode(k, pr) && (forall x :: !Cross(k, pr, x))
    requires |bs| == |js| + 1 && LoopedOk(k, pr, s, bs, js) && Agree(k, pr, s.items, sh)
    ensures forall j :: j in js ==> Fits(pr, |s.items|, j)
    ensures ThreadRuns(k, pr, sh, s.mem, bs, js)
    ensures var (sh', m) := LoopedRun(k, pr, sh, s.mem, bs, js);
            var r := PrivateRun(k, pr, s, bs, js);
            m == r.mem && Agree(k, pr, r.items, sh')
    decreases |js|
  {
    hide Ssa, RegionsOk, UniformCode, Cross, IntervalOk, Privately, Looped, Agree, ThreadPasses;
    if js != [] {
      IntervalFacts(k, pr, s, bs[0], js[0], bs[1]);
      var r := Privately(k, pr, s, bs[0], js[0]);
      IntervalIsLoop(k, pr, s, bs[0], js[0], bs[1], sh);
      LoopedIsPrivate(k, pr, Release(r), Looped(k, pr, sh, s.mem, bs[0], js[0]).0, bs[1..], js[1..]);
    }
  }

  /** The SSA form, the shape of the regions and the uniform code outlast all edits. */
  lemma {:induction false} FormKept(k: Kernel, edits: seq<Edit>, pr: seq<ParallelRegion>)
    requires AllOk(k, edits) && Inside(pr, edits) && Ssa(k) && RegionsOk(k, pr) && UniformCode(k, pr)
    ensures Ssa(Result(k, edits)) && RegionsOk(Result(k, edits), pr) && UniformCode(Result(k, edits), pr)
    decreases |edits|
  {
    hide AllOk, EditOk, Applied, Ssa, RegionsOk, UniformCode, InsideOne;
    if edits != [] {
      var init, e := edits[..|edits| - 1], edits[|edits| - 1];
      LastEdit(k, edits);
      assert InsideOne(pr, e);
      FormKept(k, init, pr);
      SsaStays(Result(k, init), e);
      RegionsOkStays(Result(k, init), pr, e);
      UniformCodeStays(Result(k, init), pr, e);
    }
  }

  lemma UniformCodeStays(k: Kernel, pr: seq<ParallelRegion>, e: Edit)
    requires InRange(k, e) && InsideOne(pr, e) && UniformCode(k, pr)
    ensures UniformCode(Applied(k, e), pr)
  {
    hide InRegion, SameRegion, ForAllItems;
    forall b | !InRegion(pr, b)
      ensures Code(Applied(k, e), b) == Code(k, b)
    {
      CodeAt(k, e, b, 0);
    }
  }

  /** From behind a barrier on. `s` is the group of the buffered kernel k' there; what it stands
      for in the original has, if it does not race, a flat-order execution that leaves the memory
      of the looped kernel in its one run. */
  lemma LoopsMatchSchedule(k: Kernel, edits: seq<Edit>, k': Kernel, pr: seq<ParallelRegion>, s: State,
                           sh: map<Name, int>,
                           bs: seq<Block>, js: seq<Interval>) returns (rounds: seq<seq<nat>>)
    requires AllOk(k, edits) && Inside(pr, edits) && k' == Result(k, edits)
    requires Ssa(k) && RegionsOk(k, pr) && UniformCode(k, pr) && forall x :: !Cross(k', pr, x)
    requires |bs| == |js| + 1 && GroupInvs(k, edits, s) && Agree(k', pr, s.items, sh)
    requires LoopedOk(k', pr, s, bs, js) && NoRaces(k, BeforeState(k, edits, s))
    ensures forall j :: j in js ==> Fits(pr, |s.items|, j)
    ensures Coarsened(k, BeforeState(k, edits, s), rounds) && |rounds| == |js| + 1
    ensures ThreadRuns(k', pr, sh, s.mem, bs, js)
    ensures var r := After(k, BeforeState(k, edits, s), rounds);
            && r.mem == BeforeMem(edits, LoopedRun(k', pr, sh, s.mem, bs, js).1)
            && r == BeforeState(k, edits, PrivateRun(k', pr, s, bs, js))
  {
    hide AllOk, Result, GroupInvs, LoopedOk, NoRaces, Coarsened, After, Ended, CanGoOn, Ssa, RegionsOk, UniformCode;
    hide Cross, Agree;
    hide LoopedRun, PrivateRun, BeforeMem, Before, ThreadRuns, Inside;
    rounds := LoopsAreCoarsened(k, edits, pr, s, bs, js);
    FormKept(k, edits, pr);
    LoopedIsPrivate(k', pr, s, sh, bs, js);
  }
}
