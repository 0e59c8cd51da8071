/** The coarsened kernel as one thread that makes one step after the other and is handed from item
    to item: what the work-item loops are to do, before there are any. The code that is built is
    compared with this thread in NestThread and BuiltCode. */
module OneThread {
  import opened Graphs
  import opened WorkItems
  import opened Interleaving
  import opened Contexts
  import opened ContextBuffering
  import opened ContextPass
  import opened SharedRegisters
  import opened UniformStretch
  import opened Coarsening
  import opened WorkGroups

  /** Where the thread is, for which item it runs a looped region, and by which block it has come
      to the region. */
  datatype Thread = Thread(l: Local, item: nat, from: Block)

  ghost function RegionOf(pr: seq<ParallelRegion>, b: Block): (i: nat)
    requires InRegion(pr, b)
    ensures i < |pr| && b in pr[i].blocks
  {
    var i :| 0 <= i < |pr| && b in pr[i].blocks;
    i
  }

  /** One step. Barrier calls have been erased. Where the code leaves a looped region, the latch
      goes on with the next of n items, and the header enters the region again. */
  ghost function ThreadStep(k: Kernel, pr: seq<ParallelRegion>, n: nat, t: Thread, m: Memory): (Thread, Memory) {
    if InRegion(pr, t.l.at) then
      var r := pr[RegionOf(pr, t.l.at)];
      var (l, m') := Step(k, t.item, t.l, m);
      if l.at in r.blocks then (Thread(l, t.item, t.from), m')
      else if t.item + 1 < n then (Thread(Enter(k, t.from, r.entry, l.env), t.item + 1, t.from), m')
      else (Thread(l, 0, t.from), m')
    else if Waiting(k, t.l) then (Thread(t.l.(pc := t.l.pc + 1), 0, t.from), m)
    else
      var (l, m') := Step(k, 0, t.l, m);
      (Thread(l, 0, t.l.at), m')
  }

  ghost function ThreadAfter(k: Kernel, pr: seq<ParallelRegion>, n: nat, t: Thread, m: Memory, c: nat): (Thread,
                             Memory) {
    if c == 0 then (t, m)
    else
      var (t', m') := ThreadAfter(k, pr, n, t, m, c - 1);
      ThreadStep(k, pr, n, t', m')
  }

  lemma {:induction false} ThreadOn(k: Kernel, pr: seq<ParallelRegion>, n: nat, t: Thread, m: Memory, a: nat, b: nat)
    ensures var (t', m') := ThreadAfter(k, pr, n, t, m, a);
            ThreadAfter(k, pr, n, t, m, a + b) == ThreadAfter(k, pr, n, t', m', b)
    decreases b
  {
    hide ThreadStep;
    if b > 0 {
      ThreadOn(k, pr, n, t, m, a, b - 1);
      var (t', m') := ThreadAfter(k, pr, n, t, m, a);
      assert a + b - 1 == a + (b - 1);
    }
  }

  // ------------------------------------------------------------------------- one interval

  lemma {:induction false} ThreadGoes(k: Kernel, pr: seq<ParallelRegion>, n: nat, l: Local, f: Block, m: Memory, c: nat,
                                      i: nat)
    requires Goes(k, pr, 0, l, m, c) && i <= c
    ensures var (t, m') := ThreadAfter(k, pr, n, Thread(l, 0, f), m, i);
            (t.l, m') == Alone(k, 0, l, m, i) && t.item == 0
    decreases i
  {
    hide Goes, Step, InRegion;
    if i > 0 {
      ThreadGoes(k, pr, n, l, f, m, c, i - 1);
      GoesAt(k, pr, 0, l, m, c, i - 1);
    }
  }

  lemma InsideRegion(pr: seq<ParallelRegion>, i: nat, b: Block)
    requires Disjoint(pr) && i < |pr| && b in pr[i].blocks
    ensures InRegion(pr, b) && RegionOf(pr, b) == i
  {
  }

  /** The steps of one iteration but the last. */
  lemma {:induction false} ThreadStays(k: Kernel, pr: seq<ParallelRegion>, n: nat, i: nat, w: nat, l: Local, f: Block,
                                       m: Memory,
                                       c: nat, d: nat)
    requires Disjoint(pr) && i < |pr| && Leaves(k, pr[i], w, l, m, c) && d < c
    ensures var (t, m') := ThreadAfter(k, pr, n, Thread(l, w, f), m, d);
            (t.l, m') == Alone(k, w, l, m, d) && t.item == w && t.from == f
    decreases d
  {
    hide Disjoint, Step, InRegion, Stopped;
    if d > 0 {
      ThreadStays(k, pr, n, i, w, l, f, m, c, d - 1);
      InsideRegion(pr, i, Alone(k, w, l, m, d - 1).0.at);
      assert Alone(k, w, l, m, d).0.at in pr[i].blocks;
    }
  }

  /** A whole iteration: on to the next item, or out of the region after the last. */
  lemma ThreadIterates(k: Kernel, pr: seq<ParallelRegion>, n: nat, i: nat, w: nat, l: Local, f: Block, m: Memory,
                       c: nat)
    requires Disjoint(pr) && i < |pr| && Leaves(k, pr[i], w, l, m, c)
    ensures var (l', m') := Alone(k, w, l, m, c);
            ThreadAfter(k, pr, n, Thread(l, w, f), m, c)
            == (if w + 1 < n then Thread(Enter(k, f, pr[i].entry, l'.env), w + 1, f) else Thread(l', 0, f), m')
  {
    hide Disjoint, Step, InRegion, Stopped, Enter;
    ThreadStays(k, pr, n, i, w, l, f, m, c, c - 1);
    InsideRegion(pr, i, Alone(k, w, l, m, c - 1).0.at);
  }

  /** The first w iterations of the loop around a region. */
  lemma {:induction false} ThreadLoops(k: Kernel, pr: seq<ParallelRegion>, i: nat, sh: map<Name, int>, m: Memory,
                                       b: Block,
                                       ns: seq<nat>, b': Block, w: nat) returns (c: nat)
    requires Disjoint(pr) && i < |pr| && w < |ns|
    requires forall v :: 0 <= v < |ns| ==> IterationPasses(k, pr[i], sh, m, b, ns, b', v)
    ensures var (sh1, m1) := SharedLoop(k, b, pr[i].entry, sh, m, ns, w);
            ThreadAfter(k, pr, |ns|, Thread(Enter(k, b, pr[i].entry, sh), 0, b), m, c)
            == (Thread(Enter(k, b, pr[i].entry, sh1), w, b), m1)
    decreases w
  {
    hide Disjoint, Alone, Leaves, Enter, ThreadStep;
    var start := Thread(Enter(k, b, pr[i].entry, sh), 0, b);
    if w == 0 {
      c := 0;
    } else {
      var c1 := ThreadLoops(k, pr, i, sh, m, b, ns, b', w - 1);
      var (sh1, m1) := SharedLoop(k, b, pr[i].entry, sh, m, ns, w - 1);
      assert IterationPasses(k, pr[i], sh, m, b, ns, b', w - 1);
      ThreadIterates(k, pr, |ns|, i, w - 1, Enter(k, b, pr[i].entry, sh1), b, m1, ns[w - 1]);
      ThreadOn(k, pr, |ns|, start, m, c1, ns[w - 1]);
      c := c1 + ns[w - 1];
    }
  }

  lemma ThreadEnters(k: Kernel, pr: seq<ParallelRegion>, n: nat, sh: map<Name, int>, f: Block, m: Memory, b: Block)
    requires BarrierBlock(k, b) && !InRegion(pr, b) && !Terminator(k, b).Return?
    ensures ThreadAfter(k, pr, n, Thread(Local(b, 1, sh), 0, f), m, 1)
         == (Thread(Enter(k, b, Target(Terminator(k, b), sh), sh), 0, b), m)
  {
    hide InRegion, Enter;
    assert ThreadAfter(k, pr, n, Thread(Local(b, 1, sh), 0, f), m, 0) == (Thread(Local(b, 1, sh), 0, f), m);
  }

  lemma ThreadGoesAround(k: Kernel, pr: seq<ParallelRegion>, sh: map<Name, int>, f: Block, m: Memory, b: Block,
                         j: Interval,
                         b': Block) returns (c: nat)
    requires Disjoint(pr) && ThreadPasses(k, pr, sh, m, b, j, b') && j.Around? && |j.steps| > 0
    ensures var (sh', m') := Looped(k, pr, sh, m, b, j);
            ThreadAfter(k, pr, |j.steps|, Thread(Local(b, 1, sh), 0, f), m, c) == (Thread(Local(b', 0, sh'), 0, b), m')
  {
    hide Disjoint, Alone, Leaves, Enter, ThreadStep, InRegion, BarrierBlock;
    var i, ns, start := j.region, j.steps, Thread(Local(b, 1, sh), 0, f);
    var last := |ns| - 1;
    ThreadEnters(k, pr, |ns|, sh, f, m, b);
    var c1 := ThreadLoops(k, pr, i, sh, m, b, ns, b', last);
    ThreadOn(k, pr, |ns|, start, m, 1, c1);
    var (sh1, m1) := SharedLoop(k, b, pr[i].entry, sh, m, ns, last);
    assert IterationPasses(k, pr[i], sh, m, b, ns, b', last);
    ThreadIterates(k, pr, |ns|, i, last, Enter(k, b, pr[i].entry, sh1), b, m1, ns[last]);
    ThreadOn(k, pr, |ns|, start, m, 1 + c1, ns[last]);
    c := 1 + c1 + ns[last];
  }

  /** Through one interval and over the barrier. */
  lemma ThreadPassesOn(k: Kernel, pr: seq<ParallelRegion>, n: nat, sh: map<Name, int>, f: Block, m: Memory, b: Block,
                       j: Interval,
                       b': Block) returns (c: nat, f': Block)
    requires Disjoint(pr) && ThreadPasses(k, pr, sh, m, b, j, b') && n > 0 && Fits(pr, n, j)
    ensures var (sh', m') := Looped(k, pr, sh, m, b, j);
            ThreadAfter(k, pr, n, Thread(Local(b, 1, sh), 0, f), m, c) == (Thread(Local(b', 1, sh'), 0, f'), m')
  {
    hide Disjoint, Alone, InRegion, IterationPasses, SharedLoop, Goes;
    var c1;
    if j.Around? {
      c1 := ThreadGoesAround(k, pr, sh, f, m, b, j, b');
    } else {
      c1 := j.length;
      ThreadGoes(k, pr, n, Local(b, 1, sh), f, m, c1, c1);
    }
    c, f' := c1 + 1, ThreadAfter(k, pr, n, Thread(Local(b, 1, sh), 0, f), m, c1).0.from;
    assert ThreadAfter(k, pr, n, Thread(Local(b, 1, sh), 0, f), m, c1).0.l
           == Local(b', 0, Looped(k, pr, sh, m, b, j).0);
  }

  /** Through all of them, to behind the last barrier. */
  lemma {:induction false} ThreadRunsOn(k: Kernel, pr: seq<ParallelRegion>, n: nat, sh: map<Name, int>, f: Block,
                                        m: Memory,
                                        bs: seq<Block>, js: seq<Interval>) returns (c: nat, f': Block)
    requires Disjoint(pr) && |bs| == |js| + 1 && ThreadRuns(k, pr, sh, m, bs, js) && n > 0
    requires forall j :: j in js ==> Fits(pr, n, j)
    ensures var (sh', m') := LoopedRun(k, pr, sh, m, bs, js);
            ThreadAfter(k, pr, n, Thread(Local(bs[0], 1, sh), 0, f), m, c)
              == (Thread(Local(bs[|js|], 1, sh'), 0, f'), m')
    decreases |js|
  {
    hide Disjoint, ThreadPasses, ThreadStep, Looped, Fits;
    if js == [] {
      c, f' := 0, f;
    } else {
      var c1, f1 := ThreadPassesOn(k, pr, n, sh, f, m, bs[0], js[0], bs[1]);
      var (sh1, m1) := Looped(k, pr, sh, m, bs[0], js[0]);
      var c2;
      c2, f' := ThreadRunsOn(k, pr, n, sh1, f1, m1, bs[1..], js[1..]);
      ThreadOn(k, pr, n, Thread(Local(bs[0], 1, sh), 0, f), m, c1, c2);
      c := c1 + c2;
    }
  }

  // ----------------------------------------------------------------------------- the theorem

  lemma OverFirstBarrier(k: Kernel, pr: seq<ParallelRegion>, n: nat, m: Memory)
    requires BarrierBlock(k, k.entry) && !InRegion(pr, k.entry)
    ensures ThreadAfter(k, pr, n, Thread(Local(k.entry, 0, map[]), 0, k.entry), m, 1)
         == (Thread(Local(k.entry, 1, map[]), 0, k.entry), m)
  {
    hide InRegion;
    var t := Thread(Local(k.entry, 0, map[]), 0, k.entry);
    assert ThreadAfter(k, pr, n, t, m, 0) == (t, m);
  }

  /** One thread, handed from item to item, does the work of the group. Under the conditions of
      coarsening, the thread that steps through the buffered kernel from its entry finishes, and every execution of the
      original by n items, interleaved at will between barriers, can go on until it ends and then
      leaves the shared memory that the thread leaves. */
  lemma OneThreadIsEnough(k: Kernel, edits: seq<Edit>, k': Kernel, next: Name, pr: seq<ParallelRegion>, n: nat,
                          m: Memory,
                          bs: seq<Block>, js: seq<Interval>, other: seq<seq<nat>>) returns (c: nat)
    requires Coarsenable(k, pr, n, m, bs, js) && Allowed(k, Launched(k, n, m), other)
    requires Logged(k, edits, k', next, pr) && forall x :: !Cross(k', pr, x)
    ensures var (t, mem) := ThreadAfter(k', pr, n, Thread(Local(k.entry, 0, map[]), 0, k.entry), m, c);
            var r := After(k, Launched(k, n, m), other);
            && Finished(k', t.l)
            && if Ended(k, r) then forall at :: Peek(r.mem, Global(at)) == Peek(mem, Global(at)) else CanGoOn(k, r)
  {
    hide Coarsenable, Allowed, Logged, Cross, After, Ended, CanGoOn, SameWays, ThreadRuns, ThreadStep, BeforeMem;
    hide PrivateRun;
    hide Disjoint, InRegion, BarrierBlock, LoopedMet, Ssa, RegionsOk, UniformCode, NoRaces, GlobalOnly, Launched;
    CoarsenableFacts(k, pr, n, m, bs, js);
    var js' := CoarseningIsCorrect(k, edits, k', next, pr, n, m, bs, js, other);
    var first := Thread(Local(k.entry, 0, map[]), 0, k.entry);
    SameStart(k, edits, k', next, pr);
    OverFirstBarrier(k', pr, n, m);
    var c1, f := ThreadRunsOn(k', pr, n, map[], k.entry, m, bs, js');
    ThreadOn(k', pr, n, first, m, 1, c1);
    c := 1 + c1;
    EndsAtReturn(k, edits, k', next, pr, n, m, bs, js);
  }

  lemma SameStart(k: Kernel, edits: seq<Edit>, k': Kernel, next: Name, pr: seq<ParallelRegion>)
    requires Logged(k, edits, k', next, pr) && BarrierBlock(k, k.entry) && !InRegion(pr, k.entry)
    ensures BarrierBlock(k', k.entry) && k'.entry == k.entry
  {
    hide AllOk, Result, Inside, InRegion;
    LoggedFacts(k, edits, k', next, pr);
    SameBarriers(k, edits, pr, k.entry);
    SameEntry(k, edits);
  }

  lemma {:induction false} SameEntry(k: Kernel, edits: seq<Edit>)
    ensures Result(k, edits).entry == k.entry
    decreases |edits|
  {
    hide InRange;
    if edits != [] {
      SameEntry(k, edits[..|edits| - 1]);
    }
  }

  lemma {:induction false} LastReturns(k: Kernel, pr: seq<ParallelRegion>, s: State, bs: seq<Block>, js: seq<Interval>)
    requires |bs| == |js| + 1 && LoopedMet(k, pr, s, bs, js)
    ensures BarrierBlock(k, bs[|js|]) && Terminator(k, bs[|js|]).Return?
    decreases |js|
  {
    hide IntervalMet, Privately, Release;
    if js != [] {
      LastReturns(k, pr, Release(Privately(k, pr, s, bs[0], js[0])), bs[1..], js[1..]);
    }
  }

  lemma EndsAtReturn(k: Kernel, edits: seq<Edit>, k': Kernel, next: Name, pr: seq<ParallelRegion>, n: nat, m: Memory,
                     bs: seq<Block>, js: seq<Interval>)
    requires Coarsenable(k, pr, n, m, bs, js) && Logged(k, edits, k', next, pr)
    ensures |bs| == |js| + 1 && forall sh :: Finished(k', Local(bs[|js|], 1, sh))
  {
    hide Coarsenable, Logged, LoopedMet, AllOk, Result, Inside, InRegion;
    CoarsenableFacts(k, pr, n, m, bs, js);
    LoggedFacts(k, edits, k', next, pr);
    LastReturns(k, pr, Release(Launched(k, n, m)), bs, js);
    SameBarriers(k, edits, pr, bs[|js|]);
  }
}
