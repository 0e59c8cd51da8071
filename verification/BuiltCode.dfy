/** The code that the pass leaves behind, run by one thread from its entry: with the nests of all
    regions in place and the barriers erased it does the work of the group. */
module BuiltCode {
  import opened Graphs
  import opened FlatIndex
  import opened WorkItems
  import opened Interleaving
  import opened Contexts
  import opened ContextBuffering
  import opened ContextPass
  import opened SharedRegisters
  import opened UniformStretch
  import opened Coarsening
  import opened WorkGroups
  import opened OneThread
  import NestCode
  import opened NestThread
  import LoopNest

  // ------------------------------------------------------------------- where a thread can be

  lemma {:induction false} RegionOfIs(pr: seq<ParallelRegion>, i: nat, b: Block)
    requires Disjoint(pr) && i < |pr| && b in pr[i].blocks
    ensures InRegion(pr, b) && RegionOf(pr, b) == i
  {
    InsideRegion(pr, i, b);
  }

  lemma ReachesNext(k: Kernel, b: Block, env: map<Name, int>)
    requires Valid(Cfg(k)) && b in Blocks(k) && Reachable(Cfg(k), b) && !Terminator(k, b).Return?
    ensures var to := Target(Terminator(k, b), env);
            to in Blocks(k) && Reachable(Cfg(k), to) && (b, to) in Edges(Cfg(k))
  {
    hide Target, Reachable, Terminator, Valid, Blocks;
    TargetIsNext(k, b, env);
    NestCode.CfgKeys(k);
    LoopNest.SuccessorIn(Cfg(k), b);
    LoopNest.ReachesOn(Cfg(k), b, Target(Terminator(k, b), env));
  }

  /** The next block of a step. */
  lemma StepPlace(k: Kernel, id: nat, l: Local, m: Memory)
    requires Valid(Cfg(k)) && l.at in Blocks(k) && Reachable(Cfg(k), l.at)
    ensures var l' := Step(k, id, l, m).0;
            && l'.at in Blocks(k) && Reachable(Cfg(k), l'.at)
            && (l'.at == l.at || (l.at, l'.at) in Edges(Cfg(k)))
  {
    hide Reachable, Valid, Blocks, Edges, Cfg, Exec, Stopped;
    if !Stopped(k, l) && !AtInst(k, l) {
      StepBranch(k, id, l, m);
      ReachesNext(k, l.at, l.env);
      EnterIs(k, l.at, Target(Terminator(k, l.at), l.env), l.env);
    }
  }

  /** A region that gets a loop, as a thread finds it. */
  lemma RegionAround(k: Kernel, pr: seq<ParallelRegion>, next: Name, b: Block)
    requires NestCode.Ready(k, pr, next) && InRegion(pr, b) && Reachable(Cfg(k), b)
    ensures Disjoint(pr)
    ensures var i := RegionOf(pr, b); var r := pr[i];
            && b in r.blocks && r.entry in r.blocks && r.entry in Blocks(k) && Reachable(Cfg(k), r.entry)
            && (forall c :: c in r.blocks ==> InRegion(pr, c) && RegionOf(pr, c) == i)
            && (forall c :: (b, c) in Edges(Cfg(k)) ==> c in r.blocks || !InRegion(pr, c))
            && (forall c :: (c, b) in Edges(Cfg(k)) && c !in r.blocks ==> b == r.entry)
  {
    hide Reachable, Valid, Blocks, Dominates, NestCode.Ready, InRegion, RegionOf, Cfg;
    var i := RegionOf(pr, b);
    NestCode.ReadyFacts(k, pr, next, i);
    NestCode.CfgKeys(k);
    LoopNest.EntryReached(Cfg(k), pr[i], b);
    forall c | c in pr[i].blocks
      ensures InRegion(pr, c) && RegionOf(pr, c) == i
    {
      RegionOfIs(pr, i, c);
    }
    forall c | (b, c) in Edges(Cfg(k)) && c !in pr[i].blocks
      ensures !InRegion(pr, c)
    {
      assert c == NestCode.Behind(Cfg(k), pr[i]);
    }
  }

  /** Every step keeps the thread where it can be. */
  lemma StaysSound(a: Machine, next: Name, s: Thread, m: Memory)
    requires NestCode.Ready(a.k, a.pr, next) && a.n > 0 && Sound(a, s)
    ensures Sound(a, NestStep(a, s, m).0)
  {
    hide Reachable, Blocks, NestCode.Ready, InRegion, RegionOf, Cfg, Step, Edges, Valid, ItemOf, Waiting, Disjoint;
    ReadyValid(a.k, a.pr, next);
    var at := s.l.at;
    if InRegion(a.pr, at) {
      RegionAround(a.k, a.pr, next, at);
      StepPlace(a.k, s.item, s.l, m);
      StepIn(a, s, m, a.pr[RegionOf(a.pr, at)]);
      EnterIs(a.k, s.from, a.pr[RegionOf(a.pr, at)].entry, Step(a.k, s.item, s.l, m).0.env);
    } else if !Waiting(a.k, s.l) {
      StepPlace(a.k, ItemOf(a.ps, s.l), s.l, m);
      StepOut(a, s, m);
      var to := NestStep(a, s, m).0.l.at;
      if InRegion(a.pr, to) {
        RegionAround(a.k, a.pr, next, to);
        NotOf(a.pr, to, at);
      }
    }
  }

  lemma NotOf(pr: seq<ParallelRegion>, b: Block, c: Block)
    requires InRegion(pr, b) && !InRegion(pr, c)
    ensures c !in pr[RegionOf(pr, b)].blocks
  {
  }

  lemma ReadyValid(k: Kernel, pr: seq<ParallelRegion>, next: Name)
    requires NestCode.Ready(k, pr, next)
    ensures Valid(Cfg(k)) && Disjoint(pr) && Below(k, next)
  {
    hide Valid, Disjoint, Below;
  }

  // ------------------------------------------------------------------------- nest after nest

  function Begin(k: Kernel): Thread {
    Thread(Local(k.entry, 0, map[]), 0, k.entry)
  }

  /** The thread that begins at the entry with memory m comes to the end and leaves `mem`. */
  ghost predicate Finishes(x: Machine, m: Memory, mem: Memory) {
    exists c: nat ::
      var (t, m') := NestAfter(x, Begin(x.k), m, c);
      Finished(x.k, t.l) && m' == mem
  }

  lemma {:induction false} SoundThroughout(a: Machine, next: Name, m: Memory, c: nat)
    requires NestCode.Ready(a.k, a.pr, next) && a.n > 0
    ensures Sound(a, NestAfter(a, Begin(a.k), m, c).0)
    decreases c
  {
    hide NestCode.Ready, Sound, NestStep;
    if c == 0 {
      BeginsSound(a, next);
    } else {
      SoundThroughout(a, next, m, c - 1);
      StaysSound(a, next, NestAfter(a, Begin(a.k), m, c - 1).0, NestAfter(a, Begin(a.k), m, c - 1).1);
    }
  }

  lemma BeginsSound(a: Machine, next: Name)
    requires NestCode.Ready(a.k, a.pr, next)
    ensures Sound(a, Begin(a.k)) && !InRegion(a.pr, a.k.entry)
  {
    hide NestCode.RegionReady, Below, Disjoint, InRegion, Edges;
    NestCode.CfgKeys(a.k);
    ReachSelf(Edges(Cfg(a.k)), a.k.entry);
    EntryOutside(a.k, a.pr, next);
  }

  lemma EntryOutside(k: Kernel, pr: seq<ParallelRegion>, next: Name)
    requires NestCode.Ready(k, pr, next)
    ensures !InRegion(pr, k.entry)
  {
    hide NestCode.Ready;
    forall i | 0 <= i < |pr|
      ensures k.entry !in pr[i].blocks
    {
      NestCode.ReadyFacts(k, pr, next, i);
    }
  }

  /** However far the machine without the nest has run, the one with it can catch up. */
  lemma {:induction false} RunFollows(a: Machine, b: Machine, p: NestCode.Placed, ops: NestCode.Ops, m: Memory, c: nat)
    requires OneBuilt(a, b, p, ops) && Fitting(p.nest.sizes, a.n) && b.n == a.n
    ensures var (s, m') := NestAfter(a, Begin(a.k), m, c); Catches(b, p, s, m', Begin(b.k), m)
    decreases c
  {
    hide OneBuilt, Fitting, NestStep, Catches, Sound;
    if c == 0 {
      BothBegin(a, b, p, ops);
      CatchesNow(b, p, Begin(a.k), Begin(b.k), m);
    } else {
      RunFollows(a, b, p, ops, m, c - 1);
      var (s, m1) := NestAfter(a, Begin(a.k), m, c - 1);
      ReadyOf(a, b, p, ops);
      SoundThroughout(a, p.base, m, c - 1);
      CatchesOn(a, b, p, ops, s, m1, Begin(b.k), m);
    }
  }

  lemma ReadyOf(a: Machine, b: Machine, p: NestCode.Placed, ops: NestCode.Ops)
    requires OneBuilt(a, b, p, ops) && Fitting(p.nest.sizes, a.n)
    ensures NestCode.Ready(a.k, a.pr, p.base) && a.n > 0 && b.k.entry == a.k.entry
  {
    hide OneBuilt, NestCode.Ready, Items;
    OneBuiltFacts(a, b, p, ops);
    LoopNest.ItemsPositive(p.nest.sizes);
  }

  lemma BothBegin(a: Machine, b: Machine, p: NestCode.Placed, ops: NestCode.Ops)
    requires OneBuilt(a, b, p, ops) && Fitting(p.nest.sizes, a.n) && b.n == a.n
    ensures Follows(b, p, Begin(a.k), Begin(b.k))
  {
    hide OneBuilt, NestCode.Ready, InRegion, Fitting;
    ReadyOf(a, b, p, ops);
    BeginsSound(a, p.base);
    NotInFirst(a, b, p, ops, a.k.entry);
  }

  lemma CatchesOn(a: Machine, b: Machine, p: NestCode.Placed, ops: NestCode.Ops, s: Thread, m1: Memory, t: Thread,
                  m: Memory)
    requires OneBuilt(a, b, p, ops) && Fitting(p.nest.sizes, a.n) && b.n == a.n && Sound(a, s)
             && Catches(b, p, s, m1, t, m)
    ensures Catches(b, p, NestStep(a, s, m1).0, NestStep(a, s, m1).1, t, m)
  {
    hide OneBuilt, Fitting, NestStep, Follows, Sound, NestAfter;
    var c: nat :| Follows(b, p, s, NestAfter(b, t, m, c).0) && NestAfter(b, t, m, c).1 == m1;
    var t1 := NestAfter(b, t, m, c).0;
    StepFollows(a, b, p, ops, s, m1, t1);
    var d: nat :| Follows(b, p, NestStep(a, s, m1).0, NestAfter(b, t1, m1, d).0)
      && NestAfter(b, t1, m1, d).1 == NestStep(a, s, m1).1;
    NestOn(b, t, m, c, d);
  }

  /** One nest more, and the thread still finishes with the same memory. */
  lemma FinishesWithNest(a: Machine, b: Machine, p: NestCode.Placed, ops: NestCode.Ops, m: Memory, mem: Memory)
    requires OneBuilt(a, b, p, ops) && Fitting(p.nest.sizes, a.n) && b.n == a.n && Finishes(a, m, mem)
    ensures Finishes(b, m, mem)
  {
    hide OneBuilt, Fitting, NestAfter, Follows, Sound, Finished;
    var c: nat :| Finished(a.k, NestAfter(a, Begin(a.k), m, c).0.l) && NestAfter(a, Begin(a.k), m, c).1 == mem;
    RunFollows(a, b, p, ops, m, c);
    var s := NestAfter(a, Begin(a.k), m, c).0;
    var d: nat :| Follows(b, p, s, NestAfter(b, Begin(b.k), m, d).0) && NestAfter(b, Begin(b.k), m, d).1 == mem;
    var t := NestAfter(b, Begin(b.k), m, d).0;
    ReadyOf(a, b, p, ops);
    SoundThroughout(a, p.base, m, c);
    SoundFacts(a, s);
    FollowsFacts(b, p, s, t);
    SameStand(a, b, p, ops, s.l, t.l);
  }

  /** Machine i of the chain: i regions have their nests. */
  ghost function Stage(ks: seq<Kernel>, pr: seq<ParallelRegion>, ps: seq<NestCode.Placed>, n: nat, i: nat): Machine
    requires i < |ks| && i <= |pr| && i <= |ps|
  {
    Machine(ks[i], pr[i..], ps[..i], n)
  }

  lemma {:induction false} StageReady(ks: seq<Kernel>, pr: seq<ParallelRegion>, ps: seq<NestCode.Placed>, sizes: Triple,
                                      ops: NestCode.Ops, base: Name, i: nat)
    requires NestCode.AllNested(ks, pr, ps, sizes, ops, base) && i <= |ps| && NestCode.Ready(ks[0], pr, base)
    ensures NestCode.Ready(ks[i], pr[i..], base + i * NestCode.REGISTERS)
    ensures ks[i].entry == ks[0].entry && ks[i].alu == ks[0].alu && ks[i].ids == ks[0].ids
    decreases i
  {
    hide NestCode.Ready, NestCode.HasNest, LoopNest.NestOf, Cfg, NestCode.REGISTERS;
    if i == 0 {
      assert pr[0..] == pr && base + 0 * NestCode.REGISTERS == base;
    } else {
      StageReady(ks, pr, ps, sizes, ops, base, i - 1);
      var p := ps[i - 1];
      assert NestCode.OneNest(ks[i - 1], ks[i - 1 + 1], pr[i - 1], p, sizes, ops);
      NestCode.ReadyStays(ks[i - 1], ks[i], p.nest, ops, p.base, pr[i - 1..]);
      assert pr[i - 1..][1..] == pr[i..];
      NestCode.NextBase(base, i - 1);
      NestCode.SameStart(ks[i - 1], ks[i], p.nest, ops, p.base);
    }
  }

  /** What is asked of the arithmetic, the sizes and the numbering of the items. */
  ghost predicate Counts(k: Kernel, sizes: Triple, n: nat, ops: NestCode.Ops) {
    NestCode.Calculates(k, ops) && Fitting(sizes, n) && Numbered(k, sizes)
  }

  lemma StageIsNext(ks: seq<Kernel>, pr: seq<ParallelRegion>, ps: seq<NestCode.Placed>, sizes: Triple,
                    ops: NestCode.Ops,
                    base: Name, n: nat, i: nat)
    requires NestCode.AllNested(ks, pr, ps, sizes, ops, base) && i < |ps| && NestCode.Ready(ks[0], pr, base)
    requires Counts(ks[0], sizes, n, ops)
    ensures OneBuilt(Stage(ks, pr, ps, n, i), Stage(ks, pr, ps, n, i + 1), ps[i], ops) && Fitting(ps[i].nest.sizes, n)
  {
    hide NestCode.Ready, NestCode.HasNest, LoopNest.NestOf, Cfg, NestCode.Calculates, Items, LocalIdAt;
    StageReady(ks, pr, ps, sizes, ops, base, i);
    SameArithmetic(ks[0], ks[i], ops);
    SameNumbers(ks[0], ks[i], sizes);
    assert NestCode.OneNest(ks[i], ks[i + 1], pr[i], ps[i], sizes, ops);
    assert pr[i..][1..] == pr[i + 1..] && ps[..i + 1] == ps[..i] + [ps[i]];
    forall j | 0 <= j < i
      ensures ps[j].base + NestCode.REGISTERS <= ps[i].base
    {
      assert NestCode.OneNest(ks[j], ks[j + 1], pr[j], ps[j], sizes, ops);
    }
  }

  lemma SameNumbers(k: Kernel, k': Kernel, sizes: Triple)
    requires sizes.x > 0 && sizes.y > 0 && Numbered(k, sizes) && k'.ids == k.ids
    ensures Numbered(k', sizes)
  {
    hide LocalIdAt, Items, LoopNest.Get;
  }

  /** All nests, one after the other. */
  lemma {:induction false} FinishesNested(ks: seq<Kernel>, pr: seq<ParallelRegion>, ps: seq<NestCode.Placed>,
                                          sizes: Triple,
                                          ops: NestCode.Ops, base: Name, n: nat, m: Memory, mem: Memory, i: nat)
    requires NestCode.AllNested(ks, pr, ps, sizes, ops, base) && i <= |ps| && NestCode.Ready(ks[0], pr, base)
    requires Counts(ks[0], sizes, n, ops) && Finishes(Machine(ks[0], pr, [], n), m, mem)
    ensures Finishes(Stage(ks, pr, ps, n, i), m, mem)
    decreases i
  {
    hide NestCode.Ready, NestCode.AllNested, Counts, Finishes, OneBuilt, Fitting;
    StartStage(ks, pr, ps, sizes, ops, base, n);
    if i > 0 {
      FinishesNested(ks, pr, ps, sizes, ops, base, n, m, mem, i - 1);
      StageIsNext(ks, pr, ps, sizes, ops, base, n, i - 1);
      FinishesWithNest(Stage(ks, pr, ps, n, i - 1), Stage(ks, pr, ps, n, i), ps[i - 1], ops, m, mem);
    }
  }

  lemma StartStage(ks: seq<Kernel>, pr: seq<ParallelRegion>, ps: seq<NestCode.Placed>, sizes: Triple, ops: NestCode.Ops,
                   base: Name, n: nat)
    requires NestCode.AllNested(ks, pr, ps, sizes, ops, base)
    ensures |ks| == |ps| + 1 && |ps| <= |pr| && Stage(ks, pr, ps, n, 0) == Machine(ks[0], pr, [], n)
  {
    hide NestCode.OneNest;
    assert pr[0..] == pr && ps[..0] == [];
  }

  // --------------------------------------------------------------------- without the barriers

  /** The thread of the finished code makes its own steps only. */
  function CodeAfter(h: Kernel, ps: seq<NestCode.Placed>, l: Local, m: Memory, c: nat): (Local, Memory) {
    if c == 0 then (l, m)
    else
      var (l', m') := CodeAfter(h, ps, l, m, c - 1);
      Step(h, ItemOf(ps, l'), l', m')
  }

  /** Where the instruction at `pc` stands when the barriers above it are gone. */
  function Place(code: seq<Inst>, pc: nat): nat {
    |NestCode.WithoutBarriers(code[..if pc < |code| then pc else |code|])|
  }

  function Kept(k: Kernel, l: Local): Local {
    l.(pc := Place(Code(k, l.at), l.pc))
  }

  lemma ErasedIs(k: Kernel, b: Block)
    ensures var h := NestCode.Erased(k);
            && Code(h, b) == NestCode.WithoutBarriers(Code(k, b)) && Phis(h, b) == Phis(k, b)
            && Terminator(h, b) == Terminator(k, b) && h.alu == k.alu && h.ids == k.ids && h.entry == k.entry
  {
  }

  lemma WithoutNext(code: seq<Inst>, i: nat)
    requires 0 < i <= |code|
    ensures NestCode.WithoutBarriers(code[..i])
         == NestCode.WithoutBarriers(code[..i - 1]) + if code[i - 1].Barrier? then [] else [code[i - 1]]
  {
    assert code[..i][..i - 1] == code[..i - 1];
  }

  lemma PlaceNext(code: seq<Inst>, pc: nat)
    requires pc < |code|
    ensures Place(code, pc + 1) == if code[pc].Barrier? then Place(code, pc) else Place(code, pc) + 1
  {
    hide NestCode.WithoutBarriers;
    WithoutNext(code, pc + 1);
    assert pc + 1 == |code| ==> code[..|code|] == code[..pc + 1];
  }

  lemma {:induction false} PlaceHolds(code: seq<Inst>, pc: nat, i: nat)
    requires pc < i <= |code| && !code[pc].Barrier?
    ensures Place(code, pc) < |NestCode.WithoutBarriers(code[..i])|
    ensures NestCode.WithoutBarriers(code[..i])[Place(code, pc)] == code[pc]
    decreases i
  {
    hide NestCode.WithoutBarriers;
    WithoutNext(code, i);
    if pc < i - 1 {
      PlaceHolds(code, pc, i - 1);
    }
  }

  lemma PlaceAtEnd(code: seq<Inst>, pc: nat)
    requires pc >= |code|
    ensures Place(code, pc) == |NestCode.WithoutBarriers(code)|
  {
    assert code[..|code|] == code;
  }

  /** A step that is not over a barrier is a step of the code without barriers. */
  lemma StepErased(k: Kernel, id: nat, l: Local, m: Memory)
    requires !Waiting(k, l)
    ensures var (l', m') := Step(k, id, l, m); Step(NestCode.Erased(k), id, Kept(k, l), m) == (Kept(k, l'), m')
    ensures Finished(k, l) ==> Finished(NestCode.Erased(k), Kept(k, l))
  {
    hide NestCode.Erased, Place, Exec, NestCode.WithoutBarriers;
    var h, code := NestCode.Erased(k), Code(k, l.at);
    ErasedIs(k, l.at);
    if AtInst(k, l) {
      assert code[..|code|] == code;
      PlaceHolds(code, l.pc, |code|);
      PlaceNext(code, l.pc);
      StepInst(k, id, l, m);
      StepInst(h, id, Kept(k, l), m);
      ExecByKernel(k, h, id, code[l.pc], l.env, m);
    } else {
      PlaceAtEnd(code, l.pc);
      if !Finished(k, l) {
        BranchErased(k, id, l, m);
      }
    }
  }

  lemma BranchErased(k: Kernel, id: nat, l: Local, m: Memory)
    requires !AtInst(k, l) && !Finished(k, l)
    ensures var (l', m') := Step(k, id, l, m); Step(NestCode.Erased(k), id, Kept(k, l), m) == (Kept(k, l'), m')
  {
    hide NestCode.Erased, Place, NestCode.WithoutBarriers, SetPhis;
    var h := NestCode.Erased(k);
    ErasedIs(k, l.at);
    PlaceAtEnd(Code(k, l.at), l.pc);
    StepBranch(k, id, l, m);
    StepBranch(h, id, Kept(k, l), m);
    var to := Target(Terminator(k, l.at), l.env);
    ErasedIs(k, to);
    PlaceStarts(Code(k, to));
  }

  lemma PlaceStarts(code: seq<Inst>)
    ensures Place(code, 0) == 0
  {
    assert code[..0] == [];
  }

  lemma ItemKept(k: Kernel, ps: seq<NestCode.Placed>, l: Local)
    ensures ItemOf(ps, Kept(k, l)) == ItemOf(ps, l)
  {
    ItemByPlace(ps, l, Kept(k, l));
  }

  lemma {:induction false} ItemByPlace(ps: seq<NestCode.Placed>, l: Local, l': Local)
    requires l'.at == l.at && l'.env == l.env
    ensures ItemOf(ps, l') == ItemOf(ps, l)
    decreases |ps|
  {
    hide FlatIdx, IvsOf;
    if ps != [] {
      ItemByPlace(ps[..|ps| - 1], l, l');
    }
  }

  /** The thread of the finished code, some steps on, stands where the other thread stands. */
  lemma {:induction false} CodeFollows(x: Machine, m: Memory, c: nat) returns (d: nat)
    requires x.pr == []
    ensures var (t, m') := NestAfter(x, Begin(x.k), m, c);
            CodeAfter(NestCode.Erased(x.k), x.ps, Local(x.k.entry, 0, map[]), m, d) == (Kept(x.k, t.l), m')
    decreases c
  {
    hide NestStep, Step, ItemOf, Waiting, NestCode.Erased, Place;
    if c == 0 {
      d := 0;
      PlaceStarts(Code(x.k, x.k.entry));
    } else {
      var d1 := CodeFollows(x, m, c - 1);
      var (t, m1) := NestAfter(x, Begin(x.k), m, c - 1);
      if Waiting(x.k, t.l) {
        d := d1;
        OverBarrier(x, t, m1);
      } else {
        d := d1 + 1;
        StepOut(x, t, m1);
        ItemKept(x.k, x.ps, t.l);
        StepErased(x.k, ItemOf(x.ps, t.l), t.l, m1);
      }
    }
  }

  lemma OverBarrier(x: Machine, t: Thread, m: Memory)
    requires x.pr == [] && Waiting(x.k, t.l)
    ensures NestStep(x, t, m).1 == m && Kept(x.k, NestStep(x, t, m).0.l) == Kept(x.k, t.l)
  {
    hide Place;
    PlaceNext(Code(x.k, t.l.at), t.l.pc);
  }

  // ------------------------------------------------------ conditions on the kernel as written

  /** The graph suits the loop builder: each region that gets a loop is entered at its entry only,
      lies in front of a barrier, and is not headed by a loop around it: no block outside that
      leads to its entry is dominated by the entry. */
  ghost predicate Buildable(k: Kernel, pr: seq<ParallelRegion>) {
    Valid(Cfg(k)) && forall i :: 0 <= i < |pr| ==> CanBeNested(k, pr, pr[i])
  }

  ghost predicate CanBeNested(k: Kernel, pr: seq<ParallelRegion>, r: ParallelRegion) {
    var g := Cfg(k);
    && SingleEntry(k, r) && LoopNest.RegionOk(g, r) && !LoopNest.DominatedOutside(g, r)
    && BarrierBlock(k, NestCode.Behind(g, r)) && !InRegion(pr, NestCode.Behind(g, r))
  }

  /** Edits leave the branches alone. */
  ghost predicate SameBranches(k: Kernel, k': Kernel) {
    && k'.entry == k.entry && k'.alu == k.alu && k'.ids == k.ids && Blocks(k) <= Blocks(k')
    && forall b :: Successors(Terminator(k', b)) == Successors(Terminator(k, b))
  }

  lemma {:induction false} EditsKeepBranches(k: Kernel, edits: seq<Edit>)
    requires AllOk(k, edits)
    ensures SameBranches(k, Result(k, edits))
    decreases |edits|
  {
    hide EditOk, SameBranches;
    if edits == [] {
      assert SameBranches(k, k) by {
        BranchesOwn(k);
      }
    } else {
      var init, e := edits[..|edits| - 1], edits[|edits| - 1];
      EditsKeepBranches(k, init);
      LastInRange(k, edits);
      EditKeepsBranches(Result(k, init), e);
      BranchesOn(k, Result(k, init), Result(k, edits));
    }
  }

  lemma LastInRange(k: Kernel, edits: seq<Edit>)
    requires AllOk(k, edits) && edits != []
    ensures var init, e := edits[..|edits| - 1], edits[|edits| - 1];
            AllOk(k, init) && Contexts.InRange(Result(k, init), e) && Result(k, edits) == Applied(Result(k, init), e)
  {
  }

  lemma BranchesOwn(k: Kernel)
    ensures SameBranches(k, k)
  {
  }

  lemma BranchesOn(k: Kernel, k1: Kernel, k2: Kernel)
    requires SameBranches(k, k1) && SameBranches(k1, k2)
    ensures SameBranches(k, k2)
  {
    hide Blocks, Terminator;
  }

  lemma EditKeepsBranches(k: Kernel, e: Edit)
    requires Contexts.InRange(k, e)
    ensures SameBranches(k, Applied(k, e))
  {
    hide Insert, Rewritten, Terminator;
    forall b
      ensures Successors(Terminator(Applied(k, e), b)) == Successors(Terminator(k, b))
    {
      SameTargets(k, e, b);
    }
  }

  lemma NoBlockNoBranch(k: Kernel, b: Block)
    requires b !in Blocks(k)
    ensures Successors(Terminator(k, b)) == []
  {
  }

  /** So the graph has the same edges, and regions are as they were. */
  lemma GraphKept(k: Kernel, k': Kernel, r: ParallelRegion)
    requires SameBranches(k, k') && LoopNest.RegionOk(Cfg(k), r)
    ensures NestCode.KeptIn(Cfg(k), Cfg(k'), r) && Edges(Cfg(k')) == Edges(Cfg(k))
  {
    hide Terminator, Cfg, Blocks, LoopNest.RegionOk, Edges;
    NestCode.CfgKeys(k);
    NestCode.CfgKeys(k');
    LoopNest.RegionFacts(Cfg(k), r);
    EdgesOf(k);
    EdgesOf(k');
    forall b | b !in Blocks(k)
      ensures Successors(Terminator(k, b)) == []
    {
      NoBlockNoBranch(k, b);
    }
    assert forall e :: e in Edges(Cfg(k')) <==> (e.0, e.1) in Edges(Cfg(k));
  }

  lemma EdgesOf(k: Kernel)
    ensures forall u: Block, v: Block :: (u, v) in Edges(Cfg(k)) <==> v in Successors(Terminator(k, u))
  {
    forall u: Block | u !in Blocks(k)
      ensures Successors(Terminator(k, u)) == []
    {
      NoBlockNoBranch(k, u);
    }
  }

  lemma ValidKept(k: Kernel, k': Kernel)
    requires SameBranches(k, k') && Valid(Cfg(k))
    ensures Valid(Cfg(k'))
  {
    hide Terminator, Cfg, Blocks;
    NestCode.CfgKeys(k);
    NestCode.CfgKeys(k');
    forall b, i | b in Blocks(k') && 0 <= i < |Successors(Terminator(k', b))|
      ensures Successors(Terminator(k', b))[i] in Blocks(k')
    {
      if b !in Blocks(k) {
        NoBlockNoBranch(k, b);
      }
    }
  }

  lemma DominanceKept(g: Graph, h: Graph, r: ParallelRegion)
    requires NestCode.KeptIn(g, h, r) && Edges(h) == Edges(g) && r.entry in r.blocks && !LoopNest.DominatedOutside(g, r)
    ensures !LoopNest.DominatedOutside(h, r)
  {
    hide WalkFromTo, Edges;
    forall p | p in h.succ && p !in r.blocks && r.entry in h.succ[p] && Reachable(h, p)
      ensures !Dominates(h, r.entry, p)
    {
      assert p in g.succ && r.entry in g.succ[p] && Reachable(g, p);
      assert !Dominates(g, r.entry, p);
    }
  }

  /** The kernel with its contexts buffered is fit for the nests. */
  lemma BufferedIsReady(k: Kernel, edits: seq<Edit>, k': Kernel, next: Name, pr: seq<ParallelRegion>)
    requires Buildable(k, pr) && Logged(k, edits, k', next, pr)
    ensures NestCode.Ready(k', pr, next) && SameBranches(k, k')
  {
    hide CanBeNested, AllOk, Result, Below, Unmentioned, OneDefinition, NestCode.RegionReady, Valid, SameBranches, Cfg;
    hide Inside;
    LoggedFacts(k, edits, k', next, pr);
    EditsKeepBranches(k, edits);
    ValidKept(k, k');
    forall i | 0 <= i < |pr|
      ensures NestCode.RegionReady(k', pr, pr[i])
    {
      RegionIsReady(k, edits, k', next, pr, i);
    }
  }

  lemma RegionIsReady(k: Kernel, edits: seq<Edit>, k': Kernel, next: Name, pr: seq<ParallelRegion>, i: nat)
    requires i < |pr| && CanBeNested(k, pr, pr[i]) && Logged(k, edits, k', next, pr) && SameBranches(k, k')
    ensures NestCode.RegionReady(k', pr, pr[i])
  {
    hide AllOk, Result, Below, Unmentioned, OneDefinition, Valid, SameBranches, Cfg, Inside, LoopNest.RegionOk;
    hide InRegion, Logged;
    hide LoopNest.DominatedOutside, SingleEntry, Disjoint, BarrierBlock, Edges;
    var r, g, h := pr[i], Cfg(k), Cfg(k');
    LoggedFacts(k, edits, k', next, pr);
    GraphKept(k, k', r);
    NestCode.KeptIsOk(g, h, r);
    LoopNest.RegionFacts(g, r);
    DominanceKept(g, h, r);
    EntryStays(k, edits, pr, i);
    EntryIsSame(k', r);
    SameBarriers(k, edits, pr, NestCode.Behind(g, r));
  }

  lemma EntryIsSame(k: Kernel, r: ParallelRegion)
    requires SingleEntry(k, r)
    ensures NestCode.SamePhis(k, r) && k.entry !in r.blocks
  {
    hide EntersFrom, IncomingOf, DefinedInRegion, PhiReads;
  }

  // ----------------------------------------------------------------------------- the theorem

  lemma CountsKept(k: Kernel, k': Kernel, sizes: Triple, n: nat, ops: NestCode.Ops)
    requires SameBranches(k, k') && Counts(k, sizes, n, ops)
    ensures Counts(k', sizes, n, ops)
  {
    hide Items, LocalIdAt;
    SameArithmetic(k, k', ops);
    SameNumbers(k, k', sizes);
  }

  /** The code that the pass builds does the work of the group. k' is k with its contexts buffered,
      and ks[|pr|] is k' with a nest of loops around each region, headers, latches, induction
      variables and all. A single thread that steps through that code without its barriers
      finishes, and every execution of k by n items, interleaved at will between barriers, can go
      on until it ends and then leaves the shared memory that the thread leaves. */
  lemma BuiltCodeIsEnough(k: Kernel, edits: seq<Edit>, k': Kernel, next: Name, pr: seq<ParallelRegion>, n: nat,
                          m: Memory,
                          bs: seq<Block>, js: seq<Interval>, other: seq<seq<nat>>, sizes: Triple, ops: NestCode.Ops,
                          ks: seq<Kernel>, ps: seq<NestCode.Placed>) returns (c: nat)
    requires Coarsenable(k, pr, n, m, bs, js) && Allowed(k, Launched(k, n, m), other)
    requires Logged(k, edits, k', next, pr) && forall x :: !Cross(k', pr, x)
    requires Buildable(k, pr) && Counts(k, sizes, n, ops)
    requires NestCode.AllNested(ks, pr, ps, sizes, ops, next) && |ps| == |pr| && ks[0] == k'
    ensures var h := NestCode.Erased(ks[|pr|]);
            var (l, mem) := CodeAfter(h, ps, Local(h.entry, 0, map[]), m, c);
            var r := After(k, Launched(k, n, m), other);
            && Finished(h, l)
            && if Ended(k, r) then forall at :: Peek(r.mem, Global(at)) == Peek(mem, Global(at)) else CanGoOn(k, r)
  {
    hide Coarsenable, Allowed, Logged, Cross, After, Ended, CanGoOn, Buildable, Counts, NestCode.AllNested;
    hide NestCode.Ready, Launched;
    hide SameBranches, NestStep, ThreadStep, NestCode.Erased, Finished, Kept, Step, ItemOf;
    var c1 := OneThreadIsEnough(k, edits, k', next, pr, n, m, bs, js, other);
    var (t, mem) := ThreadAfter(k', pr, n, Begin(k'), m, c1);
    BufferedIsReady(k, edits, k', next, pr);
    SameEntryOf(k, k');
    NothingBuilt(k', pr, n, Begin(k'), m, c1);
    assert Finishes(Machine(k', pr, [], n), m, mem);
    CountsKept(k, k', sizes, n, ops);
    FinishesNested(ks, pr, ps, sizes, ops, next, n, m, mem, |ps|);
    StartStage(ks, pr, ps, sizes, ops, next, n);
    c := FinishesErased(ks, pr, ps, sizes, ops, next, n, m, mem);
  }

  lemma SameEntryOf(k: Kernel, k': Kernel)
    requires SameBranches(k, k')
    ensures k'.entry == k.entry
  {
  }

  lemma FinishesErased(ks: seq<Kernel>, pr: seq<ParallelRegion>, ps: seq<NestCode.Placed>, sizes: Triple,
                       ops: NestCode.Ops,
                       base: Name, n: nat, m: Memory, mem: Memory) returns (c: nat)
    requires NestCode.AllNested(ks, pr, ps, sizes, ops, base) && |ps| == |pr| && |ks| == |pr| + 1
    requires Finishes(Stage(ks, pr, ps, n, |ps|), m, mem)
    ensures var h := NestCode.Erased(ks[|pr|]);
            var (l, mem') := CodeAfter(h, ps, Local(h.entry, 0, map[]), m, c);
            Finished(h, l) && mem' == mem
  {
    hide NestCode.AllNested, NestStep, NestCode.Erased, Finished, Kept, Step, ItemOf;
    var x := Stage(ks, pr, ps, n, |ps|);
    assert x.pr == [] && x.ps == ps && x.k == ks[|pr|];
    var d: nat :| Finished(x.k, NestAfter(x, Begin(x.k), m, d).0.l) && NestAfter(x, Begin(x.k), m, d).1 == mem;
    c := CodeFollows(x, m, d);
    ErasedIs(x.k, x.k.entry);
    FinishedErased(x.k, NestAfter(x, Begin(x.k), m, d).0.l, m);
  }

  lemma FinishedErased(k: Kernel, l: Local, m: Memory)
    requires Finished(k, l)
    ensures Finished(NestCode.Erased(k), Kept(k, l))
  {
    hide NestCode.Erased, Kept;
    StepErased(k, 0, l, m);
  }
}
