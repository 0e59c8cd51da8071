/** The thread that runs the built code, step by step, in place of the thread that is handed from
    item to item. */
module NestThread {
  import opened Graphs
  import opened FlatIndex
  import opened WorkItems
  import opened Contexts
  import opened ContextPass
  import opened SharedRegisters
  import opened Coarsening
  import opened OneThread
  import opened LoopNest
  import opened NestCode

  // ------------------------------------------------------------------------ the thread

  function Word(i: int): nat {
    if i < 0 then 0 else i
  }

  function IvsOf(env: map<Name, int>, base: Name): Triple {
    Triple(Word(Value(env, Reg(Iv(base, 0)))), Word(Value(env, Reg(Iv(base, 1)))), Word(Value(env, Reg(Iv(base, 2)))))
  }

  /** The flat index that the code of a region computes of its induction variables, for its slots. */
  function ItemOf(ps: seq<Placed>, l: Local): nat {
    if ps == [] then 0
    else
      var p := ps[|ps| - 1];
      if l.at in p.nest.r.blocks then FlatIdx(p.nest.sizes, IvsOf(l.env, p.base)) else ItemOf(ps[..|ps| - 1], l)
  }

  /** A kernel in which the regions in `pr` are still run item by item and `ps` have been built,
      for n items. */
  datatype Machine = Machine(k: Kernel, pr: seq<ParallelRegion>, ps: seq<Placed>, n: nat)

  /** One step: handed on from item to item in the regions in `pr`, over barriers outside, and
      elsewhere just as the code says. */
  ghost function NestStep(x: Machine, t: Thread, m: Memory): (Thread, Memory) {
    if InRegion(x.pr, t.l.at) then
      var r := x.pr[RegionOf(x.pr, t.l.at)];
      var (l, m') := Step(x.k, t.item, t.l, m);
      if l.at in r.blocks then (Thread(l, t.item, t.from), m')
      else if t.item + 1 < x.n then (Thread(Enter(x.k, t.from, r.entry, l.env), t.item + 1, t.from), m')
      else (Thread(l, 0, t.from), m')
    else if Waiting(x.k, t.l) then (Thread(t.l.(pc := t.l.pc + 1), 0, t.from), m)
    else
      var (l, m') := Step(x.k, ItemOf(x.ps, t.l), t.l, m);
      (Thread(l, 0, t.l.at), m')
  }

  ghost function NestAfter(x: Machine, t: Thread, m: Memory, c: nat): (Thread, Memory) {
    if c == 0 then (t, m)
    else
      var (t', m') := NestAfter(x, t, m, c - 1);
      NestStep(x, t', m')
  }

  lemma {:induction false} NestOn(x: Machine, t: Thread, m: Memory, a: nat, b: nat)
    ensures var (t', m') := NestAfter(x, t, m, a);
            NestAfter(x, t, m, a + b) == NestAfter(x, t', m', b)
    decreases b
  {
    hide NestStep;
    if b > 0 {
      NestOn(x, t, m, a, b - 1);
      var (t', m') := NestAfter(x, t, m, a);
      assert a + b - 1 == a + (b - 1);
    }
  }

  /** Without any nest it is the thread that is handed from item to item. */
  lemma {:induction false} NothingBuilt(k: Kernel, pr: seq<ParallelRegion>, n: nat, t: Thread, m: Memory, c: nat)
    ensures NestAfter(Machine(k, pr, [], n), t, m, c) == ThreadAfter(k, pr, n, t, m, c)
    decreases c
  {
    hide InRegion, Step, Enter, RegionOf;
    if c > 0 {
      NothingBuilt(k, pr, n, t, m, c - 1);
    }
  }

  /** The thread, running no region item by item, comes from one place to another. */
  ghost predicate Arrives(x: Machine, t: Thread, m: Memory, l': Local, m': Memory) {
    exists c: nat :: NestAfter(x, t, m, c).0.l == l' && NestAfter(x, t, m, c).0.item == 0
           && NestAfter(x, t, m, c).1 == m'
  }

  ghost predicate Comes(x: Machine, l: Local, m: Memory, l': Local, m': Memory) {
    forall f: Block :: Arrives(x, Thread(l, 0, f), m, l', m')
  }

  lemma ComesOn(x: Machine, l: Local, m: Memory, l1: Local, m1: Memory, l2: Local, m2: Memory)
    requires Comes(x, l, m, l1, m1) && Comes(x, l1, m1, l2, m2)
    ensures Comes(x, l, m, l2, m2)
  {
    hide NestAfter, Arrives;
    forall f: Block
      ensures Arrives(x, Thread(l, 0, f), m, l2, m2)
    {
      ArrivesOn(x, Thread(l, 0, f), m, l1, m1, l2, m2);
    }
  }

  lemma ArrivesOn(x: Machine, t: Thread, m: Memory, l1: Local, m1: Memory, l2: Local, m2: Memory)
    requires Arrives(x, t, m, l1, m1) && Comes(x, l1, m1, l2, m2)
    ensures Arrives(x, t, m, l2, m2)
  {
    hide NestAfter;
    var a: nat :| NestAfter(x, t, m, a).0.l == l1 && NestAfter(x, t, m, a).0.item == 0 && NestAfter(x, t, m, a).1 == m1;
    var t1 := NestAfter(x, t, m, a).0;
    assert Arrives(x, Thread(l1, 0, t1.from), m1, l2, m2);
    var b: nat :| NestAfter(x, t1, m1, b).0.l == l2 && NestAfter(x, t1, m1, b).0.item == 0
      && NestAfter(x, t1, m1, b).1 == m2;
    NestOn(x, t, m, a, b);
    assert NestAfter(x, t, m, a + b).0.l == l2;
  }

  lemma StepComes(x: Machine, l: Local, m: Memory)
    requires !InRegion(x.pr, l.at) && !Waiting(x.k, l)
    ensures Comes(x, l, m, Step(x.k, ItemOf(x.ps, l), l, m).0, Step(x.k, ItemOf(x.ps, l), l, m).1)
  {
    hide InRegion, Waiting, Step, ItemOf;
    forall f: Block
      ensures Arrives(x, Thread(l, 0, f), m, Step(x.k, ItemOf(x.ps, l), l, m).0, Step(x.k, ItemOf(x.ps, l), l, m).1)
    {
      OneStepOn(x, Thread(l, 0, f), m);
    }
  }

  lemma OneStepOn(x: Machine, t: Thread, m: Memory)
    ensures NestAfter(x, t, m, 1) == NestStep(x, t, m)
  {
    hide NestStep;
    assert NestAfter(x, t, m, 0) == (t, m);
  }

  // -------------------------------------------------------------- one nest more: the setting

  /** As many items as the local sizes say, no size being 0. */
  predicate Fitting(sizes: Triple, n: nat) {
    sizes.x > 0 && sizes.y > 0 && sizes.z > 0 && n == Items(sizes) && n < WORD
  }

  /** The items are numbered by the flat indices of their local ids. */
  ghost predicate Numbered(k: Kernel, sizes: Triple)
    requires sizes.x > 0 && sizes.y > 0
  {
    forall w: nat, d: nat :: w < Items(sizes) && d <= 2 ==> k.ids(w, d) == Get(LocalIdAt(sizes, w), d)
  }

  /** Machine b has a nest for the first of the regions that machine a runs item by item. */
  ghost predicate OneBuilt(a: Machine, b: Machine, p: Placed, ops: Ops) {
    var ok :=
    && a.pr != [] && b.pr == a.pr[1..] && b.ps == a.ps + [p] && b.n == a.n
    && OneNest(a.k, b.k, a.pr[0], p, p.nest.sizes, ops) && Ready(a.k, a.pr, p.base) && Calculates(a.k, ops)
    && Fitting(p.nest.sizes, a.n) && Numbered(a.k, p.nest.sizes)
    && (forall i :: 0 <= i < |a.ps| ==> a.ps[i].base + REGISTERS <= p.base);
    ok
  }

  /** Registers below `base` hold the same. */
  ghost predicate SameBelow(base: Name, env: map<Name, int>, env': map<Name, int>) {
    forall x: Name :: x < base ==> Value(env, Reg(x)) == Value(env', Reg(x))
  }

  ghost predicate IvsAre(env: map<Name, int>, base: Name, iv: Triple) {
    forall d: nat :: d <= 2 ==> Value(env, Reg(Iv(base, d))) == Get(iv, d)
  }

  ghost predicate IvsFrom(env: map<Name, int>, base: Name, iv: Triple, from: nat) {
    forall d: nat :: from <= d <= 2 ==> Value(env, Reg(Iv(base, d))) == Get(iv, d)
  }

  lemma OneBuiltFacts(a: Machine, b: Machine, p: Placed, ops: Ops)
    requires OneBuilt(a, b, p, ops)
    ensures a.pr != [] && b.pr == a.pr[1..] && b.ps == a.ps + [p] && b.n == a.n && p.nest.r == a.pr[0]
    ensures NestOf(Cfg(a.k), p.nest) && HasNest(a.k, b.k, p.nest, ops, p.base) && Ready(a.k, a.pr, p.base)
    ensures Connected(p.nest) && LoopBlocks(p.nest) !! Blocks(a.k)
    ensures b.k.entry == a.k.entry && b.k.alu == a.k.alu && b.k.ids == a.k.ids
    ensures Calculates(b.k, ops) && Fitting(p.nest.sizes, a.n)
    ensures p.nest.after in Blocks(a.k) && p.nest.r.blocks <= Blocks(a.k)
  {
    hide NestOf, HasNest, Ready, Connected, LoopBlocks, Calculates, Cfg, Blocks, RegionOk, Valid;
    NestFacts(Cfg(a.k), p.nest);
    CfgKeys(a.k);
    NestCode.SameStart(a.k, b.k, p.nest, ops, p.base);
    SameArithmetic(a.k, b.k, ops);
  }

  lemma SameArithmetic(k: Kernel, k': Kernel, ops: Ops)
    requires Calculates(k, ops) && k'.alu == k.alu
    ensures Calculates(k', ops)
  {
  }

  lemma BlocksOfRegions(k: Kernel, pr: seq<ParallelRegion>, next: Name, b: Block)
    requires Ready(k, pr, next) && InRegion(pr, b)
    ensures b in Blocks(k)
  {
    hide Ready, Cfg, Blocks, RegionOk, DominatedOutside, SamePhis, Valid, Disjoint, Below, BarrierBlock;
    var i: nat :| i < |pr| && b in pr[i].blocks;
    ReadyFacts(k, pr, next, i);
    CfgKeys(k);
  }

  // ----------------------------------------------------------------------- in the loops

  lemma LoopKinds(n: Nest, d: nat)
    requires Connected(n) && d <= 2
    ensures var l := LoopOf(n, d);
            && KindOf(n, l.preheader) == Preheader(d) && KindOf(n, l.header) == Header(d)
            && KindOf(n, l.latch) == Latch(d) && KindOf(n, l.end) == End(d)
            && l.preheader != l.latch
            && l.preheader in LoopBlocks(n) && l.header in LoopBlocks(n) && l.latch in LoopBlocks(n)
               && l.end in LoopBlocks(n)
  {
    hide Connected;
    Kinds(n);
    DistinctLoops(n);
  }

  lemma DistinctLoops(n: Nest)
    requires Connected(n)
    ensures n.l0.preheader != n.l0.latch && n.l1.preheader != n.l1.latch && n.l2.preheader != n.l2.latch
  {
  }

  /** The loops of the nest are in the kernel, and nothing of them is run item by item. */
  ghost predicate HasLoops(b: Machine, p: Placed, ops: Ops) {
    && Connected(p.nest) && Calculates(b.k, ops) && Fitting(p.nest.sizes, b.n)
    && forall x :: x in LoopBlocks(p.nest) ==> LoopBlockIn(b, p, ops, x)
  }

  ghost predicate LoopBlockIn(b: Machine, p: Placed, ops: Ops, x: Block) {
    IsLoopBlock(b.k, p.nest, ops, p.base, x) && !InRegion(b.pr, x)
  }

  lemma HasLoopsFacts(b: Machine, p: Placed, ops: Ops)
    requires HasLoops(b, p, ops)
    ensures Connected(p.nest) && Calculates(b.k, ops) && Fitting(p.nest.sizes, b.n)
  {
    hide Connected, Calculates;
  }

  lemma LoopBlockIs(b: Machine, p: Placed, ops: Ops, x: Block)
    requires HasLoops(b, p, ops) && x in LoopBlocks(p.nest)
    ensures Phis(b.k, x) == LoopPhis(p.nest, p.base, x) && Code(b.k, x) == LoopCode(p.nest, ops, p.base, x)
    ensures Terminator(b.k, x) == LoopTerm(p.nest, p.base, x) && !InRegion(b.pr, x)
  {
    hide Connected, LoopBlocks, Calculates, Phis, Code, Terminator, LoopPhis, LoopCode, LoopTerm, InRegion, Fitting;
    assert LoopBlockIn(b, p, ops, x);
  }

  lemma LoopsAreIn(a: Machine, b: Machine, p: Placed, ops: Ops)
    requires OneBuilt(a, b, p, ops)
    ensures HasLoops(b, p, ops)
  {
    hide OneBuilt, NestOf, HasNest, Ready, Connected, LoopBlocks, Calculates, Blocks, IsLoopBlock, InRegion;
    OneBuiltFacts(a, b, p, ops);
    forall x | x in LoopBlocks(p.nest)
      ensures LoopBlockIn(b, p, ops, x)
    {
      HasNestAt(a.k, b.k, p.nest, ops, p.base, x);
      InRest(a.pr, x);
      if InRegion(a.pr, x) {
        BlocksOfRegions(a.k, a.pr, p.base, x);
      }
    }
  }

  lemma NotWaiting(k: Kernel, l: Local)
    requires l.pc < |Code(k, l.at)| ==> !Code(k, l.at)[l.pc].Barrier?
    ensures !Waiting(k, l)
  {
  }

  /** An empty block that leads on. */
  lemma GoesOn(x: Machine, b: Block, to: Block, env: map<Name, int>, m: Memory)
    requires !InRegion(x.pr, b) && Code(x.k, b) == [] && Terminator(x.k, b) == Goto(to)
    ensures Comes(x, Local(b, 0, env), m, Enter(x.k, b, to, env), m)
    ensures Phis(x.k, to) == [] ==> Enter(x.k, b, to, env) == Local(to, 0, env)
  {
    hide InRegion, Comes, ItemOf;
    StepComes(x, Local(b, 0, env), m);
  }

  /** The blocks of the loop for dimension d as they are in the kernel. */
  ghost predicate LoopIs(b: Machine, p: Placed, ops: Ops, d: nat) {
    var l := LoopOf(p.nest, d);
    && !InRegion(b.pr, l.preheader) && !InRegion(b.pr, l.header) && !InRegion(b.pr, l.latch) && !InRegion(b.pr, l.end)
    && Code(b.k, l.preheader) == [] && Terminator(b.k, l.preheader) == Goto(l.header)
    && Code(b.k, l.header) == [] && Code(b.k, l.end) == []
    && (d > 0 ==> Terminator(b.k, l.header) == Goto(LoopOf(p.nest, d - 1).preheader))
    && (d == 0 ==> Terminator(b.k, l.header) == Goto(p.nest.r.entry))
    && Terminator(b.k, l.end) == Goto(if d == 2 then p.nest.after else LoopOf(p.nest, d + 1).latch)
    && Phis(b.k, l.preheader) == [] && Phis(b.k, l.latch) == [] && Phis(b.k, l.end) == []
    && Phis(b.k, l.header) == [Phi(Iv(p.base, d), map[l.preheader := Imm(0), l.latch := Reg(Inc(p.base, d))])]
    && l.preheader != l.latch
    && Code(b.k, l.latch) == LatchCode(p, ops, d)
       && Terminator(b.k, l.latch) == Branch(Reg(Cond(p.base, d)), l.header, l.end)
  }

  function LatchCode(p: Placed, ops: Ops, d: nat): seq<Inst> {
    [Compute(Inc(p.base, d), ops.add, [Reg(Iv(p.base, d)), Imm(1)]),
     Compute(Cond(p.base, d), ops.less, [Reg(Inc(p.base, d)), Imm(Get(p.nest.sizes, d))])]
  }

  lemma LoopCodeIs(p: Placed, ops: Ops, d: nat)
    requires Connected(p.nest) && d <= 2
    ensures var n, l := p.nest, LoopOf(p.nest, d);
            && LoopCode(n, ops, p.base, l.preheader) == [] && LoopTerm(n, p.base, l.preheader) == Goto(l.header)
            && LoopCode(n, ops, p.base, l.header) == [] && LoopCode(n, ops, p.base, l.end) == []
            && (d > 0 ==> LoopTerm(n, p.base, l.header) == Goto(LoopOf(n, d - 1).preheader))
            && (d == 0 ==> LoopTerm(n, p.base, l.header) == Goto(n.r.entry))
            && LoopTerm(n, p.base, l.end) == Goto(if d == 2 then n.after else LoopOf(n, d + 1).latch)
            && LoopPhis(n, p.base, l.preheader) == [] && LoopPhis(n, p.base, l.latch) == []
               && LoopPhis(n, p.base, l.end) == []
            && LoopPhis(n, p.base, l.header)
               == [Phi(Iv(p.base, d), map[l.preheader := Imm(0), l.latch := Reg(Inc(p.base, d))])]
            && LoopCode(n, ops, p.base, l.latch) == LatchCode(p, ops, d)
            && LoopTerm(n, p.base, l.latch) == Branch(Reg(Cond(p.base, d)), l.header, l.end)
  {
    hide Connected, KindOf, LoopBlocks, Iv, Inc, Cond;
    LoopKinds(p.nest, d);
  }

  lemma LoopLeads(b: Machine, p: Placed, ops: Ops, d: nat)
    requires HasLoops(b, p, ops) && d <= 2
    ensures LoopIs(b, p, ops, d)
  {
    hide HasLoops, Connected, KindOf, InRegion, LoopBlocks, Code, Phis, Terminator, Iv, Inc, Cond, LoopPhis, LoopCode;
    hide LoopTerm;
    hide LatchCode, LoopOf, NestOf, HasNest, Ready, Calculates;
    HasLoopsFacts(b, p, ops);
    LoopKinds(p.nest, d);
    LoopCodeIs(p, ops, d);
    var l := LoopOf(p.nest, d);
    LoopBlockIs(b, p, ops, l.preheader);
    LoopBlockIs(b, p, ops, l.header);
    LoopBlockIs(b, p, ops, l.latch);
    LoopBlockIs(b, p, ops, l.end);
  }

  lemma StartsLoop(b: Machine, p: Placed, ops: Ops, d: nat, env: map<Name, int>, m: Memory)
    requires HasLoops(b, p, ops) && d <= 2
    ensures var l := LoopOf(p.nest, d);
            Comes(b, Local(l.preheader, 0, env), m, Local(l.header, 0, env[Iv(p.base, d) := 0]), m)
  {
    hide HasLoops, InRegion, Comes, Code, Terminator, Iv, Inc, Cond, SetPhis;
    var l := LoopOf(p.nest, d);
    LoopLeads(b, p, ops, d);
    assert Terminator(b.k, l.preheader) == Goto(l.header);
    GoesOn(b, l.preheader, l.header, env, m);
    OnePhi(Phis(b.k, l.header)[0], l.preheader, env);
  }

  lemma OnePhi(phi: Phi, from: Block, env: map<Name, int>)
    ensures SetPhis([phi], from, env, env) == env[phi.dst := Incoming(phi, from, env)]
  {
    assert [phi][1..] == [];
  }

  lemma IntoInner(b: Machine, p: Placed, ops: Ops, d: nat, env: map<Name, int>, m: Memory)
    requires HasLoops(b, p, ops) && 0 < d <= 2
    ensures Comes(b, Local(LoopOf(p.nest, d).header, 0, env), m, Local(LoopOf(p.nest, d - 1).preheader, 0, env), m)
  {
    hide HasLoops, InRegion, Comes, Code, Phis, Terminator, Iv, Inc, Cond, Enter;
    LoopLeads(b, p, ops, d);
    LoopLeads(b, p, ops, d - 1);
    GoesOn(b, LoopOf(p.nest, d).header, LoopOf(p.nest, d - 1).preheader, env, m);
  }

  lemma SetIv(base: Name, env: map<Name, int>, iv: Triple, d: nat, v: nat)
    requires IvsAre(env, base, iv) && d <= 2
    ensures IvsAre(env[Iv(base, d) := v], base, Set(iv, d, v))
  {
  }

  /** The variables below dimension d set to 0. */
  function Zeroed(iv: Triple, d: nat): Triple {
    if d == 0 then iv else if d == 1 then iv.(x := 0) else iv.(x := 0, y := 0)
  }

  lemma SetInner(base: Name, env: map<Name, int>, iv: Triple, d: nat)
    requires 0 < d <= 2 && IvsFrom(env, base, iv, d)
    ensures IvsFrom(env[Iv(base, d - 1) := 0], base, Set(iv, d - 1, 0), d - 1)
  {
  }

  lemma AllIvs(env: map<Name, int>, base: Name, iv: Triple)
    ensures IvsFrom(env, base, iv, 0) <==> IvsAre(env, base, iv)
    ensures IvsAre(env, base, iv) ==> IvsFrom(env, base, iv, 1) && IvsFrom(env, base, iv, 2)
  {
  }

  /** From a header into the innermost loop: the variables below are 0 there. */
  lemma {:induction false} Inward(b: Machine, p: Placed, ops: Ops, d: nat, env: map<Name, int>, iv: Triple, m: Memory)
    returns (env': map<Name, int>)
    requires HasLoops(b, p, ops) && d <= 2 && IvsFrom(env, p.base, iv, d)
    ensures Comes(b, Local(LoopOf(p.nest, d).header, 0, env), m, Local(p.nest.l0.header, 0, env'), m)
    ensures SameBelow(p.base, env, env')
    ensures IvsAre(env', p.base, Zeroed(iv, d))
    decreases d
  {
    hide HasLoops, Comes, IvsAre, IvsFrom, Iv;
    if d == 0 {
      env' := env;
      AllIvs(env, p.base, iv);
      StaysThere(b, Local(p.nest.l0.header, 0, env), m);
    } else {
      IntoInner(b, p, ops, d, env, m);
      StartsLoop(b, p, ops, d - 1, env, m);
      var env1 := env[Iv(p.base, d - 1) := 0];
      SetInner(p.base, env, iv, d);
      env' := Inward(b, p, ops, d - 1, env1, Set(iv, d - 1, 0), m);
      var at, at1 := Local(LoopOf(p.nest, d).header, 0, env), Local(LoopOf(p.nest, d - 1).preheader, 0, env);
      ComesOn(b, at, m, at1, m, Local(LoopOf(p.nest, d - 1).header, 0, env1), m);
      ComesOn(b, at, m, Local(LoopOf(p.nest, d - 1).header, 0, env1), m, Local(p.nest.l0.header, 0, env'), m);
      IvAbove(p.base, d - 1);
    }
  }

  lemma IvAbove(base: Name, d: nat)
    ensures Iv(base, d) >= base && Inc(base, d) >= base && Cond(base, d) >= base
  {
  }

  lemma StaysThere(x: Machine, l: Local, m: Memory)
    ensures Comes(x, l, m, l, m)
  {
    forall f: Block
      ensures Arrives(x, Thread(l, 0, f), m, l, m)
    {
      assert NestAfter(x, Thread(l, 0, f), m, 0) == (Thread(l, 0, f), m);
    }
  }

  lemma ComputeComes(x: Machine, b: Block, pc: nat, env: map<Name, int>, m: Memory, y: Inst)
    requires !InRegion(x.pr, b) && pc < |Code(x.k, b)| && Code(x.k, b)[pc] == y && y.Compute?
    ensures Comes(x, Local(b, pc, env), m, Local(b, pc + 1, env[y.dst := x.k.alu(y.op, Values(env, y.args))]), m)
  {
    hide InRegion, Comes, ItemOf;
    StepComes(x, Local(b, pc, env), m);
  }

  lemma BranchComes(x: Machine, b: Block, env: map<Name, int>, m: Memory, c: Operand, yes: Block, no: Block)
    requires !InRegion(x.pr, b) && Terminator(x.k, b) == Branch(c, yes, no)
    ensures Comes(x, Local(b, |Code(x.k, b)|, env), m, Enter(x.k, b, if Value(env, c) != 0 then yes else no, env), m)
  {
    hide InRegion, Comes, ItemOf;
    StepComes(x, Local(b, |Code(x.k, b)|, env), m);
  }

  /** The registers when the latch has counted. */
  function Counted(p: Placed, env: map<Name, int>, d: nat, v: nat): map<Name, int> {
    env[Inc(p.base, d) := v + 1][Cond(p.base, d) := if v + 1 < Get(p.nest.sizes, d) then 1 else 0]
  }

  /** A block that increments, compares and branches. */
  lemma CountingBlock(x: Machine, at: Block, ops: Ops, iv: Name, inc: Name, cond: Name, size: nat, yes: Block,
                      no: Block,
                      env: map<Name, int>, v: nat, m: Memory)
    requires !InRegion(x.pr, at) && Calculates(x.k, ops) && inc != cond
    requires Code(x.k, at) == [Compute(inc, ops.add, [Reg(iv), Imm(1)]), Compute(cond, ops.less, [Reg(inc), Imm(size)])]
    requires Terminator(x.k, at) == Branch(Reg(cond), yes, no) && Value(env, Reg(iv)) == v < size < WORD
    ensures var env' := env[inc := v + 1][cond := if v + 1 < size then 1 else 0];
            Comes(x, Local(at, 0, env), m, Enter(x.k, at, if v + 1 < size then yes else no, env'), m)
  {
    hide InRegion, Comes, Enter, Calculates, Code, Terminator;
    var env1 := env[inc := v + 1];
    var env2 := env1[cond := if v + 1 < size then 1 else 0];
    CountsOn(x.k, ops, iv, inc, env, v, size);
    ComputeComes(x, at, 0, env, m, Code(x.k, at)[0]);
    ComputeComes(x, at, 1, env1, m, Code(x.k, at)[1]);
    BranchComes(x, at, env2, m, Reg(cond), yes, no);
    ComesOn(x, Local(at, 0, env), m, Local(at, 1, env1), m, Local(at, 2, env2), m);
    ComesOn(x, Local(at, 0, env), m, Local(at, 2, env2), m, Enter(x.k, at, if v + 1 < size then yes else no, env2), m);
  }

  lemma LatchCounts(b: Machine, p: Placed, ops: Ops, d: nat, env: map<Name, int>, v: nat, m: Memory)
    requires HasLoops(b, p, ops) && d <= 2 && Value(env, Reg(Iv(p.base, d))) == v < Get(p.nest.sizes, d)
    ensures var l := LoopOf(p.nest, d); var env' := Counted(p, env, d, v);
            Comes(b, Local(l.latch, 0, env), m,
              Enter(b.k, l.latch, if v + 1 < Get(p.nest.sizes, d) then l.header else l.end, env'), m)
  {
    hide HasLoops, InRegion, Comes, Code, Phis, Terminator, Enter, Calculates, LoopIs, LoopOf, Connected, LoopBlocks;
    HasLoopsFacts(b, p, ops);
    SizesSmall(p.nest.sizes, b.n, d);
    LoopLeads(b, p, ops, d);
    LatchIs(b, p, ops, d);
    var l := LoopOf(p.nest, d);
    CountingBlock(b, l.latch, ops, Iv(p.base, d), Inc(p.base, d), Cond(p.base, d), Get(p.nest.sizes, d), l.header,
      l.end, env, v, m);
  }

  lemma LatchIs(b: Machine, p: Placed, ops: Ops, d: nat)
    requires LoopIs(b, p, ops, d)
    ensures var l := LoopOf(p.nest, d);
            && !InRegion(b.pr, l.latch) && Code(b.k, l.latch) == LatchCode(p, ops, d)
            && Terminator(b.k, l.latch) == Branch(Reg(Cond(p.base, d)), l.header, l.end)
  {
    hide InRegion, Code, Phis, Terminator, LatchCode;
  }

  lemma SizesSmall(sizes: Triple, n: nat, d: nat)
    requires Fitting(sizes, n)
    ensures Get(sizes, d) < WORD
  {
    MulAtMost(1, sizes.z, sizes.y);
    MulAtMost(1, sizes.z * sizes.y, sizes.x);
    MulAtMost(1, sizes.y, sizes.z);
    MulAtMost(1, sizes.x, sizes.z * sizes.y);
  }

  lemma CountsOn(k: Kernel, ops: Ops, iv: Name, inc: Name, env: map<Name, int>, v: nat, size: nat)
    requires Calculates(k, ops) && Value(env, Reg(iv)) == v < size < WORD
    ensures k.alu(ops.add, Values(env, [Reg(iv), Imm(1)])) == v + 1
    ensures k.alu(ops.less, Values(env[inc := v + 1], [Reg(inc), Imm(size)])) == if v + 1 < size then 1 else 0
  {
    assert Values(env, [Reg(iv), Imm(1)]) == [v, 1];
    AddOne(v, size);
    assert Values(env[inc := v + 1], [Reg(inc), Imm(size)]) == [v + 1, size];
  }

  lemma CountedKeeps(p: Placed, env: map<Name, int>, d: nat, v: nat, iv: Triple)
    requires IvsAre(env, p.base, iv) && d <= 2
    ensures SameBelow(p.base, env, Counted(p, env, d, v)) && IvsAre(Counted(p, env, d, v), p.base, iv)
    ensures Value(Counted(p, env, d, v), Reg(Inc(p.base, d))) == v + 1
  {
  }

  /** The latch goes on with the next value of its variable, or leaves. */
  lemma LatchSteps(b: Machine, p: Placed, ops: Ops, d: nat, env: map<Name, int>, iv: Triple, m: Memory)
    returns (env': map<Name, int>)
    requires HasLoops(b, p, ops) && d <= 2 && IvsAre(env, p.base, iv) && Get(iv, d) < Get(p.nest.sizes, d)
    ensures SameBelow(p.base, env, env')
    ensures var l := LoopOf(p.nest, d);
            if Get(iv, d) + 1 < Get(p.nest.sizes, d)
            then IvsAre(env', p.base, Set(iv, d, Get(iv, d) + 1))
              && Comes(b, Local(l.latch, 0, env), m, Local(l.header, 0, env'), m)
            else IvsAre(env', p.base, iv) && Comes(b, Local(l.latch, 0, env), m, Local(l.end, 0, env'), m)
  {
    hide HasLoops, InRegion, Comes, Code, Terminator, SetPhis, Counted, IvsAre, LatchCode, LoopOf, Iv, Inc, Cond;
    var v, l := Get(iv, d), LoopOf(p.nest, d);
    assert Value(env, Reg(Iv(p.base, d))) == v by {
      IvIs(env, p.base, iv, d);
    }
    LatchCounts(b, p, ops, d, env, v, m);
    CountedKeeps(p, env, d, v, iv);
    LoopLeads(b, p, ops, d);
    var env1 := Counted(p, env, d, v);
    if v + 1 < Get(p.nest.sizes, d) {
      OnePhi(Phis(b.k, l.header)[0], l.latch, env1);
      env' := env1[Iv(p.base, d) := v + 1];
      SetIv(p.base, env1, iv, d, v + 1);
      IvAbove(p.base, d);
    } else {
      env' := env1;
      NoPhis(l.latch, env1);
    }
  }

  lemma NoPhis(from: Block, env: map<Name, int>)
    ensures SetPhis([], from, env, env) == env
  {
  }

  lemma IvIs(env: map<Name, int>, base: Name, iv: Triple, d: nat)
    requires IvsAre(env, base, iv) && d <= 2
    ensures Value(env, Reg(Iv(base, d))) == Get(iv, d)
  {
  }

  /** The first variable from d on that can still be incremented is, and those below become 0; false
      if there is none. */
  function Carry(sizes: Triple, d: nat, iv: Triple): (bool, Triple)
    requires d <= 2
    decreases 2 - d
  {
    if Get(iv, d) + 1 < Get(sizes, d) then (true, Zeroed(Set(iv, d, Get(iv, d) + 1), d))
    else if d == 2 then (false, iv)
    else Carry(sizes, d + 1, iv)
  }

  /** That is how the local ids follow each other. */
  lemma CarryIsNext(sizes: Triple, w: nat)
    requires sizes.x > 0 && sizes.y > 0 && sizes.z > 0 && w < Items(sizes)
    ensures InGroup(sizes, LocalIdAt(sizes, w))
    ensures Carry(sizes, 0, LocalIdAt(sizes, w)).0 <==> w + 1 < Items(sizes)
    ensures w + 1 < Items(sizes) ==> Carry(sizes, 0, LocalIdAt(sizes, w)).1 == LocalIdAt(sizes, w + 1)
  {
    hide Position, Items, LocalIdAt, Carry;
    PositionIsBijection(sizes, Triple(0, 0, 0), w);
    var iv := LocalIdAt(sizes, w);
    var (more, next) := Carry(sizes, 0, iv);
    CarryPosition(sizes, iv);
    if more {
      PositionIsBijection(sizes, next, 0);
    }
  }

  lemma CarryPosition(sizes: Triple, iv: Triple)
    requires InGroup(sizes, iv)
    ensures var (more, next) := Carry(sizes, 0, iv);
            if more then InGroup(sizes, next) && Position(sizes, next) == Position(sizes, iv) + 1
               && Position(sizes, next) < Items(sizes)
            else Position(sizes, iv) + 1 == Items(sizes)
  {
    hide Position, Items;
    var (more, next) := Carry(sizes, 0, iv);
    NextItem(sizes, iv);
    NextRow(sizes, iv.y, iv.z);
    if more {
      PositionInRange(sizes, next);
    }
  }

  lemma EndLeads(b: Machine, p: Placed, ops: Ops, d: nat, env: map<Name, int>, m: Memory)
    requires HasLoops(b, p, ops) && d < 2
    ensures Comes(b, Local(LoopOf(p.nest, d).end, 0, env), m, Local(LoopOf(p.nest, d + 1).latch, 0, env), m)
  {
    hide HasLoops, InRegion, Comes, Code, Phis, Terminator, Iv, Inc, Cond, Enter, LatchCode;
    LoopLeads(b, p, ops, d);
    LoopLeads(b, p, ops, d + 1);
    GoesOn(b, LoopOf(p.nest, d).end, LoopOf(p.nest, d + 1).latch, env, m);
  }

  /** From a latch to the region again, or to the end of the outermost loop. */
  lemma {:induction false} FromLatch(b: Machine, p: Placed, ops: Ops, d: nat, env: map<Name, int>, iv: Triple,
                                     m: Memory)
    returns (env': map<Name, int>)
    requires HasLoops(b, p, ops) && d <= 2 && IvsAre(env, p.base, iv) && InGroup(p.nest.sizes, iv)
    ensures SameBelow(p.base, env, env')
    ensures var l, (more, next) := LoopOf(p.nest, d), Carry(p.nest.sizes, d, iv);
            if more then IvsAre(env', p.base, next)
               && Comes(b, Local(l.latch, 0, env), m, Local(p.nest.l0.header, 0, env'), m)
            else IvsAre(env', p.base, iv) && Comes(b, Local(l.latch, 0, env), m, Local(p.nest.l2.end, 0, env'), m)
    decreases 2 - d
  {
    hide HasLoops, Comes, IvsAre, IvsFrom, Zeroed;
    var l, v := LoopOf(p.nest, d), Get(iv, d);
    var env1 := LatchSteps(b, p, ops, d, env, iv, m);
    if v + 1 < Get(p.nest.sizes, d) {
      AllIvs(env1, p.base, Set(iv, d, v + 1));
      env' := Inward(b, p, ops, d, env1, Set(iv, d, v + 1), m);
      ComesOn(b, Local(l.latch, 0, env), m, Local(l.header, 0, env1), m, Local(p.nest.l0.header, 0, env'), m);
    } else if d == 2 {
      env' := env1;
    } else {
      EndLeads(b, p, ops, d, env1, m);
      var l1 := LoopOf(p.nest, d + 1);
      ComesOn(b, Local(l.latch, 0, env), m, Local(l.end, 0, env1), m, Local(l1.latch, 0, env1), m);
      env' := FromLatch(b, p, ops, d + 1, env1, iv, m);
      var to := if Carry(p.nest.sizes, d, iv).0 then p.nest.l0.header else p.nest.l2.end;
      ComesOn(b, Local(l.latch, 0, env), m, Local(l1.latch, 0, env1), m, Local(to, 0, env'), m);
    }
  }

  /** Behind the region: on to the next item, or out of the nest behind the last. */
  lemma ToNextItem(b: Machine, p: Placed, ops: Ops, w: nat, env: map<Name, int>, m: Memory)
    returns (env': map<Name, int>)
    requires HasLoops(b, p, ops) && w < b.n && IvsAre(env, p.base, LocalIdAt(p.nest.sizes, w))
    ensures SameBelow(p.base, env, env')
    ensures if w + 1 < b.n
            then IvsAre(env', p.base, LocalIdAt(p.nest.sizes, w + 1))
                 && Comes(b, Local(p.nest.l0.latch, 0, env), m, Local(p.nest.l0.header, 0, env'), m)
            else IvsAre(env', p.base, LocalIdAt(p.nest.sizes, w))
                 && Comes(b, Local(p.nest.l0.latch, 0, env), m, Local(p.nest.l2.end, 0, env'), m)
  {
    hide HasLoops, Comes, IvsAre, Carry, LocalIdAt, Items, Connected, Calculates;
    HasLoopsFacts(b, p, ops);
    CarryIsNext(p.nest.sizes, w);
    env' := FromLatch(b, p, ops, 0, env, LocalIdAt(p.nest.sizes, w), m);
  }

  lemma AtZero(sizes: Triple)
    requires sizes.x > 0 && sizes.y > 0
    ensures LocalIdAt(sizes, 0) == Triple(0, 0, 0)
  {
  }

  /** In at the top: to the region with all variables 0. */
  lemma FromTop(b: Machine, p: Placed, ops: Ops, env: map<Name, int>, m: Memory) returns (env': map<Name, int>)
    requires HasLoops(b, p, ops)
    ensures SameBelow(p.base, env, env') && IvsAre(env', p.base, LocalIdAt(p.nest.sizes, 0))
    ensures Comes(b, Local(p.nest.l2.preheader, 0, env), m, Local(p.nest.l0.header, 0, env'), m)
  {
    hide HasLoops, Comes, Iv;
    StartsLoop(b, p, ops, 2, env, m);
    var env1 := env[Iv(p.base, 2) := 0];
    IvAbove(p.base, 2);
    env' := Inward(b, p, ops, 2, env1, Triple(0, 0, 0), m);
    HasLoopsFacts(b, p, ops);
    AtZero(p.nest.sizes);
    ComesOn(b, Local(p.nest.l2.preheader, 0, env), m, Local(p.nest.l2.header, 0, env1), m,
      Local(p.nest.l0.header, 0, env'), m);
  }

  // ------------------------------------------------------------------ registers below the nest's

  lemma InstBelow(k: Kernel, base: Name, b: Block, i: nat, r: Name)
    requires Below(k, base) && i < |Code(k, b)| && r >= base
    ensures !Defines(Code(k, b)[i], r) && !UsedBy(r, Code(k, b)[i])
  {
    hide Defines, UsedBy, UsedByPhi, UsedByTerm;
    assert Unmentioned(k, r);
  }

  lemma TermBelow(k: Kernel, base: Name, b: Block, r: Name)
    requires Below(k, base) && r >= base
    ensures !UsedByTerm(r, Terminator(k, b))
  {
    hide Defines, UsedBy, UsedByPhi, UsedByTerm;
    assert Unmentioned(k, r);
  }

  lemma PhiBelow(k: Kernel, base: Name, b: Block, q: nat, r: Name)
    requires Below(k, base) && q < |Phis(k, b)| && r >= base
    ensures Phis(k, b)[q].dst != r && !UsedByPhi(r, Phis(k, b)[q])
  {
    hide Defines, UsedBy, UsedByPhi, UsedByTerm;
    assert Unmentioned(k, r);
  }

  /** What an instruction does depends on the kernel for its arithmetic and its ids only. */
  lemma ExecByKernel(k: Kernel, k': Kernel, id: nat, x: Inst, env: map<Name, int>, m: Memory)
    requires k'.alu == k.alu && k'.ids == k.ids
    ensures Exec(k', id, x, env, m) == Exec(k, id, x, env, m)
  {
  }

  /** An instruction that mentions lower registers only. */
  lemma ExecBelow(k: Kernel, base: Name, b: Block, i: nat, id: nat, env: map<Name, int>, env': map<Name, int>,
                  m: Memory)
    requires Below(k, base) && i < |Code(k, b)| && SameBelow(base, env, env')
    ensures var (e, m1) := Exec(k, id, Code(k, b)[i], env, m); var (e', m2) := Exec(k, id, Code(k, b)[i], env', m);
            m1 == m2 && SameBelow(base, e, e') && forall r: Name ::
              r >= base ==> Value(e', Reg(r)) == Value(env', Reg(r))
  {
    hide Below, Exec, UsedBy, Defines;
    var x := Code(k, b)[i];
    forall r: Name | UsedBy(r, x)
      ensures Value(env, Reg(r)) == Value(env', Reg(r))
    {
      if r >= base {
        InstBelow(k, base, b, i, r);
      }
    }
    ExecAlike(k, id, x, env, env', m);
    forall r: Name | r >= base
      ensures !Defines(x, r)
    {
      InstBelow(k, base, b, i, r);
    }
  }

  lemma TargetBelow(k: Kernel, base: Name, b: Block, env: map<Name, int>, env': map<Name, int>)
    requires Below(k, base) && SameBelow(base, env, env') && !Terminator(k, b).Return?
    ensures Target(Terminator(k, b), env') == Target(Terminator(k, b), env)
  {
    hide Below;
    var t := Terminator(k, b);
    if t.Branch? && t.cond.Reg? && t.cond.name >= base {
      TermBelow(k, base, b, t.cond.name);
    }
  }

  /** PHIs that receive the same, though perhaps along another edge. */
  ghost predicate PhisMatch(base: Name, ps: seq<Phi>, ps': seq<Phi>, from: Block, from': Block, env: map<Name, int>,
                            env': map<Name, int>) {
    && |ps'| == |ps|
    && forall q :: 0 <= q < |ps| ==>
         ps'[q].dst == ps[q].dst < base && Incoming(ps'[q], from', env') == Incoming(ps[q], from, env)
  }

  lemma {:induction false} SetPhisMatch(base: Name, ps: seq<Phi>, ps': seq<Phi>, from: Block, from': Block,
                                        before: map<Name, int>, before': map<Name, int>, env: map<Name, int>,
                                          env': map<Name, int>)
    requires PhisMatch(base, ps, ps', from, from', before, before') && SameBelow(base, env, env')
    ensures SameBelow(base, SetPhis(ps, from, before, env), SetPhis(ps', from', before', env'))
    ensures forall r: Name :: r >= base ==> Value(SetPhis(ps', from', before', env'), Reg(r)) == Value(env', Reg(r))
    decreases |ps|
  {
    hide Incoming;
    if ps != [] {
      var v := Incoming(ps[0], from, before);
      assert Incoming(ps'[0], from', before') == v;
      SetPhisMatch(base, ps[1..], ps'[1..], from, from', before, before', env[ps[0].dst := v], env'[ps'[0].dst := v]);
    }
  }

  /** Entering a block with the same PHIs along the same edge. */
  lemma EnterBelow(k: Kernel, k': Kernel, base: Name, from: Block, from': Block, to: Block, env: map<Name, int>,
                   env': map<Name, int>)
    requires SameBelow(base, env, env') && PhisMatch(base, Phis(k, to), Phis(k', to), from, from', env, env')
    ensures var l, l' := Enter(k, from, to, env), Enter(k', from', to, env');
            && l.at == l'.at == to && l.pc == l'.pc == 0 && SameBelow(base, l.env, l'.env)
            && forall r: Name :: r >= base ==> Value(l'.env, Reg(r)) == Value(env', Reg(r))
  {
    hide PhisMatch, SetPhis;
    SetPhisMatch(base, Phis(k, to), Phis(k', to), from, from', env, env', env, env');
  }

  lemma IncomingBelow(k: Kernel, base: Name, b: Block, q: nat, from: Block, env: map<Name, int>, env': map<Name, int>)
    requires Below(k, base) && SameBelow(base, env, env') && q < |Phis(k, b)|
    ensures Incoming(Phis(k, b)[q], from, env') == Incoming(Phis(k, b)[q], from, env) && Phis(k, b)[q].dst < base
  {
    hide Below, Phis, UsedByPhi;
    var phi := Phis(k, b)[q];
    if phi.dst >= base {
      PhiBelow(k, base, b, q, phi.dst);
    }
    if from in phi.incoming && phi.incoming[from].Reg? && phi.incoming[from].name >= base {
      PhiBelow(k, base, b, q, phi.incoming[from].name);
      UsedAlong(phi, from);
    }
  }

  lemma UsedAlong(phi: Phi, from: Block)
    requires from in phi.incoming && phi.incoming[from].Reg?
    ensures UsedByPhi(phi.incoming[from].name, phi)
  {
  }

  lemma SamePhisMatch(k: Kernel, k': Kernel, base: Name, from: Block, to: Block, env: map<Name, int>,
                      env': map<Name, int>)
    requires Below(k, base) && SameBelow(base, env, env') && Phis(k', to) == Phis(k, to)
    ensures PhisMatch(base, Phis(k, to), Phis(k', to), from, from, env, env')
  {
    hide Below, Phis, Incoming;
    forall q | 0 <= q < |Phis(k, to)|
      ensures Incoming(Phis(k, to)[q], from, env') == Incoming(Phis(k, to)[q], from, env) && Phis(k, to)[q].dst < base
    {
      IncomingBelow(k, base, to, q, from, env, env');
    }
  }

  // -------------------------------------------------------------------- following step by step

  /** Where a thread can be: in a region that is run item by item it is there for some item and
      has come by some entering edge. */
  ghost predicate Sound(a: Machine, s: Thread) {
    && s.l.at in Blocks(a.k) && Reachable(Cfg(a.k), s.l.at)
    && (InRegion(a.pr, s.l.at) ==> s.item < a.n && CameBy(a.k, a.pr[RegionOf(a.pr, s.l.at)], s.from))
  }

  ghost predicate CameBy(k: Kernel, r: ParallelRegion, f: Block) {
    EntersFrom(k, r, f) && Reachable(Cfg(k), f)
  }

  /** Thread t of the machine with the nest stands where thread s of the machine without stands;
      in the region, its induction variables are the local id of the item whose turn it is. */
  ghost predicate Follows(b: Machine, p: Placed, s: Thread, t: Thread)
    requires Fitting(p.nest.sizes, b.n)
  {
    && t.l.at == s.l.at && t.l.pc == s.l.pc && SameBelow(p.base, s.l.env, t.l.env)
    && (if InRegion(b.pr, s.l.at) then t.item == s.item && t.from == s.from else t.item == 0)
    && (s.l.at in p.nest.r.blocks ==> IvsAre(t.l.env, p.base, LocalIdAt(p.nest.sizes, s.item)))
  }

  /** In some number of steps t follows s. */
  ghost predicate Catches(b: Machine, p: Placed, s: Thread, m': Memory, t: Thread, m: Memory)
    requires Fitting(p.nest.sizes, b.n)
  {
    exists c: nat :: Follows(b, p, s, NestAfter(b, t, m, c).0) && NestAfter(b, t, m, c).1 == m'
  }

  lemma CatchesNow(b: Machine, p: Placed, s: Thread, t: Thread, m: Memory)
    requires Fitting(p.nest.sizes, b.n) && Follows(b, p, s, t)
    ensures Catches(b, p, s, m, t, m)
  {
    hide Follows;
    assert NestAfter(b, t, m, 0) == (t, m);
  }

  lemma CatchesNext(b: Machine, p: Placed, s: Thread, m': Memory, t: Thread, m: Memory)
    requires Fitting(p.nest.sizes, b.n) && Follows(b, p, s, NestStep(b, t, m).0) && NestStep(b, t, m).1 == m'
    ensures Catches(b, p, s, m', t, m)
  {
    hide Follows, NestStep;
    OneStepOn(b, t, m);
  }

  lemma CatchesThere(b: Machine, p: Placed, s: Thread, m': Memory, t: Thread, m: Memory, l: Local)
    requires Fitting(p.nest.sizes, b.n) && t.item == 0 && Comes(b, t.l, m, l, m')
    requires forall f: Block :: Follows(b, p, s, Thread(l, 0, f))
    ensures Catches(b, p, s, m', t, m)
  {
    hide Follows, NestAfter;
    assert Arrives(b, Thread(t.l, 0, t.from), m, l, m');
    var c: nat :| NestAfter(b, t, m, c).0.l == l && NestAfter(b, t, m, c).0.item == 0 && NestAfter(b, t, m, c).1 == m';
    var t' := NestAfter(b, t, m, c).0;
    assert Follows(b, p, s, Thread(l, 0, t'.from));
  }

  lemma OldBlockIs(a: Machine, b: Machine, p: Placed, ops: Ops, x: Block)
    requires OneBuilt(a, b, p, ops) && x in Blocks(a.k)
    ensures x !in LoopBlocks(p.nest) && IsOldBlock(a.k, b.k, p.nest, ops, p.base, x)
  {
    hide OneBuilt, NestOf, HasNest, Ready, Connected, LoopBlocks, Calculates, Blocks, IsOldBlock;
    OneBuiltFacts(a, b, p, ops);
    HasNestAt(a.k, b.k, p.nest, ops, p.base, x);
  }

  lemma NestTermReturns(n: Nest, b: Block, t: Term)
    ensures NestTerm(n, b, t).Return? <==> t.Return?
  {
  }

  lemma SameStand(a: Machine, b: Machine, p: Placed, ops: Ops, l: Local, l': Local)
    requires OneBuilt(a, b, p, ops) && l.at in Blocks(a.k) && l'.at == l.at && l'.pc == l.pc
    ensures AtInst(b.k, l') == AtInst(a.k, l) && Waiting(b.k, l') == Waiting(a.k, l)
            && Stopped(b.k, l') == Stopped(a.k, l)
    ensures Finished(b.k, l') == Finished(a.k, l)
  {
    hide OneBuilt, NestTerm, PhisMoved, LoopBlocks, Phis, Code, Terminator, Blocks;
    OldBlockIs(a, b, p, ops, l.at);
    NestTermReturns(p.nest, l.at, Terminator(a.k, l.at));
  }

  lemma ItemIs(a: Machine, b: Machine, p: Placed, ops: Ops, w: nat, l: Local)
    requires OneBuilt(a, b, p, ops) && Fitting(p.nest.sizes, a.n) && w < a.n && l.at in p.nest.r.blocks
    requires IvsAre(l.env, p.base, LocalIdAt(p.nest.sizes, w))
    ensures ItemOf(b.ps, l) == w
  {
    hide OneBuilt, Position, Items, FlatIdx, LocalIdAt, Iv, NestOf, HasNest, Ready, Connected, Calculates, LoopBlocks;
    hide Blocks;
    OneBuiltFacts(a, b, p, ops);
    var sizes := p.nest.sizes;
    PositionIsBijection(sizes, Triple(0, 0, 0), w);
    FlatIdxIsPosition(sizes, LocalIdAt(sizes, w));
    IvIs(l.env, p.base, LocalIdAt(sizes, w), 0);
    IvIs(l.env, p.base, LocalIdAt(sizes, w), 1);
    IvIs(l.env, p.base, LocalIdAt(sizes, w), 2);
    assert IvsOf(l.env, p.base) == LocalIdAt(sizes, w);
  }

  lemma {:induction false} ItemSame(ps: seq<Placed>, base: Name, l: Local, l': Local)
    requires (forall i :: 0 <= i < |ps| ==> ps[i].base + REGISTERS <= base) && l'.at == l.at
             && SameBelow(base, l.env, l'.env)
    ensures ItemOf(ps, l') == ItemOf(ps, l)
    decreases |ps|
  {
    hide FlatIdx;
    if ps != [] {
      ItemSame(ps[..|ps| - 1], base, l, l');
    }
  }

  lemma ItemElse(a: Machine, b: Machine, p: Placed, ops: Ops, l: Local, l': Local)
    requires OneBuilt(a, b, p, ops) && l.at !in p.nest.r.blocks && l'.at == l.at && SameBelow(p.base, l.env, l'.env)
    ensures ItemOf(b.ps, l') == ItemOf(a.ps, l)
  {
    hide OneNest, Ready, Calculates, Numbered, FlatIdx;
    ItemSame(a.ps, p.base, l, l');
    assert b.ps[..|a.ps|] == a.ps;
  }

  // in the region of the nest

  /** In the region, the machine without the nest runs item s.item. */
  lemma InFirst(a: Machine, b: Machine, p: Placed, ops: Ops, x: Block)
    requires OneBuilt(a, b, p, ops) && x in p.nest.r.blocks
    ensures InRegion(a.pr, x) && a.pr[RegionOf(a.pr, x)] == p.nest.r && !InRegion(b.pr, x)
  {
    hide OneBuilt, NestOf, HasNest, Connected, Calculates, LoopBlocks, Blocks, InRegion, RegionOf, RegionReady, Below;
    hide Valid, Cfg;
    OneBuiltFacts(a, b, p, ops);
    InsideRegion(a.pr, 0, x);
    NotInRest(a.pr, x);
  }

  lemma NotInRest(pr: seq<ParallelRegion>, x: Block)
    requires pr != [] && Disjoint(pr) && x in pr[0].blocks
    ensures !InRegion(pr[1..], x)
  {
    forall j | 0 <= j < |pr[1..]|
      ensures x !in pr[1..][j].blocks
    {
      assert pr[1..][j] == pr[j + 1];
    }
  }

  /** Outside the region, both machines run the same regions item by item. */
  lemma InOther(a: Machine, b: Machine, p: Placed, ops: Ops, x: Block)
    requires OneBuilt(a, b, p, ops) && x !in p.nest.r.blocks
    ensures InRegion(a.pr, x) <==> InRegion(b.pr, x)
    ensures InRegion(a.pr, x) ==>
              var r := a.pr[RegionOf(a.pr, x)];
              b.pr[RegionOf(b.pr, x)] == r && x in r.blocks && r != p.nest.r && exists i ::
                0 < i < |a.pr| && a.pr[i] == r
  {
    hide OneBuilt, NestOf, HasNest, Connected, Calculates, LoopBlocks, Blocks, RegionReady, Below, Valid, Cfg, InRegion;
    hide RegionOf;
    OneBuiltFacts(a, b, p, ops);
    InRest(a.pr, x);
    if InRegion(a.pr, x) {
      SameRegionOf(a.pr, x);
    }
  }

  lemma SameRegionOf(pr: seq<ParallelRegion>, x: Block)
    requires pr != [] && Disjoint(pr) && InRegion(pr, x) && x !in pr[0].blocks && InRegion(pr[1..], x)
    ensures pr[1..][RegionOf(pr[1..], x)] == pr[RegionOf(pr, x)] && 0 < RegionOf(pr, x)
  {
    var j := RegionOf(pr[1..], x);
    assert pr[1..][j] == pr[j + 1];
  }

  /** An instruction of the region, with the induction variables for the local ids. */
  lemma ExecInRegion(a: Machine, b: Machine, p: Placed, ops: Ops, w: nat, at: Block, pc: nat, env: map<Name, int>,
                     env': map<Name, int>, m: Memory)
    requires OneBuilt(a, b, p, ops) && Fitting(p.nest.sizes, a.n) && at in p.nest.r.blocks && at in Blocks(a.k)
             && pc < |Code(a.k, at)|
    requires SameBelow(p.base, env, env') && w < a.n && IvsAre(env', p.base, LocalIdAt(p.nest.sizes, w))
    ensures |Code(b.k, at)| == |Code(a.k, at)|
    ensures var (e, m1) := Exec(a.k, w, Code(a.k, at)[pc], env, m);
            var (e', m2) := Exec(b.k, w, Code(b.k, at)[pc], env', m);
            m1 == m2 && SameBelow(p.base, e, e') && IvsAre(e', p.base, LocalIdAt(p.nest.sizes, w))
  {
    hide OneBuilt, NestOf, HasNest, Connected, Calculates, LoopBlocks, Blocks, InRegion, RegionReady, Valid, Cfg, Below;
    hide Exec, Code;
    hide IvsAre, PhisMoved, NestTerm, Phis, Terminator, LocalIdAt, Items, Disjoint;
    OneBuiltFacts(a, b, p, ops);
    OldBlockIs(a, b, p, ops, at);
    var x, iv := Code(a.k, at)[pc], LocalIdAt(p.nest.sizes, w);
    if x.LocalId? && x.dim <= 2 {
      var y := Compute(x.dst, ops.add, [Reg(Iv(p.base, x.dim)), Imm(0)]);
      assert Code(b.k, at)[pc] == y;
      IdIsIv(a, b, p, ops, w, x.dim, env', m);
      ExecOne(a.k, b.k, w, x, y, env, env', m);
      DefinedBelow(a.k, p.base, at, pc);
      IvsBeside(env', p.base, iv, x.dst, a.k.ids(w, x.dim));
    } else {
      assert Code(b.k, at)[pc] == x;
      ExecByKernel(a.k, b.k, w, x, env', m);
      ExecBelow(a.k, p.base, at, pc, w, env, env', m);
      IvsKept(env', Exec(b.k, w, x, env', m).0, p.base, iv);
    }
  }

  lemma IvsKept(env: map<Name, int>, env': map<Name, int>, base: Name, iv: Triple)
    requires IvsAre(env, base, iv) && forall r: Name :: r >= base ==> Value(env', Reg(r)) == Value(env, Reg(r))
    ensures IvsAre(env', base, iv)
  {
  }

  lemma IvsBeside(env: map<Name, int>, base: Name, iv: Triple, x: Name, v: int)
    requires IvsAre(env, base, iv) && x < base
    ensures IvsAre(env[x := v], base, iv)
  {
  }

  lemma DefinedBelow(k: Kernel, base: Name, b: Block, i: nat)
    requires Below(k, base) && i < |Code(k, b)| && Code(k, b)[i].LocalId?
    ensures Code(k, b)[i].dst < base
  {
    hide Below;
    if Code(k, b)[i].dst >= base {
      InstBelow(k, base, b, i, Code(k, b)[i].dst);
    }
  }

  lemma ExecOne(k: Kernel, k': Kernel, w: nat, x: Inst, y: Inst, env: map<Name, int>, env': map<Name, int>, m: Memory)
    requires x.LocalId? && y.Compute? && y.dst == x.dst
    ensures Exec(k, w, x, env, m) == (env[x.dst := k.ids(w, x.dim)], m)
    ensures Exec(k', w, y, env', m) == (env'[x.dst := k'.alu(y.op, Values(env', y.args))], m)
  {
  }

  /** The local id is the value of the induction variable. */
  lemma IdIsIv(a: Machine, b: Machine, p: Placed, ops: Ops, w: nat, dim: nat, env: map<Name, int>, m: Memory)
    requires OneBuilt(a, b, p, ops) && Fitting(p.nest.sizes, a.n) && w < a.n && dim <= 2
    requires IvsAre(env, p.base, LocalIdAt(p.nest.sizes, w))
    ensures b.k.alu(ops.add, Values(env, [Reg(Iv(p.base, dim)), Imm(0)])) == a.k.ids(w, dim)
  {
    hide OneBuilt, NestOf, HasNest, Connected, LoopBlocks, Blocks, Ready, Cfg, LocalIdAt, Iv, Position, Items;
    OneBuiltFacts(a, b, p, ops);
    NumberedAt(a, b, p, ops, w, dim);
    var iv := LocalIdAt(p.nest.sizes, w);
    IvIs(env, p.base, iv, dim);
    assert Values(env, [Reg(Iv(p.base, dim)), Imm(0)]) == [Get(iv, dim), 0];
    PositionIsBijection(p.nest.sizes, Triple(0, 0, 0), w);
    SizesSmall(p.nest.sizes, a.n, dim);
  }

  lemma NumberedAt(a: Machine, b: Machine, p: Placed, ops: Ops, w: nat, dim: nat)
    requires OneBuilt(a, b, p, ops) && Fitting(p.nest.sizes, a.n) && w < a.n && dim <= 2
    ensures a.k.ids(w, dim) == Get(LocalIdAt(p.nest.sizes, w), dim)
  {
    hide OneNest, Ready, Calculates, LocalIdAt, Items, Get;
  }

  /** The machine without the nest, in the region: the step of the item whose turn it is. */
  lemma StepIn(a: Machine, s: Thread, m: Memory, r: ParallelRegion)
    requires InRegion(a.pr, s.l.at) && a.pr[RegionOf(a.pr, s.l.at)] == r
    ensures var (l, m') := Step(a.k, s.item, s.l, m);
            NestStep(a, s, m) == (if l.at in r.blocks then Thread(l, s.item, s.from)
                                  else if s.item + 1 < a.n
                                          then Thread(Enter(a.k, s.from, r.entry, l.env), s.item + 1, s.from)
                                  else Thread(l, 0, s.from), m')
  {
    hide Step, Enter, InRegion, RegionOf;
  }

  lemma StepOut(x: Machine, t: Thread, m: Memory)
    requires !InRegion(x.pr, t.l.at) && !Waiting(x.k, t.l)
    ensures var (l, m') := Step(x.k, ItemOf(x.ps, t.l), t.l, m); NestStep(x, t, m) == (Thread(l, 0, t.l.at), m')
  {
    hide Step, InRegion, Waiting, ItemOf;
  }

  lemma StepInst(k: Kernel, id: nat, l: Local, m: Memory)
    requires AtInst(k, l) && !Stopped(k, l)
    ensures var (env, m') := Exec(k, id, Code(k, l.at)[l.pc], l.env, m);
            Step(k, id, l, m) == (Local(l.at, l.pc + 1, env), m')
  {
    hide Exec;
  }

  lemma StepBranch(k: Kernel, id: nat, l: Local, m: Memory)
    requires !AtInst(k, l) && !Stopped(k, l)
    ensures !Terminator(k, l.at).Return?
    ensures Step(k, id, l, m) == (Enter(k, l.at, Target(Terminator(k, l.at), l.env), l.env), m)
  {
    hide Enter;
  }

  lemma RegionInst(a: Machine, b: Machine, p: Placed, ops: Ops, s: Thread, m: Memory, t: Thread)
    requires OneBuilt(a, b, p, ops) && Fitting(p.nest.sizes, a.n) && b.n == a.n && Sound(a, s) && Follows(b, p, s, t)
    requires s.l.at in p.nest.r.blocks && AtInst(a.k, s.l) && !Stopped(a.k, s.l)
    ensures Catches(b, p, NestStep(a, s, m).0, NestStep(a, s, m).1, t, m)
  {
    hide OneBuilt, Blocks, InRegion, RegionOf, Exec, NestStep, Catches, Reachable, CameBy, ItemOf, Waiting, IvsAre;
    hide SameBelow, Step;
    hide LocalIdAt, Fitting, Cfg, Code;
    InFirst(a, b, p, ops, s.l.at);
    SameStand(a, b, p, ops, s.l, t.l);
    ItemIs(a, b, p, ops, s.item, t.l);
    StepIn(a, s, m, p.nest.r);
    StepOut(b, t, m);
    StepInst(a.k, s.item, s.l, m);
    StepInst(b.k, s.item, t.l, m);
    ExecInRegion(a, b, p, ops, s.item, s.l.at, s.l.pc, s.l.env, t.l.env, m);
    CatchesNext(b, p, NestStep(a, s, m).0, NestStep(a, s, m).1, t, m);
  }

  // its PHIs

  lemma IncomingIs(phi: Phi, from: Block, env: map<Name, int>)
    ensures Incoming(phi, from, env) == Value(env, IncomingOf(phi, from))
  {
  }

  /** From a block that has not been redirected the entry's PHIs receive what they received. */
  lemma MovedMatch(a: Machine, b: Machine, p: Placed, ops: Ops, f: Block, env: map<Name, int>, env': map<Name, int>)
    requires OneBuilt(a, b, p, ops) && SameBelow(p.base, env, env') && f in Blocks(a.k) && !TurnedToTop(p.nest, f)
    ensures PhisMatch(p.base, Phis(a.k, p.nest.r.entry), Phis(b.k, p.nest.r.entry), f, f, env, env')
  {
    hide OneBuilt, NestOf, HasNest, Connected, Calculates, LoopBlocks, Blocks, RegionReady, Valid, Cfg, Below, Code;
    hide NestTerm, Disjoint;
    hide TurnedToTop, Phis, SameBelow, Incoming, Terminator, FromTurned;
    OneBuiltFacts(a, b, p, ops);
    NestFacts(Cfg(a.k), p.nest);
    var e := p.nest.r.entry;
    OldBlockIs(a, b, p, ops, e);
    forall q | 0 <= q < |Phis(a.k, e)|
      ensures Phis(b.k, e)[q].dst == Phis(a.k, e)[q].dst < p.base
      ensures Incoming(Phis(b.k, e)[q], f, env') == Incoming(Phis(a.k, e)[q], f, env)
    {
      var phi, phi' := Phis(a.k, e)[q], Phis(b.k, e)[q];
      assert PhiMoved(p.nest, phi, phi');
      IncomingBelow(a.k, p.base, e, q, f, env, env');
      IncomingIs(phi', f, env');
      IncomingIs(phi, f, env');
    }
  }

  /** From the innermost header they receive what they received by any entering edge. */
  lemma HeaderMatch(a: Machine, b: Machine, p: Placed, ops: Ops, f: Block, env: map<Name, int>, env': map<Name, int>)
    requires OneBuilt(a, b, p, ops) && SameBelow(p.base, env, env') && CameBy(a.k, p.nest.r, f)
    ensures PhisMatch(p.base, Phis(a.k, p.nest.r.entry), Phis(b.k, p.nest.r.entry), f, p.nest.l0.header, env, env')
  {
    hide OneBuilt, NestOf, HasNest, Connected, Calculates, LoopBlocks, Blocks, RegionReady, Valid, Cfg, Below, Code;
    hide NestTerm, Disjoint;
    hide TurnedToTop, Phis, SameBelow, Incoming, Terminator, CameBy;
    OneBuiltFacts(a, b, p, ops);
    NestFacts(Cfg(a.k), p.nest);
    var e := p.nest.r.entry;
    OldBlockIs(a, b, p, ops, e);
    forall q | 0 <= q < |Phis(a.k, e)|
      ensures Phis(b.k, e)[q].dst == Phis(a.k, e)[q].dst < p.base
      ensures Incoming(Phis(b.k, e)[q], p.nest.l0.header, env') == Incoming(Phis(a.k, e)[q], f, env)
    {
      var phi, phi' := Phis(a.k, e)[q], Phis(b.k, e)[q];
      assert PhiMoved(p.nest, phi, phi');
      IncomingBelow(a.k, p.base, e, q, f, env, env');
      IncomingIs(phi', p.nest.l0.header, env');
      IncomingIs(phi, f, env');
      HeaderReceives(a, b, p, ops, f, q, phi');
    }
  }

  lemma HeaderReceives(a: Machine, b: Machine, p: Placed, ops: Ops, f: Block, q: nat, phi': Phi)
    requires OneBuilt(a, b, p, ops) && CameBy(a.k, p.nest.r, f) && q < |Phis(a.k, p.nest.r.entry)|
    requires PhiMoved(p.nest, Phis(a.k, p.nest.r.entry)[q], phi')
    ensures IncomingOf(phi', p.nest.l0.header) == IncomingOf(Phis(a.k, p.nest.r.entry)[q], f)
  {
    hide OneBuilt, NestOf, HasNest, Connected, Calculates, LoopBlocks, Blocks, RegionReady, Valid, Cfg, Below, Code;
    hide NestTerm, Disjoint;
    hide TurnedToTop, Phis, Terminator, EntersFrom;
    var k, n, phi := a.k, p.nest, Phis(a.k, p.nest.r.entry)[q];
    OneBuiltFacts(a, b, p, ops);
    ReadyFacts(k, a.pr, p.base, 0);
    assert EntersFrom(k, n.r, f) && Reachable(Cfg(k), f);
    EnteringIsTurned(a, b, p, ops, f);
    if o :|
      && o in phi.incoming && TurnedToTop(n, o)
      && n.l0.header in phi'.incoming && phi'.incoming[n.l0.header] == phi.incoming[o]
    {
      TurnedEnters(a, b, p, ops, o);
      assert IncomingOf(phi, o) == phi.incoming[o];
    }
  }

  /** A block outside that can be reached and leads to the entry is redirected. */
  lemma EnteringIsTurned(a: Machine, b: Machine, p: Placed, ops: Ops, f: Block)
    requires OneBuilt(a, b, p, ops) && EntersFrom(a.k, p.nest.r, f) && Reachable(Cfg(a.k), f)
    ensures TurnedToTop(p.nest, f) && f in Blocks(a.k)
  {
    hide OneBuilt, HasNest, Connected, Calculates, LoopBlocks, Blocks, Valid, Below, Code, Terminator, Cfg, Disjoint;
    hide Reachable, Dominates, SamePhis, RegionOk, BarrierBlock, InRegion;
    OneBuiltFacts(a, b, p, ops);
    ReadyFacts(a.k, a.pr, p.base, 0);
    CfgKeys(a.k);
    var g, n := Cfg(a.k), p.nest;
    assert f in g.succ && n.r.entry in g.succ[f];
    assert !Dominates(g, n.r.entry, f);
    var i :| 0 <= i < |g.succ[f]| && g.succ[f][i] == n.r.entry;
    assert n.g.succ[f][i] == n.l2.preheader;
  }

  lemma NotFromInside(n: Nest, f: Block)
    requires Connected(n) && f in n.r.blocks && f in n.g.succ
    ensures n.l2.preheader !in n.g.succ[f]
  {
  }

  lemma TurnedEnters(a: Machine, b: Machine, p: Placed, ops: Ops, f: Block)
    requires OneBuilt(a, b, p, ops) && TurnedToTop(p.nest, f)
    ensures EntersFrom(a.k, p.nest.r, f)
  {
    hide OneBuilt, HasNest, Connected, Calculates, LoopBlocks, Blocks, Below, Code, Terminator, Cfg, Disjoint;
    hide RegionReady;
    hide Reachable, Dominates, SamePhis, RegionOk, BarrierBlock, InRegion, Valid;
    OneBuiltFacts(a, b, p, ops);
    var g, n := Cfg(a.k), p.nest;
    NestFacts(g, n);
    if f in n.r.blocks {
      NotFromInside(n, f);
    }
    CfgKeys(a.k);
    var i :| 0 <= i < |n.g.succ[f]| && n.g.succ[f][i] == n.l2.preheader;
    SuccessorIn(g, f);
    assert n.g.succ[f] == Redirection(g, n.r.entry, n.l2.preheader, f, g.succ[f]);
    assert g.succ[f][i] == n.r.entry;
  }

  // where branches lead

  lemma TargetIsNext(k: Kernel, b: Block, env: map<Name, int>)
    requires b in Blocks(k) && !Terminator(k, b).Return?
    ensures var to := Target(Terminator(k, b), env);
            b in Cfg(k).succ && to in Cfg(k).succ[b] && (b, to) in Edges(Cfg(k))
  {
  }

  lemma RetargetedTarget(t: Term, from: Block, to: Block, env: map<Name, int>)
    requires !t.Return?
    ensures !Retarget(t, from, to).Return?
    ensures Target(Retarget(t, from, to), env) == if Target(t, env) == from then to else Target(t, env)
  {
  }

  lemma NestTarget(n: Nest, b: Block, t: Term, env: map<Name, int>)
    requires !t.Return?
    ensures !NestTerm(n, b, t).Return?
    ensures var to := Target(t, env);
            Target(NestTerm(n, b, t), env) == if b == n.r.exit || b == n.r.entry then if to == n.after then n.l0.latch
              else to
                                              else if b !in n.r.blocks && TurnedToTop(n, b) && to == n.r.entry
                                                      then n.l2.preheader
                                              else to
  {
    hide TurnedToTop, Target, Retarget;
    RetargetedTarget(t, n.after, n.l0.latch, env);
    RetargetedTarget(t, n.r.entry, n.l2.preheader, env);
  }

  /** A branch of the machine without the nest, and where the other's branch leads. */
  lemma BranchTo(a: Machine, b: Machine, p: Placed, ops: Ops, at: Block, env: map<Name, int>, env': map<Name, int>)
    requires OneBuilt(a, b, p, ops) && at in Blocks(a.k) && !Terminator(a.k, at).Return? && SameBelow(p.base, env, env')
    ensures var to := Target(Terminator(a.k, at), env);
            && to in Blocks(a.k) && at in Cfg(a.k).succ && to in Cfg(a.k).succ[at] && (at, to) in Edges(Cfg(a.k))
            && !Terminator(b.k, at).Return?
            && var n := p.nest;
               Target(Terminator(b.k, at), env') == if at == n.r.exit || at == n.r.entry then if to == n.after
                 then n.l0.latch else to
                                                    else if at !in n.r.blocks && TurnedToTop(n, at) && to == n.r.entry
                                                            then n.l2.preheader
                                                    else to
  {
    hide OneBuilt, HasNest, Connected, Calculates, LoopBlocks, Blocks, Below, Code, Terminator, Cfg, Disjoint;
    hide RegionReady, NestTerm;
    hide Target, SameBelow, TurnedToTop, RegionOk, Phis, NestOf;
    OneBuiltFacts(a, b, p, ops);
    OldBlockIs(a, b, p, ops, at);
    TargetBelow(a.k, p.base, at, env, env');
    TargetIsNext(a.k, at, env);
    NestTarget(p.nest, at, Terminator(a.k, at), env');
    CfgKeys(a.k);
    SuccessorIn(Cfg(a.k), at);
  }

  /** Along an edge that has not been turned, a block is entered as before. */
  lemma EnterMatch(a: Machine, b: Machine, p: Placed, ops: Ops, f: Block, to: Block, env: map<Name, int>,
                   env': map<Name, int>)
    requires OneBuilt(a, b, p, ops) && SameBelow(p.base, env, env') && f in Blocks(a.k) && to in Blocks(a.k)
    requires to == p.nest.r.entry ==> !TurnedToTop(p.nest, f)
    ensures var l, l' := Enter(a.k, f, to, env), Enter(b.k, f, to, env');
            && l.at == l'.at == to && l.pc == l'.pc == 0 && SameBelow(p.base, l.env, l'.env)
            && forall r: Name :: r >= p.base ==> Value(l'.env, Reg(r)) == Value(env', Reg(r))
  {
    hide OneBuilt, HasNest, Connected, Calculates, LoopBlocks, Blocks, Below, Code, Terminator, Cfg, Disjoint;
    hide RegionReady, NestTerm;
    hide SameBelow, TurnedToTop, RegionOk, Phis, NestOf, PhisMatch, Enter, PhisMoved;
    OneBuiltFacts(a, b, p, ops);
    if to == p.nest.r.entry {
      MovedMatch(a, b, p, ops, f, env, env');
    } else {
      OldBlockIs(a, b, p, ops, to);
      SamePhisMatch(a.k, b.k, p.base, f, to, env, env');
    }
    EnterBelow(a.k, b.k, p.base, f, f, to, env, env');
  }

  lemma RegionStays(a: Machine, b: Machine, p: Placed, ops: Ops, s: Thread, m: Memory, t: Thread)
    requires OneBuilt(a, b, p, ops) && Fitting(p.nest.sizes, a.n) && b.n == a.n && Sound(a, s) && Follows(b, p, s, t)
    requires s.l.at in p.nest.r.blocks && !AtInst(a.k, s.l) && !Stopped(a.k, s.l) && !Terminator(a.k, s.l.at).Return?
    requires Target(Terminator(a.k, s.l.at), s.l.env) in p.nest.r.blocks
    ensures Catches(b, p, NestStep(a, s, m).0, NestStep(a, s, m).1, t, m)
  {
    hide OneBuilt, Blocks, InRegion, RegionOf, NestStep, Catches, Reachable, CameBy, ItemOf, Waiting, IvsAre, SameBelow;
    hide Step;
    hide LocalIdAt, Cfg, Code, Terminator, NestOf, HasNest, Connected, Calculates, LoopBlocks, Ready, Target, Enter;
    hide Valid;
    hide Items, RegionOk, TurnedToTop;
    OneBuiltFacts(a, b, p, ops);
    var at, to := s.l.at, Target(Terminator(a.k, s.l.at), s.l.env);
    NestFacts(Cfg(a.k), p.nest);
    InFirst(a, b, p, ops, at);
    InFirst(a, b, p, ops, to);
    SameStand(a, b, p, ops, s.l, t.l);
    StepIn(a, s, m, p.nest.r);
    StepOut(b, t, m);
    StepBranch(a.k, s.item, s.l, m);
    StepBranch(b.k, ItemOf(b.ps, t.l), t.l, m);
    BranchTo(a, b, p, ops, at, s.l.env, t.l.env);
    NotTurned(p.nest, at);
    EnterMatch(a, b, p, ops, at, to, s.l.env, t.l.env);
    IvsKept(t.l.env, Enter(b.k, at, to, t.l.env).env, p.base, LocalIdAt(p.nest.sizes, s.item));
    CatchesNext(b, p, NestStep(a, s, m).0, NestStep(a, s, m).1, t, m);
  }

  lemma NotTurned(n: Nest, f: Block)
    requires Connected(n) && f in n.r.blocks
    ensures !TurnedToTop(n, f)
  {
    hide Connected;
    if f in n.g.succ {
      NotFromInside(n, f);
    }
  }

  lemma FollowsFacts(b: Machine, p: Placed, s: Thread, t: Thread)
    requires Fitting(p.nest.sizes, b.n) && Follows(b, p, s, t)
    ensures t.l.at == s.l.at && t.l.pc == s.l.pc && SameBelow(p.base, s.l.env, t.l.env)
    ensures !InRegion(b.pr, s.l.at) ==> t.item == 0
    ensures s.l.at in p.nest.r.blocks ==> IvsAre(t.l.env, p.base, LocalIdAt(p.nest.sizes, s.item))
  {
    hide InRegion, SameBelow, IvsAre, LocalIdAt;
  }

  lemma SameBelowOn(base: Name, e1: map<Name, int>, e2: map<Name, int>, e3: map<Name, int>)
    requires SameBelow(base, e1, e2) && SameBelow(base, e2, e3)
    ensures SameBelow(base, e1, e3)
  {
  }

  lemma NoPhisEnter(k: Kernel, f: Block, to: Block, env: map<Name, int>)
    requires Phis(k, to) == []
    ensures Enter(k, f, to, env) == Local(to, 0, env)
  {
  }

  /** What lies behind the region: a barrier, in no region that gets a loop. */
  lemma BehindIs(a: Machine, b: Machine, p: Placed, ops: Ops)
    requires OneBuilt(a, b, p, ops)
    ensures Phis(a.k, p.nest.after) == [] && Phis(b.k, p.nest.after) == []
    ensures !InRegion(a.pr, p.nest.after) && !InRegion(b.pr, p.nest.after) && p.nest.after !in p.nest.r.blocks
  {
    hide OneBuilt, HasNest, Connected, Calculates, LoopBlocks, Blocks, Below, Terminator, Cfg, Disjoint, RegionOk;
    hide DominatedOutside;
    hide SamePhis, InRegion, Valid, NestTerm, Code, PhisMoved;
    OneBuiltFacts(a, b, p, ops);
    ReadyFacts(a.k, a.pr, p.base, 0);
    NestFacts(Cfg(a.k), p.nest);
    OldBlockIs(a, b, p, ops, p.nest.after);
    InRest(a.pr, p.nest.after);
  }

  /** From the innermost header into the region, for item w. */
  lemma IntoRegion(a: Machine, b: Machine, p: Placed, ops: Ops, f: Block, env: map<Name, int>, env': map<Name, int>,
                   w: nat,
                   t: Thread, m: Memory, s: Thread)
    requires OneBuilt(a, b, p, ops) && Fitting(p.nest.sizes, a.n) && b.n == a.n && w < a.n && CameBy(a.k, p.nest.r, f)
    requires SameBelow(p.base, env, env') && IvsAre(env', p.base, LocalIdAt(p.nest.sizes, w))
    requires t.item == 0 && Comes(b, t.l, m, Local(p.nest.l0.header, 0, env'), m)
    requires s.item == w && s.l == Enter(a.k, f, p.nest.r.entry, env)
    ensures Catches(b, p, s, m, t, m)
  {
    hide HasLoops, OneBuilt, Blocks, InRegion, RegionOf, NestStep, Catches, Reachable, ItemOf, Waiting, IvsAre;
    hide SameBelow, Step, CameBy;
    hide LocalIdAt, Cfg, Code, Terminator, NestOf, HasNest, Connected, Calculates, LoopBlocks, Ready, Target, Enter;
    hide Valid;
    hide Items, RegionOk, TurnedToTop, Comes, Phis, PhisMatch;
    OneBuiltFacts(a, b, p, ops);
    var n := p.nest;
    NestFacts(Cfg(a.k), n);
    InFirst(a, b, p, ops, n.r.entry);
    LoopsAreIn(a, b, p, ops);
    LoopLeads(b, p, ops, 0);
    GoesOn(b, n.l0.header, n.r.entry, env', m);
    HeaderMatch(a, b, p, ops, f, env, env');
    EnterBelow(a.k, b.k, p.base, f, n.l0.header, n.r.entry, env, env');
    var l := Enter(b.k, n.l0.header, n.r.entry, env');
    ComesOn(b, t.l, m, Local(n.l0.header, 0, env'), m, l, m);
    IvsKept(env', l.env, p.base, LocalIdAt(n.sizes, w));
    CatchesThere(b, p, s, m, t, m, l);
  }

  lemma OutOfRegion(a: Machine, b: Machine, p: Placed, ops: Ops, env: map<Name, int>, env': map<Name, int>, t: Thread,
                    m: Memory,
                    s: Thread)
    requires OneBuilt(a, b, p, ops) && Fitting(p.nest.sizes, a.n) && b.n == a.n && SameBelow(p.base, env, env')
    requires t.item == 0 && Comes(b, t.l, m, Local(p.nest.l2.end, 0, env'), m) && s.l == Local(p.nest.after, 0, env)
    ensures Catches(b, p, s, m, t, m)
  {
    hide HasLoops, OneBuilt, InRegion, Catches, IvsAre, SameBelow, LocalIdAt, Fitting, Code, Terminator, Enter, Items;
    hide Comes, Phis;
    LoopsAreIn(a, b, p, ops);
    LoopLeads(b, p, ops, 2);
    BehindIs(a, b, p, ops);
    GoesOn(b, p.nest.l2.end, p.nest.after, env', m);
    var l := Local(p.nest.after, 0, env');
    ComesOn(b, t.l, m, Local(p.nest.l2.end, 0, env'), m, l, m);
    CatchesThere(b, p, s, m, t, m, l);
  }

  /** Behind the region: the latches count, and the region is entered for the next item, or the
      nest is left. */
  lemma RegionLeaves(a: Machine, b: Machine, p: Placed, ops: Ops, s: Thread, m: Memory, t: Thread)
    requires OneBuilt(a, b, p, ops) && Fitting(p.nest.sizes, a.n) && b.n == a.n && Sound(a, s) && Follows(b, p, s, t)
    requires s.l.at in p.nest.r.blocks && !AtInst(a.k, s.l) && !Stopped(a.k, s.l) && !Terminator(a.k, s.l.at).Return?
    requires Target(Terminator(a.k, s.l.at), s.l.env) == p.nest.after
             && (s.l.at == p.nest.r.exit || s.l.at == p.nest.r.entry)
    ensures Catches(b, p, NestStep(a, s, m).0, NestStep(a, s, m).1, t, m)
  {
    hide HasLoops, OneBuilt, Blocks, InRegion, RegionOf, NestStep, Catches, Reachable, ItemOf, Waiting, IvsAre;
    hide SameBelow, Step, CameBy;
    hide LocalIdAt, Fitting, Cfg, Code, Terminator, NestOf, HasNest, Connected, Calculates, LoopBlocks, Ready, Target;
    hide Enter, Valid;
    hide Items, RegionOk, TurnedToTop, Comes, Phis, Follows;
    FollowsFacts(b, p, s, t);
    OneBuiltFacts(a, b, p, ops);
    var at, n := s.l.at, p.nest;
    NestFacts(Cfg(a.k), n);
    InFirst(a, b, p, ops, at);
    SameStand(a, b, p, ops, s.l, t.l);
    StepIn(a, s, m, n.r);
    StepBranch(a.k, s.item, s.l, m);
    StepBranch(b.k, ItemOf(b.ps, t.l), t.l, m);
    BranchTo(a, b, p, ops, at, s.l.env, t.l.env);
    StepComes(b, t.l, m);
    BehindIs(a, b, p, ops);
    LoopsAreIn(a, b, p, ops);
    LoopLeads(b, p, ops, 0);
    NoPhisEnter(a.k, at, n.after, s.l.env);
    NoPhisEnter(b.k, at, n.l0.latch, t.l.env);
    assert Comes(b, t.l, m, Local(n.l0.latch, 0, t.l.env), m);
    var env1 := ToNextItem(b, p, ops, s.item, t.l.env, m);
    SameBelowOn(p.base, s.l.env, t.l.env, env1);
    if s.item + 1 < a.n {
      ComesOn(b, t.l, m, Local(n.l0.latch, 0, t.l.env), m, Local(n.l0.header, 0, env1), m);
      IntoRegion(a, b, p, ops, s.from, s.l.env, env1, s.item + 1, t, m, NestStep(a, s, m).0);
    } else {
      ComesOn(b, t.l, m, Local(n.l0.latch, 0, t.l.env), m, Local(n.l2.end, 0, env1), m);
      OutOfRegion(a, b, p, ops, s.l.env, env1, t, m, NestStep(a, s, m).0);
    }
  }

  // outside the region

  /** Elsewhere both machines make the same step. */
  ghost predicate AlikeAfter(k: Kernel, base: Name, from: Block, x: (Local, Memory), y: (Local, Memory)) {
    && y.0.at == x.0.at && y.0.pc == x.0.pc && SameBelow(base, x.0.env, y.0.env) && y.1 == x.1
    && (x.0.at == from || (from, x.0.at) in Edges(Cfg(k))) && x.0.at in Blocks(k)
  }

  lemma InstAlike(a: Machine, b: Machine, p: Placed, ops: Ops, id: nat, l: Local, l': Local, m: Memory)
    requires OneBuilt(a, b, p, ops) && l.at in Blocks(a.k) && l.at !in p.nest.r.blocks && AtInst(a.k, l)
             && !Stopped(a.k, l)
    requires l'.at == l.at && l'.pc == l.pc && SameBelow(p.base, l.env, l'.env)
    ensures AlikeAfter(a.k, p.base, l.at, Step(a.k, id, l, m), Step(b.k, id, l', m)) && Step(a.k, id, l, m).0.at == l.at
  {
    hide OneBuilt, HasNest, Connected, Calculates, LoopBlocks, Blocks, Below, Terminator, Cfg, Disjoint, RegionReady;
    hide NestTerm;
    hide SameBelow, NestOf, Exec, Step, Code, PhisMoved, Phis, Valid;
    OneBuiltFacts(a, b, p, ops);
    SameStand(a, b, p, ops, l, l');
    OldBlockIs(a, b, p, ops, l.at);
    StepInst(a.k, id, l, m);
    StepInst(b.k, id, l', m);
    ExecByKernel(a.k, b.k, id, Code(a.k, l.at)[l.pc], l'.env, m);
    ExecBelow(a.k, p.base, l.at, l.pc, id, l.env, l'.env, m);
  }

  lemma BranchAlike(a: Machine, b: Machine, p: Placed, ops: Ops, id: nat, l: Local, l': Local, m: Memory)
    requires OneBuilt(a, b, p, ops) && l.at in Blocks(a.k) && l.at !in p.nest.r.blocks && !AtInst(a.k, l)
             && !Stopped(a.k, l)
    requires l'.at == l.at && l'.pc == l.pc && SameBelow(p.base, l.env, l'.env)
    requires !Terminator(a.k, l.at).Return? && Target(Terminator(a.k, l.at), l.env) != p.nest.r.entry
    ensures AlikeAfter(a.k, p.base, l.at, Step(a.k, id, l, m), Step(b.k, id, l', m))
    ensures Step(a.k, id, l, m).0.at == Target(Terminator(a.k, l.at), l.env)
    ensures (l.at, Step(a.k, id, l, m).0.at) in Edges(Cfg(a.k))
  {
    hide OneBuilt, HasNest, Connected, Calculates, LoopBlocks, Blocks, Below, Terminator, Cfg, Disjoint, RegionReady;
    hide NestTerm;
    hide SameBelow, NestOf, Step, Code, Target, Enter, TurnedToTop, Edges, Ready, RegionOk, Valid;
    OneBuiltFacts(a, b, p, ops);
    NestFacts(Cfg(a.k), p.nest);
    SameStand(a, b, p, ops, l, l');
    StepBranch(a.k, id, l, m);
    StepBranch(b.k, id, l', m);
    BranchTo(a, b, p, ops, l.at, l.env, l'.env);
    EnterMatch(a, b, p, ops, l.at, Target(Terminator(a.k, l.at), l.env), l.env, l'.env);
  }

  lemma OutsideInst(a: Machine, b: Machine, p: Placed, ops: Ops, s: Thread, m: Memory, t: Thread)
    requires OneBuilt(a, b, p, ops) && Fitting(p.nest.sizes, a.n) && b.n == a.n && Sound(a, s) && Follows(b, p, s, t)
    requires !InRegion(a.pr, s.l.at) && AtInst(a.k, s.l) && !Stopped(a.k, s.l)
    ensures Catches(b, p, NestStep(a, s, m).0, NestStep(a, s, m).1, t, m)
  {
    hide OneBuilt, Blocks, InRegion, RegionOf, NestStep, Catches, Reachable, CameBy, ItemOf, IvsAre, SameBelow, Step;
    hide Code;
    hide LocalIdAt, Fitting, Cfg;
    NotInFirst(a, b, p, ops, s.l.at);
    SameStand(a, b, p, ops, s.l, t.l);
    ItemElse(a, b, p, ops, s.l, t.l);
    StepOut(a, s, m);
    StepOut(b, t, m);
    InstAlike(a, b, p, ops, ItemOf(a.ps, s.l), s.l, t.l, m);
    CatchesNext(b, p, NestStep(a, s, m).0, NestStep(a, s, m).1, t, m);
  }

  lemma NotInFirst(a: Machine, b: Machine, p: Placed, ops: Ops, x: Block)
    requires OneBuilt(a, b, p, ops) && !InRegion(a.pr, x)
    ensures x !in p.nest.r.blocks && !InRegion(b.pr, x)
  {
    hide OneBuilt, NestOf, HasNest, Connected, Calculates, LoopBlocks, Blocks, RegionReady, Below, Valid, Cfg, InRegion;
    OneBuiltFacts(a, b, p, ops);
    InRest(a.pr, x);
  }

  /** Over a barrier. */
  lemma OutsideWaits(a: Machine, b: Machine, p: Placed, ops: Ops, s: Thread, m: Memory, t: Thread)
    requires OneBuilt(a, b, p, ops) && Fitting(p.nest.sizes, a.n) && b.n == a.n && Sound(a, s) && Follows(b, p, s, t)
    requires !InRegion(a.pr, s.l.at) && Waiting(a.k, s.l)
    ensures Catches(b, p, NestStep(a, s, m).0, NestStep(a, s, m).1, t, m)
  {
    hide OneBuilt, Blocks, InRegion, RegionOf, Catches, Reachable, CameBy, ItemOf, IvsAre, SameBelow, Step, Code;
    hide LocalIdAt, Fitting, Cfg, Waiting;
    NotInFirst(a, b, p, ops, s.l.at);
    SameStand(a, b, p, ops, s.l, t.l);
    CatchesNext(b, p, NestStep(a, s, m).0, NestStep(a, s, m).1, t, m);
  }

  lemma NotInside(a: Machine, b: Machine, p: Placed, ops: Ops, at: Block, to: Block)
    requires OneBuilt(a, b, p, ops) && at !in p.nest.r.blocks && (at, to) in Edges(Cfg(a.k)) && to != p.nest.r.entry
    ensures to !in p.nest.r.blocks
  {
    hide OneBuilt, HasNest, Connected, Calculates, LoopBlocks, Blocks, Cfg, Valid, Ready;
    OneBuiltFacts(a, b, p, ops);
    NestFacts(Cfg(a.k), p.nest);
  }

  lemma OutsideBranch(a: Machine, b: Machine, p: Placed, ops: Ops, s: Thread, m: Memory, t: Thread)
    requires OneBuilt(a, b, p, ops) && Fitting(p.nest.sizes, a.n) && b.n == a.n && Sound(a, s) && Follows(b, p, s, t)
    requires !InRegion(a.pr, s.l.at) && !AtInst(a.k, s.l) && !Stopped(a.k, s.l) && !Terminator(a.k, s.l.at).Return?
    requires Target(Terminator(a.k, s.l.at), s.l.env) != p.nest.r.entry
    ensures Catches(b, p, NestStep(a, s, m).0, NestStep(a, s, m).1, t, m)
  {
    hide OneBuilt, Blocks, InRegion, RegionOf, NestStep, Catches, Reachable, CameBy, ItemOf, IvsAre, SameBelow, Step;
    hide Code;
    hide LocalIdAt, Fitting, Cfg, Terminator, Target, Edges;
    NotInFirst(a, b, p, ops, s.l.at);
    SameStand(a, b, p, ops, s.l, t.l);
    ItemElse(a, b, p, ops, s.l, t.l);
    StepOut(a, s, m);
    StepOut(b, t, m);
    BranchAlike(a, b, p, ops, ItemOf(a.ps, s.l), s.l, t.l, m);
    NotInside(a, b, p, ops, s.l.at, Target(Terminator(a.k, s.l.at), s.l.env));
    CatchesNext(b, p, NestStep(a, s, m).0, NestStep(a, s, m).1, t, m);
  }

  /** Into the region: to the outermost preheader and in, for item 0. */
  lemma OutsideEnters(a: Machine, b: Machine, p: Placed, ops: Ops, s: Thread, m: Memory, t: Thread)
    requires OneBuilt(a, b, p, ops) && Fitting(p.nest.sizes, a.n) && b.n == a.n && Sound(a, s) && Follows(b, p, s, t)
    requires !InRegion(a.pr, s.l.at) && !AtInst(a.k, s.l) && !Stopped(a.k, s.l) && !Terminator(a.k, s.l.at).Return?
    requires Target(Terminator(a.k, s.l.at), s.l.env) == p.nest.r.entry
    ensures Catches(b, p, NestStep(a, s, m).0, NestStep(a, s, m).1, t, m)
  {
    hide HasLoops, OneBuilt, Blocks, InRegion, RegionOf, NestStep, Catches, Reachable, ItemOf, IvsAre, SameBelow, Step;
    hide Code;
    hide LocalIdAt, Items, Cfg, Terminator, Target, Edges, Comes, NestOf, HasNest, Connected, Calculates, LoopBlocks;
    hide Ready, Enter;
    hide RegionOk, Valid, TurnedToTop, Follows, Waiting, Phis;
    OneBuiltFacts(a, b, p, ops);
    FollowsFacts(b, p, s, t);
    var n := p.nest;
    NestFacts(Cfg(a.k), n);
    NotInFirst(a, b, p, ops, s.l.at);
    SameStand(a, b, p, ops, s.l, t.l);
    StepOut(a, s, m);
    StepBranch(a.k, ItemOf(a.ps, s.l), s.l, m);
    StepBranch(b.k, ItemOf(b.ps, t.l), t.l, m);
    BranchTo(a, b, p, ops, s.l.at, s.l.env, t.l.env);
    assert EntersFrom(a.k, n.r, s.l.at);
    EnteringIsTurned(a, b, p, ops, s.l.at);
    LoopsAreIn(a, b, p, ops);
    LoopLeads(b, p, ops, 2);
    NoPhisEnter(b.k, s.l.at, n.l2.preheader, t.l.env);
    StepComes(b, t.l, m);
    var env1 := FromTop(b, p, ops, t.l.env, m);
    ComesOn(b, t.l, m, Local(n.l2.preheader, 0, t.l.env), m, Local(n.l0.header, 0, env1), m);
    SameBelowOn(p.base, s.l.env, t.l.env, env1);
    ItemsPositive(n.sizes);
    IntoRegion(a, b, p, ops, s.l.at, s.l.env, env1, 0, t, m, NestStep(a, s, m).0);
  }

  // in a region that is still run item by item

  /** The other region, and what lies behind it. */
  lemma OtherIs(a: Machine, b: Machine, p: Placed, ops: Ops, at: Block)
    requires OneBuilt(a, b, p, ops) && InRegion(a.pr, at) && at !in p.nest.r.blocks
    ensures var r := a.pr[RegionOf(a.pr, at)];
            && InRegion(b.pr, at) && b.pr[RegionOf(b.pr, at)] == r && at in r.blocks && r.entry in r.blocks
            && r.entry !in p.nest.r.blocks && r.entry in Blocks(a.k) && InRegion(b.pr, r.entry)
            && forall to :: (at, to) in Edges(Cfg(a.k)) ==>
                 to in r.blocks || (!InRegion(a.pr, to) && Phis(a.k, to) == [] && to !in p.nest.r.blocks
                   && !InRegion(b.pr, to))
    ensures forall to :: to in a.pr[RegionOf(a.pr, at)].blocks ==> to !in p.nest.r.blocks && InRegion(b.pr, to)
  {
    hide OneBuilt, HasNest, Connected, Calculates, LoopBlocks, Blocks, Cfg, Valid, Ready, RegionOf, Phis, Code;
    InOther(a, b, p, ops, at);
    OneBuiltFacts(a, b, p, ops);
    var i: nat :| 0 < i < |a.pr| && a.pr[i] == a.pr[RegionOf(a.pr, at)];
    ReadyFacts(a.k, a.pr, p.base, i);
    CfgKeys(a.k);
    assert b.pr[i - 1] == a.pr[i];
    forall to | (at, to) in Edges(Cfg(a.k)) && to !in a.pr[i].blocks
      ensures !InRegion(a.pr, to) && Phis(a.k, to) == [] && to !in p.nest.r.blocks && !InRegion(b.pr, to)
    {
      assert to == Behind(Cfg(a.k), a.pr[i]);
      InRest(a.pr, to);
    }
  }

  lemma OtherStep(a: Machine, b: Machine, p: Placed, ops: Ops, s: Thread, m: Memory, t: Thread)
    requires OneBuilt(a, b, p, ops) && Fitting(p.nest.sizes, a.n) && b.n == a.n && Sound(a, s) && Follows(b, p, s, t)
    requires InRegion(a.pr, s.l.at) && s.l.at !in p.nest.r.blocks
    requires AlikeAfter(a.k, p.base, s.l.at, Step(a.k, s.item, s.l, m), Step(b.k, s.item, t.l, m))
    ensures Catches(b, p, NestStep(a, s, m).0, NestStep(a, s, m).1, t, m)
  {
    hide OneBuilt, Blocks, InRegion, RegionOf, NestStep, Catches, Reachable, ItemOf, IvsAre, SameBelow, Step, Code;
    hide LocalIdAt, Items, Cfg, Terminator, Edges, Enter, Phis, TurnedToTop, NestOf, HasNest, Connected, Calculates;
    hide LoopBlocks, Ready;
    OtherIs(a, b, p, ops, s.l.at);
    OneBuiltFacts(a, b, p, ops);
    var r := a.pr[RegionOf(a.pr, s.l.at)];
    StepIn(a, s, m, r);
    StepIn(b, t, m, r);
    var l, l' := Step(a.k, s.item, s.l, m).0, Step(b.k, s.item, t.l, m).0;
    if l.at !in r.blocks && s.item + 1 < a.n {
      NestFacts(Cfg(a.k), p.nest);
      assert CameBy(a.k, r, s.from);
      EnteringIn(a.k, r, s.from);
      EnterMatch(a, b, p, ops, s.from, r.entry, l.env, l'.env);
    }
    CatchesNext(b, p, NestStep(a, s, m).0, NestStep(a, s, m).1, t, m);
  }

  lemma EnteringIn(k: Kernel, r: ParallelRegion, f: Block)
    requires EntersFrom(k, r, f)
    ensures f in Blocks(k)
  {
  }

  lemma OtherFollows(a: Machine, b: Machine, p: Placed, ops: Ops, s: Thread, m: Memory, t: Thread)
    requires OneBuilt(a, b, p, ops) && Fitting(p.nest.sizes, a.n) && b.n == a.n && Sound(a, s) && Follows(b, p, s, t)
    requires InRegion(a.pr, s.l.at) && s.l.at !in p.nest.r.blocks && !Stopped(a.k, s.l)
    ensures Catches(b, p, NestStep(a, s, m).0, NestStep(a, s, m).1, t, m)
  {
    hide OneBuilt, Blocks, InRegion, RegionOf, NestStep, Catches, Reachable, ItemOf, IvsAre, SameBelow, Step, Code;
    hide LocalIdAt, Items, Cfg, Terminator, Edges, AlikeAfter, Target, Stopped;
    if AtInst(a.k, s.l) {
      InstAlike(a, b, p, ops, s.item, s.l, t.l, m);
    } else {
      StepBranch(a.k, s.item, s.l, m);
      OtherTarget(a, b, p, ops, s.l.at, s.l.env);
      BranchAlike(a, b, p, ops, s.item, s.l, t.l, m);
    }
    OtherStep(a, b, p, ops, s, m, t);
  }

  lemma OtherTarget(a: Machine, b: Machine, p: Placed, ops: Ops, at: Block, env: map<Name, int>)
    requires OneBuilt(a, b, p, ops) && InRegion(a.pr, at) && at !in p.nest.r.blocks && at in Blocks(a.k)
             && !Terminator(a.k, at).Return?
    ensures Target(Terminator(a.k, at), env) != p.nest.r.entry
  {
    hide OneBuilt, Blocks, InRegion, RegionOf, Cfg, Terminator, Edges, Target, NestOf, HasNest, Connected, Calculates;
    hide LoopBlocks, Ready;
    hide Phis, Valid, RegionOk;
    OtherIs(a, b, p, ops, at);
    OneBuiltFacts(a, b, p, ops);
    NestFacts(Cfg(a.k), p.nest);
    TargetIsNext(a.k, at, env);
  }

  /** A stopped thread of the machine without the nest. */
  lemma StoppedFollows(a: Machine, b: Machine, p: Placed, s: Thread, m: Memory, t: Thread)
    requires Fitting(p.nest.sizes, a.n) && b.n == a.n && Follows(b, p, s, t) && Stopped(a.k, s.l)
    requires if InRegion(a.pr, s.l.at) then s.l.at in a.pr[RegionOf(a.pr, s.l.at)].blocks
             else !Waiting(a.k, s.l) && !InRegion(b.pr, s.l.at) && s.l.at !in p.nest.r.blocks
    ensures Catches(b, p, NestStep(a, s, m).0, NestStep(a, s, m).1, t, m)
  {
    hide Catches, InRegion, RegionOf, IvsAre, SameBelow, LocalIdAt, Waiting, ItemOf;
    assert forall id: nat :: Step(a.k, id, s.l, m) == (s.l, m);
    CatchesNow(b, p, NestStep(a, s, m).0, t, m);
  }

  /** Whatever step the machine without the nest makes, the machine with it catches up. */
  lemma StepFollows(a: Machine, b: Machine, p: Placed, ops: Ops, s: Thread, m: Memory, t: Thread)
    requires OneBuilt(a, b, p, ops) && Fitting(p.nest.sizes, a.n) && b.n == a.n && Sound(a, s) && Follows(b, p, s, t)
    ensures Catches(b, p, NestStep(a, s, m).0, NestStep(a, s, m).1, t, m)
  {
    hide OneBuilt, Blocks, InRegion, NestStep, Catches, Reachable, ItemOf, IvsAre, SameBelow, Step, Sound, Fitting;
    hide Follows;
    hide LocalIdAt, Items, Cfg, Edges, NestOf, HasNest, Connected, Calculates, LoopBlocks, Ready, Target, RegionOf;
    hide Terminator;
    OneBuiltFacts(a, b, p, ops);
    var at := s.l.at;
    SoundFacts(a, s);
    if at in p.nest.r.blocks {
      InFirst(a, b, p, ops, at);
    }
    if InRegion(a.pr, at) {
      if Stopped(a.k, s.l) {
        StoppedFollows(a, b, p, s, m, t);
      } else if at !in p.nest.r.blocks {
        OtherFollows(a, b, p, ops, s, m, t);
      } else if AtInst(a.k, s.l) {
        RegionInst(a, b, p, ops, s, m, t);
      } else {
        StepBranch(a.k, 0, s.l, m);
        RegionTarget(a, b, p, ops, at, s.l.env);
        if Target(Terminator(a.k, at), s.l.env) in p.nest.r.blocks {
          RegionStays(a, b, p, ops, s, m, t);
        } else {
          RegionLeaves(a, b, p, ops, s, m, t);
        }
      }
    } else if Waiting(a.k, s.l) {
      OutsideWaits(a, b, p, ops, s, m, t);
    } else if Stopped(a.k, s.l) {
      NotInFirst(a, b, p, ops, at);
      StoppedFollows(a, b, p, s, m, t);
    } else if AtInst(a.k, s.l) {
      OutsideInst(a, b, p, ops, s, m, t);
    } else {
      StepBranch(a.k, 0, s.l, m);
      if Target(Terminator(a.k, at), s.l.env) == p.nest.r.entry {
        OutsideEnters(a, b, p, ops, s, m, t);
      } else {
        OutsideBranch(a, b, p, ops, s, m, t);
      }
    }
  }

  lemma SoundFacts(a: Machine, s: Thread)
    requires Sound(a, s)
    ensures s.l.at in Blocks(a.k) && Reachable(Cfg(a.k), s.l.at)
    ensures InRegion(a.pr, s.l.at) ==> s.l.at in a.pr[RegionOf(a.pr, s.l.at)].blocks
  {
    hide Reachable, Blocks, Cfg, CameBy;
  }

  lemma RegionTarget(a: Machine, b: Machine, p: Placed, ops: Ops, at: Block, env: map<Name, int>)
    requires OneBuilt(a, b, p, ops) && at in p.nest.r.blocks && !Terminator(a.k, at).Return?
    ensures var to := Target(Terminator(a.k, at), env);
            to in p.nest.r.blocks || ((at == p.nest.r.exit || at == p.nest.r.entry) && to == p.nest.after)
  {
    hide OneBuilt, HasNest, Connected, Calculates, LoopBlocks, Blocks, Cfg, Valid, Ready, Terminator, Target, NestOf;
    OneBuiltFacts(a, b, p, ops);
    NestFacts(Cfg(a.k), p.nest);
    TargetIsNext(a.k, at, env);
  }
}
