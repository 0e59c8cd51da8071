/** A kernel that the built code gets wrong: a loop whose body is the region itself, with a barrier
    at its end, `do { a[id]++; again := a[id] < 2; barrier } while (again)`.

    The region's entry heads the loop and so dominates the barrier that leads back to it. The loop
    builder leaves such a predecessor alone, and the second round goes past the work-item loops.
    For two items, every execution leaves 2 and 2, and the code that is built leaves 1 and 2. */
module HeadedLoop {
  import opened Graphs
  import opened FlatIndex
  import opened WorkItems
  import opened Interleaving
  import opened Contexts
  import opened ContextBuffering
  import opened ContextPass
  import opened SharedRegisters
  import opened UniformStretch
  import opened Coarsening
  import opened WorkGroups
  import opened OneThread
  import opened NestThread
  import opened BuiltCode
  import NestCode
  import LoopNest

  /** Addition and comparison of words. */
  function Words(): (nat, seq<int>) -> int {
    (op: nat, args: seq<int>) =>
      if |args| != 2 then 0
      else if op == 0 then (args[0] + args[1]) % WORD
      else if args[0] < args[1] then 1
      else 0
  }

  const OPS := NestCode.Ops(0, 1)

  const BODY: seq<Inst> := [LocalId(1, 0), Load(2, Reg(1)), Compute(3, 0, [Reg(2), Imm(1)]), Store(Reg(1), Reg(3)),
                            Compute(4, 1, [Reg(3), Imm(2)])]

  function Counting(): Kernel {
    Kernel(0, map[], map[0 := [Barrier], 1 := BODY, 2 := [Barrier], 3 := [Barrier]],
           map[0 := Goto(1), 1 := Goto(2), 2 := Branch(Reg(4), 1, 3), 3 := Return],
           Words(), (w: nat, d: nat) => if d == 0 then w else 0)
  }

  const INCREMENT := ParallelRegion(1, 1, {1})
  const REGIONS: seq<ParallelRegion> := [INCREMENT]
  const STOPS: seq<Block> := [0, 2, 2, 3]
  const INTERVALS: seq<Interval> := [Around(0, [6, 6]), Around(0, [6, 6]), Along(1)]
  const SIZES := Triple(2, 1, 1)

  // ----------------------------------------------------------------------------- its shape

  function CodeOf(b: Block): seq<Inst> {
    if b == 1 then BODY else if b <= 3 then [Barrier] else []
  }

  function TermOf(b: Block): Term {
    if b < 2 then Goto(b + 1) else if b == 2 then Branch(Reg(4), 1, 3) else Return
  }

  lemma Table(b: Block)
    ensures var k := Counting();
            && Code(k, b) == CodeOf(b) && Terminator(k, b) == TermOf(b) && Phis(k, b) == []
            && k.entry == 0 && k.alu == Words() && (b in Blocks(k) <==> b <= 3)
  {
  }

  lemma Ids(w: nat, d: nat)
    ensures Counting().ids(w, d) == if d == 0 then w else 0
  {
  }

  lemma InRegions(b: Block)
    ensures InRegion(REGIONS, b) <==> b == 1
    ensures forall c :: SameRegion(REGIONS, b, c) <==> b == 1 && c == 1
  {
    assert REGIONS[0] == INCREMENT;
  }

  lemma Arc(u: Block, v: Block)
    ensures (u, v) in Edges(Cfg(Counting())) <==> (u < 2 && v == u + 1) || (u == 2 && (v == 1 || v == 3))
  {
    hide Counting;
    Table(u);
    assert v in Successors(TermOf(u)) <==> (u < 2 && v == u + 1) || (u == 2 && (v == 1 || v == 3));
  }

  lemma Graph()
    ensures var g := Cfg(Counting());
            && g.entry == 0 && g.succ.Keys == {0, 1, 2, 3}
            && g.succ[0] == [1] && g.succ[1] == [2] && g.succ[2] == [1, 3] && g.succ[3] == []
  {
    hide Counting;
    Table(0);
    Table(1);
    Table(2);
    Table(3);
    NestCode.CfgKeys(Counting());
    forall b: Block
      ensures b in Blocks(Counting()) <==> b in {0, 1, 2, 3}
    {
      Table(b);
    }
  }

  lemma BodyUses(x: Name, i: nat)
    requires i < |BODY|
    ensures UsedBy(x, BODY[i]) ==> x in {1, 2, 3} && DefinedAbove(BODY, x, i)
    ensures Defines(BODY[i], x)
            <==> (i == 0 && x == 1) || (i == 1 && x == 2) || (i == 2 && x == 3) || (i == 4 && x == 4)
  {
    assert BODY[0] == LocalId(1, 0) && BODY[1] == Load(2, Reg(1)) && BODY[2] == Compute(3, 0, [Reg(2), Imm(1)]);
    assert BODY[3] == Store(Reg(1), Reg(3)) && BODY[4] == Compute(4, 1, [Reg(3), Imm(2)]);
    assert Operands(BODY[1]) == [Reg(1)] && Operands(BODY[2]) == [Reg(2), Imm(1)]
           && Operands(BODY[3]) == [Reg(1), Reg(3)];
    assert Operands(BODY[4]) == [Reg(3), Imm(2)];
    assert Defines(BODY[0], 1) && Defines(BODY[1], 2) && Defines(BODY[2], 3);
  }

  lemma BarrierUses(x: Name)
    ensures !UsedBy(x, Barrier) && !Defines(Barrier, x)
  {
  }

  lemma Definitions(x: Name, b: Block)
    ensures DefBlock(Counting(), x, b) ==> b == 1 && x in {1, 2, 3, 4}
    ensures !PhiDefines(Counting(), x, b)
    ensures DefIn(Counting(), 4, 1)
  {
    hide Counting, Code, Phis, Defines;
    Table(b);
    Table(1);
    BarrierUses(x);
    if i: nat :| i < |BODY| && Defines(BODY[i], x) {
      BodyUses(x, i);
    }
    BodyUses(4, 4);
    assert Defines(Code(Counting(), 1)[4], 4);
  }

  /** The region's entry is on every way to the barrier behind it. */
  lemma OnTheWay(b: Block)
    requires 1 <= b <= 3
    ensures Dominates(Cfg(Counting()), 1, b) && Reachable(Cfg(Counting()), b)
  {
    hide Counting, Edges, Walk;
    var g := Cfg(Counting());
    Table(0);
    forall u: Block, v: Block
      ensures (u, v) in Edges(g) && u == 0 ==> v == 1
    {
      Arc(u, v);
    }
    forall p | WalkFromTo(Edges(g), p, g.entry, b)
      ensures 1 in p
    {
      NonEmpty(Edges(g), p);
      if 1 !in p {
        ClosedAround(g, 1, {0}, p);
      }
    }
    ReachSelf(Edges(g), 0);
    Arc(0, 1);
    Arc(1, 2);
    Arc(2, 3);
    ReachStep(Edges(g), 0, 0, 1);
    ReachStep(Edges(g), 0, 1, 2);
    ReachStep(Edges(g), 0, 2, 3);
  }

  lemma IsSsa()
    ensures Ssa(Counting())
  {
    hide Counting, UsedBy, DefinedBefore, DefinedAbove, DefIn, PhiDefines, Terminator, Code, Phis, Dominates;
    var k := Counting();
    forall x, b, c | DefBlock(k, x, b) && DefBlock(k, x, c)
      ensures b == c
    {
      Definitions(x, b);
      Definitions(x, c);
    }
    forall b, i, x | 0 <= i < |Code(k, b)| && UsedBy(x, Code(k, b)[i])
      ensures DefinedBefore(k, x, b, i)
    {
      Table(b);
      BarrierUses(x);
      BodyUses(x, i);
      DefinedHere(x, i);
    }
    forall b, x | UsedByTerm(x, Terminator(k, b))
      ensures DefinedBefore(k, x, b, |Code(k, b)|)
    {
      Table(b);
      DefinedAtBarrier(|Code(k, b)|);
    }
    forall b: Block, q: nat, f: Block, x: Name
      ensures !PhiReads(k, x, b, q, f)
    {
      Table(b);
    }
  }

  lemma DefinedHere(x: Name, i: nat)
    ensures DefinedAbove(BODY, x, i) ==> DefinedBefore(Counting(), x, 1, i)
  {
    hide Counting;
    Table(1);
  }

  lemma DefinedAtBarrier(i: nat)
    ensures DefinedBefore(Counting(), 4, 2, i)
  {
    hide Counting, DefIn, PhiDefines, Dominates;
    Definitions(4, 1);
    OnTheWay(2);
    assert DefBlock(Counting(), 4, 1);
  }

  lemma Shape()
    ensures var k := Counting(); RegionsOk(k, REGIONS) && UniformCode(k, REGIONS) && SingleEntry(k, INCREMENT)
  {
    hide Counting, Code, Phis, Reach, Edges, Cfg, ReadIn, DefIn;
    var k := Counting();
    assert REGIONS[0] == INCREMENT;
    forall x, b, q, f | InRegion(REGIONS, b)
      ensures !PhiReads(k, x, b, q, f)
    {
      Table(b);
    }
    forall b, i | !InRegion(REGIONS, b) && 0 <= i < |Code(k, b)|
      ensures ForAllItems(Code(k, b)[i])
    {
      InRegions(b);
      Table(b);
    }
    CfgEntry(k);
    Table(0);
    Table(1);
    OnTheWay(1);
    forall u: Block, v: Block | (u, v) in Edges(Cfg(k)) && v in INCREMENT.blocks
      ensures v == 1
    {
      Arc(u, v);
    }
  }

  /** All that the loop builder asks but one: the barrier behind the region leads back to it and is
      dominated by it. */
  lemma IsDominated()
    ensures var g := Cfg(Counting());
            && Valid(g) && LoopNest.RegionOk(g, INCREMENT) && LoopNest.DominatedOutside(g, INCREMENT)
            && BarrierBlock(Counting(), NestCode.Behind(g, INCREMENT))
               && !InRegion(REGIONS, NestCode.Behind(g, INCREMENT))
  {
    hide Counting, Dominates, Reachable;
    Graph();
    OnTheWay(2);
    Table(2);
    InRegions(2);
  }

  // ------------------------------------------------------------------------------ its runs

  /** The registers after the first i instructions, if the item's cell holds v. */
  function Regs(w: nat, v: nat, env: map<Name, int>, i: nat): map<Name, int> {
    if i == 0 then env
    else if i == 1 then env[1 := w]
    else if i == 2 then env[1 := w][2 := v]
    else if i <= 4 then env[1 := w][2 := v][3 := v + 1]
    else env[1 := w][2 := v][3 := v + 1][4 := if v + 1 < 2 then 1 else 0]
  }

  function Mem(w: nat, v: nat, m: Memory, i: nat): Memory {
    if i <= 3 then m else m[Global(w) := v + 1]
  }

  lemma BodyExec(w: nat, v: nat, env: map<Name, int>, m: Memory, i: nat)
    requires i < 5 && Peek(m, Global(w)) == v < 2
    ensures Exec(Counting(), w, BODY[i], Regs(w, v, env, i), Mem(w, v, m, i))
            == (Regs(w, v, env, i + 1), Mem(w, v, m, i + 1))
  {
    hide Counting, Peek;
    Table(1);
    Ids(w, 0);
    assert Values(Regs(w, v, env, 2), [Reg(2), Imm(1)]) == [v, 1];
    assert Values(Regs(w, v, env, 4), [Reg(3), Imm(2)]) == [v + 1, 2];
  }

  lemma EnterPlain(from: Block, b: Block, env: map<Name, int>)
    ensures Enter(Counting(), from, b, env) == Local(b, 0, env)
  {
    hide Counting;
    Table(b);
  }

  lemma BodyStep(w: nat, env: map<Name, int>, m: Memory, i: nat)
    requires i <= 5
    ensures var k, l := Counting(), Local(1, i, env);
            && !Stopped(k, l)
            && Step(k, w, l, m) == if i < 5
               then (Local(1, i + 1, Exec(k, w, BODY[i], env, m).0), Exec(k, w, BODY[i], env, m).1)
                                   else (Local(2, 0, env), m)
  {
    hide Counting, Exec;
    Table(1);
    EnterPlain(1, 2, env);
  }

  lemma {:induction false} BodyVisit(w: nat, v: nat, env: map<Name, int>, m: Memory, i: nat)
    requires i <= 5 && Peek(m, Global(w)) == v < 2
    ensures Alone(Counting(), w, Local(1, 0, env), m, i) == (Local(1, i, Regs(w, v, env, i)), Mem(w, v, m, i))
    decreases i
  {
    hide Counting, Step, Exec, Peek;
    if i > 0 {
      BodyVisit(w, v, env, m, i - 1);
      BodyStep(w, Regs(w, v, env, i - 1), Mem(w, v, m, i - 1), i - 1);
      BodyExec(w, v, env, m, i - 1);
    }
  }

  /** A visit increments the cell of the item and says whether another round is to follow. */
  lemma BodyLeaves(w: nat, v: nat, from: Block, env: map<Name, int>, m: Memory)
    requires Peek(m, Global(w)) == v < 2
    ensures var k, l := Counting(), Enter(Counting(), from, 1, env);
            Leaves(k, INCREMENT, w, l, m, 6)
              && Alone(k, w, l, m, 6) == (Local(2, 0, Regs(w, v, env, 5)), m[Global(w) := v + 1])
  {
    hide Counting, Step, Exec, Stopped, Peek, Regs;
    var k, l := Counting(), Local(1, 0, env);
    EnterPlain(from, 1, env);
    forall i | 0 <= i < 6
      ensures Alone(k, w, l, m, i).0.at in INCREMENT.blocks && !Stopped(k, Alone(k, w, l, m, i).0)
    {
      BodyVisit(w, v, env, m, i);
      BodyStep(w, Regs(w, v, env, i), Mem(w, v, m, i), i);
    }
    BodyVisit(w, v, env, m, 5);
    BodyStep(w, Regs(w, v, env, 5), Mem(w, v, m, 5), 5);
    Table(2);
  }

  /** Two items at a barrier, v in both of their cells, and in register 4 whether they go on. */
  ghost predicate TwoAt(s: State, b: Block, pc: nat, v: nat) {
    && |s.items| == 2 && Peek(s.mem, Global(0)) == v && Peek(s.mem, Global(1)) == v
    && forall w :: 0 <= w < 2 ==>
         s.items[w].at == b && s.items[w].pc == pc
           && Holding(s.items[w].env, if v == 0 then 0 else if v < 2 then 1 else 0)
  }

  ghost predicate Holding(env: map<Name, int>, goOn: int) {
    (forall x :: x in env ==> 0 < x < 5) && Value(env, Reg(4)) == goOn
  }

  lemma HoldTheSame(s: State, b: Block, pc: nat, v: nat)
    requires TwoAt(s, b, pc, v)
    ensures AllSame(Counting(), REGIONS, s.items)
  {
    hide Counting, Uniform;
    forall x, i, j | Uniform(Counting(), REGIONS, x) && 0 <= i < 2 && 0 <= j < 2
      ensures Value(s.items[i].env, Reg(x)) == Value(s.items[j].env, Reg(x))
    {
      if x in {1, 2, 3} {
        NotUniform(x);
      }
    }
  }

  lemma NotUniform(x: Name)
    requires x in {1, 2, 3}
    ensures !Uniform(Counting(), REGIONS, x)
  {
    hide Counting, DefIn, InRegion, SameRegion, PhiDefines, Code, Phis, Terminator;
    Table(1);
    BodyUses(x, x - 1);
    assert Defines(Code(Counting(), 1)[x - 1], x);
    assert DefIn(Counting(), x, 1) by {
      DefinedBy(x, x - 1);
    }
    InRegions(1);
    forall b | ReadIn(Counting(), x, b)
      ensures b == 1
    {
      Table(b);
      BarrierUses(x);
    }
    assert !ReadDirectly(Counting(), REGIONS, x, 1);
  }

  lemma DefinedBy(x: Name, i: nat)
    requires i < |Code(Counting(), 1)| && Defines(Code(Counting(), 1)[i], x)
    ensures DefIn(Counting(), x, 1)
  {
    hide Counting, Code, Defines;
  }

  /** The states of a round: both items visit the region, item 0 first. */
  lemma RoundMet(s: State, b: Block, v: nat)
    requires TwoAt(s, b, 1, v) && v < 2 && (b == 0 || (b == 2 && v == 1))
    ensures var k, j := Counting(), Around(0, [6, 6]); var r := Release(Privately(k, REGIONS, s, b, j));
            IntervalMet(k, REGIONS, s, b, j, 2) && TwoAt(r, 2, 1, v + 1)
  {
    hide Counting, SingleEntry, AllSame, PrivateLoop, BarrierBlock, InRegion, Leaves, Alone, Enter, Regs, Peek, Holding;
    var k, j := Counting(), Around(0, [6, 6]);
    var items, ns := Entering(k, s.items, b, 1), [6, 6];
    assert REGIONS[0] == INCREMENT;
    Shape();
    Table(b);
    Table(2);
    InRegions(b);
    InRegions(2);
    TwoVisits(s, b, v);
    var (done, m) := PrivateLoop(k, items, s.mem, ns, 2);
    var r := Privately(k, REGIONS, s, b, j);
    assert r == State(done, m);
    HoldTheSame(r, 2, 0, v + 1);
    TargetsRegion(s, b, v);
  }

  lemma TargetsRegion(s: State, b: Block, v: nat)
    requires TwoAt(s, b, 1, v) && v < 2 && (b == 0 || (b == 2 && v == 1))
    ensures forall w :: 0 <= w < 2 ==> Target(Terminator(Counting(), b), s.items[w].env) == 1
    ensures !Terminator(Counting(), b).Return? && BarrierBlock(Counting(), b) && BarrierBlock(Counting(), 2)
  {
    hide Counting, Peek;
    Table(b);
    Table(2);
  }

  lemma TwoVisits(s: State, b: Block, v: nat)
    requires TwoAt(s, b, 1, v) && v < 2
    ensures var k := Counting(); var items := Entering(k, s.items, b, 1);
            var (done, m) := PrivateLoop(k, items, s.mem, [6, 6], 2);
            AllLeave(k, INCREMENT, items, s.mem, [6, 6], 2) && TwoAt(State(done, m), 2, 0, v + 1)
  {
    hide Counting, PrivateLoop, Leaves, Alone, Enter, Regs, Holding, Peek;
    var k := Counting();
    var items, ns: seq<nat> := Entering(k, s.items, b, 1), [6, 6];
    EnteredAt(k, s.items, b, 1);
    NoVisit(k, items, s.mem, ns);
    BodyLeaves(0, v, b, s.items[0].env, s.mem);
    var m1 := s.mem[Global(0) := v + 1];
    OtherCell(s.mem, 0, 1, v + 1);
    BodyLeaves(1, v, b, s.items[1].env, m1);
    OneVisitMore(k, items, s.mem, ns, 0);
    OneVisitMore(k, items, s.mem, ns, 1);
    AllLeaveNext(k, INCREMENT, items, s.mem, ns, 6, 0);
    AllLeaveNext(k, INCREMENT, items, s.mem, ns, 6, 1);
    assert ns[0 := 6] == ns && ns[1 := 6] == ns;
    OtherCell(m1, 1, 0, v + 1);
    var goOn := if v == 0 then 0 else 1;
    RegsHold(0, v, s.items[0].env, goOn);
    RegsHold(1, v, s.items[1].env, goOn);
  }

  lemma OtherCell(m: Memory, w: nat, u: nat, v: int)
    requires u != w
    ensures Peek(m[Global(w) := v], Global(u)) == Peek(m, Global(u)) && Peek(m[Global(w) := v], Global(w)) == v
  {
  }

  lemma RegsHold(w: nat, v: nat, env: map<Name, int>, goOn: int)
    requires Holding(env, goOn)
    ensures Holding(Regs(w, v, env, 5), if v + 1 < 2 then 1 else 0)
  {
  }

  lemma NoVisit(k: Kernel, items: seq<Local>, m: Memory, ns: seq<nat>)
    requires |items| == |ns|
    ensures PrivateLoop(k, items, m, ns, 0) == (items, m) && AllLeave(k, INCREMENT, items, m, ns, 0)
  {
  }

  lemma ExitMet(s: State)
    requires TwoAt(s, 2, 1, 2)
    ensures var k, j := Counting(), Along(1); var r := Release(Privately(k, REGIONS, s, 2, j));
            IntervalMet(k, REGIONS, s, 2, j, 3) && AtEnd(k, r, 3) && r.mem == s.mem
  {
    hide Counting, PrivateLoop, InRegion, Goes, Alone, StoresNothing, Peek;
    var k := Counting();
    Table(2);
    Table(3);
    InRegions(2);
    InRegions(3);
    forall w | 0 <= w < 2
      ensures Goes(k, REGIONS, w, s.items[w], s.mem, 1) && StoresNothing(k, w, s.items[w], s.mem, 1)
      ensures Alone(k, w, s.items[w], s.mem, 1) == (Local(3, 0, s.items[w].env), s.mem)
    {
      ExitPasses(w, s.items[w].env, s.mem);
      assert s.items[w] == Local(2, 1, s.items[w].env);
    }
    StretchLoop(k, s.items, s.mem, 1, Times(1, 2), 2);
  }

  lemma ExitPasses(w: nat, env: map<Name, int>, m: Memory)
    requires Holding(env, 0)
    ensures var k, l := Counting(), Local(2, 1, env);
            && Goes(k, REGIONS, w, l, m, 1) && StoresNothing(k, w, l, m, 1)
               && Alone(k, w, l, m, 1) == (Local(3, 0, env), m)
  {
    hide Counting;
    var k, l := Counting(), Local(2, 1, env);
    Table(2);
    InRegions(2);
    InRegions(3);
    EnterPlain(2, 3, env);
    assert Alone(k, w, l, m, 0) == (l, m);
    assert Alone(k, w, l, m, 1) == (Local(3, 0, env), m);
  }

  /** The items come to all barriers together, and 2 is in both cells at the end. */
  lemma IsUniformRun()
    ensures UniformRun(Counting(), REGIONS, 2, map[], STOPS, INTERVALS)
    ensures var r := PrivateRun(Counting(), REGIONS, Release(Launched(Counting(), 2, map[])), STOPS, INTERVALS);
            Peek(r.mem, Global(0)) == 2 && Peek(r.mem, Global(1)) == 2
  {
    hide Counting, IntervalMet, Privately, InRegion, BarrierBlock, Release, Peek, AtEnd;
    var k, bs, js := Counting(), STOPS, INTERVALS;
    Table(0);
    InRegions(0);
    InRegions(3);
    var s := Release(Launched(k, 2, map[]));
    Starts();
    RoundMet(s, 0, 0);
    var s1 := Release(Privately(k, REGIONS, s, 0, js[0]));
    RoundMet(s1, 2, 1);
    var s2 := Release(Privately(k, REGIONS, s1, 2, js[1]));
    ExitMet(s2);
    var s3 := Release(Privately(k, REGIONS, s2, 2, js[2]));
    assert bs[1..] == [2, 2, 3] && bs[1..][1..] == [2, 3] && bs[1..][1..][1..] == [3];
    assert js[1..] == [Around(0, [6, 6]), Along(1)] && js[1..][1..] == [Along(1)] && js[1..][1..][1..] == [];
    assert LoopedMet(k, REGIONS, s3, [3], []) && PrivateRun(k, REGIONS, s3, [3], []) == s3;
    assert LoopedMet(k, REGIONS, s2, [2, 3], [Along(1)]) && PrivateRun(k, REGIONS, s2, [2, 3], [Along(1)]) == s3;
    assert LoopedMet(k, REGIONS, s1, bs[1..], js[1..]) && PrivateRun(k, REGIONS, s1, bs[1..], js[1..]) == s3;
    assert LoopedMet(k, REGIONS, s, bs, js) && PrivateRun(k, REGIONS, s, bs, js) == s3;
    StartBarrier();
  }

  lemma Starts()
    ensures TwoAt(Release(Launched(Counting(), 2, map[])), 0, 1, 0)
  {
    hide Counting;
    Table(0);
  }

  lemma StartBarrier()
    ensures BarrierBlock(Counting(), 0)
  {
    hide Counting;
    Table(0);
  }

  // ------------------------------------------------------------------------------ no races

  /** In the region, once the item has asked for its id. */
  ghost predicate KnowsItself(w: nat, l: Local) {
    l.at == 1 && l.pc > 0 ==> Value(l.env, Reg(1)) == w
  }

  lemma InstOwn(w: nat, pc: nat, env: map<Name, int>, m: Memory)
    requires pc < 5 && KnowsItself(w, Local(1, pc, env))
    ensures KnowsItself(w, Local(1, pc + 1, Exec(Counting(), w, BODY[pc], env, m).0))
  {
    hide Counting;
    Ids(w, 0);
  }

  /** An item touches its own cell only. */
  lemma StepOwn(w: nat, l: Local, m: Memory)
    requires KnowsItself(w, l)
    ensures KnowsItself(w, Step(Counting(), w, l, m).0)
    ensures ReadsAt(Counting(), w, l) <= {Global(w)} && WritesAt(Counting(), w, l) <= {Global(w)}
  {
    hide Counting, Exec, Enter;
    Table(l.at);
    if l.at == 1 && l.pc < 5 {
      BodyStep(w, l.env, m, l.pc);
      InstOwn(w, l.pc, l.env, m);
    }
    EnterIs(Counting(), l.at, 1, l.env);
    EnterIs(Counting(), l.at, 2, l.env);
    EnterIs(Counting(), l.at, 3, l.env);
  }

  ghost predicate AllKnow(s: State) {
    forall w :: 0 <= w < |s.items| ==> KnowsItself(w, s.items[w])
  }

  lemma {:induction false} RunOwn(s: State, sched: seq<nat>)
    requires AllKnow(s)
    ensures AllKnow(Run(Counting(), s, sched))
    ensures forall w :: 0 <= w < |s.items| ==>
              Reads(Counting(), s, sched, w) <= {Global(w)} && Writes(Counting(), s, sched, w) <= {Global(w)}
    decreases |sched|
  {
    hide Counting, KnowsItself, Step, ReadsAt, WritesAt;
    if sched != [] {
      var before, w := sched[..|sched| - 1], sched[|sched| - 1];
      RunOwn(s, before);
      var r := Run(Counting(), s, before);
      if w < |s.items| {
        StepOwn(w, r.items[w], r.mem);
      }
    }
  }

  lemma OwnIsRaceFree(s: State, sched: seq<nat>)
    requires AllKnow(s)
    ensures RaceFree(Counting(), s, sched)
  {
    hide Counting, AllKnow;
    RunOwn(s, sched);
  }

  lemma ReleaseKnows(s: State)
    requires AtBarrier(Counting(), s)
    ensures AllKnow(Release(s))
  {
    hide Counting;
    forall w | 0 <= w < |s.items|
      ensures KnowsItself(w, Release(s).items[w])
    {
      Table(s.items[w].at);
    }
  }

  lemma {:induction false} NeverRaces(s: State, rounds: seq<seq<nat>>)
    requires AllKnow(s) && Allowed(Counting(), s, rounds)
    ensures RaceFreeThroughout(Counting(), s, rounds)
    decreases |rounds|
  {
    hide Counting, AllKnow, RaceFree, Run, Respects, AtBarrier, Release;
    var k := Counting();
    var r := Run(k, s, rounds[0]);
    OwnIsRaceFree(s, rounds[0]);
    if |rounds| > 1 {
      ReleaseKnows(r);
      NeverRaces(Release(r), rounds[1..]);
      forall i | 0 <= i < |rounds|
        ensures RaceFree(k, StateAt(k, s, rounds, i), rounds[i])
      {
        if i > 0 {
          assert rounds[1..][i - 1] == rounds[i];
        }
      }
    }
  }

  lemma LaunchedKnow()
    ensures AllKnow(Launched(Counting(), 2, map[]))
  {
    hide Counting;
    Table(0);
  }

  lemma IsCoarsenable()
    ensures Coarsenable(Counting(), REGIONS, 2, map[], STOPS, INTERVALS)
  {
    hide Counting, Ssa, RegionsOk, UniformCode, UniformRun, AllKnow, Allowed, RaceFreeThroughout, SingleEntry;
    hide PrivateRun, Peek;
    IsSsa();
    Shape();
    IsUniformRun();
    LaunchedKnow();
    forall rounds | Allowed(Counting(), Launched(Counting(), 2, map[]), rounds)
      ensures RaceFreeThroughout(Counting(), Launched(Counting(), 2, map[]), rounds)
    {
      NeverRaces(Launched(Counting(), 2, map[]), rounds);
    }
  }

  /** Some execution ends, and whichever does leaves 2 in both cells. */
  lemma AllLeaveTwo() returns (some: seq<seq<nat>>)
    ensures var k := Counting(); var s := Launched(k, 2, map[]);
            && Allowed(k, s, some) && Ended(k, After(k, s, some))
            && forall other :: Allowed(k, s, other) && Ended(k, After(k, s, other)) ==>
                 Peek(After(k, s, other).mem, Global(0)) == 2 && Peek(After(k, s, other).mem, Global(1)) == 2
  {
    hide Counting, Coarsenable, LoopedMet, NoRaces, Ssa, RegionsOk, UniformCode, Allowed, After, Ended, PrivateRun;
    hide Launched, Release;
    hide LoopedOk, GroupInvs, Coarsened, AllSame, Peek, Respects, Run, AtBarrier, RaceFree, BarrierBlock, InRegion;
    hide Standing, GlobalOnly;
    var k := Counting();
    var s0 := Launched(k, 2, map[]);
    var s := Release(s0);
    IsCoarsenable();
    CoarsenableFacts(k, REGIONS, 2, map[], STOPS, INTERVALS);
    LaunchedWaits(k, 2, map[]);
    NothingInRegisters(k, k, REGIONS, 2, map[]);
    NoRaceIn(k, s0, []);
    NoRacesAfter(k, s0, []);
    MetIsOk(k, REGIONS, s, STOPS, INTERVALS);
    EmptyIsFlat();
    NothingEdited(k, s);
    var rounds := LoopsAreCoarsened(k, [], REGIONS, s, STOPS, INTERVALS);
    CoarsenedFirst(k, s0, [], rounds);
    CoarsenedIsNotEmpty(k, s, rounds);
    AfterFirst(k, s0, [], rounds);
    some := [[]] + rounds;
    CoarsenedIsAllowed(k, s0, some);
    IsUniformRun();
    forall other | Allowed(k, s0, other) && Ended(k, After(k, s0, other))
      ensures Peek(After(k, s0, other).mem, Global(0)) == 2 && Peek(After(k, s0, other).mem, Global(1)) == 2
    {
      LoopsRefineInterleavings(k, s0, some, other);
    }
  }

  lemma NothingEdited(k: Kernel, s: State)
    ensures AllOk(k, []) && Result(k, []) == k && GroupInvs(k, [], s) && BeforeState(k, [], s) == s
    ensures forall r: State :: BeforeState(k, [], r) == r
  {
    forall r: State
      ensures BeforeState(k, [], r) == r
    {
      assert BeforeState(k, [], r).items == r.items;
    }
  }

  /** No value has to be buffered. */
  lemma NothingToBuffer()
    ensures Logged(Counting(), [], Counting(), 5, REGIONS) && forall x :: !Cross(Counting(), REGIONS, x)
  {
    hide Counting, Code, Phis, Defines, UsedBy, ReadIn, DefIn;
    var k := Counting();
    Shape();
    forall x, b, i, c, j |
      0 <= i < |Code(k, b)| && 0 <= j < |Code(k, c)| && Defines(Code(k, b)[i], x) && Defines(Code(k, c)[j], x)
      ensures b == c && i == j
    {
      Table(b);
      Table(c);
      BarrierUses(x);
      BodyUses(x, i);
      BodyUses(x, j);
    }
    forall b: Block
      ensures Phis(k, b) == []
    {
      Table(b);
    }
    forall r: Name | r >= 5
      ensures Unmentioned(k, r)
    {
      NotMentioned(r);
    }
    forall b: Block, d: Block | InRegion(REGIONS, b) && InRegion(REGIONS, d)
      ensures SameRegion(REGIONS, b, d)
    {
      InRegions(b);
      InRegions(d);
    }
  }

  lemma NotMentioned(r: Name)
    requires r >= 5
    ensures Unmentioned(Counting(), r)
  {
    hide Counting, Code, Phis, Defines, UsedBy, Terminator;
    var k := Counting();
    forall b: Block
      ensures !UsedByTerm(r, Terminator(k, b)) && Phis(k, b) == []
      ensures forall i :: 0 <= i < |Code(k, b)| ==> !Defines(Code(k, b)[i], r) && !UsedBy(r, Code(k, b)[i])
    {
      Table(b);
      BarrierUses(r);
      forall i | 0 <= i < |Code(k, b)|
        ensures !Defines(Code(k, b)[i], r) && !UsedBy(r, Code(k, b)[i])
      {
        if b == 1 {
          BodyUses(r, i);
        }
      }
    }
  }

  lemma IsCounted()
    ensures Counts(Counting(), SIZES, 2, OPS)
  {
    hide Counting;
    Table(0);
    forall w: nat, d: nat | w < 2 && d <= 2
      ensures Counting().ids(w, d) == LoopNest.Get(LocalIdAt(SIZES, w), d)
    {
      Ids(w, d);
    }
  }

  // -------------------------------------------------------------------- what the built code does

  /** What the loop builder makes of the kernel. */
  ghost predicate Built(n: LoopNest.Nest, h: Kernel) {
    && LoopNest.NestOf(Cfg(Counting()), n) && n.r == INCREMENT && n.sizes == SIZES
    && NestCode.HasNest(Counting(), h, n, OPS, 5)
  }

  function MachineOf(n: LoopNest.Nest, h: Kernel): Machine {
    Machine(h, [], [NestCode.Placed(n, 5)], 2)
  }

  lemma BuiltLoops(n: LoopNest.Nest, h: Kernel)
    requires Built(n, h)
    ensures HasLoops(MachineOf(n, h), NestCode.Placed(n, 5), OPS) && n.after == 2
  {
    hide Counting, LoopNest.NestOf, NestCode.HasNest, LoopNest.LoopBlocks, LoopNest.Connected, NestCode.IsLoopBlock;
    hide NestCode.Calculates;
    IsCounted();
    Graph();
    NestCode.NestFacts(Cfg(Counting()), n);
    NestCode.SameStart(Counting(), h, n, OPS, 5);
    SameArithmetic(Counting(), h, OPS);
    forall x | x in LoopNest.LoopBlocks(n)
      ensures LoopBlockIn(MachineOf(n, h), NestCode.Placed(n, 5), OPS, x)
    {
      NestCode.HasNestAt(Counting(), h, n, OPS, 5, x);
    }
  }

  lemma BuiltBlock(n: LoopNest.Nest, h: Kernel, b: Block)
    requires Built(n, h) && b <= 3
    ensures Code(h, b) == (if b == 1 then NestCode.WithIvs(OPS, 5, BODY) else [Barrier]) && Phis(h, b) == []
    ensures Terminator(h, b) == NestCode.NestTerm(n, b, TermOf(b))
  {
    hide Counting, LoopNest.NestOf, NestCode.HasNest, LoopNest.LoopBlocks, LoopNest.Connected, NestCode.PhiMoved, Code;
    hide Phis, Terminator;
    hide NestCode.NestTerm, Cfg, LoopNest.RegionOk, Valid, NestCode.WithIv;
    Graph();
    NestCode.NestFacts(Cfg(Counting()), n);
    assert b in Cfg(Counting()).succ;
    NestCode.HasNestAt(Counting(), h, n, OPS, 5, b);
    Table(b);
  }

  /** The old blocks: the first is redirected, and the barrier behind the region is not. */
  lemma BuiltBlocks(n: LoopNest.Nest, h: Kernel)
    requires Built(n, h)
    ensures Code(h, 0) == [Barrier] && Terminator(h, 0) == Goto(n.l2.preheader)
    ensures Code(h, 1) == NestCode.WithIvs(OPS, 5, BODY) && Terminator(h, 1) == Goto(n.l0.latch) && Phis(h, 1) == []
    ensures Code(h, 2) == [Barrier] && Terminator(h, 2) == Branch(Reg(4), 1, 3) && Phis(h, 2) == []
    ensures Code(h, 3) == [Barrier] && Terminator(h, 3) == Return && Phis(h, 3) == []
    ensures h.entry == 0 && h.alu == Words()
  {
    hide Counting, LoopNest.LoopBlocks, NestCode.TurnedToTop, NestCode.HasNest, LoopNest.NestOf, Code, Phis, Terminator;
    BuiltBlock(n, h, 0);
    BuiltBlock(n, h, 1);
    BuiltBlock(n, h, 2);
    BuiltBlock(n, h, 3);
    Table(0);
    NestCode.SameStart(Counting(), h, n, OPS, 5);
    Turned(n, h);
    AfterIs(n, h);
  }

  lemma AfterIs(n: LoopNest.Nest, h: Kernel)
    requires Built(n, h)
    ensures n.after == 2
  {
    hide Counting, LoopNest.LoopBlocks, NestCode.HasNest, LoopNest.NestOf, LoopNest.Connected, LoopNest.RegionOk, Valid;
    Graph();
    NestCode.NestFacts(Cfg(Counting()), n);
  }

  lemma Turned(n: LoopNest.Nest, h: Kernel)
    requires Built(n, h)
    ensures NestCode.TurnedToTop(n, 0) && !NestCode.TurnedToTop(n, 2)
  {
    hide Counting, NestCode.HasNest, LoopNest.LoopBlocks, LoopNest.Connected, Dominates, LoopNest.RegionOk, Valid;
    var g := Cfg(Counting());
    Graph();
    NestCode.NestFacts(g, n);
    OnTheWay(2);
    NotBefore();
    assert n.g.succ[0] == LoopNest.Redirection(g, 1, n.l2.preheader, 0, g.succ[0]);
    assert n.g.succ[0][0] == n.l2.preheader;
    assert n.g.succ[2] == LoopNest.Redirection(g, 1, n.l2.preheader, 2, g.succ[2]);
  }

  lemma NotBefore()
    ensures !Dominates(Cfg(Counting()), 1, 0)
  {
    hide Counting;
    Graph();
    if Dominates(Cfg(Counting()), 1, 0) {
      OnlyEntryDominatesEntry(Cfg(Counting()), 1);
    }
  }

  lemma WaitComes(x: Machine, b: Block, env: map<Name, int>, m: Memory)
    requires x.pr == [] && Code(x.k, b) == [Barrier]
    ensures Comes(x, Local(b, 0, env), m, Local(b, 1, env), m)
  {
    hide ItemOf, NestAfter;
    forall f: Block
      ensures Arrives(x, Thread(Local(b, 0, env), 0, f), m, Local(b, 1, env), m)
    {
      OneStepOn(x, Thread(Local(b, 0, env), 0, f), m);
    }
  }

  lemma GotoComes(x: Machine, b: Block, pc: nat, to: Block, env: map<Name, int>, m: Memory)
    requires x.pr == [] && pc == |Code(x.k, b)| && Terminator(x.k, b) == Goto(to) && Phis(x.k, to) == []
    ensures Comes(x, Local(b, pc, env), m, Local(to, 0, env), m)
  {
    hide ItemOf, Comes;
    StepComes(x, Local(b, pc, env), m);
  }

  /** An instruction of the region in the built code does what item w would do. */
  lemma BuiltExec(h: Kernel, id: nat, w: nat, v: nat, env: map<Name, int>, m: Memory, i: nat)
    requires h.alu == Words() && i < 5 && Peek(m, Global(w)) == v < 2 && w < 2 && Value(env, Reg(5)) == w
    ensures Exec(h, id, NestCode.WithIv(OPS, 5, BODY[i]), Regs(w, v, env, i), Mem(w, v, m, i))
         == (Regs(w, v, env, i + 1), Mem(w, v, m, i + 1))
  {
    hide Peek;
    assert Values(env, [Reg(5), Imm(0)]) == [w, 0];
    assert Values(Regs(w, v, env, 2), [Reg(2), Imm(1)]) == [v, 1];
    assert Values(Regs(w, v, env, 4), [Reg(3), Imm(2)]) == [v + 1, 2];
  }

  lemma InstComes(x: Machine, b: Block, pc: nat, env: map<Name, int>, m: Memory)
    requires x.pr == [] && pc < |Code(x.k, b)| && !Code(x.k, b)[pc].Barrier?
    ensures var (env', m') := Exec(x.k, ItemOf(x.ps, Local(b, pc, env)), Code(x.k, b)[pc], env, m);
            Comes(x, Local(b, pc, env), m, Local(b, pc + 1, env'), m')
  {
    hide ItemOf, Comes, Exec;
    StepComes(x, Local(b, pc, env), m);
  }

  lemma {:induction false} BuiltBody(n: LoopNest.Nest, h: Kernel, w: nat, v: nat, env: map<Name, int>, m: Memory,
                                     i: nat)
    requires Built(n, h) && i <= 5 && Peek(m, Global(w)) == v < 2 && w < 2 && Value(env, Reg(5)) == w
    ensures Comes(MachineOf(n, h), Local(1, 0, env), m, Local(1, i, Regs(w, v, env, i)), Mem(w, v, m, i))
    decreases i
  {
    hide Counting, Built, Comes, ItemOf, Exec, Peek, Regs, Mem, NestCode.WithIv;
    var x := MachineOf(n, h);
    if i == 0 {
      StaysThere(x, Local(1, 0, env), m);
      RegsAtFirst(w, v, env, m);
    } else {
      BuiltBody(n, h, w, v, env, m, i - 1);
      BuiltBlocks(n, h);
      var e1, m1 := Regs(w, v, env, i - 1), Mem(w, v, m, i - 1);
      NoBarrierIn(i - 1);
      InstComes(x, 1, i - 1, e1, m1);
      BuiltExec(h, ItemOf(x.ps, Local(1, i - 1, e1)), w, v, env, m, i - 1);
      ComesOn(x, Local(1, 0, env), m, Local(1, i - 1, e1), m1, Local(1, i, Regs(w, v, env, i)), Mem(w, v, m, i));
    }
  }

  lemma NoBarrierIn(i: nat)
    requires i < 5
    ensures !NestCode.WithIv(OPS, 5, BODY[i]).Barrier? && |BODY| == 5
  {
  }

  lemma RegsAtFirst(w: nat, v: nat, env: map<Name, int>, m: Memory)
    ensures Regs(w, v, env, 0) == env && Mem(w, v, m, 0) == m
  {
  }

  /** Through the region and to the innermost latch. */
  lemma BuiltVisit(n: LoopNest.Nest, h: Kernel, w: nat, v: nat, env: map<Name, int>, m: Memory)
    requires Built(n, h) && Peek(m, Global(w)) == v < 2 && w < 2 && IvsAre(env, 5, LocalIdAt(SIZES, w))
    ensures var env' := Regs(w, v, env, 5);
            && Comes(MachineOf(n, h), Local(1, 0, env), m, Local(n.l0.latch, 0, env'), m[Global(w) := v + 1])
            && IvsAre(env', 5, LocalIdAt(SIZES, w)) && Value(env', Reg(4)) == if v + 1 < 2 then 1 else 0
  {
    hide Counting, Built, Comes, Peek, HasLoops;
    IvIs(env, 5, LocalIdAt(SIZES, w), 0);
    BuiltBody(n, h, w, v, env, m, 5);
    BuiltBlocks(n, h);
    BuiltLoops(n, h);
    LoopLeads(MachineOf(n, h), NestCode.Placed(n, 5), OPS, 0);
    NoBarrierIn(0);
    GotoComes(MachineOf(n, h), 1, 5, n.l0.latch, Regs(w, v, env, 5), m[Global(w) := v + 1]);
    ComesOn(MachineOf(n, h), Local(1, 0, env), m, Local(1, 5, Regs(w, v, env, 5)), m[Global(w) := v + 1],
            Local(n.l0.latch, 0, Regs(w, v, env, 5)), m[Global(w) := v + 1]);
  }

  /** From the innermost header, for item w whose cell holds v, to the latch and on. */
  lemma BuiltTurn(n: LoopNest.Nest, h: Kernel, w: nat, v: nat, b: Block, env: map<Name, int>, m: Memory)
    returns (env': map<Name, int>)
    requires Built(n, h) && Peek(m, Global(w)) == v < 2 && w < 2 && IvsAre(env, 5, LocalIdAt(SIZES, w))
    requires b == n.l0.header || b == 1
    ensures IvsAre(env', 5, LocalIdAt(SIZES, 1)) && Value(env', Reg(4)) == if v + 1 < 2 then 1 else 0
    ensures Comes(MachineOf(n, h), Local(b, 0, env), m, Local(if w == 0 then n.l0.header else 2, 0, env'),
            m[Global(w) := v + 1])
  {
    hide Counting, Built, Comes, Peek, HasLoops, LocalIdAt, IvsAre, Regs;
    var x, p, m' := MachineOf(n, h), NestCode.Placed(n, 5), m[Global(w) := v + 1];
    BuiltBlocks(n, h);
    BuiltLoops(n, h);
    LoopLeads(x, p, OPS, 0);
    LoopLeads(x, p, OPS, 2);
    StaysThere(x, Local(b, 0, env), m);
    IsIncrement(n, h);
    if b == n.l0.header {
      GoesOn(x, n.l0.header, 1, env, m);
    }
    BuiltVisit(n, h, w, v, env, m);
    var env1 := Regs(w, v, env, 5);
    ComesOn(x, Local(b, 0, env), m, Local(1, 0, env), m, Local(n.l0.latch, 0, env1), m');
    env' := ToNextItem(x, p, OPS, w, env1, m');
    var to := if w == 0 then n.l0.header else n.l2.end;
    ComesOn(x, Local(b, 0, env), m, Local(n.l0.latch, 0, env1), m', Local(to, 0, env'), m');
    assert Value(env', Reg(4)) == Value(env1, Reg(4));
    if w == 1 {
      GoesOn(x, n.l2.end, 2, env', m');
      ComesOn(x, Local(b, 0, env), m, Local(n.l2.end, 0, env'), m', Local(2, 0, env'), m');
    }
  }

  lemma IsIncrement(n: LoopNest.Nest, h: Kernel)
    requires Built(n, h)
    ensures n.r.entry == 1 && n.sizes == SIZES
  {
    hide Counting, LoopNest.NestOf, NestCode.HasNest;
  }

  /** Over the barrier behind the region and on, straight back to the region or out of the loop. */
  lemma BuiltBarrier(n: LoopNest.Nest, h: Kernel, env: map<Name, int>, m: Memory)
    requires Built(n, h)
    ensures Comes(MachineOf(n, h), Local(2, 0, env), m, Local(if Value(env, Reg(4)) != 0 then 1 else 3, 0, env), m)
  {
    hide Counting, Built, Comes;
    var x := MachineOf(n, h);
    BuiltBlocks(n, h);
    WaitComes(x, 2, env, m);
    BranchComes(x, 2, env, m, Reg(4), 1, 3);
    NoPhisEnter(h, 2, 1, env);
    NoPhisEnter(h, 2, 3, env);
    ComesOn(x, Local(2, 0, env), m, Local(2, 1, env), m, Local(if Value(env, Reg(4)) != 0 then 1 else 3, 0, env), m);
  }

  lemma BuiltStart(n: LoopNest.Nest, h: Kernel, m: Memory) returns (env: map<Name, int>)
    requires Built(n, h)
    ensures Comes(MachineOf(n, h), Local(0, 0, map[]), m, Local(n.l0.header, 0, env), m)
            && IvsAre(env, 5, LocalIdAt(SIZES, 0))
  {
    hide Counting, Built, Comes, HasLoops, LocalIdAt, IvsAre;
    var x, p := MachineOf(n, h), NestCode.Placed(n, 5);
    BuiltBlocks(n, h);
    BuiltLoops(n, h);
    LoopLeads(x, p, OPS, 2);
    IsIncrement(n, h);
    WaitComes(x, 0, map[], m);
    GotoComes(x, 0, 1, n.l2.preheader, map[], m);
    ComesOn(x, Local(0, 0, map[]), m, Local(0, 1, map[]), m, Local(n.l2.preheader, 0, map[]), m);
    env := FromTop(x, p, OPS, map[], m);
    ComesOn(x, Local(0, 0, map[]), m, Local(n.l2.preheader, 0, map[]), m, Local(n.l0.header, 0, env), m);
  }

  /** The memory that the built code leaves. */
  function Leaves12(): Memory {
    map[Global(0) := 1, Global(1) := 2]
  }

  lemma BuiltRun(n: LoopNest.Nest, h: Kernel) returns (env: map<Name, int>)
    requires Built(n, h)
    ensures Comes(MachineOf(n, h), Local(0, 0, map[]), map[], Local(3, 1, env), Leaves12())
  {
    hide Counting, Built, Comes, LocalIdAt, IvsAre;
    var x, m0: Memory := MachineOf(n, h), map[];
    var m1: Memory := m0[Global(0) := 1];
    var m2 := m1[Global(1) := 1];
    var m3 := m2[Global(1) := 2];
    assert m3 == Leaves12();
    var start := Local(0, 0, map[]);
    var e0 := BuiltStart(n, h, m0);
    var e1 := BuiltTurn(n, h, 0, 0, n.l0.header, e0, m0);
    ComesOn(x, start, m0, Local(n.l0.header, 0, e0), m0, Local(n.l0.header, 0, e1), m1);
    var e2 := BuiltTurn(n, h, 1, 0, n.l0.header, e1, m1);
    ComesOn(x, start, m0, Local(n.l0.header, 0, e1), m1, Local(2, 0, e2), m2);
    BuiltBarrier(n, h, e2, m2);
    ComesOn(x, start, m0, Local(2, 0, e2), m2, Local(1, 0, e2), m2);
    env := BuiltTurn(n, h, 1, 1, 1, e2, m2);
    ComesOn(x, start, m0, Local(1, 0, e2), m2, Local(2, 0, env), m3);
    BuiltBarrier(n, h, env, m3);
    ComesOn(x, start, m0, Local(2, 0, env), m3, Local(3, 0, env), m3);
    BuiltBlocks(n, h);
    WaitComes(x, 3, env, m3);
    ComesOn(x, start, m0, Local(3, 0, env), m3, Local(3, 1, env), m3);
  }

  /** The second round is made by one item only: the built code finishes with 1 and 2. */
  lemma BuiltLeavesOneAndTwo(n: LoopNest.Nest, h: Kernel) returns (c: nat)
    requires Built(n, h)
    ensures var code := NestCode.Erased(h);
            var (l, mem) := CodeAfter(code, [NestCode.Placed(n, 5)], Local(code.entry, 0, map[]), map[], c);
            Finished(code, l) && Peek(mem, Global(0)) == 1 && Peek(mem, Global(1)) == 2
  {
    hide Counting, Built, NestAfter, CodeAfter, NestCode.Erased, Kept, Finished;
    var x := MachineOf(n, h);
    var env := BuiltRun(n, h);
    BuiltBlocks(n, h);
    ErasedIs(h, 0);
    assert Arrives(x, Thread(Local(0, 0, map[]), 0, 0), map[], Local(3, 1, env), Leaves12());
    var d: nat :| NestAfter(x, Begin(h), map[], d).0.l == Local(3, 1, env)
      && NestAfter(x, Begin(h), map[], d).1 == Leaves12();
    c := CodeFollows(x, map[], d);
    EndsThere(h, env);
    FinishedErased(h, Local(3, 1, env), map[]);
  }

  lemma EndsThere(h: Kernel, env: map<Name, int>)
    requires Code(h, 3) == [Barrier] && Terminator(h, 3) == Return
    ensures Finished(h, Local(3, 1, env))
  {
  }

  /** The loop builder, run on this kernel: all conditions of the theorem hold but that the region
      is not headed by a loop around it, and the result does not. */
  method BuildsTheWrongCode() returns (n: LoopNest.Nest, h: Kernel, ghost some: seq<seq<nat>>, ghost c: nat)
    ensures Built(n, h) && LoopNest.DominatedOutside(Cfg(Counting()), INCREMENT)
    ensures Coarsenable(Counting(), REGIONS, 2, map[], STOPS, INTERVALS) && Counts(Counting(), SIZES, 2, OPS)
    ensures Logged(Counting(), [], Counting(), 5, REGIONS) && forall x :: !Cross(Counting(), REGIONS, x)
    ensures var k := Counting(); var s := Launched(k, 2, map[]);
            && Allowed(k, s, some) && Ended(k, After(k, s, some)) && Peek(After(k, s, some).mem, Global(0)) == 2
            && var code := NestCode.Erased(h);
               var (l, mem) := CodeAfter(code, [NestCode.Placed(n, 5)], Local(code.entry, 0, map[]), map[], c);
               Finished(code, l) && Peek(mem, Global(0)) == 1
  {
    hide Counting, LoopNest.NestOf, NestCode.HasNest, LoopNest.RegionOk, Valid, Cfg, LoopNest.EnteredAtTop;
    hide LoopNest.DominatedOutside;
    hide Coarsenable, Counts, Logged, Cross, Allowed, Ended, After, Launched, Finished, CodeAfter, NestCode.Erased;
    IsDominated();
    IsCoarsenable();
    IsCounted();
    NothingToBuffer();
    Graph();
    var inserter := new LoopNest.LoopInserter(Cfg(Counting()), 4);
    n := inserter.BuildNest(INCREMENT, SIZES);
    NestCode.NestFits(Counting(), n);
    h := NestCode.PlaceNest(Counting(), n, OPS, 5);
    some := AllLeaveTwo();
    c := BuiltLeavesOneAndTwo(n, h);
  }
}
