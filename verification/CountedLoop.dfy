/** A kernel for which the conditions of coarsening hold: a counted loop around barriers. In every
    round each item loads a cell, and behind a barrier stores what it has computed of it; the
    counter is a PHI in code that gets no loop, and two barriers follow upon each other. */
module CountedLoop {
  import opened Graphs
  import opened WorkItems
  import opened Interleaving
  import opened Contexts
  import opened ContextBuffering
  import opened ContextPass
  import opened SharedRegisters
  import opened UniformStretch
  import opened Coarsening
  import opened WorkGroups
  import opened FlatIndex
  import opened NestThread
  import opened BuiltCode
  import NestCode
  import LoopNest

  /** Addition, increment, whether another round is to follow, and what the work-item loops count
      with: addition and comparison of words. */
  function Arithmetic(rounds: nat): (nat, seq<int>) -> int {
    (op: nat, args: seq<int>) =>
      if op == 0 && |args| == 2 then args[0] + args[1]
      else if op == 1 && |args| == 1 then args[0] + 1
      else if op == 2 && |args| == 1 && args[0] < rounds then 1
      else if op == 3 && |args| == 2 then (args[0] + args[1]) % WORD
      else if op == 4 && |args| == 2 && args[0] < args[1] then 1
      else 0
  }

  const LOAD: seq<Inst> := [LocalId(2, 0), Load(3, Reg(2)), Compute(5, 0, [Reg(3), Reg(1)])]
  const STORE: seq<Inst> := [LocalId(7, 0), Store(Reg(7), Reg(5)), Compute(4, 1, [Reg(1)]), Compute(6, 2, [Reg(4)])]
  const COUNTER: Phi := Phi(1, map[0 := Imm(0), 6 := Reg(4)])

  function Summing(rounds: nat): Kernel {
    Kernel(0, map[1 := [COUNTER]],
           map[0 := [Barrier], 2 := [Barrier], 3 := LOAD, 4 := [Barrier], 5 := STORE, 6 := [Barrier], 7 := [Barrier]],
           map[0 := Goto(1), 1 := Goto(2), 2 := Goto(3), 3 := Goto(4), 4 := Goto(5), 5 := Goto(6),
             6 := Branch(Reg(6), 1, 7)],
           Arithmetic(rounds), (w: nat, d: nat) => if d == 0 then w else 0)
  }

  const LOADING := ParallelRegion(3, 3, {3})
  const STORING := ParallelRegion(5, 5, {5})
  const REGIONS: seq<ParallelRegion> := [LOADING, STORING]

  // ----------------------------------------------------------------------------- its shape

  function CodeOf(b: Block): seq<Inst> {
    if b == 3 then LOAD else if b == 5 then STORE else if b == 1 || b > 7 then [] else [Barrier]
  }

  function TermOf(b: Block): Term {
    if b < 6 then Goto(b + 1) else if b == 6 then Branch(Reg(6), 1, 7) else Return
  }

  lemma Table(rounds: nat, b: Block)
    ensures var k := Summing(rounds);
            && Code(k, b) == CodeOf(b) && Terminator(k, b) == TermOf(b)
               && Phis(k, b) == (if b == 1 then [COUNTER] else [])
            && k.entry == 0 && k.alu == Arithmetic(rounds) && (b in Blocks(k) <==> b <= 7)
  {
  }

  lemma InRegions(b: Block)
    ensures InRegion(REGIONS, b) <==> b == 3 || b == 5
    ensures forall c :: SameRegion(REGIONS, b, c) <==> b == c && (b == 3 || b == 5)
  {
    assert REGIONS[0] == LOADING && REGIONS[1] == STORING;
  }

  lemma Arc(rounds: nat, u: Block, v: Block)
    ensures (u, v) in Edges(Cfg(Summing(rounds))) <==> (u < 6 && v == u + 1) || (u == 6 && (v == 1 || v == 7))
  {
    hide Summing;
    Table(rounds, u);
    assert v in Successors(TermOf(u)) <==> (u < 6 && v == u + 1) || (u == 6 && (v == 1 || v == 7));
  }

  lemma ReadsOf(rounds: nat, x: Name, b: Block)
    ensures ReadIn(Summing(rounds), x, b) <==>
              || (b == 1 && x == 4) || (b == 3 && x in {1, 2, 3}) || (b == 5 && x in {1, 4, 5, 7}) || (b == 6 && x == 6)
  {
    hide Summing, Code, Phis, Terminator, UsedBy, UsedByPhi, UsedByTerm;
    Table(rounds, b);
    LoadUses(x);
    StoreUses(x);
    NothingUsed(x);
    CounterUses(x);
    TermUses(b, x);
    assert [Barrier][0] == Barrier && [COUNTER][0] == COUNTER;
  }

  lemma CounterUses(x: Name)
    ensures UsedByPhi(x, COUNTER) <==> x == 4
  {
    assert COUNTER.incoming[6] == Reg(4);
  }

  lemma TermUses(b: Block, x: Name)
    ensures UsedByTerm(x, TermOf(b)) <==> b == 6 && x == 6
  {
  }

  lemma Definitions(rounds: nat, x: Name, b: Block)
    ensures DefIn(Summing(rounds), x, b) <==> (b == 3 && x in {2, 3, 5}) || (b == 5 && x in {4, 6, 7})
    ensures PhiDefines(Summing(rounds), x, b) <==> b == 1 && x == 1
  {
    hide Summing, Code, Phis, Terminator, Defines;
    Table(rounds, b);
    LoadUses(x);
    StoreUses(x);
    NothingUsed(x);
    assert [COUNTER][0].dst == 1;
  }

  lemma NothingUsed(x: Name)
    ensures !UsedBy(x, Barrier) && !Defines(Barrier, x)
  {
  }

  lemma LoadUses(x: Name)
    ensures (exists i :: 0 <= i < |LOAD| && UsedBy(x, LOAD[i])) <==> x in {1, 2, 3}
    ensures (exists i :: 0 <= i < |LOAD| && Defines(LOAD[i], x)) <==> x in {2, 3, 5}
  {
    assert LOAD[0] == LocalId(2, 0) && LOAD[1] == Load(3, Reg(2)) && LOAD[2] == Compute(5, 0, [Reg(3), Reg(1)]);
    assert Operands(LOAD[1]) == [Reg(2)] && Operands(LOAD[2]) == [Reg(3), Reg(1)];
    assert UsedBy(2, LOAD[1]) && UsedBy(3, LOAD[2]) && UsedBy(1, LOAD[2]);
    assert Defines(LOAD[0], 2) && Defines(LOAD[1], 3) && Defines(LOAD[2], 5);
  }

  lemma StoreUses(x: Name)
    ensures (exists i :: 0 <= i < |STORE| && UsedBy(x, STORE[i])) <==> x in {1, 4, 5, 7}
    ensures (exists i :: 0 <= i < |STORE| && Defines(STORE[i], x)) <==> x in {4, 6, 7}
  {
    assert STORE[0] == LocalId(7, 0) && STORE[1] == Store(Reg(7), Reg(5));
    assert STORE[2] == Compute(4, 1, [Reg(1)]) && STORE[3] == Compute(6, 2, [Reg(4)]);
    assert Operands(STORE[1]) == [Reg(7), Reg(5)] && Operands(STORE[2]) == [Reg(1)] && Operands(STORE[3]) == [Reg(4)];
    assert UsedBy(7, STORE[1]) && UsedBy(5, STORE[1]) && UsedBy(1, STORE[2]) && UsedBy(4, STORE[3]);
    assert Defines(STORE[0], 7) && Defines(STORE[2], 4) && Defines(STORE[3], 6);
  }

  /** Every walk to a later block passes block d, for d up to 7. */
  lemma InSequence(rounds: nat, d: Block, b: Block)
    requires 0 < d <= b <= 7
    ensures Dominates(Cfg(Summing(rounds)), d, b)
  {
    hide Summing, Edges, Walk;
    var g := Cfg(Summing(rounds));
    Table(rounds, 0);
    var all: set<Block> := {0, 1, 2, 3, 4, 5, 6, 7};
    var s := set x | x in all && x < d;
    forall u, v | u in s && (u, v) in Edges(g) && v != d
      ensures v in s
    {
      Arc(rounds, u, v);
    }
    forall p | WalkFromTo(Edges(g), p, g.entry, b)
      ensures d in p
    {
      NonEmpty(Edges(g), p);
      if d !in p {
        ClosedAround(g, d, s, p);
      }
    }
  }

  lemma FromAbove(rounds: nat, x: Name, d: Block, b: Block, i: nat)
    requires 0 < d < b <= 7 && DefBlock(Summing(rounds), x, d)
    ensures DefinedBefore(Summing(rounds), x, b, i)
  {
    hide Summing, DefBlock, PhiDefines, Dominates;
    InSequence(rounds, d, b);
  }

  lemma ReadsAbove(x: Name, i: nat)
    ensures i < |LOAD| && UsedBy(x, LOAD[i]) ==> x == 1 || (x in {2, 3} && DefinedAbove(LOAD, x, i))
    ensures i < |STORE| && UsedBy(x, STORE[i]) ==> x == 1 || x == 5 || (x in {4, 7} && DefinedAbove(STORE, x, i))
  {
    assert LOAD[0] == LocalId(2, 0) && LOAD[1] == Load(3, Reg(2)) && LOAD[2] == Compute(5, 0, [Reg(3), Reg(1)]);
    assert Operands(LOAD[1]) == [Reg(2)] && Operands(LOAD[2]) == [Reg(3), Reg(1)];
    assert Defines(LOAD[0], 2) && Defines(LOAD[1], 3);
    assert STORE[0] == LocalId(7, 0) && STORE[1] == Store(Reg(7), Reg(5));
    assert STORE[2] == Compute(4, 1, [Reg(1)]) && STORE[3] == Compute(6, 2, [Reg(4)]);
    assert Operands(STORE[1]) == [Reg(7), Reg(5)] && Operands(STORE[2]) == [Reg(1)] && Operands(STORE[3]) == [Reg(4)];
    assert Defines(STORE[0], 7) && Defines(STORE[2], 4);
  }

  lemma IsSsa(rounds: nat)
    ensures Ssa(Summing(rounds))
  {
    hide Summing, UsedBy, DefinedBefore, DefinedAbove, DefIn, PhiDefines, Terminator, Code, Phis;
    var k := Summing(rounds);
    forall x, b, c | DefBlock(k, x, b) && DefBlock(k, x, c)
      ensures b == c
    {
      Definitions(rounds, x, b);
      Definitions(rounds, x, c);
    }
    forall b, i, x | 0 <= i < |Code(k, b)| && UsedBy(x, Code(k, b)[i])
      ensures DefinedBefore(k, x, b, i)
    {
      InstDefined(rounds, x, b, i);
    }
    forall b, x | UsedByTerm(x, Terminator(k, b))
      ensures DefinedBefore(k, x, b, |Code(k, b)|)
    {
      Table(rounds, b);
      Definitions(rounds, x, 5);
      FromAbove(rounds, x, 5, b, |Code(k, b)|);
    }
    forall b, q, f, x | PhiReads(k, x, b, q, f)
      ensures DefinedBefore(k, x, f, |Code(k, f)|)
    {
      Table(rounds, b);
      Definitions(rounds, x, 5);
      FromAbove(rounds, x, 5, f, |Code(k, f)|);
    }
  }

  lemma InstDefined(rounds: nat, x: Name, b: Block, i: nat)
    requires i < |Code(Summing(rounds), b)| && UsedBy(x, Code(Summing(rounds), b)[i])
    ensures DefinedBefore(Summing(rounds), x, b, i)
  {
    hide Summing, UsedBy, DefinedBefore, DefinedAbove, DefIn, PhiDefines;
    Table(rounds, b);
    ReadsAbove(x, i);
    NothingUsed(x);
    Definitions(rounds, 1, 1);
    Definitions(rounds, 5, 3);
    if x == 1 {
      FromAbove(rounds, 1, 1, b, i);
    } else if x == 5 {
      FromAbove(rounds, 5, 3, b, i);
    } else {
      Above(rounds, x, b, i);
    }
  }

  lemma Above(rounds: nat, x: Name, b: Block, i: nat)
    requires DefinedAbove(Code(Summing(rounds), b), x, i)
    ensures DefinedBefore(Summing(rounds), x, b, i)
  {
    hide Summing;
  }

  lemma Shape(rounds: nat)
    ensures var k := Summing(rounds);
            RegionsOk(k, REGIONS) && UniformCode(k, REGIONS) && OneDefinition(k) && Below(k, 8)
              && SlotsApart(k, REGIONS)
  {
    hide Summing, UsedBy, DefIn, ReadIn, Defines, Unmentioned, Code, Phis;
    var k := Summing(rounds);
    assert Disjoint(REGIONS) by {
      assert REGIONS[0] == LOADING && REGIONS[1] == STORING;
    }
    forall x, b, q, f | InRegion(REGIONS, b)
      ensures !PhiReads(k, x, b, q, f)
    {
      InRegions(b);
      Table(rounds, b);
    }
    forall b, i | !InRegion(REGIONS, b) && 0 <= i < |Code(k, b)|
      ensures ForAllItems(Code(k, b)[i])
    {
      InRegions(b);
      Table(rounds, b);
    }
    forall x, b, i | 0 <= i < |Code(k, b)|
      ensures !UsesSlot(x, Code(k, b)[i])
    {
      Table(rounds, b);
    }
    DefinedOnlyOnce(rounds);
    forall r: Name | r >= 8
      ensures Unmentioned(k, r)
    {
      NotMentioned(rounds, r);
    }
  }

  lemma DefinedOnlyOnce(rounds: nat)
    ensures OneDefinition(Summing(rounds))
  {
    hide Summing, Code, Phis;
    var k := Summing(rounds);
    forall x, b, i, c, j |
      0 <= i < |Code(k, b)| && 0 <= j < |Code(k, c)| && Defines(Code(k, b)[i], x) && Defines(Code(k, c)[j], x)
      ensures b == c && i == j
    {
      Table(rounds, b);
      Table(rounds, c);
    }
    forall x, b, i, c, q | 0 <= i < |Code(k, b)| && Defines(Code(k, b)[i], x) && 0 <= q < |Phis(k, c)|
      ensures Phis(k, c)[q].dst != x
    {
      Table(rounds, b);
      Table(rounds, c);
    }
  }

  lemma NotMentioned(rounds: nat, r: Name)
    requires r >= 8
    ensures Unmentioned(Summing(rounds), r)
  {
    hide Summing, ReadIn, DefIn, Code, Phis, Terminator, UsedBy, Defines;
    forall b
      ensures !ReadIn(Summing(rounds), r, b) && !DefIn(Summing(rounds), r, b)
    {
      ReadsOf(rounds, r, b);
      Definitions(rounds, r, b);
    }
    forall b, q | 0 <= q < |Phis(Summing(rounds), b)|
      ensures Phis(Summing(rounds), b)[q].dst != r
    {
      Table(rounds, b);
    }
    UnmentionedIntro(Summing(rounds), r);
  }

  lemma Entries(rounds: nat, i: nat)
    requires i < 2
    ensures SingleEntry(Summing(rounds), REGIONS[i])
  {
    hide Summing, Reach, Edges, Cfg, Walk;
    var k, r := Summing(rounds), REGIONS[i];
    assert r.entry == 2 * i + 3 && r.blocks == {2 * i + 3};
    Table(rounds, r.entry);
    CfgEntry(k);
    forall u: Block, v: Block
      ensures (u, v) in Edges(Cfg(k)) <==> (u < 6 && v == u + 1) || (u == 6 && (v == 1 || v == 7))
    {
      Arc(rounds, u, v);
    }
    ReachSelf(Edges(Cfg(k)), 0);
    ReachStep(Edges(Cfg(k)), 0, 0, 1);
    ReachStep(Edges(Cfg(k)), 0, 1, 2);
    ReachStep(Edges(Cfg(k)), 0, 2, 3);
    ReachStep(Edges(Cfg(k)), 0, 3, 4);
    ReachStep(Edges(Cfg(k)), 0, 4, 5);
  }

  /** One value is read across: the sum that the first region computes and the second stores. The
      pass does not give up on any. */
  lemma OneCross(rounds: nat, x: Name)
    ensures var k := Summing(rounds); (Cross(k, REGIONS, x) <==> x == 5) && SingleIncoming(k, REGIONS, x)
  {
    hide Summing, ReadIn, DefIn, InRegion, SameRegion;
    var k := Summing(rounds);
    forall b, d
      ensures InRegion(REGIONS, b) && InRegion(REGIONS, d) && !SameRegion(REGIONS, b, d) && ReadIn(k, x, b)
              && DefIn(k, x, d)
         <==> b == 5 && d == 3 && x == 5
    {
      InRegions(b);
      InRegions(d);
      ReadsOf(rounds, x, b);
      Definitions(rounds, x, d);
    }
    assert x == 5 ==>
        && InRegion(REGIONS, 5) && InRegion(REGIONS, 3) && !SameRegion(REGIONS, 5, 3)
        && ReadIn(k, x, 5) && DefIn(k, x, 3);
    forall b | InRegion(REGIONS, b)
      ensures SingleIn(k, x, b)
    {
      InRegions(b);
      Table(rounds, b);
    }
  }

  // ------------------------------------------------------------------------------ its runs

  /** The counter, its successor and the condition, in registers 1, 4 and 6. */
  ghost predicate Holding(env: map<Name, int>, counter: int, successor: int, goOn: int) {
    && (forall x :: x in env ==> 0 < x < 8)
    && Value(env, Reg(1)) == counter && Value(env, Reg(4)) == successor && Value(env, Reg(6)) == goOn
  }

  ghost predicate ItemsHold(items: seq<Local>, b: Block, pc: nat, counter: int, successor: int, goOn: int) {
    forall w :: 0 <= w < |items| ==>
      items[w].at == b && items[w].pc == pc && Holding(items[w].env, counter, successor, goOn)
  }

  /** What differs between the items is read in its own region only, or reloaded. */
  lemma NotUniform(rounds: nat, x: Name)
    requires x in {2, 3, 5, 7}
    ensures !Uniform(Summing(rounds), REGIONS, x)
  {
    hide Summing, ReadIn, DefIn, InRegion, SameRegion, PhiDefines;
    var k, d := Summing(rounds), if x == 7 then 5 else 3;
    Definitions(rounds, x, d);
    InRegions(d);
    forall b | ReadIn(k, x, b)
      ensures SameRegion(REGIONS, b, d) || (DefIn(k, x, d) && InRegion(REGIONS, b))
    {
      ReadsOf(rounds, x, b);
      InRegions(b);
    }
    assert InRegion(REGIONS, d) && DefBlock(k, x, d) && !ReadDirectly(k, REGIONS, x, d);
  }

  lemma HoldTheSame(rounds: nat, items: seq<Local>, b: Block, pc: nat, counter: int, successor: int, goOn: int)
    requires ItemsHold(items, b, pc, counter, successor, goOn)
    ensures AllSame(Summing(rounds), REGIONS, items)
  {
    hide Summing, Uniform;
    forall x, v, w | Uniform(Summing(rounds), REGIONS, x) && 0 <= v < |items| && 0 <= w < |items|
      ensures Value(items[v].env, Reg(x)) == Value(items[w].env, Reg(x))
    {
      if x in {2, 3, 5, 7} {
        NotUniform(rounds, x);
      }
    }
  }

  lemma EnterPlain(rounds: nat, from: Block, b: Block, env: map<Name, int>)
    requires b != 1
    ensures Enter(Summing(rounds), from, b, env) == Local(b, 0, env)
  {
    hide Summing;
    Table(rounds, b);
  }

  /** In its region an item runs one instruction after the other and goes on to the next block. */
  lemma RegionStep(rounds: nat, w: nat, b: Block, pc: nat, env: map<Name, int>, m: Memory)
    requires b in {3, 5} && pc <= |CodeOf(b)|
    ensures var k, l := Summing(rounds), Local(b, pc, env);
            && !Stopped(k, l)
            && Step(k, w, l, m) == if pc < |CodeOf(b)| then (Local(b, pc + 1, Exec(k, w, CodeOf(b)[pc], env, m).0),
                                                             Exec(k, w, CodeOf(b)[pc], env, m).1)
                                   else (Local(b + 1, 0, env), m)
  {
    hide Summing, Exec;
    Table(rounds, b);
    EnterPlain(rounds, b, b + 1, env);
  }

  lemma IdIs(rounds: nat, w: nat)
    ensures forall d: nat :: Summing(rounds).ids(w, d) == if d == 0 then w else 0
    ensures Summing(rounds).alu == Arithmetic(rounds)
  {
  }

  /** Loading and adding up leave the counter alone. */
  lemma LoadHolds(rounds: nat, w: nat, pc: nat, env: map<Name, int>, m: Memory, counter: int, successor: int, goOn: int)
    requires Holding(env, counter, successor, goOn) && pc < 3
    ensures Holding(Exec(Summing(rounds), w, LOAD[pc], env, m).0, counter, successor, goOn)
  {
    hide Summing;
  }

  lemma {:induction false} LoadVisit(rounds: nat, w: nat, env: map<Name, int>, m: Memory, counter: int, successor: int,
                                     goOn: int, pc: nat)
    requires Holding(env, counter, successor, goOn) && pc <= 3
    ensures var (l, m') := Alone(Summing(rounds), w, Enter(Summing(rounds), 2, 3, env), m, pc);
            l.at == 3 && l.pc == pc && Holding(l.env, counter, successor, goOn)
    decreases pc
  {
    hide Summing, Step, Exec, Holding, Enter;
    EnterPlain(rounds, 2, 3, env);
    if pc > 0 {
      LoadVisit(rounds, w, env, m, counter, successor, goOn, pc - 1);
      var (l, m') := Alone(Summing(rounds), w, Enter(Summing(rounds), 2, 3, env), m, pc - 1);
      RegionStep(rounds, w, 3, pc - 1, l.env, m');
      LoadHolds(rounds, w, pc - 1, l.env, m', counter, successor, goOn);
    }
  }

  lemma LoadLeaves(rounds: nat, w: nat, env: map<Name, int>, m: Memory, counter: int, successor: int, goOn: int)
    requires Holding(env, counter, successor, goOn)
    ensures var k, l := Summing(rounds), Enter(Summing(rounds), 2, 3, env);
            && Leaves(k, LOADING, w, l, m, 4)
            && var l' := Alone(k, w, l, m, 4).0;
               l'.at == 4 && l'.pc == 0 && Holding(l'.env, counter, successor, goOn)
  {
    hide Summing, Step, Exec, Holding, Enter, Stopped;
    var k, l := Summing(rounds), Enter(Summing(rounds), 2, 3, env);
    forall i | 0 <= i < 4
      ensures Alone(k, w, l, m, i).0.at in LOADING.blocks && !Stopped(k, Alone(k, w, l, m, i).0)
    {
      LoadVisit(rounds, w, env, m, counter, successor, goOn, i);
      var (x, m') := Alone(k, w, l, m, i);
      RegionStep(rounds, w, 3, i, x.env, m');
    }
    LoadVisit(rounds, w, env, m, counter, successor, goOn, 3);
    var (x, m') := Alone(k, w, l, m, 3);
    RegionStep(rounds, w, 3, 3, x.env, m');
    Table(rounds, 4);
  }

  function GoOn(rounds: nat, successor: int): int {
    if successor < rounds then 1 else 0
  }

  /** Storing leaves the counter alone; then its successor and the condition are computed. */
  lemma StoreHolds(rounds: nat, w: nat, pc: nat, env: map<Name, int>, m: Memory, counter: int, successor: int,
                   goOn: int)
    requires Holding(env, counter, successor, goOn) && pc < 4
    ensures var env' := Exec(Summing(rounds), w, STORE[pc], env, m).0;
            Holding(env', counter, if pc == 2 then counter + 1 else successor, if pc == 3 then GoOn(rounds, successor)
              else goOn)
  {
    hide Summing;
    IdIs(rounds, w);
    assert Values(env, [Reg(1)]) == [counter] && Values(env, [Reg(4)]) == [successor];
  }

  lemma {:induction false} StoreVisit(rounds: nat, w: nat, env: map<Name, int>, m: Memory, counter: int, successor: int,
                                      goOn: int, pc: nat)
    requires Holding(env, counter, successor, goOn) && pc <= 4
    ensures var (l, m') := Alone(Summing(rounds), w, Enter(Summing(rounds), 4, 5, env), m, pc);
            && l.at == 5 && l.pc == pc
            && Holding(l.env, counter, if pc > 2 then counter + 1 else successor, if pc > 3
               then GoOn(rounds, counter + 1) else goOn)
    decreases pc
  {
    hide Summing, Step, Exec, Holding, Enter, GoOn;
    EnterPlain(rounds, 4, 5, env);
    if pc > 0 {
      StoreVisit(rounds, w, env, m, counter, successor, goOn, pc - 1);
      var (l, m') := Alone(Summing(rounds), w, Enter(Summing(rounds), 4, 5, env), m, pc - 1);
      RegionStep(rounds, w, 5, pc - 1, l.env, m');
      StoreHolds(rounds, w, pc - 1, l.env, m', counter, if pc > 3 then counter + 1 else successor, goOn);
    }
  }

  lemma StoreLeaves(rounds: nat, w: nat, env: map<Name, int>, m: Memory, counter: int, successor: int, goOn: int)
    requires Holding(env, counter, successor, goOn)
    ensures var k, l := Summing(rounds), Enter(Summing(rounds), 4, 5, env);
            && Leaves(k, STORING, w, l, m, 5)
            && var l' := Alone(k, w, l, m, 5).0;
               l'.at == 6 && l'.pc == 0 && Holding(l'.env, counter, counter + 1, GoOn(rounds, counter + 1))
  {
    hide Summing, Step, Exec, Holding, Enter, Stopped, GoOn;
    var k, l := Summing(rounds), Enter(Summing(rounds), 4, 5, env);
    forall i | 0 <= i < 5
      ensures Alone(k, w, l, m, i).0.at in STORING.blocks && !Stopped(k, Alone(k, w, l, m, i).0)
    {
      StoreVisit(rounds, w, env, m, counter, successor, goOn, i);
      var (x, m') := Alone(k, w, l, m, i);
      RegionStep(rounds, w, 5, i, x.env, m');
    }
    StoreVisit(rounds, w, env, m, counter, successor, goOn, 4);
    var (x, m') := Alone(k, w, l, m, 4);
    RegionStep(rounds, w, 5, 4, x.env, m');
    Table(rounds, 6);
  }

  /** All items visit region i one after the other. */
  lemma {:induction false} RegionLoop(rounds: nat, i: nat, items: seq<Local>, m: Memory, ns: seq<nat>, w: nat,
                                      counter: int, successor: int, goOn: int)
    requires i < 2 && w <= |items| == |ns| && (forall v :: 0 <= v < |ns| ==> ns[v] == 4 + i)
    requires ItemsHold(items, 2 * i + 2, 1, counter, successor, goOn)
    ensures var k, entering := Summing(rounds), Entering(Summing(rounds), items, 2 * i + 2, 2 * i + 3);
            && AllLeave(k, REGIONS[i], entering, m, ns, w)
            && var done := PrivateLoop(k, entering, m, ns, w).0;
               if i == 0 then ItemsHold(done[..w], 4, 0, counter, successor, goOn)
               else ItemsHold(done[..w], 6, 0, counter, counter + 1, GoOn(rounds, counter + 1))
    decreases w
  {
    hide Summing, Alone, Leaves, Holding, Enter, GoOn, PrivateLoop;
    var k, entering := Summing(rounds), Entering(Summing(rounds), items, 2 * i + 2, 2 * i + 3);
    if w == 0 {
      NoVisits(k, entering, m, ns);
    } else {
      var v := w - 1;
      RegionLoop(rounds, i, items, m, ns, v, counter, successor, goOn);
      var (done, m1) := PrivateLoop(k, entering, m, ns, v);
      if i == 0 {
        LoadLeaves(rounds, v, items[v].env, m1, counter, successor, goOn);
      } else {
        StoreLeaves(rounds, v, items[v].env, m1, counter, successor, goOn);
      }
      OneVisitMore(k, entering, m, ns, v);
      EnterAt(k, items, 2 * i + 2, 2 * i + 3);
      AllLeaveNext(k, REGIONS[i], entering, m, ns, ns[v], v);
      assert ns[v := ns[v]] == ns;
      var l := Alone(k, v, entering[v], m1, ns[v]).0;
      assert done[v := l][..w] == done[..v] + [l];
    }
  }

  lemma EnterAt(k: Kernel, items: seq<Local>, from: Block, entry: Block)
    ensures forall v :: 0 <= v < |items| ==>
              var l := Entering(k, items, from, entry)[v];
              l.at == entry && l.pc == 0 && l == Enter(k, from, entry, items[v].env)
  {
  }

  lemma NoVisits(k: Kernel, items: seq<Local>, m: Memory, ns: seq<nat>)
    requires |items| == |ns|
    ensures PrivateLoop(k, items, m, ns, 0) == (items, m)
  {
  }

  /** From a barrier in front of the counter through its block to the next barrier. */
  lemma CounterPasses(rounds: nat, w: nat, from: Block, env: map<Name, int>, m: Memory, counter: int, successor: int,
                      goOn: int)
    requires (from == 0 || (from == 6 && goOn != 0)) && Holding(env, counter, successor, goOn)
    ensures var k, l := Summing(rounds), Local(from, 1, env);
            && Goes(k, REGIONS, w, l, m, 2) && StoresNothing(k, w, l, m, 2)
            && var l' := Alone(k, w, l, m, 2).0;
               l'.at == 2 && l'.pc == 0 && Holding(l'.env, if from == 0 then 0 else successor, successor, goOn)
  {
    hide Summing;
    var k, l := Summing(rounds), Local(from, 1, env);
    Table(rounds, from);
    Table(rounds, 1);
    InRegions(from);
    InRegions(1);
    InRegions(2);
    EnterPlain(rounds, 1, 2, env[1 := if from == 0 then 0 else successor]);
    EnterCounter(rounds, from, env);
    var l1 := Local(1, 0, env[1 := if from == 0 then 0 else Value(env, Reg(4))]);
    assert Alone(k, w, l, m, 0) == (l, m);
    assert Alone(k, w, l, m, 1) == (l1, m);
    EnterPlain(rounds, 1, 2, l1.env);
    assert Alone(k, w, l, m, 2) == (Local(2, 0, l1.env), m);
  }

  lemma EnterCounter(rounds: nat, from: Block, env: map<Name, int>)
    requires from == 0 || from == 6
    ensures Enter(Summing(rounds), from, 1, env) == Local(1, 0, env[1 := if from == 0 then 0 else Value(env, Reg(4))])
  {
    hide Summing;
    Table(rounds, 1);
    assert SetPhis([COUNTER], from, env, env) == SetPhis([], from, env, env[1 := Incoming(COUNTER, from, env)]);
  }

  /** Straight from the last barrier of the loop to the one at the exit. */
  lemma ExitPasses(rounds: nat, w: nat, env: map<Name, int>, m: Memory, counter: int, successor: int)
    requires Holding(env, counter, successor, 0)
    ensures var k, l := Summing(rounds), Local(6, 1, env);
            && Goes(k, REGIONS, w, l, m, 1) && StoresNothing(k, w, l, m, 1)
               && Alone(k, w, l, m, 1).0 == Local(7, 0, env)
  {
    hide Summing;
    var k, l := Summing(rounds), Local(6, 1, env);
    Table(rounds, 6);
    InRegions(6);
    InRegions(7);
    EnterPlain(rounds, 6, 7, env);
    assert Alone(k, w, l, m, 0) == (l, m);
    assert Alone(k, w, l, m, 1) == (Local(7, 0, env), m);
  }

  lemma Barriers(rounds: nat, b: Block)
    requires b in {0, 2, 4, 6, 7}
    ensures BarrierBlock(Summing(rounds), b) && !InRegion(REGIONS, b)
  {
    hide Summing;
    Table(rounds, b);
    InRegions(b);
  }

  lemma LoadsBetween(rounds: nat, s: State, counter: int, successor: int, goOn: int)
    requires |s.items| > 0 && ItemsHold(s.items, 2, 1, counter, successor, goOn)
    ensures var k, j := Summing(rounds), Around(0, Times(4, |s.items|));
            var r := Release(Privately(k, REGIONS, s, 2, j));
            IntervalMet(k, REGIONS, s, 2, j, 4) && ItemsHold(r.items, 4, 1, counter, successor, goOn)
  {
    hide Summing, SingleEntry, AllLeave, AllSame, PrivateLoop, Entering, Holding, BarrierBlock, InRegion;
    var k, j := Summing(rounds), Around(0, Times(4, |s.items|));
    Barriers(rounds, 2);
    Barriers(rounds, 4);
    Table(rounds, 2);
    Entries(rounds, 0);
    RegionLoop(rounds, 0, s.items, s.mem, j.steps, |s.items|, counter, successor, goOn);
    var r := Privately(k, REGIONS, s, 2, j);
    assert r.items[..|s.items|] == r.items;
    HoldTheSame(rounds, r.items, 4, 0, counter, successor, goOn);
    Released(r, 4, counter, successor, goOn);
  }

  lemma StoresBetween(rounds: nat, s: State, counter: int, successor: int, goOn: int)
    requires |s.items| > 0 && ItemsHold(s.items, 4, 1, counter, successor, goOn)
    ensures var k, j := Summing(rounds), Around(1, Times(5, |s.items|));
            var r := Release(Privately(k, REGIONS, s, 4, j));
            IntervalMet(k, REGIONS, s, 4, j, 6)
              && ItemsHold(r.items, 6, 1, counter, counter + 1, GoOn(rounds, counter + 1))
  {
    hide Summing, SingleEntry, AllLeave, AllSame, PrivateLoop, Entering, Holding, BarrierBlock, InRegion, GoOn;
    var k, j := Summing(rounds), Around(1, Times(5, |s.items|));
    Barriers(rounds, 4);
    Barriers(rounds, 6);
    Table(rounds, 4);
    Entries(rounds, 1);
    RegionLoop(rounds, 1, s.items, s.mem, j.steps, |s.items|, counter, successor, goOn);
    var r := Privately(k, REGIONS, s, 4, j);
    assert r.items[..|s.items|] == r.items;
    HoldTheSame(rounds, r.items, 6, 0, counter, counter + 1, GoOn(rounds, counter + 1));
    Released(r, 6, counter, counter + 1, GoOn(rounds, counter + 1));
  }

  lemma Released(s: State, b: Block, counter: int, successor: int, goOn: int)
    requires ItemsHold(s.items, b, 0, counter, successor, goOn)
    ensures ItemsHold(Release(s).items, b, 1, counter, successor, goOn)
  {
    hide Holding;
  }

  lemma CountsBetween(rounds: nat, s: State, from: Block, counter: int, successor: int, goOn: int)
    requires |s.items| > 0 && ItemsHold(s.items, from, 1, counter, successor, goOn)
             && (from == 0 || (from == 6 && goOn != 0))
    ensures var k, j := Summing(rounds), Along(2); var r := Release(Privately(k, REGIONS, s, from, j));
            && IntervalMet(k, REGIONS, s, from, j, 2) && |r.items| == |s.items|
            && ItemsHold(r.items, 2, 1, if from == 0 then 0 else successor, successor, goOn)
  {
    hide Summing, PrivateLoop, Holding, BarrierBlock, InRegion, Goes, Alone, StoresNothing;
    var k, n := Summing(rounds), |s.items|;
    Barriers(rounds, from);
    Barriers(rounds, 2);
    Table(rounds, from);
    forall w | 0 <= w < n
      ensures Goes(k, REGIONS, w, s.items[w], s.mem, 2) && StoresNothing(k, w, s.items[w], s.mem, 2)
      ensures var l := Alone(k, w, s.items[w], s.mem, 2).0;
              l.at == 2 && l.pc == 0 && Holding(l.env, if from == 0 then 0 else successor, successor, goOn)
    {
      CounterPasses(rounds, w, from, s.items[w].env, s.mem, counter, successor, goOn);
      assert s.items[w] == Local(from, 1, s.items[w].env);
    }
    StretchLoop(k, s.items, s.mem, 2, Times(2, n), n);
    Released(Privately(k, REGIONS, s, from, Along(2)), 2, if from == 0 then 0 else successor, successor, goOn);
  }

  lemma ExitsBetween(rounds: nat, s: State, counter: int, successor: int)
    requires |s.items| > 0 && ItemsHold(s.items, 6, 1, counter, successor, 0)
    ensures var k, j := Summing(rounds), Along(1); var r := Release(Privately(k, REGIONS, s, 6, j));
            IntervalMet(k, REGIONS, s, 6, j, 7) && AtEnd(k, r, 7)
  {
    hide Summing, PrivateLoop, Holding, InRegion, Goes, Alone, StoresNothing;
    var k, n := Summing(rounds), |s.items|;
    Barriers(rounds, 6);
    Barriers(rounds, 7);
    Table(rounds, 6);
    Table(rounds, 7);
    forall w | 0 <= w < n
      ensures Goes(k, REGIONS, w, s.items[w], s.mem, 1) && StoresNothing(k, w, s.items[w], s.mem, 1)
      ensures Alone(k, w, s.items[w], s.mem, 1).0 == Local(7, 0, s.items[w].env)
    {
      ExitPasses(rounds, w, s.items[w].env, s.mem, counter, successor);
      assert s.items[w] == Local(6, 1, s.items[w].env);
    }
    StretchLoop(k, s.items, s.mem, 1, Times(1, n), n);
    var r := Privately(k, REGIONS, s, 6, Along(1));
    assert forall w :: 0 <= w < n ==> r.items[w] == Local(7, 0, s.items[w].env);
  }

  /** From behind the barrier in front of the loop's first region, in round i. */
  function Intervals(rounds: nat, n: nat, i: nat): seq<Interval>
    decreases rounds - i
  {
    [Around(0, Times(4, n)), Around(1, Times(5, n))]
    + if i + 1 < rounds then [Along(2)] + Intervals(rounds, n, i + 1) else [Along(1)]
  }

  function Stops(rounds: nat, i: nat): seq<Block>
    decreases rounds - i
  {
    [2, 4, 6] + if i + 1 < rounds then Stops(rounds, i + 1) else [7]
  }

  lemma {:induction false} AsMany(rounds: nat, n: nat, i: nat)
    ensures |Stops(rounds, i)| == |Intervals(rounds, n, i)| + 1 && Stops(rounds, i)[0] == 2
    ensures Stops(rounds, i)[|Intervals(rounds, n, i)|] == 7
    decreases rounds - i
  {
    if i + 1 < rounds {
      AsMany(rounds, n, i + 1);
    }
  }

  lemma MetNext(k: Kernel, s: State, bs: seq<Block>, js: seq<Interval>)
    requires js != [] && |bs| == |js| + 1 && IntervalMet(k, REGIONS, s, bs[0], js[0], bs[1])
    requires LoopedMet(k, REGIONS, Release(Privately(k, REGIONS, s, bs[0], js[0])), bs[1..], js[1..])
    ensures LoopedMet(k, REGIONS, s, bs, js)
  {
    hide IntervalMet, Privately, Release;
  }

  lemma {:induction false} RoundsMet(rounds: nat, s: State, i: nat, goOn: int)
    requires |s.items| > 0 && ItemsHold(s.items, 2, 1, i, i, goOn)
    ensures |Stops(rounds, i)| == |Intervals(rounds, |s.items|, i)| + 1
    ensures LoopedMet(Summing(rounds), REGIONS, s, Stops(rounds, i), Intervals(rounds, |s.items|, i))
    decreases rounds - i
  {
    hide Summing, IntervalMet, Privately, Holding, Release, ItemsHold, LoopedMet;
    var k, n := Summing(rounds), |s.items|;
    AsMany(rounds, n, i);
    var bs, js := Stops(rounds, i), Intervals(rounds, n, i);
    LoadsBetween(rounds, s, i, i, goOn);
    var s1 := Release(Privately(k, REGIONS, s, 2, js[0]));
    StoresBetween(rounds, s1, i, i, goOn);
    var s2 := Release(Privately(k, REGIONS, s1, 4, js[1]));
    assert js[1..][1..] == js[2..] && bs[1..][1..] == bs[2..];
    if i + 1 < rounds {
      CountsBetween(rounds, s2, 6, i, i + 1, 1);
      var s3 := Release(Privately(k, REGIONS, s2, 6, Along(2)));
      AsMany(rounds, n, i + 1);
      RoundsMet(rounds, s3, i + 1, 1);
      assert js[2..][1..] == Intervals(rounds, n, i + 1) && bs[2..][1..] == Stops(rounds, i + 1);
      MetNext(k, s2, bs[2..], js[2..]);
    } else {
      ExitsBetween(rounds, s2, i, i + 1);
      var s3 := Release(Privately(k, REGIONS, s2, 6, Along(1)));
      assert js[2..] == [Along(1)] && bs[2..] == [6, 7];
      assert bs[2..][1..] == [7] && js[2..][1..] == [];
      MetAtEnd(k, s3);
      MetNext(k, s2, bs[2..], js[2..]);
    }
    MetNext(k, s1, bs[1..], js[1..]);
    MetNext(k, s, bs, js);
  }

  lemma MetAtEnd(k: Kernel, s: State)
    requires AtEnd(k, s, 7)
    ensures LoopedMet(k, REGIONS, s, [7], [])
  {
    hide AtEnd;
  }

  lemma IsUniformRun(rounds: nat, n: nat, m: Memory)
    requires n > 0 && GlobalOnly(m)
    ensures UniformRun(Summing(rounds), REGIONS, n, m, [0] + Stops(rounds, 0), [Along(2)] + Intervals(rounds, n, 0))
  {
    hide Summing, IntervalMet, Privately, InRegion, BarrierBlock, GlobalOnly, Stops, Intervals;
    var k, bs, js := Summing(rounds), [0] + Stops(rounds, 0), [Along(2)] + Intervals(rounds, n, 0);
    var s := Release(Launched(k, n, m));
    Table(rounds, 0);
    Barriers(rounds, 0);
    Barriers(rounds, 7);
    AsMany(rounds, n, 0);
    CountsBetween(rounds, s, 0, 0, 0, 0);
    var s1 := Release(Privately(k, REGIONS, s, 0, Along(2)));
    RoundsMet(rounds, s1, 0, 0);
    assert bs[1..] == Stops(rounds, 0) && js[1..] == Intervals(rounds, n, 0);
    assert LoopedMet(k, REGIONS, s, bs, js);
  }

  // ------------------------------------------------------------------------------ no races

  /** In the regions, once the item has asked for its id. */
  ghost predicate KnowsItself(w: nat, l: Local) {
    && (l.at == 3 && l.pc > 0 ==> Value(l.env, Reg(2)) == w)
    && (l.at == 5 && l.pc > 0 ==> Value(l.env, Reg(7)) == w)
  }

  lemma InstOwn(rounds: nat, w: nat, b: Block, pc: nat, env: map<Name, int>, m: Memory)
    requires b in {3, 5} && pc < |CodeOf(b)| && KnowsItself(w, Local(b, pc, env))
    ensures KnowsItself(w, Local(b, pc + 1, Exec(Summing(rounds), w, CodeOf(b)[pc], env, m).0))
  {
    hide Summing;
    IdIs(rounds, w);
  }

  /** An item touches its own cell only. */
  lemma StepOwn(rounds: nat, w: nat, l: Local, m: Memory)
    requires KnowsItself(w, l)
    ensures KnowsItself(w, Step(Summing(rounds), w, l, m).0)
    ensures ReadsAt(Summing(rounds), w, l) <= {Global(w)} && WritesAt(Summing(rounds), w, l) <= {Global(w)}
  {
    hide Summing, Exec, Enter;
    var k := Summing(rounds);
    Table(rounds, l.at);
    if (l.at == 3 || l.at == 5) && l.pc < |CodeOf(l.at)| {
      RegionStep(rounds, w, l.at, l.pc, l.env, m);
      InstOwn(rounds, w, l.at, l.pc, l.env, m);
    }
    EnterIs(k, l.at, 1, l.env);
    EnterIs(k, l.at, 7, l.env);
    EnterIs(k, l.at, l.at + 1, l.env);
  }

  ghost predicate AllKnow(s: State) {
    forall w :: 0 <= w < |s.items| ==> KnowsItself(w, s.items[w])
  }

  lemma {:induction false} RunOwn(rounds: nat, s: State, sched: seq<nat>)
    requires AllKnow(s)
    ensures AllKnow(Run(Summing(rounds), s, sched))
    ensures forall w :: 0 <= w < |s.items| ==>
              Reads(Summing(rounds), s, sched, w) <= {Global(w)} && Writes(Summing(rounds), s, sched, w) <= {Global(w)}
    decreases |sched|
  {
    hide Summing, KnowsItself, Step, ReadsAt, WritesAt;
    if sched != [] {
      var before, w := sched[..|sched| - 1], sched[|sched| - 1];
      RunOwn(rounds, s, before);
      var r := Run(Summing(rounds), s, before);
      if w < |s.items| {
        StepOwn(rounds, w, r.items[w], r.mem);
      }
    }
  }

  lemma OwnIsRaceFree(rounds: nat, s: State, sched: seq<nat>)
    requires AllKnow(s)
    ensures RaceFree(Summing(rounds), s, sched)
  {
    hide Summing, AllKnow;
    RunOwn(rounds, s, sched);
  }

  lemma ReleaseKnows(rounds: nat, s: State)
    requires AtBarrier(Summing(rounds), s)
    ensures AllKnow(Release(s))
  {
    hide Summing;
    forall w | 0 <= w < |s.items|
      ensures KnowsItself(w, Release(s).items[w])
    {
      Table(rounds, s.items[w].at);
    }
  }

  lemma {:induction false} NeverRaces(rounds: nat, s: State, intervals: seq<seq<nat>>)
    requires AllKnow(s) && Allowed(Summing(rounds), s, intervals)
    ensures RaceFreeThroughout(Summing(rounds), s, intervals)
    decreases |intervals|
  {
    hide Summing, AllKnow, RaceFree, Run, Respects, AtBarrier, Release;
    var k := Summing(rounds);
    var r := Run(k, s, intervals[0]);
    OwnIsRaceFree(rounds, s, intervals[0]);
    if |intervals| > 1 {
      ReleaseKnows(rounds, r);
      NeverRaces(rounds, Release(r), intervals[1..]);
      forall i | 0 <= i < |intervals|
        ensures RaceFree(k, StateAt(k, s, intervals, i), intervals[i])
      {
        if i > 0 {
          assert intervals[1..][i - 1] == intervals[i];
        }
      }
    }
  }

  lemma IsRaceFree(rounds: nat, n: nat, m: Memory)
    ensures NoRaces(Summing(rounds), Launched(Summing(rounds), n, m))
  {
    hide Summing, Allowed, RaceFreeThroughout;
    var s := Launched(Summing(rounds), n, m);
    Table(rounds, 0);
    assert AllKnow(s);
    forall intervals | Allowed(Summing(rounds), s, intervals)
      ensures RaceFreeThroughout(Summing(rounds), s, intervals)
    {
      NeverRaces(rounds, s, intervals);
    }
  }

  lemma IsCoarsenable(rounds: nat, n: nat, m: Memory)
    requires n > 0 && GlobalOnly(m)
    ensures Coarsenable(Summing(rounds), REGIONS, n, m, [0] + Stops(rounds, 0), [Along(2)] + Intervals(rounds, n, 0))
  {
    hide Summing, Ssa, RegionsOk, UniformCode, OneDefinition, Below, SlotsApart, UniformRun, NoRaces, Stops, Intervals;
    IsSsa(rounds);
    Shape(rounds);
    IsUniformRun(rounds, n, m);
    IsRaceFree(rounds, n, m);
  }

  /** The conditions of the theorem can be met. For any number of rounds and of items, and any
      shared memory, the kernel is fit for coarsening, and context buffering, which has a value to
      buffer, does not give up on it. */
  method ConditionsCanBeMet(rounds: nat, n: nat, m: Memory) returns (k': Kernel, next: Name, ghost edits: seq<Edit>)
    requires n > 0 && GlobalOnly(m)
    ensures Coarsenable(Summing(rounds), REGIONS, n, m, [0] + Stops(rounds, 0), [Along(2)] + Intervals(rounds, n, 0))
    ensures Logged(Summing(rounds), edits, k', next, REGIONS) && forall x :: !Cross(k', REGIONS, x)
    ensures Cross(Summing(rounds), REGIONS, 5) && Saved(k', 5)
  {
    hide Summing, Coarsenable, Logged, Cross, Saved, RegionsOk, OneDefinition, Below, SlotsApart, SingleIncoming;
    hide GlobalOnly, Stops, Intervals;
    Shape(rounds);
    IsCoarsenable(rounds, n, m);
    OneCross(rounds, 5);
    var pass := new CondBarrier(Summing(rounds), REGIONS, 8);
    forall x
      ensures SingleIncoming(Summing(rounds), REGIONS, x)
    {
      OneCross(rounds, x);
    }
    var ok := pass.BufferContexts();
    k', next, edits := pass.kernel, pass.next, pass.edits;
  }

  // ------------------------------------------------------------------------------ the loops

  const OPS := NestCode.Ops(3, 4)

  lemma IsCounted(rounds: nat, n: nat)
    requires 0 < n < WORD
    ensures Counts(Summing(rounds), Triple(n, 1, 1), n, OPS)
  {
    hide Summing;
    var k, sizes := Summing(rounds), Triple(n, 1, 1);
    IdIs(rounds, 0);
    assert Items(sizes) == n;
    forall w: nat, d: nat | w < n && d <= 2
      ensures k.ids(w, d) == LoopNest.Get(LocalIdAt(sizes, w), d)
    {
      IdIs(rounds, w);
      FlatIsId(n, w);
    }
  }

  lemma FlatIsId(n: nat, w: nat)
    requires w < n
    ensures LocalIdAt(Triple(n, 1, 1), w) == Triple(w, 0, 0)
  {
  }

  lemma GraphIs(rounds: nat)
    ensures var g := Cfg(Summing(rounds));
            && g.entry == 0 && (forall b: Block :: b in g.succ <==> b <= 7)
            && (forall b: Block ::
               b in g.succ ==> g.succ[b] == if b < 6 then [b + 1] else if b == 6 then [1, 7] else [])
  {
    hide Summing, Cfg, Blocks, Terminator;
    NestCode.CfgKeys(Summing(rounds));
    forall b: Block
      ensures b in Blocks(Summing(rounds)) <==> b <= 7
      ensures Terminator(Summing(rounds), b) == TermOf(b)
    {
      Table(rounds, b);
    }
    Table(rounds, 0);
    var g := Cfg(Summing(rounds));
    assert forall b: Block :: b in g.succ <==> b in Blocks(Summing(rounds));
    assert forall b: Block :: b in g.succ ==> g.succ[b] == Successors(TermOf(b));
  }

  /** No loop around a region has the region's entry for its head. */
  lemma NotHeaded(rounds: nat, i: nat)
    requires i < 2
    ensures var g, r := Cfg(Summing(rounds)), REGIONS[i];
            LoopNest.RegionOk(g, r) && !LoopNest.DominatedOutside(g, r) && NestCode.Behind(g, r) == 2 * i + 4
  {
    hide Summing, Edges, Walk, Reachable;
    var g, r := Cfg(Summing(rounds)), REGIONS[i];
    GraphIs(rounds);
    assert r == ParallelRegion(2 * i + 3, 2 * i + 3, {2 * i + 3});
    forall p | p in g.succ && p !in r.blocks && r.entry in g.succ[p]
      ensures !Dominates(g, r.entry, p)
    {
      if Dominates(g, r.entry, p) {
        BeforeEntry(rounds, p, r.entry);
      }
    }
  }

  lemma BeforeEntry(rounds: nat, b: Block, d: Block)
    requires 0 <= b < d <= 7
    ensures !Dominates(Cfg(Summing(rounds)), d, b)
    decreases b
  {
    hide Summing, Edges, Walk;
    var p := StraightWalk(rounds, b);
    assert d !in p;
    GraphIs(rounds);
  }

  /** Straight on from the entry. */
  lemma {:induction false} StraightWalk(rounds: nat, b: Block) returns (p: seq<Block>)
    requires b <= 6
    ensures WalkFromTo(Edges(Cfg(Summing(rounds))), p, 0, b) && forall x :: x in p ==> x <= b
    decreases b
  {
    hide Summing, Edges, Walk;
    if b == 0 {
      p := [0];
      LoopNest.WalkOf1(Edges(Cfg(Summing(rounds))), 0);
    } else {
      var q := StraightWalk(rounds, b - 1);
      Arc(rounds, b - 1, b);
      NonEmpty(Edges(Cfg(Summing(rounds))), q);
      WalkSnoc(Edges(Cfg(Summing(rounds))), q, b);
      p := q + [b];
    }
  }

  lemma IsBuildable(rounds: nat)
    ensures Buildable(Summing(rounds), REGIONS)
  {
    hide Summing, SingleEntry, LoopNest.RegionOk, LoopNest.DominatedOutside, BarrierBlock, InRegion;
    var g := Cfg(Summing(rounds));
    GraphIs(rounds);
    forall b, i | b in g.succ && 0 <= i < |g.succ[b]|
      ensures g.succ[b][i] in g.succ
    {
    }
    forall i | 0 <= i < |REGIONS|
      ensures CanBeNested(Summing(rounds), REGIONS, REGIONS[i])
    {
      Entries(rounds, i);
      NotHeaded(rounds, i);
      Barriers(rounds, 2 * i + 4);
    }
  }

  /** The thread that steps through code h from memory m finishes, and the execution `other` of
      kernel k by n items can go on or has ended with the thread's shared memory. */
  ghost predicate DoesTheWork(k: Kernel, n: nat, m: Memory, other: seq<seq<nat>>, h: Kernel, ps: seq<NestCode.Placed>) {
    exists c: nat ::
      var (l, mem) := CodeAfter(h, ps, Local(h.entry, 0, map[]), m, c);
      var r := After(k, Launched(k, n, m), other);
      && Finished(h, l)
      && if Ended(k, r) then forall at :: Peek(r.mem, Global(at)) == Peek(mem, Global(at)) else CanGoOn(k, r)
  }

  /** All of the pass, run on this kernel: the contexts are buffered, the loops built and the
      barriers erased, and the one thread that is left does the work of the group, however its
      items are interleaved. */
  method BuildsTheCode(rounds: nat, n: nat, m: Memory) returns (h: Kernel, ps: seq<NestCode.Placed>)
    requires 0 < n < WORD && GlobalOnly(m)
    ensures var k := Summing(rounds);
            forall other :: Allowed(k, Launched(k, n, m), other) ==> DoesTheWork(k, n, m, other, h, ps)
  {
    hide Summing, Coarsenable, Logged, Cross, Saved, Allowed, After, Launched, Ended, CanGoOn, Finished, CodeAfter;
    hide NestCode.Erased, Buildable, Counts, NestCode.AllNested, NestCode.Ready, SameBranches, Stops, Intervals;
    var k', next;
    ghost var edits, ks;
    k', next, edits := ConditionsCanBeMet(rounds, n, m);
    IsBuildable(rounds);
    IsCounted(rounds, n);
    BufferedIsReady(Summing(rounds), edits, k', next, REGIONS);
    h, ps, ks := NestCode.InsertLoops(k', REGIONS, Triple(n, 1, 1), OPS, next);
    forall other | Allowed(Summing(rounds), Launched(Summing(rounds), n, m), other)
      ensures DoesTheWork(Summing(rounds), n, m, other, h, ps)
    {
      var c := BuiltCodeIsEnough(Summing(rounds), edits, k', next, REGIONS, n, m, [0] + Stops(rounds, 0),
                                 [Along(2)] + Intervals(rounds, n, 0), other, Triple(n, 1, 1), OPS, ks, ps);
    }
  }
}
