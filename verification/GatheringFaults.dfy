/** Two graphs on which the gathering goes wrong: on one it loses a region, whatever the order in
    which predecessors are taken; on the other there is an order by which it forms a region
    twice. */
module GatheringFaults {
  import opened Graphs
  import opened Regions
  import opened Gathering
  import opened GatheringRuns
  import opened Options

  /** Barriers and other blocks take turns. */
  ghost predicate TakeTurns(g: Graph, bars: set<Block>) {
    forall u, v :: (u, v) in Edges(g) ==> (u in bars <==> v !in bars)
  }

  lemma {:induction false} NoArcsFrom(e: Rel, u: Block, v: Block)
    requires forall w :: (u, w) !in e
    ensures Reach(e, u, v) <==> u == v
  {
    ReachSelf(e, u);
    if p :| WalkFromTo(e, p, u, v) {
      if |p| > 1 {
        FirstStep(e, p);
      }
    }
  }

  /** Then regions are the blocks in front of the barrier. */
  lemma BlockBefore(g: Graph, bars: set<Block>, x: Block, b: Block)
    requires TakeTurns(g, bars) && b in bars
    ensures InRegion(g, bars, x, b) <==> x !in bars && (x, b) in Edges(g)
  {
    forall c
      ensures Above(g, bars, c, b) <==> c == b
    {
      NoArcsFrom(BarrierArcs(g, bars), c, b);
    }
    if x !in bars && (x, b) in Edges(g) {
      ReachEdge(ClearArcs(g, bars), x, b);
    }
    if x !in bars && Reach(ClearArcs(g, bars), x, b) {
      var p :| WalkFromTo(ClearArcs(g, bars), p, x, b);
      FirstStep(ClearArcs(g, bars), p);
      NoArcsFrom(ClearArcs(g, bars), p[1], b);
      assert WalkFromTo(ClearArcs(g, bars), p[1..], p[1], b);
    }
  }

  /** The region {x} in front of b, if t leads to x. */
  lemma RegionIs(g: Graph, bars: set<Block>, b: Block, x: Block, t: Block)
    requires TakeTurns(g, bars) && b in bars && (forall y :: (y, b) in Edges(g) <==> y == x) && t in bars
             && (t, x) in Edges(g)
    ensures !NothingBefore(g, bars, b) && RegionBefore(g, bars, b, Region(x, {}, {x}))
    ensures forall r :: RegionBefore(g, bars, b, r) ==> r.Region? && r.blocks == {x} && r.entry == x
  {
    hide InRegion, Edges;
    forall y
      ensures InRegion(g, bars, y, b) <==> y == x
    {
      BlockBefore(g, bars, y, b);
    }
    forall r | RegionBefore(g, bars, b, r)
      ensures r.Region? && r.blocks == {x} && r.entry == x
    {
      assert r.blocks == {x};
    }
  }

  lemma NoRegion(g: Graph, bars: set<Block>, b: Block)
    requires TakeTurns(g, bars) && b in bars && forall y :: (y, b) !in Edges(g)
    ensures NothingBefore(g, bars, b) && forall r :: !RegionBefore(g, bars, b, r)
  {
    hide InRegion, Edges;
    forall y
      ensures !InRegion(g, bars, y, b)
    {
      BlockBefore(g, bars, y, b);
    }
    forall r
      ensures !RegionBefore(g, bars, b, r)
    {
      if RegionBefore(g, bars, b, r) {
        EntryIsNone(g, bars, b, r);
      }
    }
  }

  // ------------------------------------------------------------------------ a region is lost

  /** Barriers 3 and 4 lead to the same block. */
  const FORK := Graph(0, map[0 := [1, 2], 1 := [3], 2 := [4], 3 := [5], 4 := [5], 5 := [6], 6 := []])
  const FORK_BARS: set<Block> := {0, 3, 4, 6}

  lemma ForkRegions()
    ensures TakeTurns(FORK, FORK_BARS)
    ensures !NothingBefore(FORK, FORK_BARS, 6) && !NothingBefore(FORK, FORK_BARS, 3)
            && !NothingBefore(FORK, FORK_BARS, 4)
    ensures NothingBefore(FORK, FORK_BARS, 0) && forall r :: !RegionBefore(FORK, FORK_BARS, 0, r)
    ensures forall r :: RegionBefore(FORK, FORK_BARS, 6, r) ==> r.Region? && r.blocks == {5} && r.entry == 5
    ensures forall r :: RegionBefore(FORK, FORK_BARS, 3, r) ==> r.Region? && r.blocks == {1} && r.entry == 1
    ensures forall r :: RegionBefore(FORK, FORK_BARS, 4, r) ==> r.Region? && r.blocks == {2} && r.entry == 2
  {
    hide NothingBefore, RegionBefore;
    RegionIs(FORK, FORK_BARS, 6, 5, 3);
    RegionIs(FORK, FORK_BARS, 3, 1, 0);
    RegionIs(FORK, FORK_BARS, 4, 2, 0);
    NoRegion(FORK, FORK_BARS, 0);
  }

  lemma {:induction false} PicksLast(entry: Block, sameLoop: (Block, Block) -> bool, order: seq<Block>)
    requires forall x, y :: !sameLoop(x, y)
    ensures PickAll(entry, sameLoop, order) == Picked([], None, if order == [] then None else Some(order[|order| - 1]))
    decreases |order|
  {
    if order != [] {
      PicksLast(entry, sameLoop, order[..|order| - 1]);
    }
  }

  /** How far the gathering has come: to the exit, to barrier 3 or 4, or to the entry. */
  ghost predicate OnFork(a: Gather) {
    || (a.of == [] && a.pr == [] && a.visited == {} && a.stack == [6] && a.current == None)
    || (a.of == [] && a.pr == [] && a.visited == {} && a.stack == [] && a.current == Some(6))
    || (a.of == [6] && a.visited == {6} && a.stack == [] && (a.current == Some(3) || a.current == Some(4))
        && |a.pr| == 1 && a.pr[0].Region? && a.pr[0].blocks == {5})
    || ((a.of == [6, 3] || a.of == [6, 4]) && a.stack == [] && (a.current == None || a.current == Some(0))
        && |a.pr| == 2 && a.pr[0].Region? && a.pr[0].blocks == {5}
        && a.pr[1].Region? && a.pr[1].blocks == if a.of[1] == 3 then {1} else {2})
  }

  lemma OnlyOne(s: seq<Block>, x: Block)
    requires NoRepeats(s) && forall p :: p in s <==> p == x
    ensures s == [x]
  {
    assert x in s;
    assert |s| > 1 ==> s[0] != s[1];
    forall i | 0 <= i < |s|
      ensures s[i] == x
    {
      assert s[i] in s;
    }
  }

  lemma BeforeFork()
    ensures Unvisited(FORK, 5, {6}) == {3, 4} && Unvisited(FORK, 1, {6, 3}) == {0} && Unvisited(FORK, 2, {6, 4}) == {0}
    ensures Outside(FORK, 5, {}, (_, _) => false) == {3, 4} && (3, 5) in Edges(FORK)
  {
  }

  /** Where only `before` is unvisited, its last one in the order is next, and none is pushed. */
  lemma ForkNext(sameLoop: (Block, Block) -> bool, a: Gather, x: Block, r: Region, order: seq<Block>, b: Gather,
                 y: Block)
    requires (forall u, v :: !sameLoop(u, v)) && Forms(FORK, FORK_BARS, sameLoop, a, x, r, order, b)
    requires y in Unvisited(FORK, r.entry, a.visited + {x})
    ensures b.stack == a.stack && b.visited == a.visited + {x} && b.pr == a.pr + [r] && b.of == a.of + [x]
    ensures b.current.Some? && b.current.value in Unvisited(FORK, r.entry, a.visited + {x})
  {
    hide RegionBefore, PickAll, Unvisited, InRegion;
    EntryIsNone(FORK, FORK_BARS, x, r);
    PicksLast(r.entry, sameLoop, order);
    assert y in order;
    assert order[|order| - 1] in order;
  }

  lemma FromExit(sameLoop: (Block, Block) -> bool, a: Gather, r: Region, order: seq<Block>, b: Gather)
    requires (forall u, v :: !sameLoop(u, v)) && OnFork(a) && a.current == Some(6)
    requires Forms(FORK, FORK_BARS, sameLoop, a, 6, r, order, b)
    ensures OnFork(b)
  {
    hide RegionBefore, NothingBefore, Unvisited, Forms;
    ForkRegions();
    BeforeFork();
    FormsRegion(sameLoop, a, 6, r, order, b);
    assert {} + {6} == {6};
    ForkNext(sameLoop, a, 6, r, order, b, 3);
  }

  lemma FromBarrier(sameLoop: (Block, Block) -> bool, a: Gather, x: Block, r: Region, order: seq<Block>, b: Gather)
    requires (forall u, v :: !sameLoop(u, v)) && OnFork(a) && a.current == Some(x) && x in {3, 4}
    requires Forms(FORK, FORK_BARS, sameLoop, a, x, r, order, b)
    ensures OnFork(b)
  {
    hide RegionBefore, NothingBefore, Unvisited, Forms;
    ForkRegions();
    BeforeFork();
    FormsRegion(sameLoop, a, x, r, order, b);
    assert {6} + {3} == {6, 3} && {6} + {4} == {6, 4};
    ForkNext(sameLoop, a, x, r, order, b, 0);
  }

  lemma FormsRegion(sameLoop: (Block, Block) -> bool, a: Gather, x: Block, r: Region, order: seq<Block>, b: Gather)
    requires Forms(FORK, FORK_BARS, sameLoop, a, x, r, order, b)
    ensures RegionBefore(FORK, FORK_BARS, x, r)
  {
  }

  lemma ForkForms(sameLoop: (Block, Block) -> bool, a: Gather, x: Block, r: Region, order: seq<Block>, b: Gather)
    requires (forall u, v :: !sameLoop(u, v)) && OnFork(a) && a.current == Some(x)
    requires Forms(FORK, FORK_BARS, sameLoop, a, x, r, order, b)
    ensures OnFork(b)
  {
    hide RegionBefore, NothingBefore, Forms;
    FormsRegion(sameLoop, a, x, r, order, b);
    ForkRegions();
    if x == 6 {
      FromExit(sameLoop, a, r, order, b);
    } else {
      FromBarrier(sameLoop, a, x, r, order, b);
    }
  }

  lemma {:induction false} RunsOnFork(sameLoop: (Block, Block) -> bool, t: seq<Gather>)
    requires (forall u, v :: !sameLoop(u, v)) && GatherRun(FORK, FORK_BARS, sameLoop, t)
    ensures OnFork(t[|t| - 1])
    decreases |t|
  {
    hide RegionBefore, NothingBefore, Forms;
    ForkRegions();
    if |t| == 1 {
      OnlyOne(t[0].stack, 6);
    } else {
      var a, b := t[|t| - 2], t[|t| - 1];
      RunsOnFork(sameLoop, t[..|t| - 1]);
      if a.current.Some? {
        if r, order :| Forms(FORK, FORK_BARS, sameLoop, a, a.current.value, r, order, b) {
          ForkForms(sameLoop, a, a.current.value, r, order, b);
        }
      }
    }
  }

  ghost predicate InNone(pr: seq<Region>, x: Block) {
    forall i :: 0 <= i < |pr| && pr[i].Region? ==> x !in pr[i].blocks
  }

  /** The blocks 1 and 2 both lie between barriers, on the way from the entry to the exit. In
      whatever order predecessors are taken, one of them ends up in no region. */
  lemma OneRegionIsLost(sameLoop: (Block, Block) -> bool, t: seq<Gather>, pr: seq<Region>, of: seq<Block>)
    requires (forall u, v :: !sameLoop(u, v)) && GatheredBy(FORK, FORK_BARS, sameLoop, t, pr, of)
    ensures InNone(pr, 1) || InNone(pr, 2)
    ensures !NoForks(FORK, FORK_BARS, sameLoop)
  {
    hide GatherRun;
    RunsOnFork(sameLoop, t);
    Forked(sameLoop);
  }

  lemma Forked(sameLoop: (Block, Block) -> bool)
    requires forall u, v :: !sameLoop(u, v)
    ensures !NoForks(FORK, FORK_BARS, sameLoop)
  {
    hide Predecessors;
    BeforeFork();
    assert Outside(FORK, 5, {}, sameLoop) == Outside(FORK, 5, {}, (_, _) => false);
  }

  // ---------------------------------------------------------------------- a region comes twice

  /** A loop of the blocks 1 to 6: barrier 4 leads back to its head and on to 5. */
  const LOOP := Graph(0,
    map[0 := [1], 1 := [2], 2 := [3, 7], 3 := [4], 4 := [1, 5], 5 := [6], 6 := [1], 7 := [8], 8 := []])
  const LOOP_BARS: set<Block> := {0, 2, 4, 6, 8}

  predicate InLoop(u: Block, v: Block) {
    1 <= u <= 6 && 1 <= v <= 6
  }

  lemma LoopArcs()
    ensures TakeTurns(LOOP, LOOP_BARS)
    ensures forall y :: ((y, 8) in Edges(LOOP) <==> y == 7) && ((y, 2) in Edges(LOOP) <==> y == 1)
                        && ((y, 6) in Edges(LOOP) <==> y == 5) && ((y, 4) in Edges(LOOP) <==> y == 3)
                           && (y, 0) !in Edges(LOOP)
    ensures (2, 7) in Edges(LOOP) && (0, 1) in Edges(LOOP) && (4, 5) in Edges(LOOP) && (2, 3) in Edges(LOOP)
  {
  }

  lemma LoopRegions()
    ensures NothingBefore(LOOP, LOOP_BARS, 0)
    ensures RegionBefore(LOOP, LOOP_BARS, 8, Region(7, {}, {7})) && RegionBefore(LOOP, LOOP_BARS, 2, Region(1, {}, {1}))
    ensures RegionBefore(LOOP, LOOP_BARS, 6, Region(5, {}, {5})) && RegionBefore(LOOP, LOOP_BARS, 4, Region(3, {}, {3}))
  {
    hide NothingBefore, RegionBefore, TakeTurns, Edges;
    LoopArcs();
    RegionIs(LOOP, LOOP_BARS, 8, 7, 2);
    RegionIs(LOOP, LOOP_BARS, 2, 1, 0);
    RegionIs(LOOP, LOOP_BARS, 6, 5, 4);
    RegionIs(LOOP, LOOP_BARS, 4, 3, 2);
    NoRegion(LOOP, LOOP_BARS, 0);
  }

  lemma Picks()
    ensures PickAll(7, InLoop, [2]) == Picked([], None, Some(2)) && PickAll(5, InLoop, [4]) == Picked([], Some(4), None)
    ensures PickAll(1, InLoop, [4, 6, 0]) == Picked([4], Some(6), Some(0))
            && PickAll(3, InLoop, []) == Picked([], None, None)
  {
    assert [4, 6, 0][..2] == [4, 6] && [4, 6][..1] == [4] && [4][..0] == [];
    assert [2][..0] == [];
    assert PickAll(1, InLoop, [4]) == Picked([], Some(4), None);
    assert PickAll(1, InLoop, [4, 6]) == Picked([4], Some(6), None);
  }

  lemma LoopForms(a: Gather, x: Block, y: Block, order: seq<Block>, before: set<Block>, b: Gather)
    requires a.current == Some(x) && RegionBefore(LOOP, LOOP_BARS, x, Region(y, {}, {y}))
    requires Unvisited(LOOP, y, a.visited + {x}) == before && OrderOf(order, before)
    requires var c := PickAll(y, InLoop, order);
             b == Gather(a.stack + PushedOf(c), a.visited + {x}, NextOf(c), a.pr + [Region(y, {}, {y})], a.of + [x])
    ensures GatherStep(LOOP, LOOP_BARS, InLoop, a, b)
  {
    hide RegionBefore, PickAll;
    assert Forms(LOOP, LOOP_BARS, InLoop, a, x, Region(y, {}, {y}), order, b);
  }

  const R7 := Region(7, {}, {7})
  const R1 := Region(1, {}, {1})
  const R5 := Region(5, {}, {5})
  const R3 := Region(3, {}, {3})

  /** At block 1 barrier 4 is taken before barrier 6 and has to wait. It is visited from 5, and
      taken from the stack all the same. */
  const STEPS: seq<Gather> :=
    [Gather([8], {}, None, [], []),
     Gather([], {}, Some(8), [], []),
     Gather([], {8}, Some(2), [R7], [8]),
     Gather([4, 0], {8, 2}, Some(6), [R7, R1], [8, 2]),
     Gather([4, 0], {8, 2, 6}, Some(4), [R7, R1, R5], [8, 2, 6]),
     Gather([4, 0], {8, 2, 6, 4}, None, [R7, R1, R5, R3], [8, 2, 6, 4]),
     Gather([4], {8, 2, 6, 4}, Some(0), [R7, R1, R5, R3], [8, 2, 6, 4]),
     Gather([4], {8, 2, 6, 4}, None, [R7, R1, R5, R3], [8, 2, 6, 4]),
     Gather([], {8, 2, 6, 4}, Some(4), [R7, R1, R5, R3], [8, 2, 6, 4]),
     Gather([], {8, 2, 6, 4}, None, [R7, R1, R5, R3, R3], [8, 2, 6, 4, 4])]

  lemma BeforeLoop()
    ensures Unvisited(LOOP, 7, {8}) == {2} && Unvisited(LOOP, 1, {8, 2}) == {0, 4, 6}
            && Unvisited(LOOP, 5, {8, 2, 6}) == {4}
    ensures Unvisited(LOOP, 3, {8, 2, 6, 4}) == {}
  {
  }

  lemma Orders()
    ensures OrderOf([2], {2}) && OrderOf([4, 6, 0], {0, 4, 6}) && OrderOf([4], {4}) && OrderOf([], {})
  {
  }

  lemma LoopForming(i: nat)
    requires i in {1, 2, 3, 4, 8}
    ensures GatherStep(LOOP, LOOP_BARS, InLoop, STEPS[i], STEPS[i + 1])
  {
    hide RegionBefore, NothingBefore, PickAll, GatherStep, Unvisited, OrderOf;
    LoopRegions();
    Picks();
    BeforeLoop();
    Orders();
    if i == 1 {
      assert {} + {8} == {8};
      LoopForms(STEPS[1], 8, 7, [2], {2}, STEPS[2]);
    } else if i == 2 {
      assert {8} + {2} == {8, 2};
      LoopForms(STEPS[2], 2, 1, [4, 6, 0], {0, 4, 6}, STEPS[3]);
    } else if i == 3 {
      assert {8, 2} + {6} == {8, 2, 6};
      LoopForms(STEPS[3], 6, 5, [4], {4}, STEPS[4]);
    } else if i == 4 {
      assert {8, 2, 6} + {4} == {8, 2, 6, 4};
      LoopForms(STEPS[4], 4, 3, [], {}, STEPS[5]);
    } else {
      assert {8, 2, 6, 4} + {4} == {8, 2, 6, 4};
      LoopForms(STEPS[8], 4, 3, [], {}, STEPS[9]);
    }
  }

  lemma LoopSteps(i: nat)
    requires i < 9
    ensures GatherStep(LOOP, LOOP_BARS, InLoop, STEPS[i], STEPS[i + 1])
  {
    hide GatherStep;
    if i in {1, 2, 3, 4, 8} {
      LoopForming(i);
    } else {
      LoopMoves(i);
    }
  }

  lemma LoopMoves(i: nat)
    requires i in {0, 5, 6, 7}
    ensures GatherStep(LOOP, LOOP_BARS, InLoop, STEPS[i], STEPS[i + 1])
  {
    hide Forms, NothingBefore, RegionBefore;
    LoopRegions();
    assert [8][..0] == [] && [4, 0][..1] == [4] && [4][..0] == [];
  }

  lemma {:induction false} RunOf(g: Graph, bars: set<Block>, sameLoop: (Block, Block) -> bool, t: seq<Gather>)
    requires |t| > 0 && GatherRun(g, bars, sameLoop, t[..1])
    requires forall i :: 0 <= i < |t| - 1 ==> GatherStep(g, bars, sameLoop, t[i], t[i + 1])
    ensures GatherRun(g, bars, sameLoop, t)
    decreases |t|
  {
    hide GatherStep;
    if |t| == 1 {
      assert t[..1] == t;
    } else {
      var init := t[..|t| - 1];
      assert init[..1] == t[..1];
      forall i | 0 <= i < |init| - 1
        ensures GatherStep(g, bars, sameLoop, init[i], init[i + 1])
      {
        assert init[i] == t[i] && init[i + 1] == t[i + 1];
      }
      RunOf(g, bars, sameLoop, init);
      assert GatherStep(g, bars, sameLoop, t[|t| - 2], t[|t| - 2 + 1]);
    }
  }

  lemma LoopStarts()
    ensures GatherRun(LOOP, LOOP_BARS, InLoop, STEPS[..1])
  {
    assert STEPS[..1] == [STEPS[0]];
  }

  /** The region {3} is formed again. */
  lemma RegionComesTwice()
    ensures var a := STEPS[9];
            GatheredBy(LOOP, LOOP_BARS, InLoop, STEPS, a.pr, a.of) && a.of[3] == a.of[4] && a.pr[3] == a.pr[4]
    ensures !OneStart(LOOP, LOOP_BARS)
  {
    hide GatherStep, GatherRun;
    LoopStarts();
    forall i | 0 <= i < |STEPS| - 1
      ensures GatherStep(LOOP, LOOP_BARS, InLoop, STEPS[i], STEPS[i + 1])
    {
      LoopSteps(i);
    }
    RunOf(LOOP, LOOP_BARS, InLoop, STEPS);
    assert (4, 1) in Edges(LOOP) && (4, 5) in Edges(LOOP);
  }
}
