/** The region before a barrier: the blocks from which it is reached without another barrier in
    between, found backwards from the barrier. Barriers are alone in their blocks. */
module Regions {
  import opened Graphs

  /** Arcs between barrier blocks, and arcs that leave other blocks. */
  ghost function BarrierArcs(g: Graph, bars: set<Block>): Rel {
    set e | e in Edges(g) && e.0 in bars && e.1 in bars
  }

  ghost function ClearArcs(g: Graph, bars: set<Block>): Rel {
    set e | e in Edges(g) && e.0 !in bars
  }

  /** c is b, or a barrier contiguous above it. */
  ghost predicate Above(g: Graph, bars: set<Block>, c: Block, b: Block) {
    Reach(BarrierArcs(g, bars), c, b)
  }

  /** What AddPredecessors pushes for b: predecessors, those of a barrier looked up through the
      barriers above it. */
  ghost predicate Feeds(g: Graph, bars: set<Block>, x: Block, b: Block) {
    exists c :: Above(g, bars, c, b) && (x, c) in Edges(g) && !(x in bars && c in bars)
  }

  ghost predicate InRegion(g: Graph, bars: set<Block>, x: Block, b: Block) {
    x !in bars && exists c :: Above(g, bars, c, b) && Reach(ClearArcs(g, bars), x, c)
  }

  function Predecessors(g: Graph, b: Block): set<Block> {
    set p | p in g.succ && b in g.succ[p]
  }

  ghost function BarriersAbove(g: Graph, bars: set<Block>, b: Block): set<Block> {
    set c | c in bars && c != b && Above(g, bars, c, b)
  }

  lemma AboveStep(g: Graph, bars: set<Block>, p: Block, b: Block)
    requires Acyclic(BarrierArcs(g, bars)) && (p, b) in BarrierArcs(g, bars)
    ensures BarriersAbove(g, bars, p) < BarriersAbove(g, bars, b)
  {
    hide BarrierArcs, Reach, Acyclic;
    var e := BarrierArcs(g, bars);
    ReachEdge(e, p, b);
    ReachSelf(e, b);
    ArcEnds(g, bars, p, b);
    NoArcBack(e, p, b);
    forall c | c in BarriersAbove(g, bars, p)
      ensures c in BarriersAbove(g, bars, b)
    {
      ReachTrans(e, c, p, b);
      if c == b {
        ReachAntisymmetric(e, p, b);
      }
    }
    assert p in BarriersAbove(g, bars, b) && p !in BarriersAbove(g, bars, p);
  }

  lemma ArcEnds(g: Graph, bars: set<Block>, p: Block, b: Block)
    requires (p, b) in BarrierArcs(g, bars)
    ensures p in bars && b in bars && (p, b) in Edges(g)
  {
  }

  lemma NoArcBack(e: Rel, p: Block, b: Block)
    requires Acyclic(e) && (p, b) in e
    ensures p != b
  {
    WalkSnoc(e, [p], b);
    assert Walk(e, [p] + [b]);
  }

  /** The first barrier above b on the way from c, or b itself. */
  lemma AboveLast(g: Graph, bars: set<Block>, c: Block, b: Block)
    requires Above(g, bars, c, b) && c != b
    ensures exists p :: (p, b) in BarrierArcs(g, bars) && Above(g, bars, c, p)
  {
    hide BarrierArcs;
    var e := BarrierArcs(g, bars);
    var w :| WalkFromTo(e, w, c, b);
    NonEmpty(e, w);
    LastStep(e, w);
    assert WalkFromTo(e, w[..|w| - 1], c, w[|w| - 2]);
  }

  lemma FeedsFrom(g: Graph, bars: set<Block>, x: Block, b: Block)
    ensures Feeds(g, bars, x, b) <==>
            || ((x, b) in Edges(g) && !(x in bars && b in bars))
            || (exists p :: (p, b) in BarrierArcs(g, bars) && Feeds(g, bars, x, p))
  {
    hide BarrierArcs, Edges;
    var e := BarrierArcs(g, bars);
    ReachSelf(e, b);
    if Feeds(g, bars, x, b) {
      var c :| Above(g, bars, c, b) && (x, c) in Edges(g) && !(x in bars && c in bars);
      if c != b {
        AboveLast(g, bars, c, b);
        var p :| (p, b) in e && Above(g, bars, c, p);
        assert Feeds(g, bars, x, p);
      }
    }
    if p :| (p, b) in e && Feeds(g, bars, x, p) {
      var c :| Above(g, bars, c, p) && (x, c) in Edges(g) && !(x in bars && c in bars);
      ReachStep(e, c, p, b);
    }
  }

  /** What the predecessors in `done` have contributed. */
  ghost predicate Pushed(g: Graph, bars: set<Block>, b: Block, done: set<Block>, v: seq<Block>, v': seq<Block>) {
    && v <= v'
    && forall x :: x in v'[|v|..] <==>
         || (x in done && !(x in bars && b in bars))
         || (exists p :: p in done && (p, b) in BarrierArcs(g, bars) && Feeds(g, bars, x, p))
  }

  lemma PushedNothing(g: Graph, bars: set<Block>, b: Block, v: seq<Block>)
    ensures Pushed(g, bars, b, {}, v, v)
  {
  }

  lemma PushedOne(g: Graph, bars: set<Block>, b: Block, done: set<Block>, v: seq<Block>, v': seq<Block>, p: Block)
    requires Pushed(g, bars, b, done, v, v') && !(p in bars && b in bars)
    ensures Pushed(g, bars, b, done + {p}, v, v' + [p])
  {
    hide Feeds;
    assert (v' + [p])[|v|..] == v'[|v|..] + [p];
  }

  lemma PushedMany(g: Graph, bars: set<Block>, b: Block, done: set<Block>, v: seq<Block>, v': seq<Block>,
                   v'': seq<Block>, p: Block)
    requires Pushed(g, bars, b, done, v, v') && p in bars && b in bars && (p, b) in Edges(g)
    requires v' <= v'' && forall x :: x in v''[|v'|..] <==> Feeds(g, bars, x, p)
    ensures Pushed(g, bars, b, done + {p}, v, v'')
  {
    hide Feeds;
    assert v''[|v|..] == v'[|v|..] + v''[|v'|..];
    assert (p, b) in BarrierArcs(g, bars);
  }

  lemma PushedAll(g: Graph, bars: set<Block>, b: Block, v: seq<Block>, v': seq<Block>)
    requires Pushed(g, bars, b, Predecessors(g, b), v, v')
    ensures forall x :: x in v'[|v|..] <==> Feeds(g, bars, x, b)
  {
    hide Feeds;
    forall x
      ensures x in v'[|v|..] <==> Feeds(g, bars, x, b)
    {
      FeedsFrom(g, bars, x, b);
      assert x in Predecessors(g, b) <==> (x, b) in Edges(g);
      forall p | (p, b) in BarrierArcs(g, bars)
        ensures p in Predecessors(g, b)
      {
      }
    }
  }

  /** A region: its blocks, its entry, and its exit if the barrier has one predecessor only. */
  datatype Region = NoRegion | Region(entry: Block, exit: set<Block>, blocks: set<Block>)

  method AddPredecessors(g: Graph, bars: set<Block>, v: seq<Block>, b: Block) returns (v': seq<Block>)
    requires Acyclic(BarrierArcs(g, bars))
    ensures v <= v' && forall x :: x in v'[|v|..] <==> Feeds(g, bars, x, b)
    decreases BarriersAbove(g, bars, b)
  {
    hide Pushed, BarrierArcs, Acyclic, Feeds, BarriersAbove;
    v' := v;
    var todo := Predecessors(g, b);
    ghost var done := {};
    PushedNothing(g, bars, b, v);
    while todo != {}
      invariant done + todo == Predecessors(g, b) && Pushed(g, bars, b, done, v, v')
      decreases todo
    {
      var p :| p in todo;
      if p in bars && b in bars {
        IsArc(g, bars, p, b);
        AboveStep(g, bars, p, b);
        ghost var before := v';
        v' := AddPredecessors(g, bars, v', p);
        PushedMany(g, bars, b, done, v, before, v', p);
      } else {
        PushedOne(g, bars, b, done, v, v', p);
        v' := v' + [p];
      }
      todo, done := todo - {p}, done + {p};
    }
    assert done == Predecessors(g, b);
    PushedAll(g, bars, b, v, v');
    PushedGrows(g, bars, b, done, v, v');
  }

  lemma IsArc(g: Graph, bars: set<Block>, p: Block, b: Block)
    requires p in Predecessors(g, b) && p in bars && b in bars
    ensures (p, b) in BarrierArcs(g, bars) && (p, b) in Edges(g)
  {
  }

  lemma PushedGrows(g: Graph, bars: set<Block>, b: Block, done: set<Block>, v: seq<Block>, v': seq<Block>)
    requires Pushed(g, bars, b, done, v, v')
    ensures v <= v'
  {
  }

  // ------------------------------------------------------------------------- the worklist

  ghost predicate LeadsIn(g: Graph, bars: set<Block>, blocks: set<Block>, x: Block) {
    x in bars && exists s :: s in blocks && (x, s) in Edges(g)
  }

  /** State of the search: what has been collected, what waits, the first barrier met on top. */
  ghost predicate Searching(g: Graph, bars: set<Block>, b: Block, blocks: set<Block>, work: seq<Block>,
                            top: set<Block>) {
    && (forall x :: x in blocks ==> InRegion(g, bars, x, b))
    && (forall x :: x in work ==> InRegion(g, bars, x, b) || LeadsIn(g, bars, blocks, x))
    && (forall x :: x !in bars && Feeds(g, bars, x, b) ==> x in blocks || x in work)
    && (forall x, y :: x in blocks && (y, x) in Edges(g) ==>
          y in blocks || y in work || (y in bars && top != {}))
    && (forall t :: t in top ==> LeadsIn(g, bars, blocks, t))
  }

  lemma FeedersInRegion(g: Graph, bars: set<Block>, x: Block, b: Block)
    requires b in bars && Feeds(g, bars, x, b)
    ensures InRegion(g, bars, x, b)
  {
    hide BarrierArcs, Reach;
    var c :| Above(g, bars, c, b) && (x, c) in Edges(g) && !(x in bars && c in bars);
    AboveIsBarrier(g, bars, c, b);
    ReachEdge(ClearArcs(g, bars), x, c);
  }

  lemma AboveIsBarrier(g: Graph, bars: set<Block>, c: Block, b: Block)
    requires b in bars && Above(g, bars, c, b)
    ensures c in bars
  {
    var w :| WalkFromTo(BarrierArcs(g, bars), w, c, b);
    if |w| > 1 {
      FirstStep(BarrierArcs(g, bars), w);
    }
  }

  lemma AboveNonBarrier(g: Graph, bars: set<Block>, c: Block, x: Block)
    requires x !in bars
    ensures Above(g, bars, c, x) <==> c == x
  {
    ReachSelf(BarrierArcs(g, bars), x);
    if w :| WalkFromTo(BarrierArcs(g, bars), w, c, x) {
      if |w| > 1 {
        LastStep(BarrierArcs(g, bars), w);
      }
    }
  }

  lemma FeedsNonBarrier(g: Graph, bars: set<Block>, y: Block, x: Block)
    requires x !in bars
    ensures Feeds(g, bars, y, x) <==> (y, x) in Edges(g)
  {
    hide Edges, Above;
    AboveNonBarrier(g, bars, x, x);
    if Feeds(g, bars, y, x) {
      var c :| Above(g, bars, c, x) && (y, c) in Edges(g) && !(y in bars && c in bars);
      AboveNonBarrier(g, bars, c, x);
    }
  }

  lemma RegionStep(g: Graph, bars: set<Block>, y: Block, x: Block, b: Block)
    requires InRegion(g, bars, x, b) && (y, x) in Edges(g) && y !in bars
    ensures InRegion(g, bars, y, b)
  {
    hide Reach, Above;
    var c :| Above(g, bars, c, b) && Reach(ClearArcs(g, bars), x, c);
    assert (y, x) in ClearArcs(g, bars);
    ReachEdge(ClearArcs(g, bars), y, x);
    ReachTrans(ClearArcs(g, bars), y, x, c);
  }

  lemma Popped(g: Graph, bars: set<Block>, b: Block, blocks: set<Block>, work: seq<Block>, top: set<Block>)
    requires Searching(g, bars, b, blocks, work, top) && work != []
    ensures var x, rest := work[|work| - 1], work[..|work| - 1];
            && (x in blocks ==> Searching(g, bars, b, blocks, rest, top))
            && (x in bars ==>
                  LeadsIn(g, bars, blocks, x) && Searching(g, bars, b, blocks, rest, if top == {} then {x} else top))
  {
    hide InRegion, Feeds, Edges;
    var x, rest := work[|work| - 1], work[..|work| - 1];
    assert work == rest + [x];
    BarrierNotInRegion(g, bars, x, b);
    assert x in work;
  }

  lemma BarrierNotInRegion(g: Graph, bars: set<Block>, x: Block, b: Block)
    ensures x in bars ==> !InRegion(g, bars, x, b)
  {
  }

  lemma Collected(g: Graph, bars: set<Block>, b: Block, blocks: set<Block>, work: seq<Block>, top: set<Block>,
                  work': seq<Block>)
    requires Searching(g, bars, b, blocks, work, top) && work != []
    requires var x, rest := work[|work| - 1], work[..|work| - 1];
             && x !in bars && rest <= work' && forall y :: y in work'[|rest|..] <==> Feeds(g, bars, y, x)
    ensures Searching(g, bars, b, blocks + {work[|work| - 1]}, work', top)
  {
    hide InRegion, Feeds, Edges;
    var x, rest := work[|work| - 1], work[..|work| - 1];
    assert work == rest + [x] && x in work;
    assert work' == rest + work'[|rest|..];
    forall y: Block
      ensures Feeds(g, bars, y, x) <==> (y, x) in Edges(g)
    {
      FeedsNonBarrier(g, bars, y, x);
    }
    forall y | (y, x) in Edges(g) && y !in bars
      ensures InRegion(g, bars, y, b)
    {
      RegionStep(g, bars, y, x, b);
    }
  }

  lemma {:induction false} RegionIsFound(g: Graph, bars: set<Block>, b: Block, blocks: set<Block>, top: set<Block>,
                                         p: seq<Block>, c: Block)
    requires b in bars && Searching(g, bars, b, blocks, [], top) && Above(g, bars, c, b)
    requires |p| > 0 && p[0] !in bars && WalkFromTo(ClearArcs(g, bars), p, p[0], c)
    ensures p[0] in blocks
    decreases |p|
  {
    hide Above, InRegion, Feeds, Edges, LeadsIn;
    var e := ClearArcs(g, bars);
    AboveIsBarrier(g, bars, c, b);
    FirstStep(e, p);
    ClearArc(g, bars, p[0], p[1]);
    if |p| == 2 {
      FeedsAt(g, bars, p[0], c, b);
    } else {
      FirstStep(e, p[1..]);
      ClearArc(g, bars, p[1], p[2]);
      RegionIsFound(g, bars, b, blocks, top, p[1..], c);
    }
  }

  lemma ClearArc(g: Graph, bars: set<Block>, u: Block, v: Block)
    requires (u, v) in ClearArcs(g, bars)
    ensures u !in bars && (u, v) in Edges(g)
  {
  }

  lemma FeedsAt(g: Graph, bars: set<Block>, x: Block, c: Block, b: Block)
    requires Above(g, bars, c, b) && (x, c) in Edges(g) && x !in bars
    ensures Feeds(g, bars, x, b)
  {
  }

  lemma SearchDone(g: Graph, bars: set<Block>, b: Block, blocks: set<Block>, top: set<Block>)
    requires b in bars && Searching(g, bars, b, blocks, [], top)
    ensures forall x :: x in blocks <==> InRegion(g, bars, x, b)
    ensures (exists t, x :: t in bars && (t, x) in Edges(g) && InRegion(g, bars, x, b)) <==> top != {}
  {
    hide Above, Feeds, Edges;
    forall x | InRegion(g, bars, x, b)
      ensures x in blocks
    {
      var c :| Above(g, bars, c, b) && Reach(ClearArcs(g, bars), x, c);
      var p :| WalkFromTo(ClearArcs(g, bars), p, x, c);
      NonEmpty(ClearArcs(g, bars), p);
      RegionIsFound(g, bars, b, blocks, top, p, c);
    }
    if t, x :| t in bars && (t, x) in Edges(g) && InRegion(g, bars, x, b) {
      BarrierNotInRegion(g, bars, t, b);
    }
    if t :| t in top {
      var x :| x in blocks && (t, x) in Edges(g);
    }
  }

  lemma SearchBegins(g: Graph, bars: set<Block>, b: Block, work: seq<Block>)
    requires b in bars && forall x :: x in work <==> Feeds(g, bars, x, b)
    ensures Searching(g, bars, b, {}, work, {})
  {
    forall x | x in work
      ensures InRegion(g, bars, x, b)
    {
      FeedersInRegion(g, bars, x, b);
    }
  }

  /** Collects backwards from the barrier. There is no region if nothing lies before it, or if no
      barrier leads in; otherwise the entry, which some barrier leads to, is one of the blocks. */
  method CreateRegionBeforeBarrier(g: Graph, bars: set<Block>, b: Block) returns (r: Region)
    requires Valid(g) && b in bars && bars <= g.succ.Keys && Acyclic(BarrierArcs(g, bars))
    ensures r.NoRegion? <==> (forall x :: !InRegion(g, bars, x, b))
                             || !(exists t, x :: t in bars && (t, x) in Edges(g) && InRegion(g, bars, x, b))
    ensures r.Region? ==> forall x :: x in r.blocks <==> InRegion(g, bars, x, b)
    ensures r.Region? ==> r.entry in r.blocks && exists t :: t in bars && (t, r.entry) in Edges(g)
    ensures r.Region? ==> r.exit == if |Predecessors(g, b)| == 1 then Predecessors(g, b) else {}
  {
    hide Searching, Valid, InRegion, Feeds, BarrierArcs, Acyclic, Edges;
    var preds := Predecessors(g, b);
    var exit := if |preds| == 1 then preds else {};
    var blocks, top := {}, {};
    var work := AddPredecessors(g, bars, [], b);
    SearchBegins(g, bars, b, work);
    WorkInside(g, bars, b, blocks, work, top);
    while work != []
      invariant Searching(g, bars, b, blocks, work, top) && blocks <= g.succ.Keys
      invariant |top| <= 1
      decreases g.succ.Keys - blocks, |work|
    {
      var current := work[|work| - 1];
      Popped(g, bars, b, blocks, work, top);
      WorkInside(g, bars, b, blocks, work, top);
      ghost var work0 := work;
      work := work[..|work| - 1];
      if current in blocks {
      } else if current in bars {
        if top == {} {
          top := {current};
        }
      } else {
        work := AddPredecessors(g, bars, work, current);
        Collected(g, bars, b, blocks, work0, top, work);
        blocks := blocks + {current};
      }
    }
    SearchDone(g, bars, b, blocks, top);
    TopLeadsIn(g, bars, b, blocks, top);
    if blocks == {} || top == {} {
      return NoRegion;
    }
    var t :| t in top;
    var entry := FirstInside(g.succ[t], blocks);
    SuccessorEdge(g, t, entry);
    return Region(entry, exit, blocks);
  }

  lemma WorkInside(g: Graph, bars: set<Block>, b: Block, blocks: set<Block>, work: seq<Block>, top: set<Block>)
    requires Valid(g) && b in bars && bars <= g.succ.Keys && Searching(g, bars, b, blocks, work, top)
    ensures forall x :: x in work ==> x in g.succ
  {
    hide Above, Feeds;
    forall x | x in work
      ensures x in g.succ
    {
      if InRegion(g, bars, x, b) {
        var c :| Above(g, bars, c, b) && Reach(ClearArcs(g, bars), x, c);
        var p :| WalkFromTo(ClearArcs(g, bars), p, x, c);
        AboveIsBarrier(g, bars, c, b);
        NonEmpty(ClearArcs(g, bars), p);
        FirstStep(ClearArcs(g, bars), p);
      }
    }
  }

  lemma TopLeadsIn(g: Graph, bars: set<Block>, b: Block, blocks: set<Block>, top: set<Block>)
    requires Searching(g, bars, b, blocks, [], top)
    ensures forall t :: t in top ==> t in bars && t in g.succ && exists i ::
            0 <= i < |g.succ[t]| && g.succ[t][i] in blocks
  {
    hide InRegion, Feeds;
    forall t | t in top
      ensures t in bars && t in g.succ && exists i :: 0 <= i < |g.succ[t]| && g.succ[t][i] in blocks
    {
      assert LeadsIn(g, bars, blocks, t);
      var s :| s in blocks && (t, s) in Edges(g);
      var i :| 0 <= i < |g.succ[t]| && g.succ[t][i] == s;
    }
  }

  method FirstInside(s: seq<Block>, blocks: set<Block>) returns (x: Block)
    requires exists i :: 0 <= i < |s| && s[i] in blocks
    ensures x in s && x in blocks
  {
    var i := 0;
    while s[i] !in blocks
      invariant 0 <= i < |s| && exists j :: i <= j < |s| && s[j] in blocks
      decreases |s| - i
    {
      i := i + 1;
    }
    x := s[i];
  }

  lemma SuccessorEdge(g: Graph, t: Block, x: Block)
    requires t in g.succ && x in g.succ[t]
    ensures (t, x) in Edges(g)
  {
  }

  /** What a run passes between two barriers lies in the region of the second. */
  lemma {:induction false} BetweenBarriers(g: Graph, bars: set<Block>, p: seq<Block>)
    requires Walk(Edges(g), p) && p[|p| - 1] in bars && forall i :: 0 < i < |p| - 1 ==> p[i] !in bars
    ensures forall i :: 0 < i < |p| - 1 ==> InRegion(g, bars, p[i], p[|p| - 1])
    decreases |p|
  {
    hide Edges;
    var b := p[|p| - 1];
    forall i | 0 < i < |p| - 1
      ensures InRegion(g, bars, p[i], b)
    {
      WalkSplit(Edges(g), p, i);
      ClearWalk(g, bars, p[i..]);
      assert WalkFromTo(ClearArcs(g, bars), p[i..], p[i], b);
      ReachSelf(BarrierArcs(g, bars), b);
      assert Above(g, bars, b, b) && Reach(ClearArcs(g, bars), p[i], b);
    }
  }

  lemma {:induction false} ClearWalk(g: Graph, bars: set<Block>, p: seq<Block>)
    requires Walk(Edges(g), p) && forall i :: 0 <= i < |p| - 1 ==> p[i] !in bars
    ensures Walk(ClearArcs(g, bars), p)
    decreases |p|
  {
    if |p| > 1 {
      ClearWalk(g, bars, p[..|p| - 1]);
    }
  }
}
