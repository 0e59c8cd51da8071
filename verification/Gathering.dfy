/** Gathering the parallel regions: from the exits of the kernel backwards, from barrier to
    barrier, a region before each. */
module Gathering {
  import opened Graphs
  import opened Regions
  import opened Options

  /** No region is formed before b: nothing lies there, or no barrier leads to it. */
  ghost predicate NothingBefore(g: Graph, bars: set<Block>, b: Block) {
    || (forall x :: !InRegion(g, bars, x, b))
    || !(exists t, x :: t in bars && (t, x) in Edges(g) && InRegion(g, bars, x, b))
  }

  /** r is the region that ends at b; a barrier leads to its entry. */
  ghost predicate RegionBefore(g: Graph, bars: set<Block>, b: Block, r: Region) {
    && r.Region? && (forall x :: x in r.blocks <==> InRegion(g, bars, x, b))
    && r.entry in r.blocks && exists t :: t in bars && (t, r.entry) in Edges(g)
  }

  /** A block that a barrier leads to is led to by barriers only. */
  ghost predicate EntriesBehindBarriers(g: Graph, bars: set<Block>) {
    forall t, x, p :: t in bars && (t, x) in Edges(g) && x !in bars && (p, x) in Edges(g) ==> p in bars
  }

  /** Only barriers lead to the entries of the regions. */
  ghost predicate NoStrays(g: Graph, bars: set<Block>, pr: seq<Region>) {
    forall i :: 0 <= i < |pr| && pr[i].Region? ==> Predecessors(g, pr[i].entry) <= bars
  }

  /** All blocks without successors, in some order. */
  ghost predicate HoldsExits(g: Graph, s: seq<Block>) {
    forall b :: b in s <==> b in g.succ && g.succ[b] == []
  }

  // ----------------------------------------------------------- on from the entry of a region

  /** Predecessors of the entry not visited yet: in the loop of the entry, and outside it. */
  function Unvisited(g: Graph, entry: Block, visited: set<Block>): set<Block> {
    set p | p in Predecessors(g, entry) && p !in visited
  }

  function Outside(g: Graph, entry: Block, visited: set<Block>, sameLoop: (Block, Block) -> bool): set<Block> {
    set p | p in Unvisited(g, entry, visited) && !sameLoop(entry, p)
  }

  /** What has been done with the predecessors in `done`: pushed, kept as the one in the loop or
      the one outside, or dropped. */
  ghost predicate Sorted(done: set<Block>, entry: Block, sameLoop: (Block, Block) -> bool, pushed: seq<Block>,
                         inLoop: Option<Block>, outside: Option<Block>, dropped: set<Block>) {
    && (forall p :: p in done <==> p in pushed || inLoop == Some(p) || outside == Some(p) || p in dropped)
    && (inLoop.Some? ==> sameLoop(entry, inLoop.value)) && (forall p :: p in pushed ==> sameLoop(entry, p))
    && (outside.Some? ==> !sameLoop(entry, outside.value) && outside.value !in dropped)
    && (forall p :: p in dropped ==> outside.Some? && !sameLoop(entry, p))
    && (pushed != [] ==> inLoop.Some?)
  }

  /** The predecessors sorted so far: waiting in the loop, the last one in it, the last outside. */
  datatype Picked = Picked(pushed: seq<Block>, inLoop: Option<Block>, outside: Option<Block>)

  function PickOne(entry: Block, sameLoop: (Block, Block) -> bool, c: Picked, p: Block): Picked {
    if sameLoop(entry, p) then
      Picked(if c.inLoop.Some? then c.pushed + [c.inLoop.value] else c.pushed, Some(p), c.outside)
    else c.(outside := Some(p))
  }

  /** Taking the predecessors in the given order. */
  function PickAll(entry: Block, sameLoop: (Block, Block) -> bool, order: seq<Block>): Picked {
    if order == [] then Picked([], None, None)
    else PickOne(entry, sameLoop, PickAll(entry, sameLoop, order[..|order| - 1]), order[|order| - 1])
  }

  function NextOf(c: Picked): Option<Block> {
    if c.inLoop.Some? then c.inLoop else c.outside
  }

  function PushedOf(c: Picked): seq<Block> {
    c.pushed + if c.inLoop.Some? && c.outside.Some? then [c.outside.value] else []
  }

  ghost predicate NoRepeats(s: seq<Block>) {
    forall i, j :: 0 <= i < j < |s| ==> s[i] != s[j]
  }

  ghost predicate OrderOf(order: seq<Block>, all: set<Block>) {
    NoRepeats(order) && forall p :: p in order <==> p in all
  }

  lemma OrderOn(order: seq<Block>, all: set<Block>, p: Block, entry: Block, sameLoop: (Block, Block) -> bool)
    requires OrderOf(order, all) && p !in all
    ensures OrderOf(order + [p], all + {p})
    ensures PickAll(entry, sameLoop, order + [p]) == PickOne(entry, sameLoop, PickAll(entry, sameLoop, order), p)
  {
    assert (order + [p])[..|order|] == order;
  }

  /** Chooses where to go on. Of the predecessors outside the loop only the last one is kept. */
  method NextBarrier(g: Graph, entry: Block, visited: set<Block>, sameLoop: (Block, Block) -> bool, stack: seq<Block>)
    returns (next: Option<Block>, stack': seq<Block>, ghost dropped: set<Block>, ghost order: seq<Block>)
    ensures OrderOf(order, Unvisited(g, entry, visited)) && next == NextOf(PickAll(entry, sameLoop, order))
    ensures stack' == stack + PushedOf(PickAll(entry, sameLoop, order))
    ensures stack <= stack' && forall p :: p in stack'[|stack|..] ==> p in Unvisited(g, entry, visited)
    ensures forall p :: p in Unvisited(g, entry, visited) <==> next == Some(p) || p in stack'[|stack|..] || p in dropped
    ensures dropped == {} <==> |Outside(g, entry, visited, sameLoop)| <= 1
    ensures dropped <= Outside(g, entry, visited, sameLoop)
    ensures next.None? <==> Unvisited(g, entry, visited) == {}
  {
    hide Predecessors, Unvisited, Outside, PickAll, OrderOf;
    var todo := Unvisited(g, entry, visited);
    ghost var done := {};
    order := [];
    NothingPicked(entry, sameLoop);
    var pushed, inLoop, outside := [], None, None;
    dropped := {};
    while todo != {}
      invariant done + todo == Unvisited(g, entry, visited) && done !! todo
      invariant Sorted(done, entry, sameLoop, pushed, inLoop, outside, dropped)
      invariant OrderOf(order, done) && PickAll(entry, sameLoop, order) == Picked(pushed, inLoop, outside)
      decreases todo
    {
      var p :| p in todo;
      OrderOn(order, done, p, entry, sameLoop);
      if sameLoop(entry, p) {
        if inLoop.Some? {
          pushed := pushed + [inLoop.value];
        }
        inLoop := Some(p);
      } else {
        if outside.Some? {
          dropped := dropped + {outside.value};
        }
        outside := Some(p);
      }
      todo, done, order := todo - {p}, done + {p}, order + [p];
    }
    assert done == Unvisited(g, entry, visited);
    KeptOutside(g, entry, visited, sameLoop, pushed, inLoop, outside, dropped);
    next := outside;
    if inLoop.Some? {
      if outside.Some? {
        pushed := pushed + [outside.value];
      }
      next := inLoop;
    }
    stack' := stack + pushed;
  }

  lemma NothingPicked(entry: Block, sameLoop: (Block, Block) -> bool)
    ensures OrderOf([], {}) && PickAll(entry, sameLoop, []) == Picked([], None, None)
  {
  }

  lemma KeptOutside(g: Graph, entry: Block, visited: set<Block>, sameLoop: (Block, Block) -> bool, pushed: seq<Block>,
                    inLoop: Option<Block>, outside: Option<Block>, dropped: set<Block>)
    requires Sorted(Unvisited(g, entry, visited), entry, sameLoop, pushed, inLoop, outside, dropped)
    ensures dropped <= Outside(g, entry, visited, sameLoop)
    ensures dropped == {} <==> |Outside(g, entry, visited, sameLoop)| <= 1
  {
    hide Predecessors, Unvisited;
    var all := Outside(g, entry, visited, sameLoop);
    if outside.None? {
      assert all == {};
    } else {
      assert all == dropped + {outside.value};
    }
  }

  // -------------------------------------------------------------------------- the gathering

  /** The barriers on the stack that have been visited. */
  function VisitedOn(stack: seq<Block>, visited: set<Block>): nat {
    if stack == [] then 0
    else VisitedOn(stack[..|stack| - 1], visited) + if stack[|stack| - 1] in visited then 1 else 0
  }

  lemma {:induction false} PushUnvisited(stack: seq<Block>, pushed: seq<Block>, visited: set<Block>)
    requires forall p :: p in pushed ==> p !in visited
    ensures VisitedOn(stack + pushed, visited) == VisitedOn(stack, visited)
    decreases |pushed|
  {
    if pushed != [] {
      var init := pushed[..|pushed| - 1];
      assert (stack + pushed)[..|stack + pushed| - 1] == stack + init;
      assert pushed[|pushed| - 1] in pushed;
      PushUnvisited(stack, init, visited);
    } else {
      assert stack + pushed == stack;
    }
  }

  /** p has been visited or will be, has no region before it, or has been lost. */
  ghost predicate Handled(g: Graph, bars: set<Block>, visited: set<Block>, stack: seq<Block>, current: Option<Block>,
                          lost: set<Block>, p: Block) {
    p in visited || p in stack || current == Some(p) || p in lost || NothingBefore(g, bars, p)
  }

  /** pr holds the regions before the barriers `of`. */
  ghost predicate Formed(g: Graph, bars: set<Block>, pr: seq<Region>, of: seq<Block>, visited: set<Block>) {
    && |pr| == |of| && (forall i :: 0 <= i < |pr| ==> RegionBefore(g, bars, of[i], pr[i]))
    && (forall b :: b in visited <==> b in of) && visited <= bars
  }

  ghost predicate Waiting(bars: set<Block>, stack: seq<Block>, current: Option<Block>) {
    (forall b :: b in stack ==> b in bars) && (current.Some? ==> current.value in bars)
  }

  ghost predicate AllHandled(g: Graph, bars: set<Block>, pr: seq<Region>, visited: set<Block>, stack: seq<Block>,
                             current: Option<Block>, lost: set<Block>) {
    && (forall i, p :: 0 <= i < |pr| && pr[i].Region? && p in Predecessors(g, pr[i].entry) ==>
          Handled(g, bars, visited, stack, current, lost, p))
    && (forall b :: b in g.succ && g.succ[b] == [] ==> Handled(g, bars, visited, stack, current, lost, b))
  }

  /** The entry of some region has more than one predecessor outside its loop. */
  ghost predicate SomeForked(g: Graph, pr: seq<Region>, sameLoop: (Block, Block) -> bool) {
    exists i :: 0 <= i < |pr| && pr[i].Region? && |Outside(g, pr[i].entry, {}, sameLoop)| > 1
  }

  /** No block that follows a barrier has two predecessors outside its loop. */
  ghost predicate NoForks(g: Graph, bars: set<Block>, sameLoop: (Block, Block) -> bool) {
    forall t, x :: t in bars && (t, x) in Edges(g) && x !in bars ==> |Outside(g, x, {}, sameLoop)| <= 1
  }

  lemma NotForked(g: Graph, bars: set<Block>, sameLoop: (Block, Block) -> bool, pr: seq<Region>, of: seq<Block>)
    requires |pr| == |of| && forall i :: 0 <= i < |pr| ==> RegionBefore(g, bars, of[i], pr[i])
    ensures NoForks(g, bars, sameLoop) ==> !SomeForked(g, pr, sameLoop)
  {
    hide Outside;
    forall i | 0 <= i < |pr| && pr[i].Region?
      ensures pr[i].entry !in bars && exists t :: t in bars && (t, pr[i].entry) in Edges(g)
    {
      assert RegionBefore(g, bars, of[i], pr[i]) && InRegion(g, bars, pr[i].entry, of[i]);
    }
  }

  ghost predicate Gathered(g: Graph, bars: set<Block>, sameLoop: (Block, Block) -> bool, pr: seq<Region>,
                           of: seq<Block>,
                           visited: set<Block>, stack: seq<Block>, current: Option<Block>, lost: set<Block>) {
    var ok :=
      && Formed(g, bars, pr, of, visited) && Waiting(bars, stack, current)
      && AllHandled(g, bars, pr, visited, stack, current, lost) && (lost != {} ==> SomeForked(g, pr, sameLoop))
      && NoStrays(g, bars, pr);
    ok
  }

  /** Where the gathering stands: barriers on the stack, those visited, the one at hand, and the
      regions formed, with the barriers they are for. */
  datatype Gather = Gather(stack: seq<Block>, visited: set<Block>, current: Option<Block>, pr: seq<Region>,
    of: seq<Block>)

  /** The region before x is formed, and the way goes on in front of it. */
  ghost predicate Forms(g: Graph, bars: set<Block>, sameLoop: (Block, Block) -> bool, a: Gather, x: Block, r: Region,
                        order: seq<Block>, b: Gather) {
    && RegionBefore(g, bars, x, r) && OrderOf(order, Unvisited(g, r.entry, a.visited + {x}))
    && var c := PickAll(r.entry, sameLoop, order);
       b == Gather(a.stack + PushedOf(c), a.visited + {x}, NextOf(c), a.pr + [r], a.of + [x])
  }

  ghost predicate GatherStep(g: Graph, bars: set<Block>, sameLoop: (Block, Block) -> bool, a: Gather, b: Gather) {
    match a.current
    case None => a.stack != [] && b == a.(stack := a.stack[..|a.stack| - 1], current := Some(a.stack[|a.stack| - 1]))
    case Some(x) =>
      || (NothingBefore(g, bars, x) && b == a.(current := None))
      || exists r, order :: Forms(g, bars, sameLoop, a, x, r, order, b)
  }

  ghost predicate GatherRun(g: Graph, bars: set<Block>, sameLoop: (Block, Block) -> bool, t: seq<Gather>)
    decreases |t|
  {
    && |t| > 0
    && if |t| == 1 then HoldsExits(g, t[0].stack) && NoRepeats(t[0].stack)
       && t[0] == Gather(t[0].stack, {}, None, [], [])
       else GatherRun(g, bars, sameLoop, t[..|t| - 1]) && GatherStep(g, bars, sameLoop, t[|t| - 2], t[|t| - 1])
  }

  /** The steps so far have led to where the gathering stands. */
  ghost predicate Traced(g: Graph, bars: set<Block>, sameLoop: (Block, Block) -> bool, t: seq<Gather>, a: Gather) {
    GatherRun(g, bars, sameLoop, t) && t[|t| - 1] == a
  }

  lemma TraceOn(g: Graph, bars: set<Block>, sameLoop: (Block, Block) -> bool, t: seq<Gather>, a: Gather, b: Gather)
    requires Traced(g, bars, sameLoop, t, a) && GatherStep(g, bars, sameLoop, a, b)
    ensures Traced(g, bars, sameLoop, t + [b], b)
  {
    assert (t + [b])[..|t|] == t;
  }

  lemma TraceForms(g: Graph, bars: set<Block>, sameLoop: (Block, Block) -> bool, t: seq<Gather>, a: Gather, x: Block,
                   r: Region,
                   order: seq<Block>, b: Gather)
    requires Traced(g, bars, sameLoop, t, a) && a.current == Some(x) && Forms(g, bars, sameLoop, a, x, r, order, b)
    ensures Traced(g, bars, sameLoop, t + [b], b)
  {
    hide Forms;
    TraceOn(g, bars, sameLoop, t, a, b);
  }

  method CollectExits(g: Graph) returns (exits: seq<Block>)
    ensures HoldsExits(g, exits) && NoRepeats(exits)
  {
    exits := [];
    var todo := g.succ.Keys;
    while todo != {}
      invariant todo <= g.succ.Keys
      invariant forall b :: b in exits <==> b in g.succ && b !in todo && g.succ[b] == []
      invariant NoRepeats(exits)
      decreases todo
    {
      var b :| b in todo;
      if g.succ[b] == [] {
        exits := exits + [b];
      }
      todo := todo - {b};
    }
  }

  /** Goes from the exits backwards. Every region that is formed ends at a barrier; of the
      barriers in front of a region none is passed over, except where the entry of the region has
      more than one predecessor outside its loop; so none is where no block that follows a barrier
      has two such predecessors. Where the entry has a predecessor that is no
      barrier, `stray`, the gathering is at fault: it goes on from there as if it were one. */
  method GatherParallelRegions(g: Graph, bars: set<Block>, sameLoop: (Block, Block) -> bool)
    returns (pr: seq<Region>, stray: Option<Block>, ghost of: seq<Block>, ghost lost: set<Block>, ghost t: seq<Gather>)
    requires Valid(g) && bars <= g.succ.Keys && Acyclic(BarrierArcs(g, bars))
    requires forall b :: b in g.succ && g.succ[b] == [] ==> b in bars
    ensures |pr| == |of| && forall i :: 0 <= i < |pr| ==> of[i] in bars && RegionBefore(g, bars, of[i], pr[i])
    ensures stray.None? <==> NoStrays(g, bars, pr)
    ensures stray.Some? ==>
            stray.value !in bars && pr != []
              && (pr[|pr| - 1].Region? ==> stray.value in Predecessors(g, pr[|pr| - 1].entry))
    ensures EntriesBehindBarriers(g, bars) ==> stray.None?
    ensures stray.None? ==> AllPassed(g, bars, pr, of, lost)
    ensures stray.None? && lost != {} ==> SomeForked(g, pr, sameLoop)
    ensures EntriesBehindBarriers(g, bars) && NoForks(g, bars, sameLoop) ==> lost == {} && Complete(g, bars, pr, of)
    ensures stray.None? ==> GatheredBy(g, bars, sameLoop, t, pr, of)
  {
    hide Traced, OrderOf, PickAll, NextOf, PushedOf;
    hide Valid, Acyclic, EntriesBehindBarriers, Gathered, VisitedOn, BarrierArcs, RegionBefore, NothingBefore;
    hide Predecessors;
    hide Outside, SomeForked, AllPassed, NoForks, HoldsExits, InRegion, Edges, NoStrays;
    stray := None;
    var stack := CollectExits(g);
    var visited := {};
    pr, of, lost := [], [], {};
    GatheringStarts(g, bars, sameLoop, stack);
    t := [Gather(stack, visited, None, pr, of)];
    TraceStarts(g, bars, sameLoop, stack);
    while stack != []
      invariant Gathered(g, bars, sameLoop, pr, of, visited, stack, None, lost) && visited <= bars
      invariant Traced(g, bars, sameLoop, t, Gather(stack, visited, None, pr, of))
      decreases bars - visited, VisitedOn(stack, visited), |stack|
    {
      var exit, rest := stack[|stack| - 1], stack[..|stack| - 1];
      ghost var visited0 := visited;
      Popping(g, bars, sameLoop, pr, of, visited, stack, lost);
      var current := Some(exit);
      TraceOn(g, bars, sameLoop, t, Gather(stack, visited, None, pr, of), Gather(rest, visited, current, pr, of));
      stack := rest;
      t := t + [Gather(stack, visited, current, pr, of)];
      while current.Some?
        invariant Gathered(g, bars, sameLoop, pr, of, visited, stack, current, lost) && visited0 <= visited <= bars
        invariant Traced(g, bars, sameLoop, t, Gather(stack, visited, current, pr, of))
        invariant visited == visited0 ==> VisitedOn(stack, visited) == VisitedOn(rest, visited)
        invariant visited == visited0 && exit !in visited0 ==>
                  stack == rest && (current == Some(exit) || current == None)
        decreases bars - visited, if current.None? then 0 else if current.value in visited then 2 else 1
      {
        IsBarrier(g, bars, sameLoop, pr, of, visited, stack, current, lost);
        var r := CreateRegionBeforeBarrier(g, bars, current.value);
        if r.NoRegion? {
          NoneFormed(g, bars, sameLoop, pr, of, visited, stack, current.value, lost);
          TraceNone(g, bars, sameLoop, t, Gather(stack, visited, current, pr, of));
          current := None;
          t := t + [Gather(stack, visited, current, pr, of)];
        } else {
          ghost var b, stack1, pr1, of1, visited1 := current.value, stack, pr, of, visited;
          assert RegionBefore(g, bars, b, r) by {
            IsRegionBefore(g, bars, b, r);
          }
          visited := visited + {current.value};
          pr, of := pr + [r], of + [b];
          var strays := Predecessors(g, r.entry) - bars;
          if strays != {} {
            var p :| p in strays;
            stray := Some(p);
            StrayFound(g, bars, sameLoop, pr1, of1, visited1, stack1, b, lost, r, p);
            return;
          }
          ghost var dropped, order;
          current, stack, dropped, order := NextBarrier(g, r.entry, visited, sameLoop, stack);
          TraceForms(g, bars, sameLoop, t, Gather(stack1, visited1, Some(b), pr1, of1), b, r, order,
                     Gather(stack, visited, current, pr, of));
          t := t + [Gather(stack, visited, current, pr, of)];
          OneMoreRegion(g, bars, sameLoop, pr1, of1, visited1, stack1, b, lost, r, current, stack, dropped);
          assert forall p :: p in stack[|stack1|..] ==> p !in visited;
          PushUnvisited(stack1, stack[|stack1|..], visited);
          assert stack1 + stack[|stack1|..] == stack;
          assert visited == visited0 ==> visited1 == visited0;
          lost := lost + dropped;
        }
      }
      FewerLeft(bars, visited0, visited);
    }
    GatheringEnds(g, bars, sameLoop, pr, of, visited, lost);
    TraceEnds(g, bars, sameLoop, t, Gather(stack, visited, None, pr, of));
    NotForked(g, bars, sameLoop, pr, of);
  }

  /** The steps, whatever order the source leaves open, have come to an end with these regions. */
  ghost predicate GatheredBy(g: Graph, bars: set<Block>, sameLoop: (Block, Block) -> bool, t: seq<Gather>,
                             pr: seq<Region>,
                             of: seq<Block>) {
    && GatherRun(g, bars, sameLoop, t)
    && var a := t[|t| - 1]; a.stack == [] && a.current == None && a.pr == pr && a.of == of
  }

  lemma TraceStarts(g: Graph, bars: set<Block>, sameLoop: (Block, Block) -> bool, stack: seq<Block>)
    requires HoldsExits(g, stack) && NoRepeats(stack)
    ensures Traced(g, bars, sameLoop, [Gather(stack, {}, None, [], [])], Gather(stack, {}, None, [], []))
  {
  }

  lemma TraceNone(g: Graph, bars: set<Block>, sameLoop: (Block, Block) -> bool, t: seq<Gather>, a: Gather)
    requires Traced(g, bars, sameLoop, t, a) && a.current.Some?
    requires (forall x :: !InRegion(g, bars, x, a.current.value))
             || !(exists t, x :: t in bars && (t, x) in Edges(g) && InRegion(g, bars, x, a.current.value))
    ensures Traced(g, bars, sameLoop, t + [a.(current := None)], a.(current := None))
  {
    hide InRegion, Edges;
    assert NothingBefore(g, bars, a.current.value);
    TraceOn(g, bars, sameLoop, t, a, a.(current := None));
  }

  lemma TraceEnds(g: Graph, bars: set<Block>, sameLoop: (Block, Block) -> bool, t: seq<Gather>, a: Gather)
    requires Traced(g, bars, sameLoop, t, a) && a.stack == [] && a.current == None
    ensures GatheredBy(g, bars, sameLoop, t, a.pr, a.of)
  {
  }

  /** Every exit and every predecessor of a region's entry has its region, unless there is none
      before it or it has been lost. */
  ghost predicate AllPassed(g: Graph, bars: set<Block>, pr: seq<Region>, of: seq<Block>, lost: set<Block>) {
    && (forall i, p :: 0 <= i < |pr| && pr[i].Region? && p in Predecessors(g, pr[i].entry) ==>
          p in of || p in lost || NothingBefore(g, bars, p))
    && (forall b :: b in g.succ && g.succ[b] == [] ==> b in of || b in lost || NothingBefore(g, bars, b))
  }

  lemma GatheringStarts(g: Graph, bars: set<Block>, sameLoop: (Block, Block) -> bool, stack: seq<Block>)
    requires HoldsExits(g, stack) && forall b :: b in g.succ && g.succ[b] == [] ==> b in bars
    ensures Gathered(g, bars, sameLoop, [], [], {}, stack, None, {})
  {
    hide NothingBefore;
  }

  lemma Popping(g: Graph, bars: set<Block>, sameLoop: (Block, Block) -> bool, pr: seq<Region>, of: seq<Block>,
                visited: set<Block>, stack: seq<Block>, lost: set<Block>)
    requires stack != [] && Gathered(g, bars, sameLoop, pr, of, visited, stack, None, lost)
    ensures Gathered(g, bars, sameLoop, pr, of, visited, stack[..|stack| - 1], Some(stack[|stack| - 1]), lost)
    ensures VisitedOn(stack, visited)
         == VisitedOn(stack[..|stack| - 1], visited) + if stack[|stack| - 1] in visited then 1 else 0
  {
    hide NothingBefore, RegionBefore, Predecessors;
    var rest, top := stack[..|stack| - 1], stack[|stack| - 1];
    assert forall p :: p in stack <==> p in rest || p == top;
    forall p | Handled(g, bars, visited, stack, None, lost, p)
      ensures Handled(g, bars, visited, rest, Some(top), lost, p)
    {
    }
    assert AllHandled(g, bars, pr, visited, rest, Some(top), lost) by {
      hide Handled;
    }
  }

  lemma FewerLeft(bars: set<Block>, visited: set<Block>, visited': set<Block>)
    requires visited <= visited' <= bars
    ensures visited' == visited || bars - visited' < bars - visited
  {
    if visited' != visited {
      var b :| b in visited' && b !in visited;
      assert b in bars - visited;
    }
  }

  lemma IsBarrier(g: Graph, bars: set<Block>, sameLoop: (Block, Block) -> bool, pr: seq<Region>, of: seq<Block>,
                  visited: set<Block>, stack: seq<Block>, current: Option<Block>, lost: set<Block>)
    requires Gathered(g, bars, sameLoop, pr, of, visited, stack, current, lost) && current.Some?
    ensures current.value in bars
  {
  }

  lemma IsRegionBefore(g: Graph, bars: set<Block>, b: Block, r: Region)
    requires r.Region? && (forall x :: x in r.blocks <==> InRegion(g, bars, x, b)) && r.entry in r.blocks
    requires exists t :: t in bars && (t, r.entry) in Edges(g)
    ensures RegionBefore(g, bars, b, r)
  {
  }

  lemma NoneFormed(g: Graph, bars: set<Block>, sameLoop: (Block, Block) -> bool, pr: seq<Region>, of: seq<Block>,
                   visited: set<Block>, stack: seq<Block>, b: Block, lost: set<Block>)
    requires Gathered(g, bars, sameLoop, pr, of, visited, stack, Some(b), lost)
    requires (forall x :: !InRegion(g, bars, x, b))
             || !(exists t, x :: t in bars && (t, x) in Edges(g) && InRegion(g, bars, x, b))
    ensures Gathered(g, bars, sameLoop, pr, of, visited, stack, None, lost)
  {
    hide RegionBefore, Predecessors, InRegion, Edges;
    assert NothingBefore(g, bars, b);
    forall p | Handled(g, bars, visited, stack, Some(b), lost, p)
      ensures Handled(g, bars, visited, stack, None, lost, p)
    {
      hide NothingBefore;
    }
    assert AllHandled(g, bars, pr, visited, stack, None, lost) by {
      hide Handled, NothingBefore;
    }
  }

  lemma OneMoreRegion(g: Graph, bars: set<Block>, sameLoop: (Block, Block) -> bool, pr: seq<Region>, of: seq<Block>,
                      visited: set<Block>, stack: seq<Block>, b: Block, lost: set<Block>, r: Region,
                      next: Option<Block>, stack': seq<Block>, dropped: set<Block>)
    requires Gathered(g, bars, sameLoop, pr, of, visited, stack, Some(b), lost) && RegionBefore(g, bars, b, r)
    requires Predecessors(g, r.entry) <= bars && stack <= stack'
    requires forall p ::
             p in Unvisited(g, r.entry, visited + {b}) <==> next == Some(p) || p in stack'[|stack|..] || p in dropped
    requires dropped == {} <==> |Outside(g, r.entry, visited + {b}, sameLoop)| <= 1
    ensures Gathered(g, bars, sameLoop, pr + [r], of + [b], visited + {b}, stack', next, lost + dropped)
  {
    hide NothingBefore, InRegion, NoStrays;
    var pr', of', visited', lost' := pr + [r], of + [b], visited + {b}, lost + dropped;
    StillNoStrays(g, bars, pr, r);
    assert stack' == stack + stack'[|stack|..];
    assert Waiting(bars, stack', next) by {
      hide RegionBefore, SomeForked;
    }
    assert Formed(g, bars, pr', of', visited') by {
      hide RegionBefore, SomeForked, Predecessors;
    }
    forall p | Handled(g, bars, visited, stack, Some(b), lost, p) || p in Predecessors(g, r.entry)
      ensures Handled(g, bars, visited', stack', next, lost', p)
    {
    }
    assert AllHandled(g, bars, pr', visited', stack', next, lost') by {
      hide RegionBefore, SomeForked, Predecessors, Handled;
    }
    ForkFound(g, sameLoop, pr, r, visited', lost, dropped);
  }

  lemma StillNoStrays(g: Graph, bars: set<Block>, pr: seq<Region>, r: Region)
    requires NoStrays(g, bars, pr) && r.Region? && Predecessors(g, r.entry) <= bars
    ensures NoStrays(g, bars, pr + [r])
  {
    hide Predecessors;
  }

  lemma PredecessorsAreBarriers(g: Graph, bars: set<Block>, b: Block, r: Region)
    requires RegionBefore(g, bars, b, r) && EntriesBehindBarriers(g, bars)
    ensures forall p :: p in Predecessors(g, r.entry) ==> p in bars
  {
    assert InRegion(g, bars, r.entry, b);
    assert r.entry !in bars;
    forall p | p in Predecessors(g, r.entry)
      ensures p in bars
    {
      SuccessorEdge(g, p, r.entry);
    }
  }

  lemma ForkFound(g: Graph, sameLoop: (Block, Block) -> bool, pr: seq<Region>, r: Region, visited: set<Block>,
                  lost: set<Block>, dropped: set<Block>)
    requires r.Region? && (lost != {} ==> SomeForked(g, pr, sameLoop))
    requires dropped == {} <==> |Outside(g, r.entry, visited, sameLoop)| <= 1
    ensures lost + dropped != {} ==> SomeForked(g, pr + [r], sameLoop)
  {
    var pr' := pr + [r];
    if dropped != {} {
      FewerOutside(g, r.entry, visited, sameLoop);
      assert pr'[|pr|] == r;
    } else if lost != {} {
      var i :| 0 <= i < |pr| && pr[i].Region? && |Outside(g, pr[i].entry, {}, sameLoop)| > 1;
      assert pr'[i] == pr[i];
    }
  }

  lemma FewerOutside(g: Graph, entry: Block, visited: set<Block>, sameLoop: (Block, Block) -> bool)
    ensures |Outside(g, entry, visited, sameLoop)| <= |Outside(g, entry, {}, sameLoop)|
  {
    var a, b := Outside(g, entry, visited, sameLoop), Outside(g, entry, {}, sameLoop);
    assert a <= b;
    assert b == a + (b - a);
  }

  lemma GatheringEnds(g: Graph, bars: set<Block>, sameLoop: (Block, Block) -> bool, pr: seq<Region>, of: seq<Block>,
                      visited: set<Block>, lost: set<Block>)
    requires Gathered(g, bars, sameLoop, pr, of, visited, [], None, lost)
    ensures |pr| == |of| && forall i :: 0 <= i < |pr| ==> of[i] in bars && RegionBefore(g, bars, of[i], pr[i])
    ensures AllPassed(g, bars, pr, of, lost) && (lost != {} ==> SomeForked(g, pr, sameLoop)) && NoStrays(g, bars, pr)
  {
    hide RegionBefore, NothingBefore, NoStrays, SomeForked, Predecessors;
    forall i, p | 0 <= i < |pr| && pr[i].Region? && p in Predecessors(g, pr[i].entry)
      ensures p in of || p in lost || NothingBefore(g, bars, p)
    {
      assert Handled(g, bars, visited, [], None, lost, p);
    }
    forall b | b in g.succ && g.succ[b] == []
      ensures b in of || b in lost || NothingBefore(g, bars, b)
    {
      assert Handled(g, bars, visited, [], None, lost, b);
    }
  }

  lemma StrayFound(g: Graph, bars: set<Block>, sameLoop: (Block, Block) -> bool, pr: seq<Region>, of: seq<Block>,
                   visited: set<Block>, stack: seq<Block>, b: Block, lost: set<Block>, r: Region, p: Block)
    requires Gathered(g, bars, sameLoop, pr, of, visited, stack, Some(b), lost) && RegionBefore(g, bars, b, r)
    requires p in Predecessors(g, r.entry) && p !in bars
    ensures !NoStrays(g, bars, pr + [r]) && !EntriesBehindBarriers(g, bars) && |pr| == |of|
    ensures forall i :: 0 <= i < |pr + [r]| ==>
            (of + [b])[i] in bars && RegionBefore(g, bars, (of + [b])[i], (pr + [r])[i])
  {
    hide EntriesBehindBarriers, RegionBefore, NothingBefore, Predecessors;
    assert (pr + [r])[|pr|] == r;
    IsRegion(g, bars, b, r);
    if EntriesBehindBarriers(g, bars) {
      PredecessorsAreBarriers(g, bars, b, r);
    }
  }

  lemma IsRegion(g: Graph, bars: set<Block>, b: Block, r: Region)
    requires RegionBefore(g, bars, b, r)
    ensures r.Region?
  {
  }

  /** Between barriers 0 and 2, block 1 is a loop of its own. */
  const SELF_LOOP := Graph(0, map[0 := [1], 1 := [1, 2], 2 := []])

  lemma InSelfLoop(x: Block)
    ensures InRegion(SELF_LOOP, {0, 2}, x, 2) <==> x == 1
  {
    var g, bars := SELF_LOOP, {0, 2};
    assert (1, 2) in Edges(g);
    ReachSelf(BarrierArcs(g, bars), 2);
    ReachEdge(ClearArcs(g, bars), 1, 2);
    assert Above(g, bars, 2, 2);
    if c :| x !in bars && Above(g, bars, c, 2) && Reach(ClearArcs(g, bars), x, c) {
      var p :| WalkFromTo(BarrierArcs(g, bars), p, c, 2);
      if |p| > 1 {
        LastStep(BarrierArcs(g, bars), p);
      }
      var q :| WalkFromTo(ClearArcs(g, bars), q, x, 2);
      FirstStep(ClearArcs(g, bars), q);
    }
  }

  /** There the entry of the region is its own predecessor, which is no barrier. */
  lemma LatchIsStray()
    ensures var r := Region(1, {1}, {1});
            RegionBefore(SELF_LOOP, {0, 2}, 2, r) && 1 in Predecessors(SELF_LOOP, r.entry)
    ensures !EntriesBehindBarriers(SELF_LOOP, {0, 2})
  {
    hide InRegion;
    forall x {
      InSelfLoop(x);
    }
    assert (0, 1) in Edges(SELF_LOOP) && (1, 1) in Edges(SELF_LOOP);
  }

  // --------------------------------------------------------------------------- what is covered

  /** Barriers lead to each region at one block only. */
  ghost predicate OneWayIn(g: Graph, bars: set<Block>) {
    forall b, t, x, t', x' ::
      t in bars && t' in bars && (t, x) in Edges(g) && (t', x') in Edges(g) && InRegion(g, bars, x, b)
        && InRegion(g, bars, x', b) ==>
        x == x'
  }

  /** What GatherParallelRegions ensures when nothing has been lost. */
  ghost predicate Complete(g: Graph, bars: set<Block>, pr: seq<Region>, of: seq<Block>) {
    && |pr| == |of| && (forall i :: 0 <= i < |pr| ==> RegionBefore(g, bars, of[i], pr[i]))
    && AllPassed(g, bars, pr, of, {})
  }

  /** The last barrier on a walk from the entry leads to a block from which no barrier follows. */
  lemma {:induction false} LastBarrier(g: Graph, bars: set<Block>, p: seq<Block>) returns (t: Block, y: Block)
    requires Walk(Edges(g), p) && p[0] in bars && p[|p| - 1] !in bars
    ensures t in bars && (t, y) in Edges(g) && y !in bars && Reach(ClearArcs(g, bars), y, p[|p| - 1])
    decreases |p|
  {
    hide Edges, Reach;
    LastStep(Edges(g), p);
    var u, x := p[|p| - 2], p[|p| - 1];
    if u in bars {
      t, y := u, x;
      ReachSelf(ClearArcs(g, bars), x);
    } else {
      t, y := LastBarrier(g, bars, p[..|p| - 1]);
      ReachStep(ClearArcs(g, bars), y, u, x);
    }
  }

  lemma RegionUpstream(g: Graph, bars: set<Block>, y: Block, x: Block, b: Block)
    requires y !in bars && Reach(ClearArcs(g, bars), y, x) && InRegion(g, bars, x, b)
    ensures InRegion(g, bars, y, b)
  {
    hide Reach, Above;
    var c :| Above(g, bars, c, b) && Reach(ClearArcs(g, bars), x, c);
    ReachTrans(ClearArcs(g, bars), y, x, c);
  }

  lemma RegionAbove(g: Graph, bars: set<Block>, x: Block, c: Block, b: Block)
    requires InRegion(g, bars, x, c) && Above(g, bars, c, b)
    ensures InRegion(g, bars, x, b)
  {
    hide Reach;
    var d :| Above(g, bars, d, c) && Reach(ClearArcs(g, bars), x, d);
    ReachTrans(BarrierArcs(g, bars), d, c, b);
  }

  /** Before a barrier that follows a reachable block there is a region. */
  lemma SomethingBefore(g: Graph, bars: set<Block>, x: Block, b: Block)
    requires g.entry in bars && Reachable(g, x) && InRegion(g, bars, x, b)
    ensures !NothingBefore(g, bars, b)
  {
    var p :| WalkFromTo(Edges(g), p, g.entry, x);
    hide Edges, Walk, Reach;
    NonEmpty(Edges(g), p);
    var t, y := LastBarrier(g, bars, p);
    RegionUpstream(g, bars, y, x, b);
    LedTo(g, bars, t, y, b);
  }

  lemma LedTo(g: Graph, bars: set<Block>, t: Block, y: Block, b: Block)
    requires t in bars && (t, y) in Edges(g) && InRegion(g, bars, y, b)
    ensures !NothingBefore(g, bars, b)
  {
  }

  lemma WithinEdges(g: Graph, bars: set<Block>, x: Block, b: Block)
    requires InRegion(g, bars, x, b) && Reachable(g, x)
    ensures Reachable(g, b)
  {
    hide Reach;
    var c :| Above(g, bars, c, b) && Reach(ClearArcs(g, bars), x, c);
    SubRelation(ClearArcs(g, bars), Edges(g), x, c);
    SubRelation(BarrierArcs(g, bars), Edges(g), c, b);
    ReachTrans(Edges(g), g.entry, x, c);
    ReachTrans(Edges(g), g.entry, c, b);
  }

  lemma SubRelation(e: Rel, e': Rel, u: Block, v: Block)
    requires Reach(e, u, v) && e <= e'
    ensures Reach(e', u, v)
  {
    var p :| WalkFromTo(e, p, u, v);
    WalkMonotone(e, e', p);
    assert WalkFromTo(e', p, u, v);
  }

  /** The first barrier on a walk from position i on. */
  lemma FirstBarrier(bars: set<Block>, p: seq<Block>, i: nat) returns (k: nat)
    requires i < |p| && p[|p| - 1] in bars
    ensures i <= k < |p| && p[k] in bars && forall j :: i <= j < k ==> p[j] !in bars
  {
    k := i;
    while p[k] !in bars
      invariant i <= k < |p| && forall j :: i <= j < k ==> p[j] !in bars
      decreases |p| - k
    {
      k := k + 1;
    }
  }

  lemma GatheredBefore(g: Graph, bars: set<Block>, pr: seq<Region>, of: seq<Block>, i: nat, c: Block)
    requires Complete(g, bars, pr, of) && OneWayIn(g, bars) && i < |pr| && c in bars
    requires exists y :: (c, y) in Edges(g) && InRegion(g, bars, y, of[i])
    ensures c in of || NothingBefore(g, bars, c)
  {
    hide InRegion, NothingBefore;
    var y :| (c, y) in Edges(g) && InRegion(g, bars, y, of[i]);
    var t :| t in bars && (t, pr[i].entry) in Edges(g);
    assert InRegion(g, bars, pr[i].entry, of[i]);
    assert y == pr[i].entry;
    assert c in Predecessors(g, y);
  }

  lemma BarrierIsOf(g: Graph, bars: set<Block>, of: seq<Block>, c: Block)
    requires c in of
    ensures exists i :: 0 <= i < |of| && Above(g, bars, c, of[i])
  {
    var i :| 0 <= i < |of| && of[i] == c;
    ReachSelf(BarrierArcs(g, bars), c);
    assert Above(g, bars, c, of[i]);
  }

  /** Every barrier from which an exit is reached, and before which there is something, has its
      region, or lies contiguous above a barrier that has. */
  lemma {:induction false} BarrierCovered(g: Graph, bars: set<Block>, pr: seq<Region>, of: seq<Block>, x: Block,
                                          p: seq<Block>)
    requires Complete(g, bars, pr, of) && OneWayIn(g, bars) && g.entry in bars && Reachable(g, x)
    requires Walk(Edges(g), p) && p[0] in bars && p[|p| - 1] in bars && InRegion(g, bars, x, p[0])
    requires p[|p| - 1] in g.succ && g.succ[p[|p| - 1]] == []
    ensures exists i :: 0 <= i < |of| && Above(g, bars, p[0], of[i])
    decreases |p|
  {
    hide Complete, OneWayIn, NothingBefore, Reachable, Edges, InRegion, Walk, Above;
    NonEmpty(Edges(g), p);
    var c := p[0];
    SomethingBefore(g, bars, x, c);
    if |p| == 1 {
      ExitPassed(g, bars, pr, of, c);
      BarrierIsOf(g, bars, of, c);
    } else {
      FirstStep(Edges(g), p);
      var k := FirstBarrier(bars, p, 1);
      WalkSplit(Edges(g), p, k);
      if k == 1 {
        AboveArc(g, bars, c, p[1]);
        RegionAbove(g, bars, x, c, p[1]);
        BarrierCovered(g, bars, pr, of, x, p[1..]);
        var i :| 0 <= i < |of| && Above(g, bars, p[1], of[i]);
        AboveTrans(g, bars, c, p[1], of[i]);
      } else {
        BetweenBarriers(g, bars, p[..k + 1]);
        var y := p[1];
        assert p[..k + 1][1] == y && p[..k + 1][k] == p[k];
        ReachableNext(g, bars, x, c, y);
        BarrierCovered(g, bars, pr, of, y, p[k..]);
        var i :| 0 <= i < |of| && Above(g, bars, p[k], of[i]);
        RegionAbove(g, bars, y, p[k], of[i]);
        SameLength(g, bars, pr, of);
        GatheredBefore(g, bars, pr, of, i, c);
        BarrierIsOf(g, bars, of, c);
      }
    }
  }

  lemma SameLength(g: Graph, bars: set<Block>, pr: seq<Region>, of: seq<Block>)
    requires Complete(g, bars, pr, of)
    ensures |pr| == |of|
  {
  }

  lemma ExitPassed(g: Graph, bars: set<Block>, pr: seq<Region>, of: seq<Block>, c: Block)
    requires Complete(g, bars, pr, of) && c in g.succ && g.succ[c] == []
    ensures c in of || NothingBefore(g, bars, c)
  {
    hide NothingBefore;
  }

  lemma AboveArc(g: Graph, bars: set<Block>, c: Block, b: Block)
    requires c in bars && b in bars && (c, b) in Edges(g)
    ensures Above(g, bars, c, b)
  {
    ReachEdge(BarrierArcs(g, bars), c, b);
  }

  lemma AboveTrans(g: Graph, bars: set<Block>, c: Block, b: Block, a: Block)
    requires Above(g, bars, c, b) && Above(g, bars, b, a)
    ensures Above(g, bars, c, a)
  {
    ReachTrans(BarrierArcs(g, bars), c, b, a);
  }

  lemma ReachableNext(g: Graph, bars: set<Block>, x: Block, c: Block, y: Block)
    requires Reachable(g, x) && InRegion(g, bars, x, c) && (c, y) in Edges(g)
    ensures Reachable(g, y)
  {
    hide Edges, Reach, InRegion;
    WithinEdges(g, bars, x, c);
    ReachStep(Edges(g), g.entry, c, y);
  }

  /** Coverage. When nothing has been lost and barriers lead to each region at one block only,
      every block of the kernel that is reached and reaches an exit, barriers apart, lies in one
      of the regions. */
  lemma RegionsCover(g: Graph, bars: set<Block>, pr: seq<Region>, of: seq<Block>, x: Block, p: seq<Block>)
    requires Complete(g, bars, pr, of) && OneWayIn(g, bars) && g.entry in bars
    requires forall b :: b in g.succ && g.succ[b] == [] ==> b in bars
    requires x !in bars && Reachable(g, x)
    requires Walk(Edges(g), p) && p[0] == x && p[|p| - 1] in g.succ && g.succ[p[|p| - 1]] == []
    ensures exists i :: 0 <= i < |pr| && pr[i].Region? && x in pr[i].blocks
  {
    hide OneWayIn, Reachable, Edges, InRegion, Walk, Above, Complete;
    NonEmpty(Edges(g), p);
    var k := FirstBarrier(bars, p, 0);
    WalkSplit(Edges(g), p, k);
    ClearWalk(g, bars, p[..k + 1]);
    RegionOfWalk(g, bars, p[..k + 1]);
    BarrierCovered(g, bars, pr, of, x, p[k..]);
    var i :| 0 <= i < |of| && Above(g, bars, p[k], of[i]);
    RegionAbove(g, bars, x, p[k], of[i]);
    InGathered(g, bars, pr, of, i, x);
  }

  lemma RegionOfWalk(g: Graph, bars: set<Block>, p: seq<Block>)
    requires Walk(ClearArcs(g, bars), p) && p[0] !in bars
    ensures InRegion(g, bars, p[0], p[|p| - 1])
  {
    var b := p[|p| - 1];
    ReachSelf(BarrierArcs(g, bars), b);
    assert WalkFromTo(ClearArcs(g, bars), p, p[0], b);
    assert Above(g, bars, b, b) && Reach(ClearArcs(g, bars), p[0], b);
  }

  lemma InGathered(g: Graph, bars: set<Block>, pr: seq<Region>, of: seq<Block>, i: nat, x: Block)
    requires Complete(g, bars, pr, of) && i < |of| && InRegion(g, bars, x, of[i])
    ensures |pr| == |of| && pr[i].Region? && x in pr[i].blocks
  {
    hide InRegion, AllPassed;
  }
}
