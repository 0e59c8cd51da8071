/** What the gathering comes to, whatever the order in which it takes predecessors: when every
    region is gathered once, when regions lie apart, and graphs on which it goes wrong. */
module GatheringRuns {
  import opened Graphs
  import opened Regions
  import opened Gathering
  import opened Options

  // ---------------------------------------------------------------------------- each once

  /** No barrier leads to two blocks. */
  ghost predicate OneStart(g: Graph, bars: set<Block>) {
    forall b, x, y :: b in bars && (b, x) in Edges(g) && (b, y) in Edges(g) && x !in bars && y !in bars ==> x == y
  }

  /** A region may be asked for before b: it is an exit, or leads to a block that is no barrier. */
  ghost predicate EndsRegion(g: Graph, bars: set<Block>, b: Block) {
    b in bars && ((b in g.succ && g.succ[b] == []) || exists x :: (b, x) in Edges(g) && x !in bars)
  }

  /** No block lies before two such barriers. */
  ghost predicate OneEnd(g: Graph, bars: set<Block>) {
    forall x, b, c ::
      && EndsRegion(g, bars, b) && EndsRegion(g, bars, c)
      && InRegion(g, bars, x, b) && InRegion(g, bars, x, c) ==>
        b == c
  }

  /** p waits because it leads to the entry of a region that has been formed, or is an exit. */
  ghost predicate Awaited(g: Graph, bars: set<Block>, a: Gather, p: Block) {
    && p in bars
    && ((p in g.succ && g.succ[p] == []) || exists i ::
       0 <= i < |a.pr| && a.pr[i].Region? && (p, a.pr[i].entry) in Edges(g))
  }

  ghost predicate AllFormed(g: Graph, bars: set<Block>, a: Gather) {
    && |a.pr| == |a.of| && (forall b :: b in a.visited <==> b in a.of)
    && forall i :: 0 <= i < |a.pr| ==> EndsRegion(g, bars, a.of[i]) && RegionBefore(g, bars, a.of[i], a.pr[i])
  }

  ghost predicate AllAwaited(g: Graph, bars: set<Block>, a: Gather) {
    (forall p :: p in a.stack ==> Awaited(g, bars, a, p)) && (a.current.Some? ==> Awaited(g, bars, a, a.current.value))
  }

  /** No barrier is visited, at hand or waiting twice. */
  predicate EachOnce(a: Gather) {
    && (forall p :: p in a.stack ==> p !in a.of && a.current != Some(p))
    && (a.current.Some? ==> a.current.value !in a.of)
  }

  ghost predicate InOrder(g: Graph, bars: set<Block>, a: Gather) {
    AllFormed(g, bars, a) && AllAwaited(g, bars, a) && EachOnce(a) && NoRepeats(a.stack) && NoRepeats(a.of)
  }

  /** What is picked comes from the order, each barrier once. */
  ghost predicate PickedOnce(c: Picked, order: seq<Block>) {
    && NoRepeats(c.pushed) && (forall p :: p in c.pushed ==> p in order && c.inLoop != Some(p) && c.outside != Some(p))
    && (c.inLoop.Some? ==> c.inLoop.value in order && c.outside != c.inLoop)
       && (c.outside.Some? ==> c.outside.value in order)
  }

  lemma {:induction false} PicksOnce(entry: Block, sameLoop: (Block, Block) -> bool, order: seq<Block>)
    requires NoRepeats(order)
    ensures PickedOnce(PickAll(entry, sameLoop, order), order)
    decreases |order|
  {
    if order != [] {
      var init, p := order[..|order| - 1], order[|order| - 1];
      PicksOnce(entry, sameLoop, init);
      assert p !in init;
      var c := PickAll(entry, sameLoop, init);
      assert forall q :: q in init ==> q in order;
    }
  }

  lemma PushesOnce(c: Picked, order: seq<Block>)
    requires PickedOnce(c, order)
    ensures NoRepeats(PushedOf(c)) && forall p :: p in PushedOf(c) ==> p in order && NextOf(c) != Some(p)
    ensures NextOf(c).Some? ==> NextOf(c).value in order
  {
  }

  lemma StillAwaited(g: Graph, bars: set<Block>, a: Gather, b: Gather, p: Block)
    requires Awaited(g, bars, a, p) && a.pr <= b.pr
    ensures Awaited(g, bars, b, p)
  {
    if i :| 0 <= i < |a.pr| && a.pr[i].Region? && (p, a.pr[i].entry) in Edges(g) {
      assert b.pr[i] == a.pr[i];
    }
  }

  /** A predecessor of the new region's entry does not wait already: the region whose entry it
      leads to as well would have been the same. */
  lemma NotWaiting(g: Graph, bars: set<Block>, a: Gather, x: Block, r: Region, p: Block)
    requires InOrder(g, bars, a) && a.current == Some(x) && RegionBefore(g, bars, x, r) && OneStart(g, bars)
             && OneEnd(g, bars)
    requires p in Predecessors(g, r.entry)
    ensures p !in a.stack
  {
    hide InRegion, Edges;
    SuccessorEdge(g, p, r.entry);
    EntryIsNone(g, bars, x, r);
    assert Awaited(g, bars, a, x);
    EndsOne(g, bars, a, x);
    if p in a.stack {
      assert Awaited(g, bars, a, p);
      LeadsOn(g, p, r.entry);
      var i :| 0 <= i < |a.pr| && a.pr[i].Region? && (p, a.pr[i].entry) in Edges(g);
      assert RegionBefore(g, bars, a.of[i], a.pr[i]);
      EntryIsNone(g, bars, a.of[i], a.pr[i]);
    }
  }

  lemma LeadsOn(g: Graph, p: Block, x: Block)
    requires (p, x) in Edges(g)
    ensures p in g.succ && g.succ[p] != []
  {
  }

  lemma EntryIsNone(g: Graph, bars: set<Block>, x: Block, r: Region)
    requires RegionBefore(g, bars, x, r)
    ensures r.Region? && r.entry !in bars && InRegion(g, bars, r.entry, x)
  {
    assert r.entry in r.blocks;
  }

  lemma EndsOne(g: Graph, bars: set<Block>, a: Gather, x: Block)
    requires Awaited(g, bars, a, x) && AllFormed(g, bars, a)
    ensures EndsRegion(g, bars, x)
  {
    hide InRegion, Edges;
    if i :| 0 <= i < |a.pr| && a.pr[i].Region? && (x, a.pr[i].entry) in Edges(g) {
      EntryIsNone(g, bars, a.of[i], a.pr[i]);
    }
  }

  lemma FormsInOrder(g: Graph, bars: set<Block>, sameLoop: (Block, Block) -> bool, a: Gather, x: Block, r: Region,
                     order: seq<Block>, b: Gather)
    requires InOrder(g, bars, a) && a.current == Some(x) && Forms(g, bars, sameLoop, a, x, r, order, b)
    requires OneStart(g, bars) && OneEnd(g, bars) && EntriesBehindBarriers(g, bars)
    ensures InOrder(g, bars, b)
  {
    hide RegionBefore, InRegion, Edges, OneStart, OneEnd, EntriesBehindBarriers, Awaited, EndsRegion, PickAll;
    hide PickedOnce;
    hide Predecessors, PushedOf, NextOf;
    EntryIsNone(g, bars, x, r);
    var c := PickAll(r.entry, sameLoop, order);
    PicksOnce(r.entry, sameLoop, order);
    PushesOnce(c, order);
    PredecessorsAreBarriers(g, bars, x, r);
    EndsOne(g, bars, a, x);
    assert AllFormed(g, bars, b);
    forall p | p in order
      ensures p !in a.stack && p !in a.of && p != x && Awaited(g, bars, b, p)
    {
      NotWaiting(g, bars, a, x, r, p);
      AwaitsNew(g, bars, b, r, p);
    }
    forall p | p in a.stack
      ensures Awaited(g, bars, b, p)
    {
      StillAwaited(g, bars, a, b, p);
    }
    assert forall p :: p in b.stack ==> p in a.stack || p in PushedOf(c);
    TwoWithout(a.stack, PushedOf(c));
    TwoWithout(a.of, [x]);
    assert EachOnce(b);
    assert AllAwaited(g, bars, b);
  }

  lemma TwoWithout(s: seq<Block>, t: seq<Block>)
    requires NoRepeats(s) && NoRepeats(t) && forall p :: p in t ==> p !in s
    ensures NoRepeats(s + t)
  {
    forall i, j | 0 <= i < j < |s + t|
      ensures (s + t)[i] != (s + t)[j]
    {
      if i < |s| <= j {
        assert t[j - |s|] in t;
      }
    }
  }

  lemma AwaitsNew(g: Graph, bars: set<Block>, b: Gather, r: Region, p: Block)
    requires b.pr != [] && b.pr[|b.pr| - 1] == r && r.Region? && p in Predecessors(g, r.entry) && p in bars
    ensures Awaited(g, bars, b, p)
  {
    SuccessorEdge(g, p, r.entry);
  }

  /** Along every run of the gathering no barrier comes up twice. */
  lemma {:induction false} RunsInOrder(g: Graph, bars: set<Block>, sameLoop: (Block, Block) -> bool, t: seq<Gather>)
    requires GatherRun(g, bars, sameLoop, t) && OneStart(g, bars) && OneEnd(g, bars) && EntriesBehindBarriers(g, bars)
    requires forall b :: b in g.succ && g.succ[b] == [] ==> b in bars
    ensures InOrder(g, bars, t[|t| - 1])
    decreases |t|
  {
    hide RegionBefore, InRegion, Edges, OneStart, OneEnd, EntriesBehindBarriers, EndsRegion, NothingBefore, Forms;
    hide Predecessors;
    if |t| > 1 {
      var a, b := t[|t| - 2], t[|t| - 1];
      RunsInOrder(g, bars, sameLoop, t[..|t| - 1]);
      match a.current {
        case None => PopsInOrder(g, bars, a, b);
        case Some(x) =>
          if r, order :| Forms(g, bars, sameLoop, a, x, r, order, b) {
            FormsInOrder(g, bars, sameLoop, a, x, r, order, b);
          } else {
            LeavesInOrder(g, bars, a, b);
          }
      }
    }
  }

  lemma PopsInOrder(g: Graph, bars: set<Block>, a: Gather, b: Gather)
    requires InOrder(g, bars, a) && a.current.None? && a.stack != []
    requires b == a.(stack := a.stack[..|a.stack| - 1], current := Some(a.stack[|a.stack| - 1]))
    ensures InOrder(g, bars, b)
  {
    hide RegionBefore, EndsRegion, Edges;
    forall p | p in b.stack
      ensures p in a.stack && b.current != Some(p) && Awaited(g, bars, b, p)
    {
      StillAwaited(g, bars, a, b, p);
    }
    StillAwaited(g, bars, a, b, b.current.value);
  }

  lemma LeavesInOrder(g: Graph, bars: set<Block>, a: Gather, b: Gather)
    requires InOrder(g, bars, a) && b == a.(current := None)
    ensures InOrder(g, bars, b)
  {
    hide RegionBefore, EndsRegion, Edges;
    forall p | p in b.stack
      ensures Awaited(g, bars, b, p)
    {
      StillAwaited(g, bars, a, b, p);
    }
  }

  ghost predicate Apart(pr: seq<Region>) {
    forall i, j, x :: 0 <= i < j < |pr| && pr[i].Region? && pr[j].Region? && x in pr[i].blocks ==> x !in pr[j].blocks
  }

  /** Where no barrier leads to two blocks and no block lies before two barriers, every region is
      gathered once, and regions have no block in common. */
  lemma RegionsLieApart(g: Graph, bars: set<Block>, sameLoop: (Block, Block) -> bool, t: seq<Gather>, pr: seq<Region>,
                        of: seq<Block>)
    requires GatheredBy(g, bars, sameLoop, t, pr, of) && OneStart(g, bars) && OneEnd(g, bars)
             && EntriesBehindBarriers(g, bars)
    requires forall b :: b in g.succ && g.succ[b] == [] ==> b in bars
    ensures NoRepeats(of) && Apart(pr)
  {
    hide InRegion, Edges, OneStart, EntriesBehindBarriers, EndsRegion, GatherRun, Awaited;
    RunsInOrder(g, bars, sameLoop, t);
    forall i, j, x | 0 <= i < j < |pr| && pr[i].Region? && pr[j].Region? && x in pr[i].blocks
      ensures x !in pr[j].blocks
    {
      assert RegionBefore(g, bars, of[i], pr[i]) && RegionBefore(g, bars, of[j], pr[j]);
      assert InRegion(g, bars, x, of[i]) && of[i] != of[j];
    }
  }

  /** A region that barriers lead to at one block is entered there, from barriers, and nowhere
      else. */
  lemma EnteredAtEntry(g: Graph, bars: set<Block>, b: Block, r: Region, u: Block, v: Block)
    requires RegionBefore(g, bars, b, r) && OneWayIn(g, bars) && (u, v) in Edges(g) && v in r.blocks && u !in r.blocks
    ensures v == r.entry && u in bars
  {
    hide OneWayIn, Reach;
    assert InRegion(g, bars, v, b) && InRegion(g, bars, r.entry, b);
    if u !in bars {
      var c :| Above(g, bars, c, b) && Reach(ClearArcs(g, bars), v, c);
      ReachEdge(ClearArcs(g, bars), u, v);
      ReachTrans(ClearArcs(g, bars), u, v, c);
    }
    OneIn(g, bars, b, r, u, v);
  }

  lemma OneIn(g: Graph, bars: set<Block>, b: Block, r: Region, u: Block, v: Block)
    requires RegionBefore(g, bars, b, r) && OneWayIn(g, bars) && (u, v) in Edges(g) && u in bars
             && InRegion(g, bars, v, b)
    ensures v == r.entry
  {
    hide InRegion, Edges;
    assert r.entry in r.blocks;
  }

  // --------------------------------------------------------------------------- all of it

  ghost predicate LeadsOut(g: Graph, x: Block, p: seq<Block>) {
    |p| > 0 && p[0] == x && p[|p| - 1] in g.succ && g.succ[p[|p| - 1]] == []
  }

  /** Block x is reached, is no barrier and is on a way to an exit. */
  ghost predicate OnAWay(g: Graph, bars: set<Block>, x: Block) {
    && x !in bars && Reachable(g, x)
    && exists p :: Walk(Edges(g), p) && LeadsOut(g, x, p)
  }

  /** Gathering on a function that meets the conditions, all of which are about its graph: every
      block on a way through the function lies in a region, and if in addition barriers and
      regions are one to one, no region comes twice and none overlap. */
  method GatherAll(g: Graph, bars: set<Block>, sameLoop: (Block, Block) -> bool)
    returns (pr: seq<Region>, ghost of: seq<Block>)
    requires Valid(g) && bars <= g.succ.Keys && Acyclic(BarrierArcs(g, bars)) && g.entry in bars
    requires forall b :: b in g.succ && g.succ[b] == [] ==> b in bars
    requires EntriesBehindBarriers(g, bars) && NoForks(g, bars, sameLoop) && OneWayIn(g, bars)
    ensures |pr| == |of| && forall i :: 0 <= i < |pr| ==> of[i] in bars && RegionBefore(g, bars, of[i], pr[i])
    ensures forall x :: OnAWay(g, bars, x) ==> exists i :: 0 <= i < |pr| && pr[i].Region? && x in pr[i].blocks
    ensures OneStart(g, bars) && OneEnd(g, bars) ==> NoRepeats(of) && Apart(pr)
  {
    hide Valid, Acyclic, EntriesBehindBarriers, NoForks, OneWayIn, OneStart, OneEnd, RegionBefore, GatheredBy, Complete;
    hide Edges;
    hide NoStrays, AllPassed, SomeForked, NoRepeats, Apart, Reachable, Walk;
    var stray;
    ghost var lost, t;
    pr, stray, of, lost, t := GatherParallelRegions(g, bars, sameLoop);
    forall x | OnAWay(g, bars, x)
      ensures exists i :: 0 <= i < |pr| && pr[i].Region? && x in pr[i].blocks
    {
      var p :| Walk(Edges(g), p) && LeadsOut(g, x, p);
      RegionsCover(g, bars, pr, of, x, p);
    }
    if OneStart(g, bars) && OneEnd(g, bars) {
      RegionsLieApart(g, bars, sameLoop, t, pr, of);
    }
  }
}
