/** The loops around a region: one for each dimension, tested at the bottom.

    Each call builds a loop around what is between two blocks, so that three calls make a nest
    with dimension 0 innermost. Predecessors that the entry dominates are left alone; unless there
    are such predecessors outside the region, every run that comes to the nest from outside visits
    the region once per local id, in the order of the flat indices, and then goes where the
    region went before. */
module LoopNest {
  import opened Graphs
  import opened FlatIndex

  // --------------------------------------------------------------------- building one loop

  function Replaced(s: seq<Block>, from: Block, to: Block): (r: seq<Block>)
    ensures |r| == |s| && forall i :: 0 <= i < |s| ==> r[i] == if s[i] == from then to else s[i]
  {
    seq(|s|, i requires 0 <= i < |s| => if s[i] == from then to else s[i])
  }

  /** The four blocks of a loop. */
  datatype Loop = Loop(preheader: Block, header: Block, latch: Block, end: Block)

  function NewBlocks(l: Loop): set<Block> {
    {l.preheader, l.header, l.latch, l.end}
  }

  predicate Distinct(l: Loop) {
    && l.preheader != l.header && l.preheader != l.latch && l.preheader != l.end
    && l.header != l.latch && l.header != l.end && l.latch != l.end
  }

  /** Where block b leads once the predecessors of `entry` have been redirected: those that the
      entry dominates go on to reach it directly. */
  ghost function Redirection(g: Graph, entry: Block, to: Block, b: Block, s: seq<Block>): seq<Block> {
    if Dominates(g, entry, b) then s else Replaced(s, entry, to)
  }

  /** The graph with a loop from `entry` to `exit`. */
  ghost predicate Wrapped(g: Graph, h: Graph, entry: Block, exit: Block, l: Loop)
    requires exit in g.succ && |g.succ[exit]| > 0
  {
    var after := g.succ[exit][0];
    && h.entry == g.entry && h.succ.Keys == g.succ.Keys + NewBlocks(l)
    && h.succ[l.preheader] == [l.header] && h.succ[l.header] == [entry]
    && h.succ[l.latch] == [l.header, l.end] && h.succ[l.end] == [after]
    && h.succ[exit] == [l.latch]
    && (forall b :: b in g.succ && b != exit ==>
          var s := Redirection(g, entry, l.preheader, b, g.succ[b]);
          h.succ[b] == if b == entry then Replaced(s, after, l.latch) else s)
  }

  class LoopInserter {
    var g: Graph
    var next: Block   // names of new blocks start here

    ghost predicate Fresh()
      reads this
    {
      Valid(g) && forall b :: b in g.succ ==> b < next
    }

    constructor (f: Graph, firstFree: Block)
      requires Valid(f) && forall b :: b in f.succ ==> b < firstFree
      ensures Fresh() && g == f && next == firstFree
    {
      g, next := f, firstFree;
    }

    /** Builds one loop around what is between two blocks. */
    method BuildDWLoopOverRegion(entry: Block, exit: Block) returns (l: Loop)
      requires Fresh() && entry in g.succ && exit in g.succ && |g.succ[exit]| == 1 && g.succ[exit][0] != entry
      modifies this
      ensures Fresh() && Wrapped(old(g), g, entry, exit, l) && Distinct(l)
      ensures NewBlocks(l) !! old(g).succ.Keys
    {
      hide Wrapped, Replaced, Dominates, Valid;
      ghost var g0 := g;
      SuccessorIn(g, exit);
      var after := g.succ[exit][0];
      l := Loop(next + 1, next + 2, next, next + 3);
      next := next + 4;
      var toLatch: seq<Block> := Replaced(g.succ[exit], after, l.latch);
      var succ := RedirectPredecessors(g.succ[exit := toLatch], entry, l.preheader);
      ghost var redirected := succ;
      succ := succ[l.header := [entry]];
      succ := succ[l.preheader := [l.header]];
      succ := succ[l.latch := [l.header, l.end]];
      var body: seq<Block> := Replaced(succ[entry], after, l.latch);
      succ := succ[entry := body];
      succ := succ[l.end := [after]];
      IsWrapped(g0, redirected, entry, exit, l);
      g := Graph(g.entry, succ);
      WrappedValid(g0, g, entry, exit, l);
    }

    /** Dimension 0 first, around the region; then 1 and 2, each around the loop before. The nest
        is entered at its top only exactly if the entry dominates no predecessor outside. */
    method BuildNest(r: ParallelRegion, sizes: Triple) returns (n: Nest)
      requires Fresh() && RegionOk(g, r)
      modifies this
      ensures Fresh() && NestOf(old(g), n) && n.g == g && n.r == r && n.sizes == sizes
      ensures EnteredAtTop(n) <==> !DominatedOutside(old(g), r)
    {
      hide Wrapped, NestOf, EnteredAtTop, DominatedOutside, Replaced, Valid, RegionOk, Redirection;
      ghost var g0 := g;
      RegionFacts(g, r);
      SuccessorIn(g, r.exit);
      var after := g.succ[r.exit][0];
      var l0 := BuildDWLoopOverRegion(r.entry, r.exit);
      ghost var g1 := g;
      WrappedFacts(g0, g1, r.entry, r.exit, l0);
      var l1 := BuildDWLoopOverRegion(l0.preheader, l0.end);
      ghost var g2 := g;
      WrappedFacts(g1, g2, l0.preheader, l0.end, l1);
      var l2 := BuildDWLoopOverRegion(l1.preheader, l1.end);
      WrappedFacts(g2, g, l1.preheader, l1.end, l2);
      n := Nest(g, r, l0, l1, l2, after, sizes);
      IsNest(g0, g1, g2, g, r, l0, l1, l2, sizes);
      EnteredIff(g0, n);
    }

    /** All predecessors but those that the entry dominates get the preheader for the entry. */
    method RedirectPredecessors(succ0: map<Block, seq<Block>>, entry: Block, to: Block)
      returns (succ: map<Block, seq<Block>>)
      requires Valid(g)
      ensures Redirected(g, succ0, succ, entry, to)
    {
      hide Dominates, Valid;
      succ := succ0;
      var todo := set b | b in succ && entry in succ[b];
      while todo != {}
        invariant todo <= succ0.Keys == succ.Keys
        invariant forall b :: b in todo ==> succ[b] == succ0[b]
        invariant forall b :: b in succ0 && b !in todo ==> succ[b] == Redirection(g, entry, to, b, succ0[b])
        decreases todo
      {
        var p :| p in todo;
        var dominated := DominatesQuery(g, entry, p);
        if !dominated {
          var s: seq<Block> := Replaced(succ[p], entry, to);
          succ := succ[p := s];
        }
        todo := todo - {p};
      }
    }
  }

  ghost predicate Redirected(g: Graph, succ0: map<Block, seq<Block>>, succ: map<Block, seq<Block>>, entry: Block,
                             to: Block) {
    && succ.Keys == succ0.Keys
    && forall b :: b in succ0 ==> succ[b] == Redirection(g, entry, to, b, succ0[b])
  }

  lemma IsWrapped(g: Graph, succ: map<Block, seq<Block>>, entry: Block, exit: Block, l: Loop)
    requires entry in g.succ && exit in g.succ && |g.succ[exit]| == 1 && g.succ[exit][0] != entry
    requires l.latch != entry && Distinct(l) && NewBlocks(l) !! g.succ.Keys
    requires var toLatch: seq<Block> := Replaced(g.succ[exit], g.succ[exit][0], l.latch);
             Redirected(g, g.succ[exit := toLatch], succ, entry, l.preheader)
    ensures var after := g.succ[exit][0];
            var body: seq<Block> := Replaced(succ[entry], after, l.latch);
            Wrapped(g, Graph(g.entry, succ[l.header := [entry]][l.preheader := [l.header]][l.latch := [l.header, l.end]]
                                          [entry := body][l.end := [after]]),
                    entry, exit, l)
  {
    hide Dominates;
    var after := g.succ[exit][0];
    assert Replaced(g.succ[exit], after, l.latch) == [l.latch];
    assert Replaced([l.latch], entry, l.preheader) == [l.latch] && Replaced([l.latch], after, l.latch) == [l.latch];
  }

  lemma SuccessorIn(g: Graph, b: Block)
    requires Valid(g) && b in g.succ
    ensures forall i :: 0 <= i < |g.succ[b]| ==> g.succ[b][i] in g.succ
  {
  }

  lemma WrappedValid(g: Graph, h: Graph, entry: Block, exit: Block, l: Loop)
    requires Valid(g) && entry in g.succ && exit in g.succ && |g.succ[exit]| > 0 && Wrapped(g, h, entry, exit, l)
    ensures Valid(h)
  {
    hide Dominates;
  }

  lemma WrappedFacts(g: Graph, h: Graph, entry: Block, exit: Block, l: Loop)
    requires exit in g.succ && |g.succ[exit]| > 0 && Wrapped(g, h, entry, exit, l) && NewBlocks(l) !! g.succ.Keys
    ensures h.succ.Keys == g.succ.Keys + NewBlocks(l)
    ensures h.succ[l.preheader] == [l.header] && h.succ[l.header] == [entry]
    ensures h.succ[l.latch] == [l.header, l.end] && h.succ[l.end] == [g.succ[exit][0]] && h.succ[exit] == [l.latch]
  {
    hide Dominates;
  }

  // ------------------------------------------------------------------------- the nest

  /** Entered at its entry and left, for one block, at its exit only; or, which the pass also
      redirects, straight from the entry for that same block. */
  ghost predicate RegionOk(g: Graph, r: ParallelRegion) {
    && r.entry in r.blocks && r.exit in r.blocks && r.blocks <= g.succ.Keys
    && |g.succ[r.exit]| == 1 && g.succ[r.exit][0] !in r.blocks
    && (forall b, s :: b in r.blocks && s in g.succ[b] ==>
          s in r.blocks || ((b == r.exit || b == r.entry) && s == g.succ[r.exit][0]))
    && (forall b, s :: b in g.succ && b !in r.blocks && s in g.succ[b] && s in r.blocks ==> s == r.entry)
    && (g.entry in r.blocks ==> g.entry == r.entry)
  }

  /** Some predecessor of the entry outside the region can be reached and is dominated by it, as is
      the latch of a surrounding loop that the entry heads. */
  ghost predicate DominatedOutside(g: Graph, r: ParallelRegion) {
    exists p :: p in g.succ && p !in r.blocks && r.entry in g.succ[p] && Reachable(g, p) && Dominates(g, r.entry, p)
  }

  datatype Nest = Nest(g: Graph, r: ParallelRegion, l0: Loop, l1: Loop, l2: Loop, after: Block, sizes: Triple)

  function LoopBlocks(n: Nest): set<Block> {
    NewBlocks(n.l0) + NewBlocks(n.l1) + NewBlocks(n.l2)
  }

  /** How the blocks of the nest are connected. */
  ghost predicate Connected(n: Nest) {
    var succ := n.g.succ;
    && Distinct(n.l0) && Distinct(n.l1) && Distinct(n.l2)
    && NewBlocks(n.l0) !! NewBlocks(n.l1) && NewBlocks(n.l0) !! NewBlocks(n.l2) && NewBlocks(n.l1) !! NewBlocks(n.l2)
    && LoopBlocks(n) !! n.r.blocks && LoopBlocks(n) + n.r.blocks + {n.after} <= succ.Keys
    && n.after !in LoopBlocks(n) + n.r.blocks && n.r.entry in n.r.blocks && n.r.exit in n.r.blocks
    && succ[n.l2.preheader] == [n.l2.header] && succ[n.l2.header] == [n.l1.preheader]
    && succ[n.l1.preheader] == [n.l1.header] && succ[n.l1.header] == [n.l0.preheader]
    && succ[n.l0.preheader] == [n.l0.header] && succ[n.l0.header] == [n.r.entry]
    && succ[n.l0.latch] == [n.l0.header, n.l0.end] && succ[n.l0.end] == [n.l1.latch]
    && succ[n.l1.latch] == [n.l1.header, n.l1.end] && succ[n.l1.end] == [n.l2.latch]
    && succ[n.l2.latch] == [n.l2.header, n.l2.end] && succ[n.l2.end] == [n.after]
    && succ[n.r.exit] == [n.l0.latch]
    && (forall b, s :: b in n.r.blocks && s in succ[b] ==> s in n.r.blocks || s == n.l0.latch)
    && (forall b, s :: b in succ && b !in n.r.blocks && b !in LoopBlocks(n) && s in succ[b] ==>
          s == n.l2.preheader || s == n.r.entry || (s !in n.r.blocks && s !in LoopBlocks(n)))
  }

  /** From outside, edges lead to the outermost preheader only, from wherever a run can be. */
  ghost predicate EnteredAtTop(n: Nest) {
    forall b :: Reachable(n.g, b) && b in n.g.succ && b !in n.r.blocks && b !in LoopBlocks(n) ==>
           n.r.entry !in n.g.succ[b]
  }

  /** Where a block of the region leads in the nest: for what came behind the region, to the
      innermost latch. */
  function InsideNest(n: Nest, b: Block, s: seq<Block>): seq<Block> {
    if b == n.r.exit || b == n.r.entry then Replaced(s, n.after, n.l0.latch) else s
  }

  /** The nest has been built around a region of graph g. */
  ghost predicate NestOf(g: Graph, n: Nest) {
    && Valid(g) && RegionOk(g, n.r) && Connected(n) && n.after == g.succ[n.r.exit][0] && n.g.entry == g.entry
    && n.g.succ.Keys == g.succ.Keys + LoopBlocks(n) && LoopBlocks(n) !! g.succ.Keys
    && (forall b :: b in g.succ && b !in n.r.blocks ==>
          n.g.succ[b] == Redirection(g, n.r.entry, n.l2.preheader, b, g.succ[b]))
    && (forall b :: b in n.r.blocks ==> n.g.succ[b] == InsideNest(n, b, g.succ[b]))
  }

  ghost predicate NestOk(n: Nest) {
    Connected(n) && EnteredAtTop(n)
  }

  /** Around a loop that is there already, the blocks of the first loop and of the region keep
      their successors. */
  lemma WrappedKeeps(g: Graph, h: Graph, entry: Block, exit: Block, l: Loop, b: Block)
    requires exit in g.succ && |g.succ[exit]| == 1 && Wrapped(g, h, entry, exit, l)
    requires b in g.succ && b != exit && entry !in g.succ[b] && (b == entry ==> g.succ[exit][0] !in g.succ[b])
    ensures b in h.succ && h.succ[b] == g.succ[b]
  {
    hide Dominates;
    assert Replaced(g.succ[b], entry, l.preheader) == g.succ[b];
  }

  lemma WrappedOutside(g: Graph, h: Graph, entry: Block, exit: Block, l: Loop, b: Block)
    requires exit in g.succ && |g.succ[exit]| == 1 && Wrapped(g, h, entry, exit, l)
    requires b in g.succ && b != exit && b != entry
    ensures b in h.succ && h.succ[b] == Redirection(g, entry, l.preheader, b, g.succ[b])
  {
    hide Dominates;
  }

  // ------------------------------------------------------------- dominance, loop after loop

  /** The region is entered at its entry only, so that a walk around the entry stays outside. */
  lemma {:induction false} WalkOutside(g: Graph, r: ParallelRegion, p: seq<Block>)
    requires RegionOk(g, r) && Walk(Edges(g), p) && p[0] == g.entry && r.entry !in p
    ensures forall b :: b in p ==> b !in r.blocks
    decreases |p|
  {
    if |p| > 1 {
      var q := p[..|p| - 1];
      LastStep(Edges(g), p);
      assert forall b :: b in q ==> b in p;
      WalkOutside(g, r, q);
      assert p[|p| - 2] == q[|q| - 1] && p[|p| - 2] in q;
      assert p[|p| - 1] in p;
      forall b | b in p
        ensures b !in r.blocks
      {
        assert b in q || b == p[|p| - 1];
      }
    }
  }

  /** Inside the region the entry dominates all. */
  lemma EntryDominates(g: Graph, r: ParallelRegion, b: Block)
    requires RegionOk(g, r) && b in r.blocks
    ensures Dominates(g, r.entry, b)
  {
    hide RegionOk, Walk;
    forall p | WalkFromTo(Edges(g), p, g.entry, b)
      ensures r.entry in p
    {
      NonEmpty(Edges(g), p);
      assert b in p;
      if r.entry !in p {
        WalkOutside(g, r, p);
      }
    }
  }

  /** A walk that meets neither the loop's entry nor its exit is still there. */
  lemma {:induction false} WalkKept(g: Graph, h: Graph, entry: Block, exit: Block, l: Loop, p: seq<Block>)
    requires exit in g.succ && |g.succ[exit]| == 1 && Wrapped(g, h, entry, exit, l)
    requires Walk(Edges(g), p) && entry !in p && exit !in p
    ensures Walk(Edges(h), p)
    decreases |p|
  {
    hide Wrapped, Dominates;
    if |p| > 1 {
      var q, u, v := p[..|p| - 1], p[|p| - 2], p[|p| - 1];
      LastStep(Edges(g), p);
      WalkKept(g, h, entry, exit, l, q);
      assert u in p && v in p;
      WrappedOutside(g, h, entry, exit, l, u);
      var i :| 0 <= i < |g.succ[u]| && g.succ[u][i] == v;
      assert h.succ[u][i] == v;
      assert (u, v) in Edges(h);
      WalkSnoc(Edges(h), q, v);
      assert q + [v] == p;
    }
  }

  /** Three graphs, each with one loop more. */
  ghost predicate Thrice(g0: Graph, g1: Graph, g2: Graph, g3: Graph, r: ParallelRegion, l0: Loop, l1: Loop, l2: Loop) {
    && Valid(g0) && RegionOk(g0, r)
    && NewBlocks(l0) !! g0.succ.Keys && Distinct(l0)
    && Wrapped(g0, g1, r.entry, r.exit, l0) && g1.succ.Keys == g0.succ.Keys + NewBlocks(l0)
    && NewBlocks(l1) !! g1.succ.Keys && Distinct(l1)
    && |g1.succ[l0.end]| == 1
    && Wrapped(g1, g2, l0.preheader, l0.end, l1) && g2.succ.Keys == g1.succ.Keys + NewBlocks(l1)
    && NewBlocks(l2) !! g2.succ.Keys && Distinct(l2)
    && |g2.succ[l1.end]| == 1
    && Wrapped(g2, g3, l1.preheader, l1.end, l2) && g3.succ.Keys == g2.succ.Keys + NewBlocks(l2)
  }

  /** What a walk around the entry has met is not dominated by the preheaders either. */
  lemma AroundAll(g0: Graph, g1: Graph, g2: Graph, g3: Graph, r: ParallelRegion, l0: Loop, l1: Loop, l2: Loop, b: Block)
    requires Thrice(g0, g1, g2, g3, r, l0, l1, l2) && b in g0.succ && !Dominates(g0, r.entry, b)
    ensures !Dominates(g1, l0.preheader, b) && !Dominates(g2, l1.preheader, b)
  {
    hide RegionOk, Walk, Wrapped;
    var p :| WalkFromTo(Edges(g0), p, g0.entry, b) && r.entry !in p;
    WalkOutside(g0, r, p);
    RegionFacts(g0, r);
    WalkInside(g0, p);
    EntriesSame(g0, g1, g2, g3, r, l0, l1, l2);
    WalkKept(g0, g1, r.entry, r.exit, l0, p);
    assert l0.preheader !in p && l0.end !in p;
    WalkKept(g1, g2, l0.preheader, l0.end, l1, p);
    assert l1.preheader !in p;
    assert WalkFromTo(Edges(g1), p, g1.entry, b) && WalkFromTo(Edges(g2), p, g2.entry, b);
  }

  lemma EntriesSame(g0: Graph, g1: Graph, g2: Graph, g3: Graph, r: ParallelRegion, l0: Loop, l1: Loop, l2: Loop)
    requires Thrice(g0, g1, g2, g3, r, l0, l1, l2)
    ensures g0.entry == g1.entry == g2.entry
  {
    hide Redirection, RegionOk;
  }

  lemma {:induction false} WalkInside(g: Graph, p: seq<Block>)
    requires Valid(g) && Walk(Edges(g), p) && p[0] == g.entry
    ensures forall b :: b in p ==> b in g.succ
    decreases |p|
  {
    ReachableStaysInside(g, p);
    if |p| > 1 {
      var q := p[..|p| - 1];
      WalkInside(g, q);
      forall b | b in p
        ensures b in g.succ
      {
        assert b in q || b == p[|p| - 1];
      }
    }
  }

  // ------------------------------------------------------------------------ it is a nest

  /** The successors of the region's blocks after the first loop has been built. */
  lemma RegionWrapped(g: Graph, h: Graph, r: ParallelRegion, l: Loop, b: Block)
    requires RegionOk(g, r) && Wrapped(g, h, r.entry, r.exit, l) && NewBlocks(l) !! g.succ.Keys && b in r.blocks
    ensures b in h.succ && forall s :: s in h.succ[b] ==> s in r.blocks || s == l.latch
    ensures h.succ[b] == if b == r.exit || b == r.entry then Replaced(g.succ[b], g.succ[r.exit][0], l.latch)
            else g.succ[b]
  {
    hide Dominates;
    EntryDominates(g, r, b);
  }

  /** A block of the first graph or loop that does not lead to the second loop's place stays. */
  lemma KeptTwice(g0: Graph, g1: Graph, g2: Graph, g3: Graph, r: ParallelRegion, l0: Loop, l1: Loop, l2: Loop, b: Block)
    requires Thrice(g0, g1, g2, g3, r, l0, l1, l2) && b in g1.succ && b != l0.end && l0.preheader !in g1.succ[b]
    requires b == l0.preheader ==> g1.succ[l0.end][0] !in g1.succ[b]
    requires forall s :: s in g1.succ[b] ==> s in g1.succ
    ensures b in g3.succ && g3.succ[b] == g1.succ[b]
  {
    hide Wrapped, RegionOk, Valid;
    WrappedKeeps(g1, g2, l0.preheader, l0.end, l1, b);
    WrappedKeeps(g2, g3, l1.preheader, l1.end, l2, b);
  }

  lemma RegionStays(g0: Graph, g1: Graph, g2: Graph, g3: Graph, r: ParallelRegion, l0: Loop, l1: Loop, l2: Loop,
                    b: Block)
    requires Thrice(g0, g1, g2, g3, r, l0, l1, l2) && b in r.blocks
    ensures b in g3.succ && forall s :: s in g3.succ[b] ==> s in r.blocks || s == l0.latch
    ensures b == r.exit ==> g3.succ[b] == [l0.latch]
    ensures g3.succ[b] == if b == r.exit || b == r.entry then Replaced(g0.succ[b], g0.succ[r.exit][0], l0.latch)
            else g0.succ[b]
  {
    hide Wrapped, Valid;
    RegionWrapped(g0, g1, r, l0, b);
    WrappedFacts(g0, g1, r.entry, r.exit, l0);
    KeptTwice(g0, g1, g2, g3, r, l0, l1, l2, b);
  }

  /** A block outside leads where it did, but to the outermost preheader for the entry, unless
      the entry dominates it. */
  lemma OutsideRedirected(g0: Graph, g1: Graph, g2: Graph, g3: Graph, r: ParallelRegion, l0: Loop, l1: Loop, l2: Loop,
                          b: Block)
    requires Thrice(g0, g1, g2, g3, r, l0, l1, l2) && b in g0.succ && b !in r.blocks
    ensures b in g3.succ && g3.succ[b] == Redirection(g0, r.entry, l2.preheader, b, g0.succ[b])
    ensures forall s :: s in g3.succ[b] ==> s == l2.preheader || s == r.entry || (s in g0.succ && s !in r.blocks)
  {
    hide Wrapped, Dominates;
    WrappedOutside(g0, g1, r.entry, r.exit, l0, b);
    WrappedOutside(g1, g2, l0.preheader, l0.end, l1, b);
    WrappedOutside(g2, g3, l1.preheader, l1.end, l2, b);
    if !Dominates(g0, r.entry, b) {
      AroundAll(g0, g1, g2, g3, r, l0, l1, l2, b);
    }
    SuccessorIn(g0, b);
    forall i | 0 <= i < |g0.succ[b]|
      ensures g3.succ[b][i] == Redirection(g0, r.entry, l2.preheader, b, g0.succ[b])[i]
      ensures g3.succ[b][i] == l2.preheader || g3.succ[b][i] == r.entry
              || (g3.succ[b][i] in g0.succ && g3.succ[b][i] !in r.blocks)
    {
      assert g0.succ[b][i] in g0.succ[b];
    }
  }

  lemma LoopsConnected(g0: Graph, g1: Graph, g2: Graph, g3: Graph, r: ParallelRegion, l0: Loop, l1: Loop, l2: Loop)
    requires Thrice(g0, g1, g2, g3, r, l0, l1, l2)
    ensures NewBlocks(l0) + NewBlocks(l1) + NewBlocks(l2) <= g3.succ.Keys
    ensures var s := g3.succ;
            && s[l2.preheader] == [l2.header] && s[l2.header] == [l1.preheader]
            && s[l1.preheader] == [l1.header] && s[l1.header] == [l0.preheader]
            && s[l0.preheader] == [l0.header] && s[l0.header] == [r.entry]
            && s[l0.latch] == [l0.header, l0.end] && s[l0.end] == [l1.latch]
            && s[l1.latch] == [l1.header, l1.end] && s[l1.end] == [l2.latch]
            && s[l2.latch] == [l2.header, l2.end] && s[l2.end] == [g0.succ[r.exit][0]]
  {
    hide Wrapped, Valid;
    SuccessorIn(g0, r.exit);
    WrappedFacts(g0, g1, r.entry, r.exit, l0);
    WrappedFacts(g1, g2, l0.preheader, l0.end, l1);
    WrappedFacts(g2, g3, l1.preheader, l1.end, l2);
    KeptTwice(g0, g1, g2, g3, r, l0, l1, l2, l0.preheader);
    KeptTwice(g0, g1, g2, g3, r, l0, l1, l2, l0.header);
    KeptTwice(g0, g1, g2, g3, r, l0, l1, l2, l0.latch);
    WrappedKeeps(g2, g3, l1.preheader, l1.end, l2, l0.end);
    WrappedKeeps(g2, g3, l1.preheader, l1.end, l2, l1.preheader);
    WrappedKeeps(g2, g3, l1.preheader, l1.end, l2, l1.header);
    WrappedKeeps(g2, g3, l1.preheader, l1.end, l2, l1.latch);
  }

  lemma RegionFacts(g: Graph, r: ParallelRegion)
    requires RegionOk(g, r)
    ensures r.entry in r.blocks && r.exit in r.blocks && r.blocks <= g.succ.Keys && |g.succ[r.exit]| == 1
    ensures g.succ[r.exit][0] !in r.blocks
  {
  }

  lemma ReplacedHas(s: seq<Block>, from: Block, to: Block)
    requires from != to
    ensures from !in Replaced(s, from, to)
  {
  }

  lemma BlocksApart(g0: Graph, g1: Graph, g2: Graph, g3: Graph, r: ParallelRegion, l0: Loop, l1: Loop, l2: Loop)
    requires Thrice(g0, g1, g2, g3, r, l0, l1, l2)
    ensures Valid(g0) && RegionOk(g0, r)
    ensures Distinct(l0) && Distinct(l1) && Distinct(l2)
    ensures NewBlocks(l0) !! NewBlocks(l1) && NewBlocks(l0) !! NewBlocks(l2) && NewBlocks(l1) !! NewBlocks(l2)
    ensures var bs := NewBlocks(l0) + NewBlocks(l1) + NewBlocks(l2);
            && bs !! g0.succ.Keys && g3.succ.Keys == g0.succ.Keys + bs
            && l0.latch in bs && l2.preheader in bs
  {
    hide Wrapped, Valid, RegionOk;
  }

  lemma IsNest(g0: Graph, g1: Graph, g2: Graph, g3: Graph, r: ParallelRegion, l0: Loop, l1: Loop, l2: Loop,
               sizes: Triple)
    requires Thrice(g0, g1, g2, g3, r, l0, l1, l2)
    ensures NestOf(g0, Nest(g3, r, l0, l1, l2, g0.succ[r.exit][0], sizes))
  {
    hide Wrapped, Replaced, RegionOk, Dominates, Valid, Thrice, NewBlocks, Distinct;
    BlocksApart(g0, g1, g2, g3, r, l0, l1, l2);
    RegionFacts(g0, r);
    var n := Nest(g3, r, l0, l1, l2, g0.succ[r.exit][0], sizes);
    SuccessorIn(g0, r.exit);
    LoopsConnected(g0, g1, g2, g3, r, l0, l1, l2);
    RegionStays(g0, g1, g2, g3, r, l0, l1, l2, r.exit);
    SameEntries(g0, g1, g2, g3, r, l0, l1, l2);
    forall b | b in r.blocks
      ensures b in g3.succ && forall s :: s in g3.succ[b] ==> s in r.blocks || s == l0.latch
      ensures g3.succ[b] == InsideNest(n, b, g0.succ[b])
    {
      RegionStays(g0, g1, g2, g3, r, l0, l1, l2, b);
    }
    forall b | b in g0.succ && b !in r.blocks
      ensures b in g3.succ && g3.succ[b] == Redirection(g0, r.entry, l2.preheader, b, g0.succ[b])
      ensures forall s :: s in g3.succ[b] ==> s == l2.preheader || s == r.entry || (s in g0.succ && s !in r.blocks)
    {
      OutsideRedirected(g0, g1, g2, g3, r, l0, l1, l2, b);
    }
    assert Connected(n);
  }

  lemma SameEntries(g0: Graph, g1: Graph, g2: Graph, g3: Graph, r: ParallelRegion, l0: Loop, l1: Loop, l2: Loop)
    requires Thrice(g0, g1, g2, g3, r, l0, l1, l2)
    ensures g3.entry == g0.entry
  {
    hide Redirection, RegionOk, Valid;
  }

  // -------------------------------------------------------------- reached as before

  /** The way through new blocks that an edge has become. */
  lemma EdgeBecomes(g: Graph, n: Nest, u: Block, v: Block) returns (p: seq<Block>)
    requires NestOf(g, n) && (u, v) in Edges(g)
    ensures WalkFromTo(Edges(n.g), p, u, v) && |p| > 1 && forall i :: 0 < i < |p| - 1 ==> p[i] in LoopBlocks(n)
  {
    hide RegionOk, Dominates, Valid, Walk;
    var i :| 0 <= i < |g.succ[u]| && g.succ[u][i] == v;
    var e := Edges(n.g);
    WalkOf1(e, u);
    if (u, v) in e {
      WalkSnoc(e, [u], v);
      p := [u] + [v];
    } else if u in n.r.blocks {
      assert n.g.succ[u][i] == n.l0.latch;
      p := OutOfNest(n, u);
    } else {
      assert n.g.succ[u][i] == n.l2.preheader;
      p := IntoNest(n, u);
    }
  }

  lemma WalkOf1(e: Rel, u: Block)
    ensures Walk(e, [u])
  {
  }

  lemma NestEdges(n: Nest)
    requires Connected(n)
    ensures var e := Edges(n.g);
            && (n.l2.preheader, n.l2.header) in e && (n.l2.header, n.l1.preheader) in e
               && (n.l1.preheader, n.l1.header) in e
            && (n.l1.header, n.l0.preheader) in e && (n.l0.preheader, n.l0.header) in e && (n.l0.header, n.r.entry) in e
            && (n.l0.latch, n.l0.end) in e && (n.l0.end, n.l1.latch) in e && (n.l1.latch, n.l1.end) in e
            && (n.l1.end, n.l2.latch) in e && (n.l2.latch, n.l2.end) in e && (n.l2.end, n.after) in e
  {
  }

  lemma SevenOn(e: Rel, a: Block, b: Block, c: Block, d: Block, x: Block, y: Block, z: Block, w: Block)
    requires (a, b) in e && (b, c) in e && (c, d) in e && (d, x) in e && (x, y) in e && (y, z) in e && (z, w) in e
    ensures WalkFromTo(e, [a, b, c, d, x, y, z, w], a, w)
  {
    hide Walk;
    WalkOf1(e, a);
    WalkSnoc(e, [a], b);
    WalkSnoc(e, [a] + [b], c);
    WalkSnoc(e, [a] + [b] + [c], d);
    WalkSnoc(e, [a] + [b] + [c] + [d], x);
    WalkSnoc(e, [a] + [b] + [c] + [d] + [x], y);
    WalkSnoc(e, [a] + [b] + [c] + [d] + [x] + [y], z);
    WalkSnoc(e, [a] + [b] + [c] + [d] + [x] + [y] + [z], w);
    assert [a] + [b] + [c] + [d] + [x] + [y] + [z] + [w] == [a, b, c, d, x, y, z, w];
  }

  lemma IntoNest(n: Nest, u: Block) returns (p: seq<Block>)
    requires Connected(n) && (u, n.l2.preheader) in Edges(n.g)
    ensures WalkFromTo(Edges(n.g), p, u, n.r.entry) && |p| > 1 && forall i :: 0 < i < |p| - 1 ==> p[i] in LoopBlocks(n)
  {
    hide Connected, Edges, WalkFromTo;
    NestEdges(n);
    p := [u, n.l2.preheader, n.l2.header, n.l1.preheader, n.l1.header, n.l0.preheader, n.l0.header, n.r.entry];
    SevenOn(Edges(n.g), u, n.l2.preheader, n.l2.header, n.l1.preheader, n.l1.header, n.l0.preheader, n.l0.header,
      n.r.entry);
  }

  lemma OutOfNest(n: Nest, u: Block) returns (p: seq<Block>)
    requires Connected(n) && (u, n.l0.latch) in Edges(n.g)
    ensures WalkFromTo(Edges(n.g), p, u, n.after) && |p| > 1 && forall i :: 0 < i < |p| - 1 ==> p[i] in LoopBlocks(n)
  {
    hide Connected, Edges, WalkFromTo;
    NestEdges(n);
    p := [u, n.l0.latch, n.l0.end, n.l1.latch, n.l1.end, n.l2.latch, n.l2.end, n.after];
    SevenOn(Edges(n.g), u, n.l0.latch, n.l0.end, n.l1.latch, n.l1.end, n.l2.latch, n.l2.end, n.after);
  }

  /** A walk that does not meet block a, which is not new, has its like in the graph with the nest. */
  lemma {:induction false} WalkThroughNest(g: Graph, n: Nest, a: Block, p: seq<Block>) returns (q: seq<Block>)
    requires NestOf(g, n) && Walk(Edges(g), p) && a !in p && a !in LoopBlocks(n)
    ensures WalkFromTo(Edges(n.g), q, p[0], p[|p| - 1]) && a !in q
    decreases |p|
  {
    hide NestOf, Walk, Edges;
    NonEmpty(Edges(g), p);
    if |p| == 1 {
      q := p;
      WalkOf1(Edges(n.g), p[0]);
      assert p == [p[0]];
    } else {
      LastStep(Edges(g), p);
      var q0 := WalkThroughNest(g, n, a, p[..|p| - 1]);
      var f := EdgeBecomes(g, n, p[|p| - 2], p[|p| - 1]);
      NonEmpty(Edges(n.g), q0);
      WalkConcat(Edges(n.g), q0, f);
      q := q0 + f[1..];
      forall i | 0 <= i < |q|
        ensures q[i] != a
      {
        if i < |q0| {
          assert q0[i] in q0;
        } else if i == |q| - 1 {
          assert p[|p| - 1] in p;
        } else {
          assert q[i] == f[i - |q0| + 1];
        }
      }
    }
  }

  /** What could be reached can be reached, and what an old block did not dominate it does not. */
  lemma ReachedStill(g: Graph, n: Nest, a: Block, b: Block)
    requires NestOf(g, n)
    ensures Reachable(g, b) ==> Reachable(n.g, b)
    ensures a !in LoopBlocks(n) && !Dominates(g, a, b) ==> !Dominates(n.g, a, b)
  {
    hide Walk, Edges, Connected, RegionOk, Valid, Redirection;
    if p :| WalkFromTo(Edges(g), p, g.entry, b) {
      var x := Unused(n, p);
      var q := WalkThroughNest(g, n, x, p);
    }
    if a !in LoopBlocks(n) && !Dominates(g, a, b) {
      var p :| WalkFromTo(Edges(g), p, g.entry, b) && a !in p;
      var q := WalkThroughNest(g, n, a, p);
    }
  }

  lemma Unused(n: Nest, p: seq<Block>) returns (x: Block)
    ensures x !in p && x !in LoopBlocks(n)
  {
    var all := p + [n.l0.preheader, n.l0.header, n.l0.latch, n.l0.end]
      + [n.l1.preheader, n.l1.header, n.l1.latch, n.l1.end]
               + [n.l2.preheader, n.l2.header, n.l2.latch, n.l2.end];
    x := Beyond(all);
    assert forall b :: b in LoopBlocks(n) ==> b in all;
  }

  lemma Beyond(p: seq<Block>) returns (x: Block)
    ensures x !in p
  {
    x := 0;
    for i := 0 to |p|
      invariant forall j :: 0 <= j < i ==> p[j] < x
    {
      if p[i] >= x {
        x := p[i] + 1;
      }
    }
  }

  /** Where a walk from the entry has come: what it meets of the old graph could be reached there,
      and so could the region's entry once it is in the nest. */
  ghost predicate OldReached(g: Graph, n: Nest, x: Block) {
    && (x in g.succ ==> Reachable(g, x))
    && (x in LoopBlocks(n) ==> Reachable(g, n.r.entry))
    && (x in Latches(n) ==> Reachable(g, n.after))
  }

  lemma ReachesOn(g: Graph, u: Block, v: Block)
    requires Reachable(g, u) && u in g.succ && v in g.succ[u]
    ensures Reachable(g, v)
  {
    assert (u, v) in Edges(g);
    ReachStep(Edges(g), g.entry, u, v);
  }

  /** What follows a block of the loops. */
  lemma LoopsLead(n: Nest, x: Block, y: Block)
    requires Connected(n) && x in LoopBlocks(n) && (x, y) in Edges(n.g)
    ensures y in LoopBlocks(n) || (y == n.r.entry && x == n.l0.header) || (y == n.after && x == n.l2.end)
    ensures y in Latches(n) ==> x in Latches(n)
    ensures x == n.l2.end ==> x in Latches(n)
  {
  }

  /** The blocks that follow the region's exit. */
  function Latches(n: Nest): set<Block> {
    {n.l0.latch, n.l0.end, n.l1.latch, n.l1.end, n.l2.latch, n.l2.end}
  }

  lemma OldReachedOn(g: Graph, n: Nest, x: Block, y: Block)
    requires NestOf(g, n) && OldReached(g, n, x) && (x, y) in Edges(n.g)
    ensures OldReached(g, n, y)
  {
    hide Dominates, Valid, Reachable, RegionOk, Connected, Edges, LoopBlocks, Latches, Redirection, InsideNest;
    NestDivides(g, n);
    if x in LoopBlocks(n) {
      LoopsLead(n, x, y);
      LatchesAreLoops(n);
      NestOld(g, n);
    } else if x in n.r.blocks {
      RegionReached(g, n, x, y);
    } else {
      OutsideReached(g, n, x, y);
    }
  }

  lemma LatchesAreLoops(n: Nest)
    ensures Latches(n) <= LoopBlocks(n)
  {
  }

  /** Blocks are old or those of the loops. */
  lemma NestDivides(g: Graph, n: Nest)
    requires NestOf(g, n)
    ensures Connected(n) && LoopBlocks(n) !! g.succ.Keys && n.g.succ.Keys == g.succ.Keys + LoopBlocks(n)
    ensures forall x, y :: (x, y) in Edges(n.g) ==> x in n.g.succ && y in n.g.succ[x]
  {
    hide Dominates, RegionOk, Connected, LoopBlocks;
  }

  lemma NestOld(g: Graph, n: Nest)
    requires NestOf(g, n)
    ensures n.r.entry in g.succ && n.after in g.succ && n.r.exit in g.succ
  {
    hide Dominates;
  }

  lemma RegionReached(g: Graph, n: Nest, x: Block, y: Block)
    requires NestOf(g, n) && Reachable(g, x) && x in n.r.blocks && (x, y) in Edges(n.g)
    ensures OldReached(g, n, y)
  {
    hide Dominates, Reachable, Valid;
    var i :| 0 <= i < |n.g.succ[x]| && n.g.succ[x][i] == y;
    assert g.succ[x][i] in g.succ[x];
    ReachesOn(g, x, g.succ[x][i]);
    EntryReached(g, n.r, x);
  }

  lemma EntryReached(g: Graph, r: ParallelRegion, x: Block)
    requires RegionOk(g, r) && x in r.blocks && Reachable(g, x)
    ensures Reachable(g, r.entry)
  {
    hide RegionOk, Walk;
    EntryDominates(g, r, x);
    var p :| WalkFromTo(Edges(g), p, g.entry, x);
    var i :| 0 <= i < |p| && p[i] == r.entry;
    WalkSplit(Edges(g), p, i);
  }

  lemma OutsideReached(g: Graph, n: Nest, x: Block, y: Block)
    requires NestOf(g, n) && Reachable(g, x) && x in g.succ && x !in n.r.blocks && (x, y) in Edges(n.g)
    ensures OldReached(g, n, y)
  {
    hide Dominates, Reachable, RegionOk;
    var i :| 0 <= i < |n.g.succ[x]| && n.g.succ[x][i] == y;
    assert g.succ[x][i] in g.succ[x];
    ReachesOn(g, x, g.succ[x][i]);
  }

  lemma {:induction false} WalkBack(g: Graph, n: Nest, p: seq<Block>)
    requires NestOf(g, n) && Walk(Edges(n.g), p) && p[0] == n.g.entry
    ensures OldReached(g, n, p[|p| - 1]) && (p[|p| - 1] in g.succ || p[|p| - 1] in LoopBlocks(n))
    decreases |p|
  {
    hide NestOf, Edges, OldReached;
    if |p| == 1 {
      StartReached(g, n);
    } else {
      LastStep(Edges(n.g), p);
      WalkBack(g, n, p[..|p| - 1]);
      OldReachedOn(g, n, p[|p| - 2], p[|p| - 1]);
      StaysKnown(g, n, p[|p| - 2], p[|p| - 1]);
    }
  }

  lemma StartReached(g: Graph, n: Nest)
    requires NestOf(g, n)
    ensures OldReached(g, n, n.g.entry) && n.g.entry in g.succ
  {
    hide Dominates, RegionOk, Connected;
    ReachSelf(Edges(g), g.entry);
  }

  lemma StaysKnown(g: Graph, n: Nest, x: Block, y: Block)
    requires NestOf(g, n) && (x, y) in Edges(n.g)
    ensures y in g.succ || y in LoopBlocks(n)
  {
    hide Dominates, RegionOk, Connected, Latches;
    NestOld(g, n);
    NestDivides(g, n);
    var i :| 0 <= i < |n.g.succ[x]| && n.g.succ[x][i] == y;
    if x in LoopBlocks(n) {
      LoopsLead(n, x, y);
    } else {
      assert g.succ[x][i] in g.succ;
    }
  }

  lemma ReachedBefore(g: Graph, n: Nest, b: Block)
    requires NestOf(g, n) && Reachable(n.g, b) && b in g.succ
    ensures Reachable(g, b)
  {
    hide NestOf, Walk;
    var p :| WalkFromTo(Edges(n.g), p, n.g.entry, b);
    WalkBack(g, n, p);
  }

  /** The nest is entered at its top only exactly if no predecessor outside is dominated. */
  lemma EnteredIff(g: Graph, n: Nest)
    requires NestOf(g, n)
    ensures EnteredAtTop(n) <==> !DominatedOutside(g, n.r)
  {
    hide NestOf, Dominates, Reachable;
    forall b | b in n.g.succ && b !in n.r.blocks && b !in LoopBlocks(n)
      ensures b in g.succ && (Reachable(n.g, b) <==> Reachable(g, b))
      ensures n.r.entry in n.g.succ[b] <==> n.r.entry in g.succ[b] && Dominates(g, n.r.entry, b)
    {
      OldOutside(g, n, b);
      ReachedStill(g, n, b, b);
      if Reachable(n.g, b) {
        ReachedBefore(g, n, b);
      }
    }
    forall b | b in g.succ && b !in n.r.blocks
      ensures b in n.g.succ && b !in LoopBlocks(n)
    {
      OutsideStays(g, n, b);
    }
  }

  lemma OutsideStays(g: Graph, n: Nest, b: Block)
    requires NestOf(g, n) && b in g.succ
    ensures b in n.g.succ && b !in LoopBlocks(n)
  {
    hide Dominates, RegionOk, Connected;
  }

  lemma OldOutside(g: Graph, n: Nest, b: Block)
    requires NestOf(g, n) && b in n.g.succ && b !in n.r.blocks && b !in LoopBlocks(n)
    ensures b in g.succ && (n.r.entry in n.g.succ[b] <==> n.r.entry in g.succ[b] && Dominates(g, n.r.entry, b))
  {
    hide Dominates, RegionOk;
    NestOld(g, n);
    ReplacedHas(g.succ[b], n.r.entry, n.l2.preheader);
  }

  // ------------------------------------------------------------------------- running the nest

  /** Where control is, and the induction variables IV0, IV1 and IV2, which take the place of the
      local ids. */
  datatype Config = Config(at: Block, iv: Triple)

  /** A loop runs once even for a size of 0, since it tests at the bottom. */
  function Trips(size: nat): nat {
    if size == 0 then 1 else size
  }

  function TripsOf(l: Triple): Triple {
    Triple(Trips(l.x), Trips(l.y), Trips(l.z))
  }

  function Get(t: Triple, d: nat): nat {
    if d == 0 then t.x else if d == 1 then t.y else t.z
  }

  function Set(t: Triple, d: nat, v: nat): Triple {
    if d == 0 then t.(x := v) else if d == 1 then t.(y := v) else t.(z := v)
  }

  /** What a block is to the nest; the loops are numbered by their dimension. */
  datatype Kind = Preheader(d: nat) | Header(d: nat) | Latch(d: nat) | End(d: nat) | Body | Out

  function KindIn(l: Loop, d: nat, b: Block): Kind {
    if b == l.preheader then Preheader(d)
    else if b == l.header then Header(d)
    else if b == l.latch then Latch(d)
    else if b == l.end then End(d)
    else Out
  }

  function KindOf(n: Nest, b: Block): Kind {
    if b in n.r.blocks then Body
    else if b in NewBlocks(n.l0) then KindIn(n.l0, 0, b)
    else if b in NewBlocks(n.l1) then KindIn(n.l1, 1, b)
    else if b in NewBlocks(n.l2) then KindIn(n.l2, 2, b)
    else Out
  }

  /** The PHI of a header is 0 when the preheader leads there and the incremented variable when
      the latch does; the latch compares that with the local size. */
  ghost predicate Steps(n: Nest, c: Config, d: Config) {
    && c.at in n.g.succ
    && match KindOf(n, c.at)
       case Preheader(k) => d.at in n.g.succ[c.at] && d.iv == Set(c.iv, k, 0)
       case Latch(k) =>
         && |n.g.succ[c.at]| == 2
         && var inc := Add(Get(c.iv, k), 1);
            d == if inc < Get(n.sizes, k) then Config(n.g.succ[c.at][0], Set(c.iv, k, inc))
              else Config(n.g.succ[c.at][1], c.iv)
       case _ => d.at in n.g.succ[c.at] && d.iv == c.iv
  }

  ghost predicate Run(n: Nest, p: seq<Config>) {
    && |p| > 0
    && (|p| == 1 || (Run(n, p[..|p| - 1]) && Steps(n, p[|p| - 2], p[|p| - 1])))
  }

  /** The local ids under which the run has entered the region from its loop. */
  function Visits(n: Nest, p: seq<Config>): seq<Triple> {
    if |p| <= 1 then []
    else
      Visits(n, p[..|p| - 1])
      + if KindOf(n, p[|p| - 2].at) == Header(0) then [p[|p| - 1].iv] else []
  }

  /** With k visits made since the nest was entered, control may be at a block of this kind. */
  ghost predicate AtStage(l: Triple, kind: Kind, iv: Triple, k: nat) {
    match kind
    case Preheader(d) =>
      if d == 0 then iv.z < l.z && iv.y < l.y && k == Position(l, Triple(0, iv.y, iv.z))
      else if d == 1 then iv.z < l.z && k == Position(l, Triple(0, 0, iv.z))
      else k == 0
    case Header(d) =>
      if d == 0 then InGroup(l, iv) && k == Position(l, iv)
      else if d == 1 then iv.z < l.z && iv.y < l.y && k == Position(l, Triple(0, iv.y, iv.z))
      else iv.z < l.z && k == Position(l, Triple(0, 0, iv.z))
    case Body => InGroup(l, iv) && k == Position(l, iv) + 1
    case Latch(d) =>
      if d == 0 then InGroup(l, iv) && k == Position(l, iv) + 1
      else if d == 1 then iv.z < l.z && iv.y < l.y && k == Position(l, Triple(0, iv.y + 1, iv.z))
      else iv.z < l.z && k == Position(l, Triple(0, 0, iv.z + 1))
    case End(d) =>
      if d == 0 then iv.z < l.z && iv.y < l.y && k == Position(l, Triple(0, iv.y + 1, iv.z))
      else if d == 1 then iv.z < l.z && k == Position(l, Triple(0, 0, iv.z + 1))
      else k == Items(l)
    case Out => k == 0
  }

  lemma AddOne(v: nat, size: nat)
    requires v < Trips(size) && size < WORD
    ensures Add(v, 1) == v + 1
    ensures v + 1 < size || (v + 1 == Trips(size) && !(v + 1 < size))
  {
  }

  /** Position of the row that follows a full one. */
  lemma NextRow(l: Triple, y: nat, z: nat)
    requires l.x > 0
    ensures Position(l, Triple(l.x - 1, y, z)) + 1 == Position(l, Triple(0, y + 1, z))
    ensures y + 1 == l.y ==> Position(l, Triple(0, y + 1, z)) == Position(l, Triple(0, 0, z + 1))
    ensures z + 1 == l.z ==> Position(l, Triple(0, 0, z + 1)) == Items(l)
  {
    assert (z * l.y + y) * l.x + l.x == (z * l.y + y + 1) * l.x;
    assert z * l.y + l.y == (z + 1) * l.y;
  }

  /** Which kind of block leads to which. */
  ghost predicate Leads(n: Nest, c: Config, d: Config) {
    var to := KindOf(n, d.at);
    match KindOf(n, c.at)
    case Preheader(k) => k <= 2 && to == Header(k) && d.iv == Set(c.iv, k, 0)
    case Header(k) => k <= 2 && d.iv == c.iv && if k == 0 then to == Body && d.at == n.r.entry
      else to == Preheader(k - 1)
    case Body => d.iv == c.iv && (to == Body || to == Latch(0))
    case Latch(k) =>
      var inc := Add(Get(c.iv, k), 1);
      k <= 2 && if inc < Get(n.sizes, k) then to == Header(k) && d.iv == Set(c.iv, k, inc)
        else to == End(k) && d.iv == c.iv
    case End(k) => k <= 2 && d.iv == c.iv && if k == 2 then to == Out && d.at == n.after else to == Latch(k + 1)
    case Out => d.iv == c.iv && (to == Out || to == Preheader(2))
  }

  lemma Kinds(n: Nest)
    requires Connected(n)
    ensures KindOf(n, n.l0.preheader) == Preheader(0) && KindOf(n, n.l1.preheader) == Preheader(1)
    ensures KindOf(n, n.l2.preheader) == Preheader(2)
    ensures KindOf(n, n.l0.header) == Header(0) && KindOf(n, n.l1.header) == Header(1)
            && KindOf(n, n.l2.header) == Header(2)
    ensures KindOf(n, n.l0.latch) == Latch(0) && KindOf(n, n.l1.latch) == Latch(1) && KindOf(n, n.l2.latch) == Latch(2)
    ensures KindOf(n, n.l0.end) == End(0) && KindOf(n, n.l1.end) == End(1) && KindOf(n, n.l2.end) == End(2)
    ensures KindOf(n, n.after) == Out && KindOf(n, n.r.entry) == Body
  {
  }

  lemma StepLeads(n: Nest, c: Config, d: Config)
    requires NestOk(n) && Steps(n, c, d) && Reachable(n.g, c.at)
    ensures Leads(n, c, d)
  {
    Kinds(n);
  }

  /** What a step makes of the stage. */
  lemma StageStep(n: Nest, c: Config, d: Config, k: nat)
    requires Leads(n, c, d) && n.sizes.x < WORD && n.sizes.y < WORD && n.sizes.z < WORD
    requires AtStage(TripsOf(n.sizes), KindOf(n, c.at), c.iv, k)
    ensures var l, kind, kind' := TripsOf(n.sizes), KindOf(n, c.at), KindOf(n, d.at);
            && (kind == Header(0) ==> InGroup(l, d.iv) && k == Position(l, d.iv) && AtStage(l, kind', d.iv, k + 1))
            && (kind == End(2) ==> k == Items(l) && AtStage(l, kind', d.iv, 0))
            && (kind != Header(0) && kind != End(2) ==> AtStage(l, kind', d.iv, k))
  {
    hide Position, KindOf, Items, Add;
    var l := TripsOf(n.sizes);
    match KindOf(n, c.at) {
      case Latch(d) =>
        AddOne(Get(c.iv, d), Get(n.sizes, d));
        NextRow(l, c.iv.y, c.iv.z);
      case Preheader(d) => FirstPosition(l);
      case _ =>
    }
    if KindOf(n, c.at) == Latch(0) {
      NextItem(l, c.iv);
    }
  }

  lemma FirstPosition(l: Triple)
    ensures Position(l, Triple(0, 0, 0)) == 0
  {
  }

  lemma NextItem(l: Triple, i: Triple)
    ensures Position(l, i.(x := i.x + 1)) == Position(l, i) + 1
  {
  }

  /** A run stays where the graph can be reached. */
  lemma {:induction false} RunReaches(n: Nest, p: seq<Config>)
    requires Run(n, p) && Reachable(n.g, p[0].at)
    ensures |p| > 0 && Reachable(n.g, p[|p| - 1].at)
    decreases |p|
  {
    hide Steps, Reachable;
    if |p| > 1 {
      RunStep(n, p);
      RunReaches(n, p[..|p| - 1]);
      StepReaches(n, p[|p| - 2], p[|p| - 1]);
    }
  }

  lemma StepReaches(n: Nest, c: Config, d: Config)
    requires Steps(n, c, d) && Reachable(n.g, c.at)
    ensures Reachable(n.g, d.at)
  {
    hide Reachable, KindOf;
    ReachesOn(n.g, c.at, d.at);
  }

  /** How often the run has come to the end of the outermost loop. */
  function Rounds(n: Nest, p: seq<Config>): nat {
    if |p| <= 1 then 0
    else Rounds(n, p[..|p| - 1]) + if KindOf(n, p[|p| - 2].at) == End(2) then 1 else 0
  }

  lemma RunStep(n: Nest, p: seq<Config>)
    requires Run(n, p) && |p| > 1
    ensures Run(n, p[..|p| - 1]) && Steps(n, p[|p| - 2], p[|p| - 1])
  {
  }

  lemma VisitsStep(n: Nest, p: seq<Config>)
    requires |p| > 1
    ensures var q := p[..|p| - 1];
            Visits(n, p) == if KindOf(n, p[|p| - 2].at) == Header(0) then Visits(n, q) + [p[|p| - 1].iv]
              else Visits(n, q)
    ensures Rounds(n, p) == Rounds(n, p[..|p| - 1]) + if KindOf(n, p[|p| - 2].at) == End(2) then 1 else 0
  {
  }

  /** The visits of a run: whole rounds through all local ids and then the first k of them. */
  ghost predicate InOrder(n: Nest, visits: seq<Triple>, rounds: nat, k: nat) {
    var l := TripsOf(n.sizes);
    && |visits| == rounds * Items(l) + k
    && forall i :: 0 <= i < |visits| && Items(l) > 0 ==> visits[i] == LocalIdAt(l, i % Items(l))
  }

  lemma ItemsPositive(l: Triple)
    requires l.x > 0 && l.y > 0 && l.z > 0
    ensures Items(l) > 0
  {
    MulAtMost(1, l.z, l.y);
    MulAtMost(1, l.z * l.y, l.x);
  }

  lemma OneMoreInOrder(n: Nest, visits: seq<Triple>, rounds: nat, k: nat, iv: Triple)
    requires InOrder(n, visits, rounds, k) && InGroup(TripsOf(n.sizes), iv) && k == Position(TripsOf(n.sizes), iv)
    ensures InOrder(n, visits + [iv], rounds, k + 1)
  {
    hide Position, Items;
    var l := TripsOf(n.sizes);
    ItemsPositive(l);
    PositionInRange(l, iv);
    PositionIsBijection(l, iv, 0);
    SplitAt(|visits|, rounds, k, Items(l));
  }

  lemma RoundInOrder(n: Nest, visits: seq<Triple>, rounds: nat)
    requires InOrder(n, visits, rounds, Items(TripsOf(n.sizes)))
    ensures InOrder(n, visits, rounds + 1, 0)
  {
    var m := Items(TripsOf(n.sizes));
    assert (rounds + 1) * m == rounds * m + m;
  }

  /** The nest of loops: along every run from outside, in every round through the nest, the region
      is visited under the local ids of the group, one after the other in the order of their flat
      indices. */
  lemma {:induction false} VisitsAreInOrder(n: Nest, p: seq<Config>) returns (k: nat)
    requires NestOk(n) && n.sizes.x < WORD && n.sizes.y < WORD && n.sizes.z < WORD
    requires Run(n, p) && |p| > 0 && KindOf(n, p[0].at) == Out && Reachable(n.g, p[0].at)
    ensures InOrder(n, Visits(n, p), Rounds(n, p), k)
    ensures AtStage(TripsOf(n.sizes), KindOf(n, p[|p| - 1].at), p[|p| - 1].iv, k)
    decreases |p|
  {
    hide NestOk, Run, Steps, KindOf, AtStage, Leads, InOrder, Visits, Rounds, Reachable;
    if |p| == 1 {
      k := 0;
      BeginsInOrder(n, p);
    } else {
      var q, c, d := p[..|p| - 1], p[|p| - 2], p[|p| - 1];
      RunStep(n, p);
      VisitsStep(n, p);
      k := VisitsAreInOrder(n, q);
      RunReaches(n, q);
      StepLeads(n, c, d);
      StageStep(n, c, d, k);
      if KindOf(n, c.at) == Header(0) {
        OneMoreInOrder(n, Visits(n, q), Rounds(n, q), k, d.iv);
        k := k + 1;
      } else if KindOf(n, c.at) == End(2) {
        RoundInOrder(n, Visits(n, q), Rounds(n, q));
        k := 0;
      }
    }
  }

  lemma BeginsInOrder(n: Nest, p: seq<Config>)
    requires |p| == 1 && KindOf(n, p[0].at) == Out
    ensures InOrder(n, Visits(n, p), Rounds(n, p), 0) && AtStage(TripsOf(n.sizes), KindOf(n, p[0].at), p[0].iv, 0)
  {
  }

  /** Outside the nest every round is complete; in the region the induction variables are those
      of the visit, the local id of the item whose turn it is. */
  lemma NestIsComplete(n: Nest, p: seq<Config>)
    requires NestOk(n) && n.sizes.x < WORD && n.sizes.y < WORD && n.sizes.z < WORD
    requires Run(n, p) && |p| > 0 && KindOf(n, p[0].at) == Out && Reachable(n.g, p[0].at)
    ensures var last := p[|p| - 1];
            && (KindOf(n, last.at) == Out ==> InOrder(n, Visits(n, p), Rounds(n, p), 0))
            && (KindOf(n, last.at) == Body ==> |Visits(n, p)| > 0 && last.iv == Visits(n, p)[|Visits(n, p)| - 1])
  {
    hide NestOk, Run, KindOf, Visits, Rounds, Position, Items, Reachable;
    var k := VisitsAreInOrder(n, p);
    var l, iv, visits := TripsOf(n.sizes), p[|p| - 1].iv, Visits(n, p);
    if KindOf(n, p[|p| - 1].at) == Body {
      ItemsPositive(l);
      PositionInRange(l, iv);
      PositionIsBijection(l, iv, 0);
      SplitAt(|visits| - 1, Rounds(n, p), k - 1, Items(l));
    }
  }

  /** A round has as many visits as the group has items exactly when no local size is 0. */
  lemma OncePerItemIff(sizes: Triple)
    ensures Items(TripsOf(sizes)) == Items(sizes) <==> sizes.x > 0 && sizes.y > 0 && sizes.z > 0
  {
    ItemsPositive(TripsOf(sizes));
    if sizes.x == 0 || sizes.y == 0 || sizes.z == 0 {
      assert Items(sizes) == 0;
    }
  }

  /** A predecessor outside that the entry dominates takes the region past the nest: no visit has
      been begun, and the induction variables are whatever they were. */
  lemma PastTheNest(n: Nest, b: Block, iv: Triple)
    requires Connected(n) && b in n.g.succ && b !in n.r.blocks && b !in LoopBlocks(n) && n.r.entry in n.g.succ[b]
    ensures var p := [Config(b, iv), Config(n.r.entry, iv)];
            Run(n, p) && KindOf(n, p[0].at) == Out && KindOf(n, p[1].at) == Body && Visits(n, p) == []
  {
    hide Connected;
    Kinds(n);
    var p := [Config(b, iv), Config(n.r.entry, iv)];
    assert p[..1] == [Config(b, iv)] && Run(n, p[..1]);
  }

  /** The run has made whole rounds of visits and then as many as belong to where it is. */
  ghost predicate OnStage(n: Nest, p: seq<Config>)
    requires |p| > 0
  {
    exists k :: InOrder(n, Visits(n, p), Rounds(n, p), k)
                && AtStage(TripsOf(n.sizes), KindOf(n, p[|p| - 1].at), p[|p| - 1].iv, k)
  }

  /** All runs that begin outside, at a block that can be reached, are in order. */
  ghost predicate RunsInOrder(n: Nest) {
    forall p: seq<Config> :: Run(n, p) && KindOf(n, p[0].at) == Out && Reachable(n.g, p[0].at) ==> OnStage(n, p)
  }

  /** The runs of a nest are in order exactly if it is entered at its top only. */
  lemma InOrderIff(n: Nest)
    requires Connected(n) && n.sizes.x < WORD && n.sizes.y < WORD && n.sizes.z < WORD
    ensures RunsInOrder(n) <==> EnteredAtTop(n)
  {
    hide Connected, Visits, Rounds, InOrder, AtStage, KindOf, Steps, Reachable;
    if EnteredAtTop(n) {
      forall p: seq<Config> | Run(n, p) && KindOf(n, p[0].at) == Out && Reachable(n.g, p[0].at)
        ensures OnStage(n, p)
      {
        var k := VisitsAreInOrder(n, p);
      }
    }
    if b :| Reachable(n.g, b) && b in n.g.succ && b !in n.r.blocks && b !in LoopBlocks(n) && n.r.entry in n.g.succ[b] {
      var iv := Triple(0, 0, 0);
      var p := [Config(b, iv), Config(n.r.entry, iv)];
      PastTheNest(n, b, iv);
      forall k: nat
        ensures !(InOrder(n, Visits(n, p), Rounds(n, p), k) && AtStage(TripsOf(n.sizes), Body, iv, k))
      {
        NoVisitYet(n, Rounds(n, p), k, iv);
      }
    }
  }

  lemma NoVisitYet(n: Nest, rounds: nat, k: nat, iv: Triple)
    ensures !(InOrder(n, [], rounds, k) && AtStage(TripsOf(n.sizes), Body, iv, k))
  {
    hide Position, Items;
  }

  /** A loop that its region's entry heads: block 1 is all of the region, 2 leads back to it. */
  const HEADED := Graph(0, map[0 := [1], 1 := [2], 2 := [1, 3], 3 := []])

  /** There the entry dominates the latch outside. */
  lemma HeadedIsDominated()
    ensures var r := ParallelRegion(1, 1, {1});
            Valid(HEADED) && RegionOk(HEADED, r) && DominatedOutside(HEADED, r)
  {
    var e := Edges(HEADED);
    forall p | WalkFromTo(e, p, 0, 2)
      ensures 1 in p
    {
      LastStep(e, p);
      assert p[|p| - 2] == 1;
    }
    assert Dominates(HEADED, 1, 2);
    ReachSelf(e, 0);
    ReachesOn(HEADED, 0, 1);
    ReachesOn(HEADED, 1, 2);
  }
}
