/** Control-flow graphs and walks.

    A function is seen here as a finite graph of blocks, each with an ordered list of
    successors. Dominance is what LLVM's dominator tree answers, stated over walks: a block
    dominates another when every walk from the entry to it passes through the first. An
    unreachable block is therefore dominated by every block. */
module Graphs {

  type Block = nat

  /** A set of edges; walks are taken over such a set so that the same facts serve the
      control-flow graph, its forward edges and any restriction of either. */
  type Rel = set<(Block, Block)>

  datatype Graph = Graph(entry: Block, succ: map<Block, seq<Block>>)

  /** Blocks that get a loop together. */
  datatype ParallelRegion = ParallelRegion(entry: Block, exit: Block, blocks: set<Block>)

  ghost predicate Valid(g: Graph) {
    && g.entry in g.succ
    && forall b, i :: b in g.succ && 0 <= i < |g.succ[b]| ==> g.succ[b][i] in g.succ
  }

  ghost function Edges(g: Graph): Rel {
    set u, v | u in g.succ && v in g.succ[u] :: (u, v)
  }

  // ---------------------------------------------------------------- walks

  ghost predicate Walk(e: Rel, p: seq<Block>) {
    && |p| > 0
    && (|p| == 1 || (Walk(e, p[..|p| - 1]) && (p[|p| - 2], p[|p| - 1]) in e))
  }

  ghost predicate WalkFromTo(e: Rel, p: seq<Block>, u: Block, v: Block) {
    Walk(e, p) && p[0] == u && p[|p| - 1] == v
  }

  ghost predicate Reach(e: Rel, u: Block, v: Block) {
    exists p :: WalkFromTo(e, p, u, v)
  }

  /** No walk of at least one edge returns to where it started. */
  ghost predicate Acyclic(e: Rel) {
    forall p :: Walk(e, p) && |p| > 1 ==> p[0] != p[|p| - 1]
  }

  lemma ReachSelf(e: Rel, u: Block)
    ensures Reach(e, u, u)
  {
    assert WalkFromTo(e, [u], u, u);
  }

  lemma WalkSnoc(e: Rel, p: seq<Block>, v: Block)
    requires Walk(e, p) && (p[|p| - 1], v) in e
    ensures Walk(e, p + [v])
  {
    assert (p + [v])[..|p|] == p;
  }

  lemma NonEmpty(e: Rel, p: seq<Block>)
    requires Walk(e, p)
    ensures |p| > 0
  {
  }

  lemma LastStep(e: Rel, p: seq<Block>)
    requires Walk(e, p) && |p| > 1
    ensures Walk(e, p[..|p| - 1]) && (p[|p| - 2], p[|p| - 1]) in e
  {
  }

  lemma ReachEdge(e: Rel, u: Block, v: Block)
    requires (u, v) in e
    ensures Reach(e, u, v)
  {
    WalkSnoc(e, [u], v);
    assert WalkFromTo(e, [u] + [v], u, v);
  }

  lemma {:induction false} WalkConcat(e: Rel, p: seq<Block>, q: seq<Block>)
    requires Walk(e, p) && Walk(e, q) && p[|p| - 1] == q[0]
    ensures WalkFromTo(e, p + q[1..], p[0], q[|q| - 1])
    decreases |q|
  {
    if |q| == 1 {
      assert p + q[1..] == p;
    } else {
      var q' := q[..|q| - 1];
      WalkConcat(e, p, q');
      WalkSnoc(e, p + q'[1..], q[|q| - 1]);
      assert p + q[1..] == (p + q'[1..]) + [q[|q| - 1]];
    }
  }

  lemma {:induction false} WalkSplit(e: Rel, p: seq<Block>, k: nat)
    requires Walk(e, p) && k < |p|
    ensures WalkFromTo(e, p[..k + 1], p[0], p[k]) && WalkFromTo(e, p[k..], p[k], p[|p| - 1])
    decreases |p|
  {
    if k == |p| - 1 {
      assert p[..k + 1] == p;
    } else {
      var q := p[..|p| - 1];
      WalkSplit(e, q, k);
      assert q[..k + 1] == p[..k + 1];
      WalkSnoc(e, q[k..], p[|p| - 1]);
      assert q[k..] + [p[|p| - 1]] == p[k..];
    }
  }

  lemma FirstStep(e: Rel, p: seq<Block>)
    requires Walk(e, p) && |p| > 1
    ensures (p[0], p[1]) in e && Walk(e, p[1..])
  {
    WalkSplit(e, p, 1);
    assert p[..2][|p[..2]| - 2] == p[0];
  }

  lemma ReachTrans(e: Rel, u: Block, v: Block, w: Block)
    requires Reach(e, u, v) && Reach(e, v, w)
    ensures Reach(e, u, w)
  {
    var p :| WalkFromTo(e, p, u, v);
    var q :| WalkFromTo(e, q, v, w);
    WalkConcat(e, p, q);
  }

  lemma ReachStep(e: Rel, u: Block, v: Block, w: Block)
    requires Reach(e, u, v) && (v, w) in e
    ensures Reach(e, u, w)
  {
    ReachEdge(e, v, w);
    ReachTrans(e, u, v, w);
  }

  /** A set closed under the edges holds whatever its members reach. */
  lemma {:induction false} ClosedUnderWalks(e: Rel, s: set<Block>, p: seq<Block>)
    requires forall u, v :: u in s && (u, v) in e ==> v in s
    requires Walk(e, p) && p[0] in s
    ensures p[|p| - 1] in s
    decreases |p|
  {
    if |p| > 1 {
      ClosedUnderWalks(e, s, p[..|p| - 1]);
    }
  }

  lemma ReachAntisymmetric(e: Rel, u: Block, v: Block)
    requires Acyclic(e) && Reach(e, u, v) && Reach(e, v, u)
    ensures u == v
  {
    var p :| WalkFromTo(e, p, u, v);
    var q :| WalkFromTo(e, q, v, u);
    WalkConcat(e, p, q);
  }

  ghost predicate Simple(p: seq<Block>) {
    forall i, j :: 0 <= i < j < |p| ==> p[i] != p[j]
  }

  /** Every walk can be shortened to one that repeats no block. */
  lemma {:induction false} SimpleWalk(e: Rel, p: seq<Block>) returns (q: seq<Block>)
    requires Walk(e, p)
    ensures WalkFromTo(e, q, p[0], p[|p| - 1]) && Simple(q)
    decreases |p|
  {
    if |p| == 1 {
      q := p;
    } else {
      var v := p[|p| - 1];
      q := SimpleWalk(e, p[..|p| - 1]);
      if v in q {
        var k :| 0 <= k < |q| && q[k] == v;
        WalkSplit(e, q, k);
        q := q[..k + 1];
      } else {
        WalkSnoc(e, q, v);
        q := q + [v];
      }
    }
  }

  // ------------------------------------------------------------- dominance

  ghost predicate Reachable(g: Graph, b: Block) {
    Reach(Edges(g), g.entry, b)
  }

  ghost predicate Dominates(g: Graph, a: Block, b: Block) {
    forall p :: WalkFromTo(Edges(g), p, g.entry, b) ==> a in p
  }

  /** Edges whose target does not dominate their source, that is, all but the back edges. */
  ghost function Forward(g: Graph): Rel {
    set e | e in Edges(g) && !Dominates(g, e.1, e.0)
  }

  /** A function is reducible when its forward edges make no cycle. */
  ghost predicate Reducible(g: Graph) {
    Acyclic(Forward(g))
  }

  lemma DominatesSelf(g: Graph, b: Block)
    ensures Dominates(g, b, b)
  {
  }

  lemma OnlyEntryDominatesEntry(g: Graph, a: Block)
    requires Dominates(g, a, g.entry)
    ensures a == g.entry
  {
    assert WalkFromTo(Edges(g), [g.entry], g.entry, g.entry);
  }

  /** A strict dominator of a block dominates each predecessor of the block. */
  lemma StrictDominatorOfPredecessor(g: Graph, a: Block, w: Block, b: Block)
    requires Dominates(g, a, b) && a != b && (w, b) in Edges(g)
    ensures Dominates(g, a, w)
  {
    forall p | WalkFromTo(Edges(g), p, g.entry, w)
      ensures a in p
    {
      WalkSnoc(Edges(g), p, b);
      assert WalkFromTo(Edges(g), p + [b], g.entry, b);
      assert a in p + [b];
    }
  }

  lemma {:induction false} ReachableStaysInside(g: Graph, p: seq<Block>)
    requires Valid(g) && Walk(Edges(g), p) && p[0] in g.succ
    ensures p[|p| - 1] in g.succ
    decreases |p|
  {
    if |p| > 1 {
      ReachableStaysInside(g, p[..|p| - 1]);
    }
  }

  /** A walk from the entry that repeats no block takes forward edges only. */
  lemma {:induction false} SimpleWalkIsForward(g: Graph, p: seq<Block>)
    requires Walk(Edges(g), p) && p[0] == g.entry && Simple(p)
    ensures Walk(Forward(g), p)
    decreases |p|
  {
    if |p| > 1 {
      var q := p[..|p| - 1];
      SimpleWalkIsForward(g, q);
      assert WalkFromTo(Edges(g), q, g.entry, p[|p| - 2]);
      assert p[|p| - 1] !in q;
    }
  }

  /** Every reachable block is reached along forward edges from each of its dominators. */
  lemma DominatorReachesForward(g: Graph, a: Block, b: Block)
    requires Reachable(g, b) && Dominates(g, a, b)
    ensures Reach(Forward(g), a, b)
  {
    var p :| WalkFromTo(Edges(g), p, g.entry, b);
    var q := SimpleWalk(Edges(g), p);
    SimpleWalkIsForward(g, q);
    var k :| 0 <= k < |q| && q[k] == a;
    WalkSplit(Forward(g), q, k);
  }

  lemma ReachableIffForward(g: Graph, b: Block)
    ensures Reachable(g, b) <==> Reach(Forward(g), g.entry, b)
  {
    if Reachable(g, b) {
      assert Dominates(g, g.entry, b);
      DominatorReachesForward(g, g.entry, b);
    }
    if p :| WalkFromTo(Forward(g), p, g.entry, b) {
      WalkMonotone(Forward(g), Edges(g), p);
      assert WalkFromTo(Edges(g), p, g.entry, b);
    }
  }

  lemma {:induction false} WalkMonotone(e: Rel, e': Rel, p: seq<Block>)
    requires Walk(e, p) && e <= e'
    ensures Walk(e', p)
    decreases |p|
  {
    if |p| > 1 {
      WalkMonotone(e, e', p[..|p| - 1]);
    }
  }

  lemma ForwardIsEdge(g: Graph, u: Block, v: Block)
    requires (u, v) in Forward(g)
    ensures u in g.succ && v in g.succ[u] && Reachable(g, u) && Reachable(g, v)
  {
    var p :| WalkFromTo(Edges(g), p, g.entry, u) && v !in p;
    assert Reachable(g, u);
    ReachStep(Edges(g), g.entry, u, v);
  }

  // --------------------------------------------------------- asking for dominance

  /** Some walk from the entry leads to u without meeting a. */
  ghost predicate Around(g: Graph, a: Block, u: Block) {
    exists p :: WalkFromTo(Edges(g), p, g.entry, u) && a !in p
  }

  lemma AroundStep(g: Graph, a: Block, u: Block, v: Block)
    requires Around(g, a, u) && (u, v) in Edges(g) && v != a
    ensures Around(g, a, v)
  {
    var p :| WalkFromTo(Edges(g), p, g.entry, u) && a !in p;
    WalkSnoc(Edges(g), p, v);
    assert WalkFromTo(Edges(g), p + [v], g.entry, v);
  }

  lemma {:induction false} ClosedAround(g: Graph, a: Block, s: set<Block>, p: seq<Block>)
    requires forall u, v :: u in s && (u, v) in Edges(g) && v != a ==> v in s
    requires Walk(Edges(g), p) && p[0] in s && a !in p
    ensures p[|p| - 1] in s
    decreases |p|
  {
    if |p| > 1 {
      ClosedAround(g, a, s, p[..|p| - 1]);
    }
  }

  /** What a dominator tree answers, found by searching for a walk around the dominator. */
  method DominatesQuery(g: Graph, a: Block, b: Block) returns (r: bool)
    requires Valid(g)
    ensures r <==> Dominates(g, a, b)
  {
    if a == g.entry {
      return true;
    }
    var seen, done := {g.entry}, {};
    assert WalkFromTo(Edges(g), [g.entry], g.entry, g.entry);
    while done != seen
      invariant g.entry in seen && a !in seen && done <= seen <= g.succ.Keys
      invariant forall u :: u in seen ==> Around(g, a, u)
      invariant forall u, v :: u in done && (u, v) in Edges(g) && v != a ==> v in seen
      decreases g.succ.Keys - done
    {
      assert !(seen <= done);
      var u :| u in seen && u !in done;
      var next := (set v | v in g.succ[u]) - {a};
      forall v | v in next
        ensures v in g.succ && Around(g, a, v)
      {
        assert (u, v) in Edges(g);
        AroundStep(g, a, u, v);
      }
      seen, done := seen + next, done + {u};
    }
    forall p | b !in seen && WalkFromTo(Edges(g), p, g.entry, b)
      ensures a in p
    {
      if a !in p {
        ClosedAround(g, a, seen, p);
      }
    }
    r := b !in seen;
  }
}
