/** Two computations of control dependence: by post-dominance frontiers, over the tree, and by the
    definition, over all pairs of blocks; and the closure of the first.

    Post-dominance is stated over walks: a block post-dominates another when every walk from that
    to an exit passes through it. LLVM's tree holds the blocks that reach an exit, below a root
    without a block if there are several exits. */
module ControlDependence {
  import opened Graphs
  import opened Digraphs
  import opened Options

  predicate Exit(g: Graph, b: Block) {
    b in g.succ && g.succ[b] == []
  }

  ghost predicate ReachesExit(g: Graph, b: Block) {
    exists x :: Exit(g, x) && Reach(Edges(g), b, x)
  }

  ghost predicate WalkToExit(g: Graph, p: seq<Block>, b: Block) {
    Walk(Edges(g), p) && p[0] == b && Exit(g, p[|p| - 1])
  }

  ghost predicate PostDominates(g: Graph, a: Block, b: Block) {
    forall p :: WalkToExit(g, p, b) ==> a in p
  }

  lemma ReachesByWalk(g: Graph, b: Block)
    ensures ReachesExit(g, b) <==> exists p :: WalkToExit(g, p, b)
  {
    if ReachesExit(g, b) {
      var x :| Exit(g, x) && Reach(Edges(g), b, x);
      var p :| WalkFromTo(Edges(g), p, b, x);
      assert WalkToExit(g, p, b);
    }
    if p :| WalkToExit(g, p, b) {
      assert WalkFromTo(Edges(g), p, b, p[|p| - 1]);
    }
  }

  lemma Prepended(g: Graph, x: Block, s: Block, p: seq<Block>)
    requires (x, s) in Edges(g) && WalkToExit(g, p, s)
    ensures WalkToExit(g, [x] + p, x)
  {
    hide Edges;
    NonEmpty(Edges(g), p);
    WalkSnoc(Edges(g), [x], s);
    WalkConcat(Edges(g), [x] + [s], p);
    assert [x] + [s] + p[1..] == [x] + p;
  }

  /** A strict post-dominator of a block post-dominates each of its successors. */
  lemma StrictPostDominatorOfSuccessor(g: Graph, a: Block, x: Block, s: Block)
    requires PostDominates(g, a, x) && a != x && (x, s) in Edges(g)
    ensures PostDominates(g, a, s)
  {
    forall p | WalkToExit(g, p, s)
      ensures a in p
    {
      Prepended(g, x, s, p);
      assert a in [x] + p;
    }
  }

  /** A post-dominator of a block that reaches an exit reaches one. */
  lemma PostDominatorReaches(g: Graph, a: Block, b: Block)
    requires PostDominates(g, a, b) && ReachesExit(g, b)
    ensures ReachesExit(g, a)
  {
    hide Edges, Exit;
    ReachesByWalk(g, b);
    var p :| WalkToExit(g, p, b);
    NonEmpty(Edges(g), p);
    var k :| 0 <= k < |p| && p[k] == a;
    WalkSplit(Edges(g), p, k);
    assert WalkToExit(g, p[k..], a);
    ReachesByWalk(g, a);
  }

  // -------------------------------------------------------------------- the two definitions

  /** Y is control dependent on X, as the frontiers have it. */
  ghost predicate InFrontier(g: Graph, x: Block, y: Block) {
    && ReachesExit(g, x)
    && (exists s :: (x, s) in Edges(g) && ReachesExit(g, s) && PostDominates(g, y, s))
    && !(PostDominates(g, y, x) && y != x)
  }

  /** Y is control dependent on X, as the search over all pairs has it. */
  ghost predicate Depends(g: Graph, x: Block, y: Block) {
    (exists s :: (x, s) in Edges(g) && PostDominates(g, y, s)) && !PostDominates(g, y, x)
  }

  lemma NotOnItself(g: Graph, x: Block)
    ensures !Depends(g, x, x)
  {
    forall p | WalkToExit(g, p, x)
      ensures x in p
    {
      NonEmpty(Edges(g), p);
      assert p[0] == x;
    }
  }

  /** Only a block with two successors has blocks depend on it. */
  lemma NeedsTwoSuccessors(g: Graph, x: Block, y: Block)
    requires Valid(g) && x in g.succ && Depends(g, x, y)
    ensures |g.succ[x]| >= 2
  {
    hide Walk;
    var s :| (x, s) in Edges(g) && PostDominates(g, y, s);
    var p :| WalkToExit(g, p, x) && y !in p;
    NonEmpty(Edges(g), p);
    assert |p| > 1;
    FirstStep(Edges(g), p);
    WalkSplit(Edges(g), p, 1);
    assert WalkToExit(g, p[1..], p[1]) && y !in p[1..];
  }

  ghost predicate EscapesNowhere(g: Graph) {
    forall x, s :: (x, s) in Edges(g) && ReachesExit(g, x) ==> ReachesExit(g, s)
  }

  lemma FrontierDepends(g: Graph, x: Block, y: Block)
    requires x != y && InFrontier(g, x, y)
    ensures Depends(g, x, y)
  {
    var s :| (x, s) in Edges(g) && ReachesExit(g, s) && PostDominates(g, y, s);
  }

  lemma NotPostDominatedReaches(g: Graph, x: Block, y: Block)
    requires !PostDominates(g, y, x)
    ensures ReachesExit(g, x)
  {
    var p :| WalkToExit(g, p, x) && y !in p;
    ReachesByWalk(g, x);
  }

  /** The edge into a part without an exit: the search has its target depend on its source, the
      frontiers have not. */
  lemma EdgeIntoTrap(g: Graph, x: Block, s: Block)
    requires (x, s) in Edges(g) && ReachesExit(g, x) && !ReachesExit(g, s)
    ensures x != s && Depends(g, x, s) && !InFrontier(g, x, s)
  {
    hide Edges;
    ReachesByWalk(g, s);
    ReachesByWalk(g, x);
    var p :| WalkToExit(g, p, x);
    if PostDominates(g, s, x) {
      PostDominatorReaches(g, s, x);
    }
    if InFrontier(g, x, s) {
      var t :| (x, t) in Edges(g) && ReachesExit(g, t) && PostDominates(g, s, t);
      PostDominatorReaches(g, s, t);
    }
  }

  /** The two agree about different blocks exactly when no block that reaches an exit has a
      successor that does not. */
  lemma DefinitionsAgreeIff(g: Graph)
    ensures (forall x, y :: x != y ==> (InFrontier(g, x, y) <==> Depends(g, x, y))) <==> EscapesNowhere(g)
  {
    hide Edges, PostDominates, ReachesExit;
    if EscapesNowhere(g) {
      forall x, y | x != y
        ensures InFrontier(g, x, y) <==> Depends(g, x, y)
      {
        if InFrontier(g, x, y) {
          FrontierDepends(g, x, y);
        }
        if Depends(g, x, y) {
          NotPostDominatedReaches(g, x, y);
        }
      }
    } else {
      var x, s :| (x, s) in Edges(g) && ReachesExit(g, x) && !ReachesExit(g, s);
      EdgeIntoTrap(g, x, s);
    }
  }

  // ------------------------------------------------------------------- the search over pairs

  /** What has been found: all dependences on the blocks in `done`, and on s1 of those in `cols`. */
  ghost predicate Recorded(g: Graph, output: map<Block, set<Block>>, input: map<Block, set<Block>>,
                           done: set<Block>, s1: Block, cols: set<Block>) {
    && output.Keys == input.Keys == g.succ.Keys
    && (forall x :: x in g.succ ==> output[x] <= g.succ.Keys && input[x] <= g.succ.Keys)
    && (forall x, y :: x in g.succ && y in g.succ ==>
          (y in output[x] <==> (x in done || (x == s1 && y in cols)) && Depends(g, x, y)))
    && (forall x, y :: x in g.succ && y in g.succ ==> (x in input[y] <==> y in output[x]))
  }

  lemma RecordPair(g: Graph, output: map<Block, set<Block>>, input: map<Block, set<Block>>, done: set<Block>,
                   s1: Block, cols: set<Block>, s2: Block)
    requires Recorded(g, output, input, done, s1, cols) && s1 in g.succ && s2 in g.succ && s1 !in done
    ensures Depends(g, s1, s2) ==>
              Recorded(g, output[s1 := output[s1] + {s2}], input[s2 := input[s2] + {s1}], done, s1, cols + {s2})
    ensures !Depends(g, s1, s2) ==> Recorded(g, output, input, done, s1, cols + {s2})
  {
    hide Depends;
  }

  lemma RecordRow(g: Graph, output: map<Block, set<Block>>, input: map<Block, set<Block>>, done: set<Block>,
                  s1: Block, cols: set<Block>)
    requires Recorded(g, output, input, done, s1, cols)
    requires forall y :: y in g.succ && y !in cols ==> !Depends(g, s1, y)
    ensures forall s2 :: Recorded(g, output, input, done + {s1}, s2, {})
  {
    hide Depends;
  }

  /** For every block the blocks that depend on it, and the blocks that it depends on. */
  class DependenceSearch {
    var outputDependences: map<Block, set<Block>>
    var inputDependences: map<Block, set<Block>>

    constructor () {
      outputDependences, inputDependences := map[], map[];
    }

    method RunOnFunction(g: Graph, dominates: (Block, Block) -> bool)
      requires Valid(g) && forall a, b :: dominates(a, b) <==> PostDominates(g, a, b)
      modifies this
      ensures outputDependences.Keys == inputDependences.Keys == g.succ.Keys
      ensures forall x, y :: x in g.succ && y in g.succ ==> (y in outputDependences[x] <==> Depends(g, x, y))
      ensures forall x, y :: x in g.succ && y in g.succ ==> (x in inputDependences[y] <==> Depends(g, x, y))
    {
      hide PostDominates, Valid, Depends, Recorded;
      outputDependences := map b | b in g.succ :: {};
      inputDependences := map b | b in g.succ :: {};
      var todo := g.succ.Keys;
      NothingRecorded(g, outputDependences, inputDependences);
      assert g.succ.Keys - todo == {};
      while todo != {}
        invariant todo <= g.succ.Keys
        invariant forall s1 :: Recorded(g, outputDependences, inputDependences, g.succ.Keys - todo, s1, {})
        decreases todo
      {
        var s1 :| s1 in todo;
        ghost var done := g.succ.Keys - todo;
        todo := todo - {s1};
        assert g.succ.Keys - todo == done + {s1};
        if |g.succ[s1]| < 2 {
          NoneDepends(g, s1);
          RecordRow(g, outputDependences, inputDependences, done, s1, {});
        } else {
          DependentOn(g, dominates, s1, done);
          RecordRow(g, outputDependences, inputDependences, done, s1, g.succ.Keys);
        }
      }
      assert g.succ.Keys - todo == g.succ.Keys;
      AllRecorded(g, outputDependences, inputDependences);
    }

    /** All blocks that depend on s1. */
    method DependentOn(g: Graph, dominates: (Block, Block) -> bool, s1: Block, ghost done: set<Block>)
      requires forall a, b :: dominates(a, b) <==> PostDominates(g, a, b)
      requires s1 in g.succ && s1 !in done && Recorded(g, outputDependences, inputDependences, done, s1, {})
      modifies this
      ensures Recorded(g, outputDependences, inputDependences, done, s1, g.succ.Keys)
    {
      hide PostDominates, Depends, Recorded;
      var rest := g.succ.Keys;
      ghost var cols := {};
      while rest != {}
        invariant rest + cols == g.succ.Keys
        invariant Recorded(g, outputDependences, inputDependences, done, s1, cols)
        decreases rest
      {
        var s2 :| s2 in rest;
        rest := rest - {s2};
        var found := PostDominatesSuccessor(g, dominates, s1, s2);
        DependsIs(g, s1, s2, found);
        RecordPair(g, outputDependences, inputDependences, done, s1, cols, s2);
        RecordedKeys(g, outputDependences, inputDependences, done, s1, cols);
        if !dominates(s2, s1) && found {
          outputDependences := outputDependences[s1 := outputDependences[s1] + {s2}];
          inputDependences := inputDependences[s2 := inputDependences[s2] + {s1}];
        }
        cols := cols + {s2};
      }
      assert cols == g.succ.Keys;
    }

    static method PostDominatesSuccessor(g: Graph, dominates: (Block, Block) -> bool, s1: Block, s2: Block)
      returns (found: bool)
      requires (forall a, b :: dominates(a, b) <==> PostDominates(g, a, b)) && s1 in g.succ
      ensures found <==> exists i :: 0 <= i < |g.succ[s1]| && PostDominates(g, s2, g.succ[s1][i])
    {
      hide PostDominates;
      found := false;
      var i := 0;
      while i < |g.succ[s1]| && !found
        invariant 0 <= i <= |g.succ[s1]|
        invariant found <==> exists j :: 0 <= j < i && PostDominates(g, s2, g.succ[s1][j])
      {
        if dominates(s2, g.succ[s1][i]) {
          found := true;
        }
        i := i + 1;
      }
    }
  }

  lemma NothingRecorded(g: Graph, output: map<Block, set<Block>>, input: map<Block, set<Block>>)
    requires output == (map b | b in g.succ :: {}) && input == output
    ensures forall s1 :: Recorded(g, output, input, {}, s1, {})
  {
  }

  lemma AllRecorded(g: Graph, output: map<Block, set<Block>>, input: map<Block, set<Block>>)
    requires forall s1 :: Recorded(g, output, input, g.succ.Keys, s1, {})
    ensures output.Keys == input.Keys == g.succ.Keys
    ensures forall x, y :: x in g.succ && y in g.succ ==>
              (y in output[x] <==> Depends(g, x, y)) && (x in input[y] <==> Depends(g, x, y))
  {
    hide Depends;
    assert Recorded(g, output, input, g.succ.Keys, 0, {});
  }

  lemma RecordedKeys(g: Graph, output: map<Block, set<Block>>, input: map<Block, set<Block>>, done: set<Block>,
                     s1: Block, cols: set<Block>)
    requires Recorded(g, output, input, done, s1, cols)
    ensures output.Keys == input.Keys == g.succ.Keys
  {
  }

  lemma NoneDepends(g: Graph, x: Block)
    requires Valid(g) && x in g.succ && |g.succ[x]| < 2
    ensures forall y :: !Depends(g, x, y)
  {
    hide Depends, Valid;
    forall y
      ensures !Depends(g, x, y)
    {
      if Depends(g, x, y) {
        NeedsTwoSuccessors(g, x, y);
      }
    }
  }

  lemma DependsIs(g: Graph, x: Block, y: Block, found: bool)
    requires x in g.succ && (found <==> exists i :: 0 <= i < |g.succ[x]| && PostDominates(g, y, g.succ[x][i]))
    ensures Depends(g, x, y) <==> found && !PostDominates(g, y, x)
  {
    hide PostDominates;
    if found {
      var i :| 0 <= i < |g.succ[x]| && PostDominates(g, y, g.succ[x][i]);
      assert (x, g.succ[x][i]) in Edges(g);
    }
    if Depends(g, x, y) {
      var s :| (x, s) in Edges(g) && PostDominates(g, y, s);
      var i :| 0 <= i < |g.succ[x]| && g.succ[x][i] == s;
    }
  }

  // --------------------------------------------------------------- frontiers over the tree

  /** The post-dominator tree; the root above several exits has no block. */
  datatype Tree = Node(block: Option<Block>, kids: seq<Tree>)

  function Own(t: Tree): set<Block> {
    if t.block.Some? then {t.block.value} else {}
  }

  function BlocksOf(t: Tree): set<Block> {
    Own(t) + BlocksIn(t.kids)
  }

  function BlocksIn(ts: seq<Tree>): set<Block> {
    if ts == [] then {} else BlocksOf(ts[0]) + BlocksIn(ts[1..])
  }

  lemma {:induction false} BlocksInIs(ts: seq<Tree>, b: Block)
    ensures b in BlocksIn(ts) <==> exists i :: 0 <= i < |ts| && b in BlocksOf(ts[i])
    decreases |ts|
  {
    if ts != [] {
      BlocksInIs(ts[1..], b);
      if b in BlocksIn(ts[1..]) {
        var i :| 0 <= i < |ts[1..]| && b in BlocksOf(ts[1..][i]);
        assert ts[1..][i] == ts[i + 1];
      }
      if i :| 0 <= i < |ts| && b in BlocksOf(ts[i]) {
        if i > 0 {
          assert ts[1..][i - 1] == ts[i];
        }
      }
    }
  }

  /** Below a block are the blocks that it post-dominates, among those that reach an exit. */
  ghost predicate TreeOk(g: Graph, t: Tree)
    decreases t
  {
    && (t.block.Some? ==> forall b :: b in BlocksOf(t) <==> ReachesExit(g, b) && PostDominates(g, t.block.value, b))
    && Own(t) !! BlocksIn(t.kids)
    && (forall i :: 0 <= i < |t.kids| ==> t.kids[i].block.Some? && TreeOk(g, t.kids[i]))
  }

  ghost predicate IsPostDominatorTree(g: Graph, root: Tree) {
    TreeOk(g, root) && forall b :: b in BlocksOf(root) <==> ReachesExit(g, b)
  }

  function KidBlocks(t: Tree): set<Block> {
    set i | 0 <= i < |t.kids| && t.kids[i].block.Some? :: t.kids[i].block.value
  }

  /** The blocks from which an edge leads below the node while they are not strictly below it. */
  ghost predicate InTreeFrontier(g: Graph, root: Tree, t: Tree, x: Block) {
    && x in BlocksOf(root)
    && (exists s :: (x, s) in Edges(g) && s in BlocksOf(t))
    && x !in BlocksOf(t) - Own(t)
  }

  lemma OwnReaches(g: Graph, t: Tree)
    requires TreeOk(g, t) && t.block.Some?
    ensures ReachesExit(g, t.block.value)
  {
  }

  /** The parent of a predecessor of a block, if strictly below the block, is the block. */
  lemma PredecessorBelowIsKid(g: Graph, t: Tree, x: Block)
    requires TreeOk(g, t) && t.block.Some? && (x, t.block.value) in Edges(g)
    ensures x in KidBlocks(t) <==> x in BlocksOf(t) - Own(t)
  {
    hide PostDominates, ReachesExit, Edges, BlocksIn;
    var y := t.block.value;
    if x in KidBlocks(t) {
      var i :| 0 <= i < |t.kids| && t.kids[i].block.Some? && t.kids[i].block.value == x;
      assert x in BlocksOf(t.kids[i]);
      BlocksInIs(t.kids, x);
    }
    if x in BlocksOf(t) - Own(t) {
      BlocksInIs(t.kids, x);
      var i :| 0 <= i < |t.kids| && x in BlocksOf(t.kids[i]);
      var c := t.kids[i].block.value;
      OwnReaches(g, t);
      if x != c {
        StrictPostDominatorOfSuccessor(g, c, x, y);
        assert y in BlocksOf(t.kids[i]);
        BlocksInIs(t.kids, y);
      }
    }
  }

  /** The frontier of a node: from its own predecessors, and from its children. */
  lemma FrontierFromKids(g: Graph, root: Tree, t: Tree, x: Block)
    requires TreeOk(g, t)
    ensures InTreeFrontier(g, root, t, x) <==>
            || (x in BlocksOf(root) && t.block.Some? && (x, t.block.value) in Edges(g) && x !in KidBlocks(t))
            || (x !in BlocksOf(t) - Own(t) && exists i :: 0 <= i < |t.kids| && InTreeFrontier(g, root, t.kids[i], x))
  {
    hide PostDominates, ReachesExit, Edges, BlocksIn;
    if t.block.Some? && (x, t.block.value) in Edges(g) {
      PredecessorBelowIsKid(g, t, x);
    }
    if InTreeFrontier(g, root, t, x) {
      var s :| (x, s) in Edges(g) && s in BlocksOf(t);
      if s in BlocksIn(t.kids) {
        BlocksInIs(t.kids, s);
        var i :| 0 <= i < |t.kids| && s in BlocksOf(t.kids[i]);
        BelowKid(t, i, x);
        assert InTreeFrontier(g, root, t.kids[i], x);
      }
    }
    if i :| 0 <= i < |t.kids| && InTreeFrontier(g, root, t.kids[i], x) {
      var s :| (x, s) in Edges(g) && s in BlocksOf(t.kids[i]);
      BlocksInIs(t.kids, s);
    }
  }

  lemma BelowKid(t: Tree, i: nat, x: Block)
    requires i < |t.kids| && Own(t) !! BlocksIn(t.kids)
    ensures x in BlocksOf(t.kids[i]) ==> x in BlocksOf(t) - Own(t)
  {
    BlocksInIs(t.kids, x);
  }

  lemma TreeFrontierIs(g: Graph, root: Tree, t: Tree, x: Block)
    requires IsPostDominatorTree(g, root) && TreeOk(g, t) && t.block.Some?
    ensures InTreeFrontier(g, root, t, x) <==> InFrontier(g, x, t.block.value)
  {
    hide PostDominates, ReachesExit, Edges, BlocksIn;
    OwnReaches(g, t);
  }

  // ------------------------------------------------------------------------- the pass

  /** Every frontier that has been entered is that of its block. */
  ghost predicate RightSoFar(g: Graph, frontiers: map<Option<Block>, set<Block>>) {
    forall y :: Some(y) in frontiers ==> forall x :: x in frontiers[Some(y)] <==> InFrontier(g, x, y)
  }

  ghost predicate Enters(t: Tree, frontiers: map<Option<Block>, set<Block>>) {
    forall b :: b in BlocksOf(t) ==> Some(b) in frontiers
  }

  lemma EntersNode(t: Tree, frontiers: map<Option<Block>, set<Block>>)
    requires t.block in frontiers && forall i :: 0 <= i < |t.kids| ==> Enters(t.kids[i], frontiers)
    ensures Enters(t, frontiers)
  {
    forall b | b in BlocksOf(t)
      ensures Some(b) in frontiers
    {
      if b in BlocksIn(t.kids) {
        BlocksInIs(t.kids, b);
        var i :| 0 <= i < |t.kids| && b in BlocksOf(t.kids[i]);
        assert Enters(t.kids[i], frontiers);
      }
    }
  }

  /** What the first n children pass up. */
  ghost predicate FromKids(g: Graph, root: Tree, t: Tree, n: nat, x: Block)
    requires n <= |t.kids|
  {
    x !in BlocksOf(t) - Own(t) && exists i :: 0 <= i < n && InTreeFrontier(g, root, t.kids[i], x)
  }

  ghost predicate FromPredecessors(g: Graph, root: Tree, t: Tree, x: Block) {
    x in BlocksOf(root) && t.block.Some? && (x, t.block.value) in Edges(g) && x !in KidBlocks(t)
  }

  class ControlDep {
    var frontiers: map<Option<Block>, set<Block>>
    const cdg: Digraph
    const closure: TransitiveClosure

    constructor ()
      ensures fresh(cdg) && fresh(closure) && cdg.adj == map[] && closure.all == map[]
    {
      frontiers := map[];
      cdg := new Digraph();
      closure := new TransitiveClosure();
    }

    /** Is y control dependent on x? */
    predicate IsCtrlDep(x: Block, y: Block)
      reads this
    {
      Some(y) in frontiers && x in frontiers[Some(y)]
    }

    predicate IsIterativelyCtrlDep(x: Block, y: Block)
      reads this, closure
    {
      closure.Reachable(x, y)
    }

    /** Fills the frontiers, puts the dependences into a digraph and closes that. */
    method RunOnFunction(g: Graph, root: Tree)
      requires Valid(g) && IsPostDominatorTree(g, root) && cdg.adj == map[] && closure.all == map[]
      modifies this, cdg, closure
      ensures forall x, y :: IsCtrlDep(x, y) <==> InFrontier(g, x, y)
      ensures forall x, y :: IsIterativelyCtrlDep(x, y) <==> x in g.succ && Reach(Dependences(g), x, y)
    {
      hide Valid, IsPostDominatorTree, RightSoFar, Enters, InFrontier, Reach, Closed, BuiltFor, RowFor;
      frontiers := map[];
      TreeIsOk(g, root);
      var s := Calculate(g, root, root);
      FrontiersRight(g, root, frontiers);
      var todo := g.succ.Keys;
      NothingBuilt(g, cdg.adj);
      while todo != {}
        invariant todo <= g.succ.Keys && BuiltFor(g, cdg.adj, g.succ.Keys - todo)
        invariant forall x, y :: IsCtrlDep(x, y) <==> InFrontier(g, x, y)
        invariant closure.all == map[]
        decreases todo
      {
        var x :| x in todo;
        ghost var done := g.succ.Keys - todo;
        todo := todo - {x};
        RowStarts(g, cdg.adj, done, x);
        cdg.AddNode(x);
        var rest := g.succ.Keys;
        ghost var cols := {};
        while rest != {}
          invariant rest + cols == g.succ.Keys && RowFor(g, cdg.adj, done, x, cols)
          invariant forall x, y :: IsCtrlDep(x, y) <==> InFrontier(g, x, y)
          invariant closure.all == map[]
          decreases rest
        {
          var y :| y in rest;
          RowNext(g, cdg.adj, done, x, cols, y);
          rest := rest - {y};
          if IsCtrlDep(x, y) {
            cdg.AddEdge(x, y);
          }
          cols := cols + {y};
        }
        assert cols == g.succ.Keys && done + {x} == g.succ.Keys - todo;
        RowEnds(g, cdg.adj, done, x);
      }
      assert g.succ.Keys - todo == g.succ.Keys;
      BuiltIsDependences(g, cdg.adj);
      closure.ComputeTC(cdg.adj);
    }

    /** The frontier of a node, from its predecessors and the frontiers of its children. */
    method Calculate(g: Graph, root: Tree, t: Tree) returns (s: set<Block>)
      requires Valid(g) && IsPostDominatorTree(g, root) && TreeOk(g, t) && RightSoFar(g, frontiers)
      modifies this`frontiers
      ensures forall x :: x in s <==> InTreeFrontier(g, root, t, x)
      ensures RightSoFar(g, frontiers) && Enters(t, frontiers) && old(frontiers).Keys <= frontiers.Keys
      decreases t
    {
      hide IsPostDominatorTree, RightSoFar, BlocksOf, InTreeFrontier, InFrontier, Enters, ReachesExit, PostDominates;
      s := {};
      if t.block.Some? {
        s := set p | p in g.succ && t.block.value in g.succ[p] && p in BlocksOf(root) && p !in KidBlocks(t);
      }
      forall x
        ensures x in s <==> FromPredecessors(g, root, t, x)
      {
      }
      var i := 0;
      while i < |t.kids|
        invariant 0 <= i <= |t.kids|
        invariant forall x :: x in s <==> FromPredecessors(g, root, t, x) || FromKids(g, root, t, i, x)
        invariant RightSoFar(g, frontiers) && old(frontiers).Keys <= frontiers.Keys
        invariant forall j :: 0 <= j < i ==> Enters(t.kids[j], frontiers)
      {
        ghost var before := frontiers;
        var child := Calculate(g, root, t.kids[i]);
        EntersStill(t, i, before, frontiers);
        s := s + set x | x in child && x !in BlocksOf(t) - Own(t);
        i := i + 1;
      }
      forall x
        ensures x in s <==> InTreeFrontier(g, root, t, x)
      {
        FrontierFromKids(g, root, t, x);
      }
      EnterFrontier(g, root, t, frontiers, s);
      ghost var before := frontiers;
      frontiers := frontiers[t.block := s];
      EntersStill(t, |t.kids|, before, frontiers);
      EntersNode(t, frontiers);
    }
  }

  lemma EntersStill(t: Tree, n: nat, before: map<Option<Block>, set<Block>>, after: map<Option<Block>, set<Block>>)
    requires n <= |t.kids|
    ensures before.Keys <= after.Keys && (forall j :: 0 <= j < n ==> Enters(t.kids[j], before)) ==>
              forall j :: 0 <= j < n ==> Enters(t.kids[j], after)
  {
    hide BlocksOf;
  }

  lemma EnterFrontier(g: Graph, root: Tree, t: Tree, frontiers: map<Option<Block>, set<Block>>, s: set<Block>)
    requires IsPostDominatorTree(g, root) && TreeOk(g, t) && RightSoFar(g, frontiers)
    requires forall x :: x in s <==> InTreeFrontier(g, root, t, x)
    ensures RightSoFar(g, frontiers[t.block := s])
  {
    hide IsPostDominatorTree, InTreeFrontier, InFrontier, TreeOk;
    if t.block.Some? {
      forall x
        ensures x in s <==> InFrontier(g, x, t.block.value)
      {
        TreeFrontierIs(g, root, t, x);
      }
    }
  }

  /** The control dependences of the function. */
  ghost function Dependences(g: Graph): Rel {
    set x, y | x in g.succ.Keys && y in g.succ.Keys && InFrontier(g, x, y) :: (x, y)
  }

  lemma TreeIsOk(g: Graph, root: Tree)
    requires IsPostDominatorTree(g, root)
    ensures TreeOk(g, root) && RightSoFar(g, map[])
  {
  }

  lemma FrontiersRight(g: Graph, root: Tree, frontiers: map<Option<Block>, set<Block>>)
    requires IsPostDominatorTree(g, root) && RightSoFar(g, frontiers) && Enters(root, frontiers)
    ensures forall x: Block, y: Block :: (Some(y) in frontiers && x in frontiers[Some(y)]) <==> InFrontier(g, x, y)
  {
    hide BlocksOf, TreeOk, ReachesExit, PostDominates, Edges;
    forall x: Block, y: Block | InFrontier(g, x, y)
      ensures Some(y) in frontiers
    {
      var s :| (x, s) in Edges(g) && ReachesExit(g, s) && PostDominates(g, y, s);
      PostDominatorReaches(g, y, s);
      assert y in BlocksOf(root);
    }
  }

  /** The digraph once the rows of `done` have been entered. */
  ghost predicate BuiltFor(g: Graph, adj: Adjacency, done: set<Block>) {
    && done <= g.succ.Keys && adj.Keys == done
    && forall x, y :: x in done ==> (y in adj[x] <==> y in g.succ && InFrontier(g, x, y))
  }

  ghost predicate RowFor(g: Graph, adj: Adjacency, done: set<Block>, x: Block, cols: set<Block>) {
    && done <= g.succ.Keys && adj.Keys == done + {x} && x !in done
    && (forall z, y :: z in done ==> (y in adj[z] <==> y in g.succ && InFrontier(g, z, y)))
    && (forall y :: y in adj[x] <==> y in cols && InFrontier(g, x, y))
  }

  lemma NothingBuilt(g: Graph, adj: Adjacency)
    requires adj == map[]
    ensures BuiltFor(g, adj, g.succ.Keys - g.succ.Keys)
  {
  }

  lemma RowStarts(g: Graph, adj: Adjacency, done: set<Block>, x: Block)
    requires BuiltFor(g, adj, done) && x !in done
    ensures x !in adj && RowFor(g, adj[x := []], done, x, {})
  {
    hide InFrontier;
  }

  lemma RowNext(g: Graph, adj: Adjacency, done: set<Block>, x: Block, cols: set<Block>, y: Block)
    requires RowFor(g, adj, done, x, cols)
    ensures x in adj
    ensures InFrontier(g, x, y) ==> RowFor(g, adj[x := adj[x] + [y]], done, x, cols + {y})
    ensures !InFrontier(g, x, y) ==> RowFor(g, adj, done, x, cols + {y})
  {
    hide InFrontier;
  }

  lemma RowEnds(g: Graph, adj: Adjacency, done: set<Block>, x: Block)
    requires RowFor(g, adj, done, x, g.succ.Keys) && x in g.succ
    ensures BuiltFor(g, adj, done + {x})
  {
    hide InFrontier;
  }

  lemma BuiltIsDependences(g: Graph, adj: Adjacency)
    requires BuiltFor(g, adj, g.succ.Keys)
    ensures Closed(adj) && adj.Keys == g.succ.Keys && Arcs(adj) == Dependences(g)
  {
    hide InFrontier;
    forall v, i | v in adj && 0 <= i < |adj[v]|
      ensures adj[v][i] in adj
    {
      assert adj[v][i] in adj[v];
    }
    forall u, v
      ensures (u, v) in Arcs(adj) <==> (u, v) in Dependences(g)
    {
    }
    assert forall p :: p in Arcs(adj) ==> (p.0, p.1) in Dependences(g);
    assert forall p :: p in Dependences(g) ==> (p.0, p.1) in Arcs(adj);
  }
}
