/** One round of tail replication, seen as a step from a graph to a larger one.

    The subgraph that a forward edge leads into is copied and the edge is turned to the copy of
    its target. Everything the pass relies on is a fact about one such round. */
module Cloning {
  import opened Graphs

  ghost predicate Inverse(copies: map<Block, Block>, original: map<Block, Block>) {
    && (forall s :: s in copies ==> copies[s] in original && original[copies[s]] == s)
    && (forall n :: n in original ==> original[n] in copies && copies[original[n]] == n)
  }

  function Renamed(copies: map<Block, Block>, x: Block): Block {
    if x in copies then copies[x] else x
  }

  function RenamedSeq(copies: map<Block, Block>, s: seq<Block>): (r: seq<Block>)
    ensures |r| == |s| && forall j :: 0 <= j < |s| ==> r[j] == Renamed(copies, s[j])
  {
    seq(|s|, j requires 0 <= j < |s| => Renamed(copies, s[j]))
  }

  /** `before` becomes `after`: the blocks that forward edges reach from the i-th successor of block
      `e` are copied, and that successor is turned to its copy. `copies` takes an original
      block to its copy and `original` takes it back. */
  datatype Round = Round(before: Graph, after: Graph, copies: map<Block, Block>,
                         original: map<Block, Block>, e: Block, i: nat)
  {
    /** The block that x stands for. */
    function Orig(x: Block): Block {
      if x in original then original[x] else x
    }

    function OrigSeq(p: seq<Block>): (r: seq<Block>)
      ensures |r| == |p| && forall j :: 0 <= j < |p| ==> r[j] == Orig(p[j])
    {
      seq(|p|, j requires 0 <= j < |p| => Orig(p[j]))
    }

    /** The version of a dominator v that a block x of the new graph sees. */
    function Seen(v: Block, x: Block): Block {
      if x in original && v in copies then copies[v] else v
    }

    ghost predicate Source() {
      && Valid(before) && Reducible(before)
      && e in before.succ && i < |before.succ[e]| && (e, Target()) in Forward(before)
    }

    function Target(): Block
      requires e in before.succ && i < |before.succ[e]|
    {
      before.succ[e][i]
    }

    ghost predicate Copied()
      requires e in before.succ && i < |before.succ[e]|
    {
      && Inverse(copies, original) && original.Keys !! before.succ.Keys && copies.Keys <= before.succ.Keys
      && Target() in copies
      && forall s :: s in copies <==> Reach(Forward(before), Target(), s)
    }

    ghost predicate Rewired()
      requires e in before.succ && i < |before.succ[e]| && Copied()
    {
      && after.entry == before.entry
      && after.succ.Keys == before.succ.Keys + original.Keys
      && (forall n :: n in original ==> after.succ[n] == RenamedSeq(copies, before.succ[original[n]]))
      && (forall x :: x in before.succ && x != e ==> after.succ[x] == before.succ[x])
      && after.succ[e] == before.succ[e][i := copies[Target()]]
    }

    ghost predicate Ok() {
      var ok :=
        Source() && Copied() && Rewired();
      ok
    }

    /** Edges project pointwise, and a copy's successors are the renamed ones. */
    lemma EdgeProjects(x: Block, y: Block)
      requires Ok() && (x, y) in Edges(after)
      ensures x in after.succ && y in after.succ && (Orig(x), Orig(y)) in Edges(before)
      ensures x in original ==> y == Renamed(copies, Orig(y))
      ensures x !in original && y in original ==> x == e && y == copies[Target()]
    {
      var j :| 0 <= j < |after.succ[x]| && after.succ[x][j] == y;
      if x in original {
        assert y == Renamed(copies, before.succ[original[x]][j]);
      } else if x == e && j == i {
        assert y == copies[Target()];
      } else {
        assert y == before.succ[x][j];
      }
    }

    lemma {:induction false} WalkProjects(p: seq<Block>)
      requires Ok() && Walk(Edges(after), p)
      ensures Walk(Edges(before), OrigSeq(p))
      decreases |p|
    {
      hide Ok, Edges;
      if |p| > 1 {
        var q := p[..|p| - 1];
        WalkProjects(q);
        EdgeProjects(q[|q| - 1], p[|p| - 1]);
        WalkSnoc(Edges(before), OrigSeq(q), Orig(p[|p| - 1]));
        assert OrigSeq(p) == OrigSeq(q) + [Orig(p[|p| - 1])];
      }
    }

    lemma Basics()
      requires Ok()
      ensures Source() && Target() in copies && copies[Target()] in original
      ensures after.entry == before.entry && before.entry !in original && e !in original
      ensures before.succ.Keys <= after.succ.Keys
      ensures after.succ[e][i] == copies[Target()]
    {
    }

    lemma CopyOf(x: Block)
      requires Ok()
      ensures x in original ==> original[x] in copies && copies[original[x]] == x
      ensures x in copies ==> x in before.succ && copies[x] in original && original[copies[x]] == x
      ensures x in copies <==> Reach(Forward(before), Target(), x)
      ensures x in before.succ ==> x !in original
    {
    }

    lemma ReachableProjects(x: Block)
      requires Ok() && Reachable(after, x)
      ensures Reachable(before, Orig(x))
    {
      hide Ok, Walk, Edges;
      Basics();
      var p :| WalkFromTo(Edges(after), p, after.entry, x);
      NonEmpty(Edges(after), p);
      WalkProjects(p);
      assert WalkFromTo(Edges(before), OrigSeq(p), before.entry, Orig(x));
    }

    /** A dominator v that was copied dominates nothing strictly across the border between the
        copies and the rest: the forward edges would make a cycle. */
    lemma BorderSeesUncopied(w: Block, x: Block, v: Block)
      requires Ok() && (w, x) in Edges(after) && (w in original) != (x in original)
      requires Reachable(before, Orig(x)) && Dominates(before, v, Orig(x)) && v != Orig(x)
      ensures v !in copies
    {
      hide Ok, Dominates, Reach, Walk;
      Basics();
      CopyOf(v);
      CopyOf(x);
      CopyOf(Target());
      EdgeProjects(w, x);
      if v in copies {
        DominatorReachesForward(before, v, Orig(x));
        ReachTrans(Forward(before), Target(), v, Orig(x));
        CopyOf(Orig(x));
        if x in original {
          ReachAntisymmetric(Forward(before), v, Target());
        }
      }
    }

    /** The heart of the matter: dominance survives, with copies dominated by the copy where
        there is one. */
    lemma {:induction false} DominatorOnWalk(v: Block, p: seq<Block>)
      requires Ok() && Walk(Edges(after), p) && p[0] == before.entry
      requires Dominates(before, v, Orig(p[|p| - 1]))
      ensures Seen(v, p[|p| - 1]) in p
      decreases |p|
    {
      hide Ok, Edges, Dominates, Walk;
      NonEmpty(Edges(after), p);
      Basics();
      var x := p[|p| - 1];
      if |p| == 1 {
        OnlyEntryDominatesEntry(before, v);
      } else if v == Orig(x) {
        CopyOf(x);
      } else {
        var q := p[..|p| - 1];
        var w := q[|q| - 1];
        LastStep(Edges(after), p);
        EdgeProjects(w, x);
        StrictDominatorOfPredecessor(before, v, Orig(w), Orig(x));
        DominatorOnWalk(v, q);
        if (w in original) != (x in original) {
          assert WalkFromTo(Edges(after), p, after.entry, x);
          ReachableProjects(x);
          BorderSeesUncopied(w, x, v);
        }
        assert Seen(v, x) == Seen(v, w);
      }
    }

    lemma DominatesLifts(v: Block, x: Block)
      requires Ok() && Dominates(before, v, Orig(x))
      ensures Dominates(after, Seen(v, x), x)
    {
      hide Ok, Edges, Walk;
      Basics();
      forall p | WalkFromTo(Edges(after), p, after.entry, x)
        ensures Seen(v, x) in p
      {
        DominatorOnWalk(v, p);
      }
    }

    /** A forward edge of the new graph stands for a forward edge of the old one. */
    lemma ForwardProjects(x: Block, y: Block)
      requires Ok() && (x, y) in Forward(after)
      ensures (Orig(x), Orig(y)) in Forward(before)
    {
      hide Ok, Reach, Walk;
      Basics();
      CopyOf(y);
      CopyOf(Target());
      EdgeProjects(x, y);
      assert (x !in original && y in original) || Seen(Orig(y), x) == y;
      if Dominates(before, Orig(y), Orig(x)) {
        DominatesLifts(Orig(y), x);
      }
    }

    lemma {:induction false} ForwardWalkProjects(p: seq<Block>)
      requires Ok() && Walk(Forward(after), p)
      ensures Walk(Forward(before), OrigSeq(p))
      ensures Reach(Forward(before), Orig(p[0]), Orig(p[|p| - 1]))
      decreases |p|
    {
      hide Ok, Forward;
      if |p| > 1 {
        var q := p[..|p| - 1];
        ForwardWalkProjects(q);
        ForwardProjects(q[|q| - 1], p[|p| - 1]);
        WalkSnoc(Forward(before), OrigSeq(q), Orig(p[|p| - 1]));
        assert OrigSeq(p) == OrigSeq(q) + [Orig(p[|p| - 1])];
      }
      assert WalkFromTo(Forward(before), OrigSeq(p), Orig(p[0]), Orig(p[|p| - 1]));
    }

    /** Conversely, an edge of a reachable block that stands for a forward edge is forward. */
    lemma ForwardLifts(x: Block, y: Block)
      requires Ok() && (x, y) in Edges(after) && Reachable(after, x)
      requires (Orig(x), Orig(y)) in Forward(before)
      ensures (x, y) in Forward(after)
    {
      hide Ok, Walk;
      Basics();
      DominatesSelf(before, Orig(x));
      if Dominates(after, y, x) {
        DominatorReachesForward(after, y, x);
        var p :| WalkFromTo(Forward(after), p, y, x);
        ForwardWalkProjects(p);
        ReachEdge(Forward(before), Orig(x), Orig(y));
        ReachAntisymmetric(Forward(before), Orig(y), Orig(x));
      }
    }

    lemma StaysReducible()
      requires Ok()
      ensures Valid(after) && Reducible(after)
    {
      hide Ok;
      Basics();
      forall b, j | b in after.succ && 0 <= j < |after.succ[b]|
        ensures after.succ[b][j] in after.succ
      {
        EdgeProjects(b, after.succ[b][j]);
      }
      forall p | Walk(Forward(after), p) && |p| > 1
        ensures p[0] != p[|p| - 1]
      {
        ForwardWalkProjects(p);
        assert |OrigSeq(p)| > 1;
      }
    }

    lemma ForwardEdgeStaysInCopies(x: Block, y: Block)
      requires Ok() && (x, y) in Forward(after) && x in original
      ensures y in original
    {
      hide Ok, Reach, Dominates;
      Basics();
      CopyOf(x);
      CopyOf(Orig(x));
      CopyOf(Orig(y));
      EdgeProjects(x, y);
      ForwardProjects(x, y);
      ReachStep(Forward(before), Target(), Orig(x), Orig(y));
    }

    lemma ForwardEdgeIntoCopies(x: Block, y: Block)
      requires Ok() && (x, y) in Forward(after) && x !in original && y in original
      ensures x == e
    {
      EdgeProjects(x, y);
    }

    /** Forward edges never leave the copies. */
    lemma {:induction false} ForwardStaysInCopies(p: seq<Block>)
      requires Ok() && Walk(Forward(after), p) && p[0] in original
      ensures p[|p| - 1] in original
      decreases |p|
    {
      hide *;
      NonEmpty(Forward(after), p);
      if |p| > 1 {
        var q := p[..|p| - 1];
        LastStep(Forward(after), p);
        ForwardStaysInCopies(q);
        ForwardEdgeStaysInCopies(q[|q| - 1], p[|p| - 1]);
      }
    }

    /** A forward walk into the copies from outside them passes the turned edge. */
    lemma {:induction false} ForwardEntersThroughEdge(p: seq<Block>)
      requires Ok() && Walk(Forward(after), p)
      requires p[0] !in original && p[|p| - 1] in original
      ensures Reach(Forward(before), p[0], e)
      decreases |p|
    {
      hide Ok, Forward, Reach, Walk;
      NonEmpty(Forward(after), p);
      if |p| > 1 {
        var q := p[..|p| - 1];
        LastStep(Forward(after), p);
        if q[|q| - 1] in original {
          ForwardEntersThroughEdge(q);
        } else {
          ForwardEdgeIntoCopies(q[|q| - 1], p[|p| - 1]);
          ForwardWalkProjects(q);
        }
      }
    }

    // ------------------------------------------------ what a round keeps for a dominator of e

    /** A block that forward edges lead from to e is not among those e's edge leads to. */
    lemma UpstreamUncopied(d: Block)
      requires Ok() && Reach(Forward(before), d, e)
      ensures d !in copies
    {
      hide Ok, Reach, Dominates, Forward;
      Basics();
      CopyOf(d);
      CopyOf(e);
      ReachEdge(Forward(before), e, Target());
      ReachTrans(Forward(before), d, e, Target());
      if d in copies {
        ReachAntisymmetric(Forward(before), d, Target());
        ReachAntisymmetric(Forward(before), e, Target());
        SelfEdgeIsBack(before, e);
      }
    }

    lemma DominatorUncopied(d: Block)
      requires Ok() && Dominates(before, d, e)
      ensures d !in copies
    {
      hide Ok, Reach, Dominates, Forward;
      Basics();
      ForwardIsEdge(before, e, Target());
      DominatorReachesForward(before, d, e);
      UpstreamUncopied(d);
    }

    lemma KeepsCovered(d: Block, x: Block)
      requires Ok() && Covers(before, d, x) && d !in copies && x in before.succ
      ensures Covers(after, d, x)
    {
      hide Ok, Dominates, Forward;
      CopyOf(x);
      forall y | Reach(Forward(after), x, y)
        ensures Dominates(after, d, y)
      {
        var p :| WalkFromTo(Forward(after), p, x, y);
        ForwardWalkProjects(p);
        DominatesLifts(d, y);
      }
    }

    /** A block that dominates all that follows it still does, and so does its copy. */
    lemma KeepsGood(a: Block)
      requires Ok() && a in after.succ && Covers(before, Orig(a), Orig(a))
      ensures Covers(after, a, a)
    {
      hide Ok, Dominates, Forward;
      Basics();
      CopyOf(a);
      forall y | Reach(Forward(after), a, y)
        ensures Dominates(after, a, y)
      {
        var p :| WalkFromTo(Forward(after), p, a, y);
        ForwardWalkProjects(p);
        DominatesLifts(Orig(a), y);
        if a in original {
          ForwardStaysInCopies(p);
        } else if y in original {
          ForwardEntersThroughEdge(p);
          UpstreamUncopied(a);
        }
      }
    }

    /** The copies are entered through e only. */
    lemma {:induction false} CopiesBehindEdge(p: seq<Block>)
      requires Ok() && Walk(Edges(after), p) && p[0] == before.entry && p[|p| - 1] in original
      ensures e in p
      decreases |p|
    {
      hide *;
      NonEmpty(Edges(after), p);
      Basics();
      if |p| > 1 {
        var q := p[..|p| - 1];
        LastStep(Edges(after), p);
        EdgeProjects(q[|q| - 1], p[|p| - 1]);
        if q[|q| - 1] in original {
          CopiesBehindEdge(q);
        }
      }
    }

    lemma CopiesCovered(d: Block)
      requires Ok() && Dominates(before, d, e)
      ensures Covers(after, d, copies[Target()])
    {
      hide Ok, Forward;
      Basics();
      forall y | Reach(Forward(after), copies[Target()], y)
        ensures Dominates(after, d, y)
      {
        var f :| WalkFromTo(Forward(after), f, copies[Target()], y);
        ForwardStaysInCopies(f);
        forall p | WalkFromTo(Edges(after), p, after.entry, y)
          ensures d in p
        {
          CopiesBehindEdge(p);
          var k :| 0 <= k < |p| && p[k] == e;
          WalkSplit(Edges(after), p, k);
          DominatorOnWalk(d, p[..k + 1]);
        }
      }
    }

    lemma {:induction false} UntouchedWalk(p: seq<Block>)
      requires Ok() && Walk(Edges(before), p) && e !in p[..|p| - 1]
      ensures Walk(Edges(after), p)
      decreases |p|
    {
      if |p| > 1 {
        UntouchedWalk(p[..|p| - 1]);
      }
    }

    /** Blocks that a walk around d leads to are not dominated by d in the new graph either. */
    lemma DominatesProjects(d: Block, x: Block)
      requires Ok() && Dominates(before, d, e) && Dominates(after, d, x) && x in before.succ
      ensures Dominates(before, d, x)
    {
      forall p | WalkFromTo(Edges(before), p, before.entry, x)
        ensures d in p
      {
        DominatorOnPrefix(before, d, e, p);
        if e !in p {
          UntouchedWalk(p);
        }
      }
    }

    /** d is reached around, so what the turned edge led to can still be reached. */
    lemma TargetStaysReachable(d: Block)
      requires Ok() && Dominates(before, d, e) && !Dominates(before, d, Target())
      ensures Reachable(after, Target())
    {
      hide Ok;
      Basics();
      var q :| WalkFromTo(Edges(before), q, before.entry, Target()) && d !in q;
      DominatorOnPrefix(before, d, e, q);
      UntouchedWalk(q);
      assert WalkFromTo(Edges(after), q, after.entry, Target());
    }

    lemma EdgeLifts(w: Block, x: Block)
      requires Ok() && (w, x) in Edges(before) && !(w == e && x == Target())
      ensures (w, x) in Edges(after)
    {
      var j :| 0 <= j < |before.succ[w]| && before.succ[w][j] == x;
      assert after.succ[w][j] == x;
    }

    lemma {:induction false} ReachableLifts(d: Block, p: seq<Block>)
      requires Ok() && Dominates(before, d, e) && !Dominates(before, d, Target())
      requires Walk(Edges(before), p) && p[0] == before.entry
      ensures Reachable(after, p[|p| - 1])
      decreases |p|
    {
      hide Ok, Edges, Dominates, Reach, Walk;
      NonEmpty(Edges(before), p);
      Basics();
      var x := p[|p| - 1];
      if |p| == 1 {
        ReachSelf(Edges(after), x);
      } else {
        var q := p[..|p| - 1];
        var w := q[|q| - 1];
        LastStep(Edges(before), p);
        ReachableLifts(d, q);
        if w == e && x == Target() {
          TargetStaysReachable(d);
        } else {
          EdgeLifts(w, x);
          ReachStep(Edges(after), after.entry, w, x);
        }
      }
    }

    /** Each round makes strictly more blocks reachable. */
    lemma ReachableGrows(d: Block)
      requires Ok() && Dominates(before, d, e) && !Dominates(before, d, Target())
      ensures ReachableSet(before) < ReachableSet(after)
    {
      forall x | x in ReachableSet(before)
        ensures x in ReachableSet(after)
      {
        var p :| WalkFromTo(Edges(before), p, before.entry, x);
        ReachableLifts(d, p);
      }
      ForwardIsEdge(before, e, Target());
      assert e in ReachableSet(before);
      var c := copies[Target()];
      assert after.succ[e][i] == c;
      ReachStep(Edges(after), after.entry, e, c);
      assert c in ReachableSet(after) && c !in ReachableSet(before);
    }

    lemma SameArity(x: Block)
      requires Ok() && x in after.succ
      ensures Orig(x) in before.succ && |before.succ[Orig(x)]| == |after.succ[x]|
    {
    }

    lemma ForwardKept(x: Block, j: nat)
      requires Ok() && Reachable(after, x) && x in after.succ && j < |after.succ[x]|
      ensures Orig(x) in before.succ && j < |before.succ[Orig(x)]|
      ensures Orig(after.succ[x][j]) == before.succ[Orig(x)][j]
      ensures after.succ[x][j] in after.succ && Reachable(after, after.succ[x][j])
      ensures (x, after.succ[x][j]) in Forward(after)
         <==> (Orig(x), before.succ[Orig(x)][j]) in Forward(before)
    {
      var y := after.succ[x][j];
      assert (x, y) in Edges(after);
      EdgeProjects(x, y);
      ReachStep(Edges(after), after.entry, x, y);
      assert Orig(y) == before.succ[Orig(x)][j];
      if (x, y) in Forward(after) {
        ForwardProjects(x, y);
      } else if (Orig(x), Orig(y)) in Forward(before) {
        ForwardLifts(x, y);
      }
    }

    /** The number of forward paths out of a block is that of the block it stands for. */
    lemma {:induction false} PathsKept(x: Block, j: nat)
      requires Ok() && Valid(after) && Reducible(after)
      requires Reachable(after, x) && x in after.succ && j <= |after.succ[x]|
      ensures Orig(x) in before.succ && |before.succ[Orig(x)]| == |after.succ[x]|
      ensures Paths(after, x, j) == Paths(before, Orig(x), j)
      decreases |ForwardSet(after, x)|, |after.succ[x]| - j
    {
      hide Ok, Forward, Reachable;
      SameArity(x);
      if j < |after.succ[x]| {
        PathsKept(x, j + 1);
        ForwardKept(x, j);
        var y := after.succ[x][j];
        if (x, y) in Forward(after) {
          ForwardSetShrinks(after, x, y);
          PathsKept(y, 0);
        }
      }
    }
  }

  /** What a round has made of the graph. */
  lemma RoundFacts(r: Round)
    requires r.Ok()
    ensures r.e in r.before.succ && r.i < |r.before.succ[r.e]| && r.e !in r.original && r.Target() in r.copies
    ensures Inverse(r.copies, r.original) && r.original.Keys !! r.before.succ.Keys
            && r.copies.Keys <= r.before.succ.Keys
    ensures r.after.entry == r.before.entry && r.after.succ.Keys == r.before.succ.Keys + r.original.Keys
    ensures forall n :: n in r.original ==>
              r.original[n] in r.before.succ && r.after.succ[n] == RenamedSeq(r.copies, r.before.succ[r.original[n]])
    ensures forall x :: x in r.before.succ && x != r.e ==> r.after.succ[x] == r.before.succ[x]
    ensures r.after.succ[r.e] == r.before.succ[r.e][r.i := r.copies[r.Target()]]
  {
    hide Dominates, Reach, Valid, Reducible, Forward;
    r.Basics();
  }

  /** The rounds lead from graph g to graph h. */
  ghost predicate Chain(g: Graph, rounds: seq<Round>, h: Graph)
    decreases |rounds|
  {
    if rounds == [] then h == g
    else
      var last := rounds[|rounds| - 1];
      last.Ok() && last.after == h && Chain(g, rounds[..|rounds| - 1], last.before)
  }

  lemma DominatorOnPrefix(g: Graph, d: Block, e: Block, p: seq<Block>)
    requires Dominates(g, d, e) && Walk(Edges(g), p) && p[0] == g.entry
    ensures e in p ==> d in p
  {
    if e in p {
      var k :| 0 <= k < |p| && p[k] == e;
      WalkSplit(Edges(g), p, k);
      assert d in p[..k + 1];
    }
  }

  lemma SelfEdgeIsBack(g: Graph, u: Block)
    ensures (u, u) !in Forward(g)
  {
    assert Dominates(g, u, u);
  }

  /** d dominates every block that forward edges reach from x. */
  ghost predicate Covers(g: Graph, d: Block, x: Block) {
    forall y :: Reach(Forward(g), x, y) ==> Dominates(g, d, y)
  }

  ghost function ReachableSet(g: Graph): set<Block> {
    set x | x in g.succ && Reachable(g, x)
  }

  // ------------------------------------------------------------- counting forward paths

  ghost function ForwardSet(g: Graph, u: Block): set<Block> {
    set v | v in g.succ && Reach(Forward(g), u, v)
  }

  lemma ForwardSetShrinks(g: Graph, u: Block, v: Block)
    requires Reducible(g) && (u, v) in Forward(g)
    ensures ForwardSet(g, v) < ForwardSet(g, u)
    ensures |ForwardSet(g, v)| < |ForwardSet(g, u)|
  {
    ReachEdge(Forward(g), u, v);
    forall w | w in ForwardSet(g, v)
      ensures w in ForwardSet(g, u)
    {
      ReachTrans(Forward(g), u, v, w);
    }
    ReachSelf(Forward(g), u);
    assert u in ForwardSet(g, u);
    if u in ForwardSet(g, v) {
      ReachAntisymmetric(Forward(g), u, v);
      SelfEdgeIsBack(g, u);
    }
    ProperSubsetIsSmaller(ForwardSet(g, v), ForwardSet(g, u));
  }

  lemma ProperSubsetIsSmaller<T>(a: set<T>, b: set<T>)
    requires a < b
    ensures |a| < |b|
  {
    assert b == a + (b - a);
    assert b - a != {};
  }

  /** The number of forward paths out of u whose first edge, if there is one, is its j-th or a
      later one. Parallel edges make different paths. */
  ghost function Paths(g: Graph, u: Block, j: nat): nat
    requires Valid(g) && Reducible(g) && u in g.succ && j <= |g.succ[u]|
    decreases |ForwardSet(g, u)|, |g.succ[u]| - j
  {
    if j == |g.succ[u]| then 1
    else
      var v := g.succ[u][j];
      (if (u, v) in Forward(g) then ForwardSetShrinks(g, u, v); Paths(g, v, 0) else 0)
      + Paths(g, u, j + 1)
  }

  lemma {:induction false} PathsDecrease(g: Graph, u: Block, j: nat, k: nat)
    requires Valid(g) && Reducible(g) && u in g.succ && j <= k < |g.succ[u]|
    requires (u, g.succ[u][k]) in Forward(g)
    ensures Paths(g, g.succ[u][k], 0) < Paths(g, u, j)
    decreases k - j
  {
    PathsPositive(g, u, k + 1);
    if j < k {
      PathsDecrease(g, u, j + 1, k);
    }
  }

  lemma {:induction false} PathsPositive(g: Graph, u: Block, j: nat)
    requires Valid(g) && Reducible(g) && u in g.succ && j <= |g.succ[u]|
    ensures Paths(g, u, j) >= 1
    decreases |g.succ[u]| - j
  {
    if j < |g.succ[u]| {
      PathsPositive(g, u, j + 1);
    }
  }

  /** The blocks reached through the j-th or a later edge, and u itself. */
  ghost function Fan(g: Graph, u: Block, j: nat): set<Block>
    requires u in g.succ && j <= |g.succ[u]|
    decreases |g.succ[u]| - j
  {
    if j == |g.succ[u]| then {u}
    else
      (if (u, g.succ[u][j]) in Forward(g) then ForwardSet(g, g.succ[u][j]) else {})
      + Fan(g, u, j + 1)
  }

  lemma {:induction false} InFan(g: Graph, u: Block, j: nat, k: nat, w: Block)
    requires u in g.succ && j <= |g.succ[u]|
    requires w == u || (j <= k < |g.succ[u]| && (u, g.succ[u][k]) in Forward(g)
                        && w in ForwardSet(g, g.succ[u][k]))
    ensures w in Fan(g, u, j)
    decreases |g.succ[u]| - j
  {
    if j < |g.succ[u]| && !(w != u && j == k) {
      InFan(g, u, j + 1, k, w);
    }
  }

  /** A forward path leads to each block of the forward set, so there are at least as many
      paths as blocks. */
  lemma {:induction false} PathsBoundFan(g: Graph, u: Block, j: nat)
    requires Valid(g) && Reducible(g) && u in g.succ && j <= |g.succ[u]|
    ensures |Fan(g, u, j)| <= Paths(g, u, j)
    decreases |ForwardSet(g, u)|, |g.succ[u]| - j, 0
  {
    if j < |g.succ[u]| {
      var v := g.succ[u][j];
      PathsBoundFan(g, u, j + 1);
      if (u, v) in Forward(g) {
        ForwardSetShrinks(g, u, v);
        PathsBound(g, v);
        UnionBound(ForwardSet(g, v), Fan(g, u, j + 1));
      }
    }
  }

  lemma UnionBound<T>(a: set<T>, b: set<T>)
    ensures |a + b| <= |a| + |b|
  {
    assert a + b == a + (b - a);
    assert b == (b - a) + (a * b);
  }

  lemma {:induction false} PathsBound(g: Graph, u: Block)
    requires Valid(g) && Reducible(g) && u in g.succ
    ensures |ForwardSet(g, u)| <= Paths(g, u, 0)
    decreases |ForwardSet(g, u)|, |g.succ[u]| + 1, 0
  {
    forall w | w in ForwardSet(g, u)
      ensures w in Fan(g, u, 0)
    {
      if w != u {
        var p :| WalkFromTo(Forward(g), p, u, w);
        WalkSplit(Forward(g), p, 1);
        WalkSplit(Forward(g), p[..2], 1);
        assert Walk(Forward(g), p[..2]) && (p[0], p[1]) in Forward(g);
        assert WalkFromTo(Forward(g), p[1..], p[1], w);
        var k :| 0 <= k < |g.succ[u]| && g.succ[u][k] == p[1];
        InFan(g, u, 0, k, w);
      } else {
        InFan(g, u, 0, 0, w);
      }
    }
    PathsBoundFan(g, u, 0);
    SubsetBound(ForwardSet(g, u), Fan(g, u, 0));
  }

  lemma SubsetBound<T>(a: set<T>, b: set<T>)
    requires a <= b
    ensures |a| <= |b|
  {
    if a != b {
      ProperSubsetIsSmaller(a, b);
    }
  }

  /** There are at least as many forward paths from the entry as reachable blocks. */
  lemma ReachableBound(g: Graph)
    requires Valid(g) && Reducible(g)
    ensures |ReachableSet(g)| <= Paths(g, g.entry, 0)
  {
    forall x | x in ReachableSet(g)
      ensures x in ForwardSet(g, g.entry)
    {
      ReachableIffForward(g, x);
    }
    SubsetBound(ReachableSet(g), ForwardSet(g, g.entry));
    PathsBound(g, g.entry);
  }
}
