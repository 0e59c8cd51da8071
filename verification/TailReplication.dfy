/** Barrier tail replication: below every barrier, joined subgraphs are copied until the barrier
    dominates all the blocks that forward edges reach from it. */
module TailReplication {
  import opened Graphs
  import opened Cloning
  import opened Meetings

  // ------------------------------------------------------- what a series of rounds keeps

  /** `h` comes from `g` by rounds that turn edges of blocks dominated by d. */
  ghost predicate Extends(g: Graph, h: Graph, d: Block) {
    var extended :=
      && Valid(g) && Reducible(g) && Valid(h) && Reducible(h)
      && h.entry == g.entry && g.succ.Keys <= h.succ.Keys
      && KeepsEdges(g, h, d) && KeepsDominance(g, h, d) && KeepsForward(g, h)
      && ReachableSet(g) <= ReachableSet(h) && KeepsPaths(g, h);
    extended
  }

  ghost predicate KeepsPaths(g: Graph, h: Graph)
    requires Valid(g) && Reducible(g) && Valid(h) && Reducible(h) && ReachableSet(g) <= ReachableSet(h)
  {
    forall x :: x in ReachableSet(g) ==> Paths(h, x, 0) == Paths(g, x, 0)
  }

  ghost predicate KeepsEdges(g: Graph, h: Graph, d: Block)
    requires g.succ.Keys <= h.succ.Keys
  {
    && (forall x :: x in g.succ ==> |h.succ[x]| == |g.succ[x]|)
    && (forall x :: x in g.succ && !Dominates(g, d, x) ==> h.succ[x] == g.succ[x])
  }

  ghost predicate KeepsDominance(g: Graph, h: Graph, d: Block) {
    && (forall x :: x in g.succ ==> (Dominates(g, d, x) <==> Dominates(h, d, x)))
    && (forall x :: x in g.succ && Covers(g, d, x) ==> Covers(h, d, x))
    && (forall a :: a in g.succ && Covers(g, a, a) ==> Covers(h, a, a))
  }

  ghost predicate KeepsForward(g: Graph, h: Graph) {
    && (forall x, y :: x in g.succ && y in g.succ && (x, y) in Forward(h) ==> (x, y) in Forward(g))
    && (forall x, y :: x in g.succ && y in g.succ && Reach(Forward(h), x, y) ==> Reach(Forward(g), x, y))
  }

  lemma ExtendsTrans(g: Graph, h: Graph, k: Graph, d: Block)
    requires Extends(g, h, d) && Extends(h, k, d)
    ensures Extends(g, k, d)
  {
    hide Dominates, Reach, Covers, Paths, ReachableSet, Valid, Reducible, Forward;
  }

  lemma RoundExtends(r: Round, d: Block)
    requires r.Ok() && Dominates(r.before, d, r.e) && !Dominates(r.before, d, r.Target())
    ensures Extends(r.before, r.after, d)
  {
    r.StaysReducible();
    r.DominatorUncopied(d);
    RoundKeepsReachable(r, d);
    RoundKeepsEdges(r, d);
    RoundKeepsDominance(r, d);
    RoundKeepsForward(r);
    RoundKeepsPaths(r);
  }

  lemma RoundKeepsReachable(r: Round, d: Block)
    requires r.Ok() && Dominates(r.before, d, r.e) && !Dominates(r.before, d, r.Target())
    ensures r.after.entry == r.before.entry && ReachableSet(r.before) <= ReachableSet(r.after)
  {
    r.ReachableGrows(d);
  }

  /** Each round makes strictly more blocks reachable, while the forward paths that bound their
      number stay as many. */
  lemma RoundReachesMore(r: Round, d: Block)
    requires r.Ok() && Dominates(r.before, d, r.e) && !Dominates(r.before, d, r.Target())
    requires Valid(r.after) && Reducible(r.after)
    ensures |ReachableSet(r.before)| < |ReachableSet(r.after)| <= Paths(r.before, r.before.entry, 0)
  {
    r.ReachableGrows(d);
    ProperSubsetIsSmaller(ReachableSet(r.before), ReachableSet(r.after));
    ReachableBound(r.after);
    RoundKeepsPaths(r);
    ReachSelf(Edges(r.before), r.before.entry);
    assert r.before.entry in ReachableSet(r.before);
  }

  /** g1 is g0 with unconnected copies of what forward edges reach from `entry`. */
  ghost predicate Prepared(g0: Graph, g1: Graph, entry: Block, copies: map<Block, Block>, original: map<Block, Block>) {
    && Inverse(copies, original) && entry in copies
    && g1.entry == g0.entry && g1.succ.Keys == g0.succ.Keys + original.Keys
    && original.Keys !! g0.succ.Keys && copies.Keys <= g0.succ.Keys
    && (forall s :: s in copies <==> Reach(Forward(g0), entry, s))
    && (forall n :: n in original ==> g1.succ[n] == RenamedSeq(copies, g0.succ[original[n]]))
    && (forall x :: x in g0.succ ==> g1.succ[x] == g0.succ[x])
  }

  ghost predicate ChangedAtMost(g: Graph, h: Graph, e: Block, i: nat) {
    && g.succ.Keys <= h.succ.Keys && e in g.succ && i < |h.succ[e]| == |g.succ[e]|
    && (forall x :: x in g.succ && x != e ==> h.succ[x] == g.succ[x])
    && (forall k :: 0 <= k < |h.succ[e]| && k != i ==> h.succ[e][k] == g.succ[e][k])
  }

  ghost predicate Updated(g: Graph, h: Graph, s: set<Block>, copies: map<Block, Block>) {
    && h.entry == g.entry && h.succ.Keys == g.succ.Keys
    && forall x :: x in g.succ ==> h.succ[x] == if x in s then RenamedSeq(copies, g.succ[x]) else g.succ[x]
  }

  lemma UpdatedNone(g: Graph, graph: seq<Block>, copies: map<Block, Block>)
    ensures Updated(g, g, Members(graph[..0]), copies)
  {
  }

  lemma UpdatedNext(g: Graph, h: Graph, graph: seq<Block>, i: nat, copies: map<Block, Block>)
    requires i < |graph| && Simple(graph) && Members(graph) <= g.succ.Keys
    requires Updated(g, h, Members(graph[..i]), copies)
    ensures graph[i] in h.succ && Updated(g, WithRenamed(h, graph[i], copies), Members(graph[..i + 1]), copies)
  {
    assert graph[i] in Members(graph) && graph[i] !in Members(graph[..i]);
    OneMoreMember(graph[..i], graph[i]);
    assert graph[..i + 1] == graph[..i] + [graph[i]];
  }

  lemma TurnedIsRound(g0: Graph, g1: Graph, copies: map<Block, Block>, original: map<Block, Block>, e: Block, i: nat)
    requires Valid(g0) && Reducible(g0) && e in g0.succ && i < |g0.succ[e]|
    requires (e, g0.succ[e][i]) in Forward(g0) && Prepared(g0, g1, g0.succ[e][i], copies, original)
    ensures e in g1.succ && i < |g1.succ[e]| && g0.succ[e][i] in copies && copies[g0.succ[e][i]] in g1.succ
    ensures var g2 := SetSuccessor(g1, e, i, copies[g0.succ[e][i]]);
            && Round(g0, g2, copies, original, e, i).Ok()
            && ChangedAtMost(g0, g2, e, i) && g2.succ[e][i] == copies[g0.succ[e][i]]
            && g1.succ[e] == g0.succ[e]
  {
    hide Dominates, Reach, Walk, Forward, Valid, Reducible, RenamedSeq;
    var r := Round(g0, SetSuccessor(g1, e, i, copies[g0.succ[e][i]]), copies, original, e, i);
    assert r.Source() && r.Copied() && r.Rewired();
  }

  /** All that the pass needs to know about one round below d. */
  lemma RoundEffect(r: Round, d: Block)
    requires r.Ok() && Dominates(r.before, d, r.e) && !Dominates(r.before, d, r.Target())
    ensures Valid(r.after) && Reducible(r.after) && Extends(r.before, r.after, d)
    ensures Covers(r.after, d, r.copies[r.Target()])
    ensures |ReachableSet(r.before)| < |ReachableSet(r.after)|
  {
    hide *;
    r.StaysReducible();
    RoundExtends(r, d);
    RoundReachesMore(r, d);
    r.CopiesCovered(d);
  }

  lemma RoundKeepsEdges(r: Round, d: Block)
    requires r.Ok() && Dominates(r.before, d, r.e)
    ensures r.before.succ.Keys <= r.after.succ.Keys && KeepsEdges(r.before, r.after, d)
  {
  }

  lemma RoundKeepsPaths(r: Round)
    requires r.Ok() && Valid(r.after) && Reducible(r.after)
    requires ReachableSet(r.before) <= ReachableSet(r.after)
    ensures KeepsPaths(r.before, r.after)
  {
    forall x | x in ReachableSet(r.before)
      ensures Paths(r.after, x, 0) == Paths(r.before, x, 0)
    {
      assert x in ReachableSet(r.after);
      r.PathsKept(x, 0);
    }
  }

  lemma RoundKeepsDominance(r: Round, d: Block)
    requires r.Ok() && Dominates(r.before, d, r.e) && d !in r.copies
    ensures KeepsDominance(r.before, r.after, d)
  {
    var g, h := r.before, r.after;
    forall x | x in g.succ
      ensures Dominates(g, d, x) <==> Dominates(h, d, x)
    {
      if Dominates(g, d, x) {
        r.DominatesLifts(d, x);
      }
      if Dominates(h, d, x) {
        r.DominatesProjects(d, x);
      }
    }
    forall x | x in g.succ && Covers(g, d, x)
      ensures Covers(h, d, x)
    {
      r.KeepsCovered(d, x);
    }
    forall a | a in g.succ && Covers(g, a, a)
      ensures Covers(h, a, a)
    {
      r.KeepsGood(a);
    }
  }

  lemma RoundKeepsForward(r: Round)
    requires r.Ok()
    ensures KeepsForward(r.before, r.after)
  {
    var g, h := r.before, r.after;
    forall x, y | x in g.succ && y in g.succ && (x, y) in Forward(h)
      ensures (x, y) in Forward(g)
    {
      r.ForwardProjects(x, y);
    }
    forall x, y | x in g.succ && y in g.succ && Reach(Forward(h), x, y)
      ensures Reach(Forward(g), x, y)
    {
      var p :| WalkFromTo(Forward(h), p, x, y);
      r.ForwardWalkProjects(p);
    }
  }

  // ------------------------------------------------------------------- meaning

  /** Every block of g is a copy of its origin in src: same number of successors, in the same
      order, up to copies. */
  ghost predicate Covering(g: Graph, src: Graph, origin: map<Block, Block>) {
    && origin.Keys == g.succ.Keys && g.entry in origin && origin[g.entry] == src.entry
    && (forall b :: b in g.succ ==> origin[b] in src.succ && |g.succ[b]| == |src.succ[origin[b]]|)
    && (forall b, j :: b in g.succ && 0 <= j < |g.succ[b]| ==>
          g.succ[b][j] in origin && origin[g.succ[b][j]] == src.succ[origin[b]][j])
  }

  /** A block holds a barrier exactly when the block it stands for does. */
  ghost predicate Labelled(origin: map<Block, Block>, barriers: set<Block>, srcBarriers: set<Block>) {
    forall b :: b in origin ==> (b in barriers <==> origin[b] in srcBarriers)
  }

  ghost predicate Below(g: Graph, next: Block) {
    forall b :: b in g.succ ==> b < next
  }

  function WithCopy(g: Graph, b: Block, newB: Block): Graph
    requires b in g.succ
  {
    g.(succ := g.succ[newB := g.succ[b]])
  }

  /** What holds between the function being rewritten and its source all the time. */
  ghost predicate Sound(g: Graph, src: Graph, origin: map<Block, Block>, barriers: set<Block>,
                        srcBarriers: set<Block>, next: Block)
  {
    var sound := Covering(g, src, origin) && Labelled(origin, barriers, srcBarriers) && Below(g, next);
    sound
  }

  lemma SoundFacts(g: Graph, src: Graph, origin: map<Block, Block>, barriers: set<Block>,
                   srcBarriers: set<Block>, next: Block)
    requires Sound(g, src, origin, barriers, srcBarriers, next)
    ensures origin.Keys == g.succ.Keys && next !in g.succ
    ensures forall b :: b in g.succ ==> (b in barriers <==> origin[b] in srcBarriers)
  {
  }

  lemma SoundWithCopy(g: Graph, src: Graph, origin: map<Block, Block>, barriers: set<Block>,
                      srcBarriers: set<Block>, next: Block, b: Block)
    requires Sound(g, src, origin, barriers, srcBarriers, next) && b in g.succ && b in origin
    ensures Sound(WithCopy(g, b, next), src, origin[next := origin[b]],
                  if b in barriers then barriers + {next} else barriers - {next}, srcBarriers, next + 1)
  {
  }

  function WithRenamed(g: Graph, b: Block, copies: map<Block, Block>): Graph
    requires b in g.succ
  {
    g.(succ := g.succ[b := RenamedSeq(copies, g.succ[b])])
  }

  lemma SoundRenamed(g: Graph, src: Graph, origin: map<Block, Block>, barriers: set<Block>,
                     srcBarriers: set<Block>, next: Block, b: Block, copies: map<Block, Block>)
    requires Sound(g, src, origin, barriers, srcBarriers, next) && b in g.succ
    requires SameOrigin(origin, copies)
    ensures Sound(WithRenamed(g, b, copies), src, origin, barriers, srcBarriers, next)
  {
  }

  /** The rounds that have led here from src, each below a barrier of its time. */
  ghost predicate RoundsDone(src: Graph, srcBarriers: set<Block>, rounds: seq<Round>, g: Graph, barriers: set<Block>) {
    && Chain(src, rounds, g) && AllBelow(srcBarriers, rounds)
    && forall b :: b in g.succ ==> (b in barriers <==> b in BarsOf(srcBarriers, rounds))
  }

  /** Copies stand for what the copied blocks stand for. */
  ghost predicate SameOrigin(origin: map<Block, Block>, copies: map<Block, Block>) {
    forall x :: x in copies ==> x in origin && copies[x] in origin && origin[copies[x]] == origin[x]
  }

  function SetSuccessor(g: Graph, b: Block, j: nat, c: Block): Graph
    requires b in g.succ && j < |g.succ[b]|
  {
    var turned: seq<Block> := g.succ[b][j := c];
    g.(succ := g.succ[b := turned])
  }

  lemma SoundTurned(g: Graph, src: Graph, origin: map<Block, Block>, barriers: set<Block>,
                    srcBarriers: set<Block>, next: Block, b: Block, j: nat, c: Block)
    requires Sound(g, src, origin, barriers, srcBarriers, next) && b in g.succ && j < |g.succ[b]|
    requires c in origin && g.succ[b][j] in origin && origin[c] == origin[g.succ[b][j]]
    ensures Sound(SetSuccessor(g, b, j, c), src, origin, barriers, srcBarriers, next)
  {
  }

  /** What a block's instructions do: they change the state and choose a successor. An index
      past the last successor stands for leaving the function. */
  type Meaning<!S> = (Block, S) -> (S, nat)

  datatype Outcome<S> = Left(at: Block, state: S) | Running(at: Block, state: S)

  /** n steps from block b, where block x behaves as `m` says its origin does. */
  function Execute<S>(g: Graph, origin: map<Block, Block>, m: Meaning<S>, b: Block, s: S, n: nat): Outcome<S>
    decreases n
  {
    if n == 0 || b !in g.succ || b !in origin then Running(b, s)
    else
      var (s', j) := m(origin[b], s);
      if j < |g.succ[b]| then Execute(g, origin, m, g.succ[b][j], s', n - 1) else Left(b, s')
  }

  function Identity(g: Graph): map<Block, Block> {
    map b | b in g.succ :: b
  }

  /** Runs of the rewritten function and of the source proceed in lockstep, through equal states
      and from each block to a copy of the other's: replication preserves meaning, whatever the
      blocks mean. */
  lemma {:induction false} ReplicationPreservesMeaning<S>(g: Graph, src: Graph, origin: map<Block, Block>,
                                                          m: Meaning<S>, b: Block, s: S, n: nat)
    requires Covering(g, src, origin) && Valid(src) && b in g.succ
    ensures var o := Execute(g, origin, m, b, s, n);
            var o' := Execute(src, Identity(src), m, origin[b], s, n);
            && o.at in origin && o'.at == origin[o.at]
            && o.state == o'.state && o.Left? == o'.Left?
    decreases n
  {
    if n > 0 {
      var (s', j) := m(origin[b], s);
      if j < |g.succ[b]| {
        ReplicationPreservesMeaning(g, src, origin, m, g.succ[b][j], s', n - 1);
      }
    }
  }

  // ------------------------------------------------------------------- the pass

  class BarrierTailReplication {
    var g: Graph
    var barriers: set<Block>   // the blocks that hold a barrier call
    var next: Block            // names of new blocks start here
    ghost var origin: map<Block, Block>
    ghost var rounds: seq<Round>   // what has been done since src
    ghost const src: Graph
    ghost const srcBarriers: set<Block>

    ghost predicate Consistent()
      reads this
    {
      Sound(g, src, origin, barriers, srcBarriers, next)
    }

    ghost predicate Ready()
      reads this
    {
      var ready :=
        Valid(g) && Reducible(g) && Consistent() && RoundsDone(src, srcBarriers, rounds, g, barriers);
      ready
    }

    constructor (f: Graph, withBarrier: set<Block>, firstFree: Block)
      requires Valid(f) && Reducible(f) && forall b :: b in f.succ ==> b < firstFree
      ensures Ready() && g == f && src == f && barriers == srcBarriers == withBarrier
      ensures origin == Identity(f) && rounds == []
    {
      g, src, barriers, srcBarriers, rounds := f, f, withBarrier, withBarrier, [];
      origin, next := Identity(f), firstFree;
    }

    /** Appends to `subgraph` the blocks that non-back edges reach from `entry`, except those
        found before. */
    method FindSubgraph(subgraph: seq<Block>, entry: Block) returns (r: seq<Block>)
      requires Valid(g) && entry in g.succ
      requires Members(subgraph) <= g.succ.Keys && Simple(subgraph)
      ensures Found(g, subgraph, entry, r) && entry in r && ClosedExcept(g, subgraph, r, {})
      decreases |g.succ| - |subgraph|
    {
      if entry in subgraph {
        return subgraph;
      }
      r := subgraph + [entry];
      FoundFirst(g, subgraph, entry);
      for i := 0 to |g.succ[entry]|
        invariant Found(g, subgraph, entry, r) && entry in r && ClosedExcept(g, subgraph, r, {entry})
        invariant |subgraph| < |r| && |subgraph| < |g.succ|
        invariant forall k :: 0 <= k < i && (entry, g.succ[entry][k]) in Forward(g) ==> g.succ[entry][k] in r
      {
        var successor := g.succ[entry][i];
        var isBackedge := DominatesQuery(g, successor, entry);
        if !isBackedge {
          var r' := FindSubgraph(r, successor);
          FoundThrough(g, subgraph, entry, r, successor, r');
          r := r';
        }
      }
    }

    /** Copies the blocks of `graph` one after the other, references still unchanged. */
    method ReplicateBasicBlocks(graph: seq<Block>)
      returns (newGraph: seq<Block>, copies: map<Block, Block>, ghost original: map<Block, Block>)
      requires Sound(g, src, origin, barriers, srcBarriers, next)
      requires Simple(graph) && Members(graph) <= g.succ.Keys
      modifies this
      ensures Sound(g, src, origin, barriers, srcBarriers, next) && rounds == old(rounds)
      ensures WithCopies(old(g), old(origin), g, origin, original)
      ensures Recorded(graph, newGraph, copies, original)
    {
      hide *;
      newGraph, copies, original := [], map[], map[];
      SoundFacts(g, src, origin, barriers, srcBarriers, next);
      CopiesNone(g, origin, graph);
      for i := 0 to |graph|
        invariant Sound(g, src, origin, barriers, srcBarriers, next) && rounds == old(rounds)
        invariant WithCopies(old(g), old(origin), g, origin, original)
        invariant Recorded(graph[..i], newGraph, copies, original)
      {
        var b, newB := graph[i], next;
        SoundFacts(g, src, origin, barriers, srcBarriers, next);
        CopiedSoFar(old(g), old(origin), g, origin, original, graph, i, newGraph, copies);
        SoundWithCopy(g, src, origin, barriers, srcBarriers, next, b);
        WithOneMoreCopy(old(g), old(origin), g, origin, original, b, newB);
        RecordedOneMore(graph, i, newGraph, copies, original, newB);
        next := next + 1;
        g := WithCopy(g, b, newB);
        barriers := if b in barriers then barriers + {newB} else barriers - {newB};
        origin := origin[newB := origin[b]];
        newGraph, copies := newGraph + [newB], copies[b := newB];
        original := original[newB := b];
      }
      assert graph[..|graph|] == graph;
    }

    /** Turns the references between copied blocks to the copies. */
    method UpdateReferences(graph: seq<Block>, copies: map<Block, Block>)
      requires Sound(g, src, origin, barriers, srcBarriers, next)
      requires Members(graph) <= g.succ.Keys && Simple(graph) && SameOrigin(origin, copies)
      modifies this`g
      ensures Sound(g, src, origin, barriers, srcBarriers, next)
      ensures Updated(old(g), g, Members(graph), copies)
    {
      hide *;
      UpdatedNone(g, graph, copies);
      for i := 0 to |graph|
        invariant Sound(g, src, origin, barriers, srcBarriers, next)
        invariant Updated(old(g), g, Members(graph[..i]), copies)
      {
        UpdatedNext(old(g), g, graph, i, copies);
        SoundRenamed(g, src, origin, barriers, srcBarriers, next, graph[i], copies);
        g := WithRenamed(g, graph[i], copies);
      }
      assert graph[..|graph|] == graph;
    }

    /** Copies all that non-back edges reach from `entry` and returns the copy of `entry`. */
    method ReplicateSubgraph(entry: Block)
      returns (c: Block, ghost copies: map<Block, Block>, ghost original: map<Block, Block>)
      requires Sound(g, src, origin, barriers, srcBarriers, next) && Valid(g) && entry in g.succ
      modifies this
      ensures Sound(g, src, origin, barriers, srcBarriers, next) && KeepsOrigin(old(origin), origin)
              && rounds == old(rounds)
      ensures Prepared(old(g), g, entry, copies, original) && c == copies[entry] && SameOrigin(origin, copies)
    {
      hide Sound, Valid, Reach, Forward, Walk;
      SoundFacts(g, src, origin, barriers, srcBarriers, next);
      var subgraph := FindSubgraph([], entry);
      SubgraphIsForwardSet(g, entry, subgraph);
      var v, m;
      v, m, original := ReplicateBasicBlocks(subgraph);
      copies := m;
      UpdateReferences(v, m);
      c := m[entry];
    }

    /** Below `subgraphEntry`, copies every joined subgraph that `dominator` does not dominate. */
    method ReplicateJoinedSubgraphs(dominator: Block, subgraphEntry: Block, processedBefore: set<Block>)
      returns (changed: bool, processed: set<Block>)
      requires Ready() && subgraphEntry in ReachableSet(g) && Dominates(g, dominator, subgraphEntry)
      requires dominator in g.succ && dominator in barriers
      requires AllCovered(g, dominator, processedBefore)
      modifies this
      ensures Ready() && KeepsOrigin(old(origin), origin)
      ensures Rewrites(old(g), g, dominator, subgraphEntry, changed)
      ensures processedBefore + {subgraphEntry} <= processed && AllCovered(g, dominator, processed)
      ensures dominator in g.succ && dominator in barriers
      decreases Paths(g, subgraphEntry, 0), 1
    {
      hide RoundsDone, Sound, Dominates, Reach, Reducible, Forward, Covers, Extends;
      changed, processed := false, processedBefore;
      RewritesSelf(g, dominator, subgraphEntry);
      for i := 0 to |g.succ[subgraphEntry]|
        invariant Ready() && KeepsOrigin(old(origin), origin)
        invariant dominator in g.succ && dominator in barriers
        invariant Rewrites(old(g), g, dominator, subgraphEntry, changed)
        invariant processedBefore <= processed && AllCovered(g, dominator, processed)
        invariant subgraphEntry in g.succ && |g.succ[subgraphEntry]| == |old(g).succ[subgraphEntry]|
        invariant ForwardCovered(g, dominator, subgraphEntry, i)
      {
        ghost var g1, changed1 := g, changed;
        RewritesMeasure(old(g), g, dominator, subgraphEntry, changed);
        var c;
        c, processed := ReplicateBelowSuccessor(dominator, subgraphEntry, i, processed);
        changed := changed || c;
        RewritesTrans(old(g), g1, g, dominator, subgraphEntry, changed1, c);
      }
      processed := processed + {subgraphEntry};
      RewritesMeasure(old(g), g, dominator, subgraphEntry, changed);
      CoversFromSuccessors(g, dominator, subgraphEntry);
    }

    /** What ReplicateJoinedSubgraphs does for one successor. */
    method ReplicateBelowSuccessor(dominator: Block, e: Block, i: nat, processedBefore: set<Block>)
      returns (changed: bool, processed: set<Block>)
      requires Ready() && e in ReachableSet(g) && Dominates(g, dominator, e) && i < |g.succ[e]|
      requires dominator in g.succ && dominator in barriers
      requires AllCovered(g, dominator, processedBefore) && ForwardCovered(g, dominator, e, i)
      modifies this
      ensures Ready() && KeepsOrigin(old(origin), origin)
      ensures Rewrites(old(g), g, dominator, e, changed)
      ensures processedBefore <= processed && AllCovered(g, dominator, processed)
      ensures e in g.succ && |g.succ[e]| == |old(g).succ[e]| && ForwardCovered(g, dominator, e, i + 1)
      ensures dominator in g.succ && dominator in barriers
      decreases Paths(g, e, 0), 0
    {
      hide RoundsDone, Sound, Extends, Rewrites;
      changed, processed := false, processedBefore;
      RewritesSelf(g, dominator, e);
      var b := g.succ[e][i];
      if b in processed {
        return;
      }
      var isBackedge := DominatesQuery(g, b, e);
      if isBackedge {
        return;
      }
      assert (e, b) in Forward(g);
      var dominated := DominatesQuery(g, dominator, b);
      if dominated {
        PathsDecrease(g, e, 0, i);
        ReachStep(Edges(g), g.entry, e, b);
        changed, processed := ReplicateJoinedSubgraphs(dominator, b, processed);
        BelowSuccessor(old(g), g, dominator, e, i, changed);
        KeysStay(old(g), g, dominator);
      } else {
        TurnToCopy(dominator, e, i);
        changed := true;
        BelowTurned(old(g), g, dominator, e, i);
        StillCovered(old(g), g, dominator, processed);
        KeysStay(old(g), g, dominator);
      }
    }

    /** Replicates what the i-th successor of e leads to and turns e to the copy. */
    method TurnToCopy(ghost dominator: Block, e: Block, i: nat)
      requires Ready() && e in g.succ && i < |g.succ[e]| && (e, g.succ[e][i]) in Forward(g)
      requires Dominates(g, dominator, e) && !Dominates(g, dominator, g.succ[e][i])
      requires dominator in g.succ && dominator in barriers
      modifies this
      ensures Ready() && Extends(old(g), g, dominator) && KeepsOrigin(old(origin), origin)
      ensures ChangedAtMost(old(g), g, e, i) && Covers(g, dominator, g.succ[e][i])
      ensures |ReachableSet(old(g))| < |ReachableSet(g)|
      ensures |rounds| == |old(rounds)| + 1 && rounds[..|old(rounds)|] == old(rounds)
      ensures var r := rounds[|old(rounds)|]; r.before == old(g) && r.after == g && r.e == e && r.i == i
      ensures dominator in g.succ && dominator in barriers
    {
      hide Sound, Extends, Covers, Dominates, Reach, Reducible, Valid, Forward, Prepared, RoundsDone;
      ReadyFacts();
      ghost var g0, copies, original, barriers0, origin0 := g, map[], map[], barriers, origin;
      var c;
      c, copies, original := ReplicateSubgraph(g.succ[e][i]);
      TurnedIsRound(g0, g, copies, original, e, i);
      RoundEffect(Round(g0, SetSuccessor(g, e, i, c), copies, original, e, i), dominator);
      SoundFacts(g, src, origin, barriers, srcBarriers, next);
      SoundTurned(g, src, origin, barriers, srcBarriers, next, e, i, c);
      ghost var r := Round(g0, SetSuccessor(g, e, i, c), copies, original, e, i);
      OneMoreRound(src, srcBarriers, rounds, g0, barriers0, g, barriers, r, dominator, origin0, origin);
      g, rounds := SetSuccessor(g, e, i, c), rounds + [r];
    }

    lemma ReadyFacts()
      requires Ready()
      ensures Valid(g) && Reducible(g) && origin.Keys == g.succ.Keys
      ensures Sound(g, src, origin, barriers, srcBarriers, next) && RoundsDone(src, srcBarriers, rounds, g, barriers)
    {
    }

    /** Marks `bb` and, when it holds a barrier, replicates below it. */
    method Enter(bb: Block, processedBefore: set<Block>) returns (changed: bool, processed: set<Block>)
      requires Ready() && bb in g.succ && bb !in processedBefore && Visited(g, processedBefore)
      requires bb == g.entry || exists u :: u in processedBefore && (u, bb) in Edges(g)
      modifies this
      ensures Ready() && processed == processedBefore + {bb}
      ensures bb in g.succ && LeadsInto(g, bb, 0, processed)
      ensures Progress(old(g), old(origin), g, origin, srcBarriers, processedBefore, processed, {bb})
      ensures GrownIf(old(g), g, changed)
    {
      hide Progress, Extends, Visited, KeepsVisited, Reach, Below, RoundsDone;
      VisitNext(g, processedBefore, bb);
      changed, processed := false, processedBefore + {bb};
      if bb in barriers {
        var found, below := ReplicateJoinedSubgraphs(bb, bb, {});
        changed := found;
        assert bb in below;
      }
      ProgressStart(old(g), old(origin), g, origin, srcBarriers, processedBefore, bb);
    }

    /** Visits `bb` and what it leads to, replicating below every barrier as it is met. */
    method FindBarriersDFS(bb: Block, processedBefore: set<Block>) returns (changed: bool, processed: set<Block>)
      requires Ready() && bb in g.succ && Visited(g, processedBefore)
      requires bb == g.entry || exists u :: u in processedBefore && (u, bb) in Edges(g)
      modifies this
      ensures Ready() && processedBefore + {bb} <= processed
      ensures Progress(old(g), old(origin), g, origin, srcBarriers, processedBefore, processed, {})
      ensures GrownIf(old(g), g, changed)
      decreases TotalPaths(g) - |processedBefore|
    {
      hide *;
      changed, processed := false, processedBefore;
      ReadyFacts();
      GrownSelf(g);
      if bb in processed {
        ProgressSelf(g, origin, srcBarriers, processed);
        return;
      }
      changed, processed := Enter(bb, processedBefore);
      ghost var fan := g.succ[bb];
      for i := 0 to |g.succ[bb]|
        invariant Ready() && processedBefore + {bb} <= processed
        invariant Progress(old(g), old(origin), g, origin, srcBarriers, processedBefore, processed, {bb})
        invariant bb in g.succ && g.succ[bb] == fan && LeadsInto(g, bb, i, processed)
        invariant GrownIf(old(g), g, changed)
      {
        ghost var g1, o1, processed1, changed1 := g, origin, processed, changed;
        ReadyFacts();
        EdgeAt(g, bb, i);
        ProgressBound(old(g), old(origin), g, origin, srcBarriers, processedBefore, processed, bb);
        var c;
        c, processed := FindBarriersDFS(g.succ[bb][i], processed);
        changed := changed || c;
        GrownTrans(old(g), g1, g, changed1, c);
        ProgressOn(old(g), old(origin), g1, o1, g, origin, srcBarriers, processedBefore, processed1, processed, bb, i);
      }
      ProgressEnd(old(g), old(origin), g, origin, srcBarriers, processedBefore, processed, bb);
    }

    /** The pass: afterwards every reachable barrier block, copies included, dominates each block
        that forward edges reach from it, and the function is still a copy of the source. */
    method ProcessFunction() returns (changed: bool)
      requires Ready()
      modifies this
      ensures Ready() && (changed <==> g != old(g))
      ensures RoundsDone(src, srcBarriers, rounds, g, barriers)
      ensures forall a, y :: a in barriers && Reachable(g, a) && Reach(Forward(g), a, y) ==> Dominates(g, a, y)
      ensures TotalPaths(g) == TotalPaths(old(g)) && |ReachableSet(g)| <= TotalPaths(old(g))
    {
      hide RoundsDone;
      ReadyFacts();
      var found, processed := FindBarriersDFS(g.entry, {});
      changed := found;
      forall a, y | a in barriers && Reachable(g, a) && Reach(Forward(g), a, y)
        ensures Dominates(g, a, y)
      {
        var p :| WalkFromTo(Edges(g), p, g.entry, a);
        ClosedUnderWalks(Edges(g), processed, p);
        assert Covers(g, a, a);
      }
      ReachableBound(g);
      ReadyFacts();
    }
  }

  /** Every change makes more blocks reachable. */
  ghost predicate GrownIf(g0: Graph, g: Graph, changed: bool) {
    if changed then |ReachableSet(g0)| < |ReachableSet(g)| else g == g0
  }

  lemma GrownSelf(g: Graph)
    ensures GrownIf(g, g, false)
  {
  }

  lemma GrownTrans(g0: Graph, g1: Graph, g2: Graph, changed: bool, c: bool)
    requires GrownIf(g0, g1, changed) && GrownIf(g1, g2, c)
    ensures GrownIf(g0, g2, changed || c)
  {
  }

  lemma OneMoreRound(src: Graph, srcBarriers: set<Block>, rounds: seq<Round>, g: Graph, barriers: set<Block>, g1: Graph,
                     barriers': set<Block>, r: Round, d: Block, origin: map<Block, Block>, origin': map<Block, Block>)
    requires RoundsDone(src, srcBarriers, rounds, g, barriers) && r.Ok() && r.before == g
    requires d in g.succ && d in barriers && Dominates(g, d, r.e) && !Dominates(g, d, r.Target())
    requires origin.Keys == g.succ.Keys && origin'.Keys == r.after.succ.Keys && KeepsOrigin(origin, origin')
    requires SameOrigin(origin', r.copies) && Labelled(origin, barriers, srcBarriers)
             && Labelled(origin', barriers', srcBarriers)
    ensures RoundsDone(src, srcBarriers, rounds + [r], r.after, barriers')
    ensures d in r.after.succ && d in barriers'
  {
    hide Round.Ok, Dominates;
    RoundFacts(r);
    var all := rounds + [r];
    assert all[..|rounds|] == rounds;
    forall x | x in r.after.succ
      ensures x in barriers' <==> x in BarsOf(srcBarriers, all)
    {
      if x in r.original {
        assert r.copies[r.original[x]] == x;
      }
    }
  }

  /** Where barriers dominate all that forward edges reach from them, as they do when the pass is
      over, at most one barrier leads to a block by a forward edge. */
  lemma OneBarrierBefore(g: Graph, a: Block, b: Block, x: Block)
    requires Reachable(g, a) && Reachable(g, b) && (a, x) in Forward(g) && (b, x) in Forward(g)
    requires Covers(g, a, a) && Covers(g, b, b)
    ensures a == b
  {
    hide Dominates, Reach, Reachable, Edges;
    ReachEdge(Forward(g), a, x);
    ReachEdge(Forward(g), b, x);
    ForwardIsEdge(g, a, x);
    ForwardIsEdge(g, b, x);
    LeadsByEdge(g, a, x);
    LeadsByEdge(g, b, x);
    SelfEdgeIsBack(g, x);
    StrictDominatorOfPredecessor(g, a, b, x);
    StrictDominatorOfPredecessor(g, b, a, x);
    DominatorsDiffer(g, a, b);
  }

  lemma LeadsByEdge(g: Graph, a: Block, x: Block)
    requires (a, x) in Forward(g)
    ensures (a, x) in Edges(g)
  {
  }

  /** No two reachable blocks dominate each other. */
  lemma DominatorsDiffer(g: Graph, a: Block, b: Block)
    requires Reachable(g, a) && Dominates(g, a, b) && Dominates(g, b, a)
    ensures a == b
  {
    var p :| WalkFromTo(Edges(g), p, g.entry, a);
    FirstAt(g, a, b, p);
  }

  lemma {:induction false} FirstAt(g: Graph, a: Block, b: Block, p: seq<Block>)
    requires Walk(Edges(g), p) && p[0] == g.entry && a in p && Dominates(g, a, b) && Dominates(g, b, a)
    ensures a == b
    decreases |p|
  {
    hide Edges;
    if a != b {
      var i :| 0 <= i < |p| && p[i] == a;
      WalkSplit(Edges(g), p, i);
      assert b in p[..i + 1];
      var j :| 0 <= j < i + 1 && p[j] == b;
      WalkSplit(Edges(g), p, j);
      assert a in p[..j + 1];
      FirstAt(g, a, b, p[..j + 1]);
    }
  }

  // -------------------------------------------------------------- joins below a barrier

  /** Another edge to the block that has just been copied, from below the same barrier, still
      leads there and still calls for a copy: it gets one of its own. */
  lemma SecondEdgeTurns(r: Round, d: Block, e2: Block, j: nat)
    requires r.Ok() && Dominates(r.before, d, r.e) && !Dominates(r.before, d, r.Target())
    requires e2 in r.before.succ && e2 != r.e && j < |r.before.succ[e2]| && r.before.succ[e2][j] == r.Target()
    requires (e2, r.Target()) in Forward(r.before) && Dominates(r.before, d, e2)
    ensures e2 in r.after.succ && j < |r.after.succ[e2]| && r.after.succ[e2][j] == r.Target()
    ensures (e2, r.Target()) in Forward(r.after) && Dominates(r.after, d, e2) && !Dominates(r.after, d, r.Target())
  {
    hide Dominates, Forward, Reach;
    r.Basics();
    r.CopyOf(e2);
    r.CopyOf(r.Target());
    r.DominatesLifts(d, e2);
    if Dominates(r.after, d, r.Target()) {
      r.DominatesProjects(d, r.Target());
    }
    RoundKeepsReachable(r, d);
    ForwardIsEdge(r.before, e2, r.Target());
    assert e2 in ReachableSet(r.before);
    assert (e2, r.after.succ[e2][j]) in Edges(r.after);
    r.ForwardLifts(e2, r.Target());
  }

  /** Behind barrier 1 control parts, to 2 and 3, and joins at 4, where the way around the barrier
      comes in too. */
  const DIVERGING := Graph(0, map[0 := [1, 4], 1 := [2, 3], 2 := [4], 3 := [4], 4 := []])

  lemma {:induction false} WalkRises(p: seq<Block>)
    requires Walk(Edges(DIVERGING), p) && |p| > 1
    ensures p[0] < p[|p| - 1]
    decreases |p|
  {
    LastStep(Edges(DIVERGING), p);
    if |p| > 2 {
      WalkRises(p[..|p| - 1]);
    }
  }

  /** There both edges below the barrier call for copies of the join. */
  lemma DivergingJoin()
    ensures var g := DIVERGING;
            && Valid(g) && Reducible(g) && Dominates(g, 1, 2) && Dominates(g, 1, 3) && !Dominates(g, 1, 4)
            && (2, 4) in Forward(g) && (3, 4) in Forward(g)
  {
    var g := DIVERGING;
    forall p | Walk(Forward(g), p) && |p| > 1
      ensures p[0] != p[|p| - 1]
    {
      WalkMonotone(Forward(g), Edges(g), p);
      WalkRises(p);
    }
    forall b, p | b in {2, 3} && WalkFromTo(Edges(g), p, 0, b)
      ensures 1 in p && 4 !in p
    {
      OnlyThroughBarrier(b, p);
    }
    WalkSnoc(Edges(g), [0], 4);
    assert WalkFromTo(Edges(g), [0] + [4], 0, 4);
    Reaches(2);
    Reaches(3);
  }

  lemma OnlyThroughBarrier(b: Block, p: seq<Block>)
    requires b in {2, 3} && WalkFromTo(Edges(DIVERGING), p, 0, b)
    ensures 1 in p && 4 !in p
  {
    var e := Edges(DIVERGING);
    LastStep(e, p);
    assert p[|p| - 2] == 1;
    forall i | 0 <= i < |p|
      ensures p[i] != 4
    {
      if p[i] == 4 {
        WalkSplit(e, p, i);
        WalkRises(p[i..]);
      }
    }
  }

  lemma Reaches(b: Block)
    requires b in {2, 3}
    ensures exists p :: WalkFromTo(Edges(DIVERGING), p, 0, b)
  {
    var e := Edges(DIVERGING);
    WalkSnoc(e, [0], 1);
    WalkSnoc(e, [0] + [1], b);
    assert WalkFromTo(e, [0] + [1] + [b], 0, b);
  }

  // ---------------------------------------------------------- the search for barriers

  ghost predicate KeepsOrigin(o: map<Block, Block>, o': map<Block, Block>) {
    forall x :: x in o ==> x in o' && o'[x] == o[x]
  }

  ghost predicate VisitedBlock(g: Graph, s: set<Block>, v: Block) {
    exists p :: WalkFromTo(Edges(g), p, g.entry, v) && Members(p) <= s
  }

  /** Each block of s is reached by a walk that stays in s. */
  ghost predicate Visited(g: Graph, s: set<Block>) {
    s <= g.succ.Keys && forall v :: v in s ==> VisitedBlock(g, s, v)
  }

  ghost predicate Explored(g: Graph, done: set<Block>, s: set<Block>) {
    forall u, v :: u in done && (u, v) in Edges(g) ==> v in s
  }

  /** The barrier blocks of s dominate all that forward edges reach from them. */
  ghost predicate AllGood(g: Graph, origin: map<Block, Block>, srcBarriers: set<Block>, s: set<Block>) {
    forall a :: a in s && a in origin && origin[a] in srcBarriers ==> Covers(g, a, a)
  }

  /** The blocks of s lead where they did, and barriers among them that were settled still are. */
  ghost predicate KeepsVisited(g: Graph, h: Graph, s: set<Block>) {
    var kept :=
      && Valid(g) && Reducible(g) && Valid(h) && Reducible(h)
      && h.entry == g.entry && g.succ.Keys <= h.succ.Keys && s <= g.succ.Keys
      && (forall v :: v in s ==> h.succ[v] == g.succ[v])
      && (forall a :: a in s && Covers(g, a, a) ==> Covers(h, a, a))
      && TotalPaths(h) == TotalPaths(g);
    kept
  }

  ghost function TotalPaths(g: Graph): nat
    requires Valid(g) && Reducible(g)
  {
    Paths(g, g.entry, 0)
  }

  lemma VisitedBound(g: Graph, s: set<Block>)
    requires Valid(g) && Reducible(g) && Visited(g, s)
    ensures |s| <= TotalPaths(g)
  {
    forall v | v in s
      ensures v in ReachableSet(g)
    {
      assert VisitedBlock(g, s, v);
    }
    SubsetBound(s, ReachableSet(g));
    ReachableBound(g);
  }

  lemma VisitNext(g: Graph, s: set<Block>, b: Block)
    requires Valid(g) && Visited(g, s) && b in g.succ
    requires b == g.entry || exists u :: u in s && (u, b) in Edges(g)
    ensures Visited(g, s + {b}) && b in ReachableSet(g)
  {
    if b == g.entry {
      assert WalkFromTo(Edges(g), [b], g.entry, b) && Members([b]) <= s + {b};
    } else {
      var u :| u in s && (u, b) in Edges(g);
      assert VisitedBlock(g, s, u);
      var p :| WalkFromTo(Edges(g), p, g.entry, u) && Members(p) <= s;
      WalkSnoc(Edges(g), p, b);
      assert WalkFromTo(Edges(g), p + [b], g.entry, b) && Members(p + [b]) <= s + {b};
    }
    assert VisitedBlock(g, s + {b}, b);
    forall v | v in s
      ensures VisitedBlock(g, s + {b}, v)
    {
      assert VisitedBlock(g, s, v);
    }
  }

  lemma {:induction false} WalkKept(g: Graph, h: Graph, s: set<Block>, p: seq<Block>)
    requires s <= g.succ.Keys && s <= h.succ.Keys && forall v :: v in s ==> h.succ[v] == g.succ[v]
    requires Walk(Edges(g), p) && Members(p[..|p| - 1]) <= s
    ensures Walk(Edges(h), p)
    decreases |p|
  {
    if |p| > 1 {
      var q := p[..|p| - 1];
      forall x | x in q[..|q| - 1]
        ensures x in s
      {
        assert x in Members(q);
      }
      assert q[|q| - 1] in Members(q);
      WalkKept(g, h, s, q);
    }
  }

  lemma VisitedKept(g: Graph, h: Graph, s: set<Block>)
    requires Visited(g, s) && h.entry == g.entry && s <= h.succ.Keys
    requires forall v :: v in s ==> h.succ[v] == g.succ[v]
    ensures Visited(h, s)
  {
    forall v | v in s
      ensures VisitedBlock(h, s, v)
    {
      assert VisitedBlock(g, s, v);
      var p :| WalkFromTo(Edges(g), p, g.entry, v) && Members(p) <= s;
      forall x | x in p[..|p| - 1]
        ensures x in s
      {
        assert x in Members(p);
      }
      WalkKept(g, h, s, p);
      assert WalkFromTo(Edges(h), p, h.entry, v);
    }
  }

  /** Settling a barrier that is met for the first time changes no edge of a visited block: the
      barrier dominates none of them. */
  lemma AroundNewBarrier(g: Graph, h: Graph, s: set<Block>, b: Block)
    requires Visited(g, s) && b !in s && b in g.succ && Extends(g, h, b)
    requires b == g.entry || exists u :: u in s && (u, b) in Edges(g)
    ensures KeepsVisited(g, h, s) && Visited(h, s + {b})
  {
    forall v | v in s
      ensures h.succ[v] == g.succ[v]
    {
      assert VisitedBlock(g, s, v);
      var p :| WalkFromTo(Edges(g), p, g.entry, v) && Members(p) <= s;
      assert b in p ==> b in Members(p);
    }
    VisitedKept(g, h, s);
    ReachSelf(Edges(g), g.entry);
    assert g.entry in ReachableSet(g);
    if u :| u in s && (u, b) in Edges(g) {
      assert (u, b) in Edges(h);
    }
    VisitNext(h, s, b);
  }

  /** The effect of the search between graphs g and h: `s` was visited before and `t` is after;
      what newly visited blocks lead to was visited too, but for `pending`. */
  ghost predicate Progress(g: Graph, o: map<Block, Block>, h: Graph, o': map<Block, Block>, srcBarriers: set<Block>,
                           s: set<Block>, t: set<Block>, pending: set<Block>)
  {
    var progress :=
      && KeepsOrigin(o, o') && KeepsVisited(g, h, s) && Visited(h, t) && s <= t
      && Explored(h, t - s - pending, t) && AllGood(h, o', srcBarriers, t - s);
    progress
  }

  ghost predicate LeadsInto(g: Graph, b: Block, n: nat, s: set<Block>)
    requires b in g.succ && n <= |g.succ[b]|
  {
    forall k :: 0 <= k < n ==> g.succ[b][k] in s
  }

  lemma ProgressSelf(g: Graph, o: map<Block, Block>, srcBarriers: set<Block>, s: set<Block>)
    requires Valid(g) && Reducible(g) && Visited(g, s)
    ensures Progress(g, o, g, o, srcBarriers, s, s, {})
  {
  }

  lemma ProgressStart(g: Graph, o: map<Block, Block>, h: Graph, o': map<Block, Block>, srcBarriers: set<Block>,
                      s: set<Block>, b: Block)
    requires Valid(g) && Reducible(g) && Visited(g, s) && b !in s && b in g.succ && KeepsOrigin(o, o')
    requires b == g.entry || exists u :: u in s && (u, b) in Edges(g)
    requires b in o && o.Keys == g.succ.Keys
    requires if o[b] in srcBarriers then Extends(g, h, b) && Covers(h, b, b) else h == g
    ensures Progress(g, o, h, o', srcBarriers, s, s + {b}, {b})
  {
    if o[b] in srcBarriers {
      AroundNewBarrier(g, h, s, b);
    } else {
      VisitNext(g, s, b);
    }
  }

  lemma ProgressBound(g: Graph, o: map<Block, Block>, h: Graph, o': map<Block, Block>, srcBarriers: set<Block>,
                      s: set<Block>, t: set<Block>, b: Block)
    requires Progress(g, o, h, o', srcBarriers, s, t, {b}) && b !in s && b in t
    requires Valid(g) && Reducible(g) && Valid(h) && Reducible(h)
    ensures TotalPaths(h) == TotalPaths(g) && |s| < |t| <= TotalPaths(h) && Visited(h, t)
  {
    VisitedBound(h, t);
    ProperSubsetIsSmaller(s, t);
  }

  lemma ProgressOn(g: Graph, o: map<Block, Block>, h: Graph, o': map<Block, Block>, k: Graph, o'': map<Block, Block>,
                   srcBarriers: set<Block>, s: set<Block>, t: set<Block>, t': set<Block>, b: Block, i: nat)
    requires Progress(g, o, h, o', srcBarriers, s, t, {b}) && Progress(h, o', k, o'', srcBarriers, t, t', {})
    requires b in t && b !in s && b in h.succ && i < |h.succ[b]| && LeadsInto(h, b, i, t) && h.succ[b][i] in t'
    requires o'.Keys == h.succ.Keys
    ensures Progress(g, o, k, o'', srcBarriers, s, t', {b})
    ensures b in k.succ && k.succ[b] == h.succ[b] && LeadsInto(k, b, i + 1, t')
  {
    forall a | a in t' - s && a in o'' && o''[a] in srcBarriers
      ensures Covers(k, a, a)
    {
      if a in t {
        assert o'[a] == o''[a];
      }
    }
  }

  lemma EdgeAt(g: Graph, b: Block, i: nat)
    requires Valid(g) && b in g.succ && i < |g.succ[b]|
    ensures (b, g.succ[b][i]) in Edges(g) && g.succ[b][i] in g.succ
  {
  }

  lemma ProgressEnd(g: Graph, o: map<Block, Block>, h: Graph, o': map<Block, Block>, srcBarriers: set<Block>,
                    s: set<Block>, t: set<Block>, b: Block)
    requires Progress(g, o, h, o', srcBarriers, s, t, {b}) && b in h.succ && LeadsInto(h, b, |h.succ[b]|, t)
    ensures Progress(g, o, h, o', srcBarriers, s, t, {})
  {
  }

  ghost predicate AllCovered(g: Graph, d: Block, s: set<Block>) {
    forall x :: x in s ==> x in g.succ && Covers(g, d, x)
  }

  ghost predicate ForwardCovered(g: Graph, d: Block, e: Block, n: nat)
    requires e in g.succ && n <= |g.succ[e]|
  {
    forall k :: 0 <= k < n && (e, g.succ[e][k]) in Forward(g) ==> Covers(g, d, g.succ[e][k])
  }

  ghost predicate ChangedBelow(g: Graph, h: Graph, e: Block)
    requires g.succ.Keys <= h.succ.Keys
  {
    forall x :: x in g.succ && h.succ[x] != g.succ[x] ==> Reach(Forward(g), e, x)
  }

  lemma KeysStay(g: Graph, h: Graph, d: Block)
    requires Extends(g, h, d)
    ensures g.succ.Keys <= h.succ.Keys
  {
    hide Dominates, Covers, Reach, Forward, Reducible, Valid;
  }

  lemma StillCovered(g: Graph, h: Graph, d: Block, s: set<Block>)
    requires Extends(g, h, d) && AllCovered(g, d, s)
    ensures AllCovered(h, d, s)
  {
    hide Dominates, Covers, Reach, Forward, Reducible, Valid;
  }

  lemma CoversFromSuccessors(g: Graph, d: Block, e: Block)
    requires e in g.succ && Dominates(g, d, e) && ForwardCovered(g, d, e, |g.succ[e]|)
    ensures Covers(g, d, e)
  {
    forall y | Reach(Forward(g), e, y)
      ensures Dominates(g, d, y)
    {
      var p :| WalkFromTo(Forward(g), p, e, y);
      if |p| > 1 {
        FirstStep(Forward(g), p);
        var k :| 0 <= k < |g.succ[e]| && g.succ[e][k] == p[1];
        assert WalkFromTo(Forward(g), p[1..], p[1], y);
      }
    }
  }

  /** The effect of ReplicateJoinedSubgraphs for dominator d below e. */
  ghost predicate Rewrites(g: Graph, h: Graph, d: Block, e: Block, changed: bool) {
    var rewrites :=
      && Extends(g, h, d) && ChangedBelow(g, h, e)
      && if changed then |ReachableSet(g)| < |ReachableSet(h)| else h == g;
    rewrites
  }

  lemma RewritesSelf(g: Graph, d: Block, e: Block)
    requires Valid(g) && Reducible(g)
    ensures Rewrites(g, g, d, e, false)
  {
  }

  lemma RewritesTrans(g: Graph, h: Graph, k: Graph, d: Block, e: Block, c: bool, c': bool)
    requires Rewrites(g, h, d, e, c) && Rewrites(h, k, d, e, c') && e in g.succ
    ensures Rewrites(g, k, d, e, c || c')
  {
    ExtendsTrans(g, h, k, d);
  }

  /** After a rewrite below e, e is reachable and dominated as before, with as many paths. */
  lemma RewritesMeasure(g: Graph, h: Graph, d: Block, e: Block, changed: bool)
    requires Rewrites(g, h, d, e, changed) && e in ReachableSet(g) && Dominates(g, d, e)
    ensures e in ReachableSet(h) && Dominates(h, d, e) && Paths(h, e, 0) == Paths(g, e, 0)
  {
  }

  lemma BelowSuccessor(g: Graph, h: Graph, d: Block, e: Block, i: nat, changed: bool)
    requires e in g.succ && i < |g.succ[e]| && (e, g.succ[e][i]) in Forward(g)
    requires Rewrites(g, h, d, g.succ[e][i], changed) && Covers(h, d, g.succ[e][i])
    requires ForwardCovered(g, d, e, i) && Dominates(g, d, e)
    ensures Extends(g, h, d) && Rewrites(g, h, d, e, changed) && h.succ[e] == g.succ[e]
            && ForwardCovered(h, d, e, i + 1)
  {
    var b := g.succ[e][i];
    ReachEdge(Forward(g), e, b);
    if Reach(Forward(g), b, e) {
      ReachAntisymmetric(Forward(g), e, b);
      SelfEdgeIsBack(g, e);
    }
    forall x | x in g.succ && h.succ[x] != g.succ[x]
      ensures Reach(Forward(g), e, x)
    {
      ReachTrans(Forward(g), e, b, x);
    }
  }

  lemma BelowTurned(g: Graph, h: Graph, d: Block, e: Block, i: nat)
    requires Extends(g, h, d) && e in g.succ && i < |g.succ[e]|
    requires |ReachableSet(g)| < |ReachableSet(h)|
    requires ChangedAtMost(g, h, e, i) && Covers(h, d, h.succ[e][i]) && ForwardCovered(g, d, e, i)
    ensures Rewrites(g, h, d, e, true) && ForwardCovered(h, d, e, i + 1)
  {
    ReachSelf(Forward(g), e);
  }

  ghost predicate Found(g: Graph, subgraph: seq<Block>, entry: Block, r: seq<Block>) {
    && subgraph <= r && Simple(r) && Members(r) <= g.succ.Keys
    && forall x :: x in r && x !in subgraph ==> Reach(Forward(g), entry, x)
  }

  ghost predicate ClosedExcept(g: Graph, subgraph: seq<Block>, r: seq<Block>, skip: set<Block>) {
    forall x, y :: x in r && x !in subgraph && x !in skip && (x, y) in Forward(g) ==> y in r
  }

  lemma FoundFirst(g: Graph, subgraph: seq<Block>, entry: Block)
    requires Members(subgraph) <= g.succ.Keys && Simple(subgraph) && entry in g.succ && entry !in subgraph
    ensures Found(g, subgraph, entry, subgraph + [entry])
    ensures ClosedExcept(g, subgraph, subgraph + [entry], {entry})
    ensures |subgraph| < |g.succ|
  {
    ReachSelf(Forward(g), entry);
    SimpleBound(subgraph + [entry], g.succ.Keys);
  }

  lemma {:induction false} SimpleBound(s: seq<Block>, bound: set<Block>)
    requires Simple(s) && Members(s) <= bound
    ensures |s| <= |bound|
    decreases |s|
  {
    if |s| > 0 {
      var last := s[|s| - 1];
      forall x | x in s[..|s| - 1]
        ensures x in bound - {last}
      {
        assert x in s;
      }
      assert last in bound;
      SimpleBound(s[..|s| - 1], bound - {last});
    }
  }

  lemma SubgraphIsForwardSet(g: Graph, entry: Block, r: seq<Block>)
    requires Found(g, [], entry, r) && entry in r && ClosedExcept(g, [], r, {})
    ensures forall s :: s in r <==> Reach(Forward(g), entry, s)
  {
    forall s
      ensures s in r <==> Reach(Forward(g), entry, s)
    {
      if p :| WalkFromTo(Forward(g), p, entry, s) {
        ClosedUnderWalks(Forward(g), Members(r), p);
      }
    }
  }

  lemma FoundThrough(g: Graph, subgraph: seq<Block>, entry: Block, r: seq<Block>, successor: Block, r': seq<Block>)
    requires Found(g, subgraph, entry, r) && ClosedExcept(g, subgraph, r, {entry})
    requires Found(g, r, successor, r') && ClosedExcept(g, r, r', {})
    requires (entry, successor) in Forward(g)
    ensures Found(g, subgraph, entry, r') && ClosedExcept(g, subgraph, r', {entry})
  {
    ReachEdge(Forward(g), entry, successor);
    forall x | x in r' && x !in subgraph
      ensures Reach(Forward(g), entry, x)
    {
      if x !in r {
        ReachTrans(Forward(g), entry, successor, x);
      }
    }
  }

  /** (g, o) is (g0, o0) with a copy n of each block original[n], which nothing leads to yet. */
  ghost predicate WithCopies(g0: Graph, o0: map<Block, Block>, g: Graph, o: map<Block, Block>,
                             original: map<Block, Block>)
  {
    && g.entry == g0.entry && original.Keys !! g0.succ.Keys && o0.Keys == g0.succ.Keys
    && o.Keys == g.succ.Keys == g0.succ.Keys + original.Keys
    && (forall x :: x in g0.succ ==> g.succ[x] == g0.succ[x] && o[x] == o0[x])
    && (forall n :: n in original ==>
          original[n] in g0.succ && g.succ[n] == g0.succ[original[n]] && o[n] == o0[original[n]])
  }

  lemma CopiesNone(g: Graph, o: map<Block, Block>, graph: seq<Block>)
    requires o.Keys == g.succ.Keys
    ensures WithCopies(g, o, g, o, map[]) && Recorded(graph[..0], [], map[], map[])
  {
  }

  lemma WithOneMoreCopy(g0: Graph, o0: map<Block, Block>, g: Graph, o: map<Block, Block>, original: map<Block, Block>,
                        b: Block, newB: Block)
    requires WithCopies(g0, o0, g, o, original) && b in g0.succ && newB !in g.succ
    ensures WithCopies(g0, o0, WithCopy(g, b, newB), o[newB := o[b]], original[newB := b])
  {
  }

  ghost predicate Recorded(graph: seq<Block>, newGraph: seq<Block>, copies: map<Block, Block>,
                           original: map<Block, Block>) {
    && Inverse(copies, original) && copies.Keys == Members(graph)
    && Simple(newGraph) && Members(newGraph) == original.Keys
  }

  lemma CopiedSoFar(g0: Graph, o0: map<Block, Block>, g: Graph, o: map<Block, Block>, original: map<Block, Block>,
                    graph: seq<Block>, i: nat, newGraph: seq<Block>, copies: map<Block, Block>)
    requires i < |graph| && Members(graph) <= g0.succ.Keys
    requires WithCopies(g0, o0, g, o, original) && Recorded(graph[..i], newGraph, copies, original)
    ensures original.Keys <= g.succ.Keys && graph[i] in g0.succ && graph[i] in g.succ
  {
    assert graph[i] in Members(graph);
  }

  lemma RecordedOneMore(graph: seq<Block>, i: nat, newGraph: seq<Block>, copies: map<Block, Block>,
                        original: map<Block, Block>, newB: Block)
    requires Simple(graph) && i < |graph| && newB !in original
    requires Recorded(graph[..i], newGraph, copies, original)
    ensures Recorded(graph[..i + 1], newGraph + [newB], copies[graph[i] := newB], original[newB := graph[i]])
  {
    assert graph[i] !in Members(graph[..i]) && newB !in Members(newGraph);
    OneMoreMember(graph[..i], graph[i]);
    OneMoreMember(newGraph, newB);
    assert graph[..i + 1] == graph[..i] + [graph[i]];
  }

  lemma OneMoreMember(s: seq<Block>, b: Block)
    ensures Members(s + [b]) == Members(s) + {b}
  {
  }

  function Members(s: seq<Block>): set<Block> {
    set x | x in s
  }
}
