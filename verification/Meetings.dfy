/** Where the ways from a barrier meet.

    Items that have passed a barrier together may part, and then meet again at the next barrier.
    Replication turns edges one at a time and can lead them to different copies of that barrier.
    It does not where a block that is on both of their ways dominates the block at which they meet
    and those that they come from, and this is kept from round to round. */
module Meetings {
  import opened Graphs
  import opened Cloning

  /** A walk with no barrier on the way. */
  ghost predicate Way(g: Graph, bars: set<Block>, p: seq<Block>) {
    Walk(Edges(g), p) && forall i :: 0 < i < |p| - 1 ==> p[i] !in bars
  }

  /** Where items are let go together: behind a barrier, or at the entry. */
  ghost predicate Starts(g: Graph, bars: set<Block>, d: Block) {
    Reachable(g, d) && (d in bars || d == g.entry)
  }

  /** Two ways from d come to one block by different edges. */
  ghost predicate Meet(g: Graph, bars: set<Block>, d: Block, p: seq<Block>, q: seq<Block>) {
    && Way(g, bars, p) && Way(g, bars, q) && |p| > 1 && |q| > 1 && p[0] == d && q[0] == d
    && p[|p| - 1] == q[|q| - 1] && p[|p| - 2] != q[|q| - 2]
  }

  /** A block on both ways, p[i] and q[j], dominates where they meet and where they come from. */
  ghost predicate PartAt(g: Graph, p: seq<Block>, q: seq<Block>, i: nat, j: nat) {
    && i < |p| - 1 && j < |q| - 1 && p[i] == q[j]
    && Dominates(g, p[i], p[|p| - 1]) && Dominates(g, p[i], p[|p| - 2]) && Dominates(g, p[i], q[|q| - 2])
  }

  /** Ways from a barrier that meet do so below some block on both of them, the barrier or a later
      one: below where they have parted. */
  ghost predicate MeetBelow(g: Graph, bars: set<Block>) {
    forall d, p, q :: Starts(g, bars, d) && Meet(g, bars, d, p, q) ==> exists i: nat, j: nat :: PartAt(g, p, q, i, j)
  }

  /** No block leads twice to one block. */
  ghost predicate SingleEdges(g: Graph) {
    forall b, i, j :: b in g.succ && 0 <= i < j < |g.succ[b]| ==> g.succ[b][i] != g.succ[b][j]
  }

  /** The barriers after a round: barriers and copies of barriers. */
  function BarsAfter(r: Round, bars: set<Block>): set<Block> {
    set x | x in r.after.succ.Keys && r.Orig(x) in bars
  }

  /** Below some barrier, which does not dominate what the edge leads to, the edge is turned. */
  ghost predicate BelowBarrier(r: Round, bars: set<Block>) {
    && r.e in r.before.succ && r.i < |r.before.succ[r.e]|
    && exists d :: d in bars && Dominates(r.before, d, r.e) && !Dominates(r.before, d, r.Target())
  }

  lemma LastOf(p: seq<Block>, r: Round)
    requires |p| > 0
    ensures r.OrigSeq(p)[|p| - 1] == r.Orig(p[|p| - 1])
  {
  }

  lemma EdgeInside(r: Round, x: Block, y: Block)
    requires r.Ok() && (x, y) in Edges(r.after)
    ensures x in r.after.succ && y in r.after.succ
  {
    hide Round.Ok;
    r.EdgeProjects(x, y);
  }

  /** The way that a way in the new graph stands for. */
  lemma WayProjects(r: Round, bars: set<Block>, p: seq<Block>)
    requires r.Ok() && Way(r.after, BarsAfter(r, bars), p)
    ensures Way(r.before, bars, r.OrigSeq(p))
  {
    hide Round.Ok, Walk, Edges;
    r.WalkProjects(p);
    forall i | 0 < i < |p| - 1
      ensures r.OrigSeq(p)[i] !in bars
    {
      StepOf(Edges(r.after), p, i);
      EdgeInside(r, p[i], p[i + 1]);
      assert p[i] !in BarsAfter(r, bars);
    }
  }

  lemma {:induction false} StepOf(e: Rel, p: seq<Block>, i: nat)
    requires Walk(e, p) && i + 1 < |p|
    ensures (p[i], p[i + 1]) in e
    decreases |p|
  {
    if i + 2 < |p| {
      assert p[..|p| - 1][i] == p[i] && p[..|p| - 1][i + 1] == p[i + 1];
      StepOf(e, p[..|p| - 1], i);
    }
  }

  // ------------------------------------------------------------------ into the copies

  /** What is copied lies outside what the barrier dominates. */
  lemma CopiesNotBelow(r: Round, d0: Block, x: Block)
    requires r.Ok() && Dominates(r.before, d0, r.e) && x in r.copies
    requires r.e in r.before.succ && r.i < |r.before.succ[r.e]| && !Dominates(r.before, d0, r.Target())
    ensures !Dominates(r.before, d0, x)
  {
    hide Round.Ok, Walk;
    r.DominatorUncopied(d0);
    r.CopyOf(x);
    var w :| WalkFromTo(Edges(r.before), w, r.before.entry, r.Target()) && d0 !in w;
    var p :| WalkFromTo(Forward(r.before), p, r.Target(), x);
    WalkMonotone(Forward(r.before), Edges(r.before), p);
    RoundFacts(r);
    CopiedOnWalk(r, p);
    WalkConcat(Edges(r.before), w, p);
    NonEmpty(Edges(r.before), p);
    assert d0 !in w + p[1..];
  }

  lemma CopiedOnWalk(r: Round, p: seq<Block>)
    requires r.Ok() && Walk(Forward(r.before), p) && p[0] in r.copies
    ensures forall b :: b in p ==> b in r.copies
  {
    hide Round.Ok, Walk;
    NonEmpty(Forward(r.before), p);
    RoundFacts(r);
    r.CopyOf(p[0]);
    forall i | 0 <= i < |p|
      ensures p[i] in r.copies
    {
      WalkSplit(Forward(r.before), p, i);
      ReachTrans(Forward(r.before), r.Target(), p[0], p[i]);
      r.CopyOf(p[i]);
    }
  }

  /** A walk into the copies passes the block whose edge has been turned. */
  lemma {:induction false} IntoCopies(r: Round, p: seq<Block>) returns (j: nat)
    requires r.Ok() && Walk(Edges(r.after), p) && p[0] !in r.original && p[|p| - 1] in r.original
    ensures j + 1 < |p| && p[j] == r.e
    decreases |p|
  {
    hide Round.Ok, Edges;
    LastStep(Edges(r.after), p);
    var n := |p| - 2;
    if p[n] in r.original {
      j := IntoCopies(r, p[..|p| - 1]);
    } else {
      r.EdgeProjects(p[n], p[n + 1]);
      j := n;
    }
  }

  /** A start outside the copies from which a way leads into them lies below the barrier. */
  lemma StartBelow(r: Round, bars: set<Block>, d0: Block, p: seq<Block>)
    requires r.Ok() && d0 in bars && Dominates(r.before, d0, r.e) && Way(r.after, BarsAfter(r, bars), p)
    requires p[0] !in r.original && p[|p| - 1] in r.original
    ensures Dominates(r.before, d0, p[0])
  {
    hide Round.Ok, Walk, Edges;
    var j := IntoCopies(r, p);
    WalkSplit(Edges(r.after), p, j);
    var q := p[..j + 1];
    var o := r.OrigSeq(q);
    r.WalkProjects(q);
    RoundFacts(r);
    forall i | 0 < i <= j
      ensures o[i] != d0
    {
      StepOf(Edges(r.after), p, i);
      EdgeInside(r, p[i], p[i + 1]);
      assert p[i] !in BarsAfter(r, bars);
    }
    forall w | WalkFromTo(Edges(r.before), w, r.before.entry, p[0])
      ensures d0 in w
    {
      WalkConcat(Edges(r.before), w, o);
      assert d0 in w + o[1..];
    }
  }

  /** Every walk from the entry has its like in the new graph. */
  lemma {:induction false} WalkLifts(r: Round, p: seq<Block>) returns (q: seq<Block>)
    requires r.Ok() && Walk(Edges(r.before), p) && p[0] == r.before.entry
    ensures Walk(Edges(r.after), q) && q[0] == r.after.entry && r.OrigSeq(q) == p
    decreases |p|
  {
    hide Round.Ok, Edges;
    RoundFacts(r);
    r.Basics();
    if |p| == 1 {
      q := p;
    } else {
      LastStep(Edges(r.before), p);
      var q0 := WalkLifts(r, p[..|p| - 1]);
      NonEmpty(Edges(r.after), q0);
      var y := SuccessorLifts(r, q0[|q0| - 1], p[|p| - 1]);
      WalkSnoc(Edges(r.after), q0, y);
      q := q0 + [y];
      assert r.OrigSeq(q) == r.OrigSeq(q0) + [r.Orig(y)] == p;
    }
  }

  lemma SuccessorLifts(r: Round, u: Block, v: Block) returns (y: Block)
    requires r.Ok() && (r.Orig(u), v) in Edges(r.before)
    ensures (u, y) in Edges(r.after) && r.Orig(y) == v
  {
    hide Round.Ok;
    RoundFacts(r);
    ValidBefore(r);
    var j :| 0 <= j < |r.before.succ[r.Orig(u)]| && r.before.succ[r.Orig(u)][j] == v;
    y := r.after.succ[u][j];
  }

  lemma ValidBefore(r: Round)
    requires r.Ok()
    ensures Valid(r.before)
  {
  }

  /** A copy is reached without its original. */
  lemma CopyAround(r: Round, d: Block) returns (w: seq<Block>)
    requires r.Ok() && d in r.copies
    ensures WalkFromTo(Edges(r.after), w, r.after.entry, r.copies[d]) && d !in w
  {
    hide Round.Ok, Walk, Edges;
    RoundFacts(r);
    if Dominates(r.before, d, r.e) {
      r.DominatorUncopied(d);
    }
    var p :| WalkFromTo(Edges(r.before), p, r.before.entry, r.e) && d !in p;
    var q := WalkLifts(r, p);
    NonEmpty(Edges(r.after), q);
    LastOf(q, r);
    TurnedEdge(r, q[|q| - 1]);
    var f := ForwardCopies(r, d);
    NonEmpty(Edges(r.after), f);
    WalkSnoc(Edges(r.after), q, r.copies[r.Target()]);
    var q1 := q + [r.copies[r.Target()]];
    WalkConcat(Edges(r.after), q1, f);
    w := q1 + f[1..];
    NotOn(r, d, q);
  }

  lemma NotOn(r: Round, d: Block, q: seq<Block>)
    requires r.Ok() && d in r.copies && d !in r.OrigSeq(q)
    ensures d !in q
  {
    hide Round.Ok;
    RoundFacts(r);
    forall i | 0 <= i < |q|
      ensures q[i] != d
    {
      assert r.OrigSeq(q)[i] in r.OrigSeq(q);
    }
  }

  lemma TurnedEdge(r: Round, x: Block)
    requires r.Ok() && r.Orig(x) == r.e
    ensures x == r.e && (r.e, r.copies[r.Target()]) in Edges(r.after)
  {
    hide Round.Ok;
    RoundFacts(r);
    DominatesSelf(r.before, r.e);
    r.DominatorUncopied(r.e);
    assert r.after.succ[r.e][r.i] == r.copies[r.Target()];
  }

  /** Copies lead from the copied target to each copy. */
  lemma ForwardCopies(r: Round, d: Block) returns (f: seq<Block>)
    requires r.Ok() && d in r.copies
    ensures WalkFromTo(Edges(r.after), f, r.copies[r.Target()], r.copies[d])
    ensures forall b :: b in f ==> b in r.original
  {
    hide Round.Ok, Walk, Edges;
    RoundFacts(r);
    r.CopyOf(d);
    var p :| WalkFromTo(Forward(r.before), p, r.Target(), d);
    CopiedOnWalk(r, p);
    NonEmpty(Forward(r.before), p);
    f := RenamedSeq(r.copies, p);
    CopiesWalk(r, p);
    forall b | b in f
      ensures b in r.original
    {
      var i :| 0 <= i < |f| && f[i] == b;
      assert p[i] in r.copies;
    }
  }

  lemma {:induction false} CopiesWalk(r: Round, p: seq<Block>)
    requires r.Ok() && Walk(Forward(r.before), p) && forall b :: b in p ==> b in r.copies
    ensures Walk(Edges(r.after), RenamedSeq(r.copies, p))
    decreases |p|
  {
    hide Round.Ok, Edges, Forward;
    if |p| > 1 {
      var q, u, v := p[..|p| - 1], p[|p| - 2], p[|p| - 1];
      LastStep(Forward(r.before), p);
      assert forall b :: b in q ==> b in p;
      CopiesWalk(r, q);
      assert u in p && v in p;
      CopiedEdge(r, u, v);
      WalkSnoc(Edges(r.after), RenamedSeq(r.copies, q), r.copies[v]);
      assert RenamedSeq(r.copies, p) == RenamedSeq(r.copies, q) + [r.copies[v]];
    }
  }

  lemma CopiedEdge(r: Round, u: Block, v: Block)
    requires r.Ok() && (u, v) in Forward(r.before) && u in r.copies && v in r.copies
    ensures (r.copies[u], r.copies[v]) in Edges(r.after)
  {
    hide Round.Ok;
    RoundFacts(r);
    var j :| 0 <= j < |r.before.succ[u]| && r.before.succ[u][j] == v;
    assert r.after.succ[r.copies[u]][j] == r.copies[v];
  }

  // --------------------------------------------------------------------- keeping to a side

  lemma DominatesThrough(g: Graph, a: Block, b: Block, c: Block)
    requires Dominates(g, a, b) && Dominates(g, b, c)
    ensures Dominates(g, a, c)
  {
    forall p | WalkFromTo(Edges(g), p, g.entry, c)
      ensures a in p
    {
      DominatorOnPrefix(g, a, b, p);
    }
  }

  lemma WayPart(g: Graph, bars: set<Block>, p: seq<Block>)
    requires Way(g, bars, p) && |p| > 1
    ensures Way(g, bars, p[..|p| - 1]) && (p[|p| - 2], p[|p| - 1]) in Edges(g)
  {
    LastStep(Edges(g), p);
  }

  /** Block p[0] is not passed again before the end of the way, in any version. */
  ghost predicate PassedOnce(r: Round, p: seq<Block>) {
    forall k :: 0 < k < |p| - 1 ==> r.Orig(p[k]) != r.Orig(p[0])
  }

  /** From a copy, no way leads to what its original dominates, other than a copy. */
  lemma CopyStays(r: Round, bars: set<Block>, p: seq<Block>)
    requires r.Ok() && Way(r.after, BarsAfter(r, bars), p) && p[0] in r.original && PassedOnce(r, p)
    requires Dominates(r.before, r.Orig(p[0]), r.Orig(p[|p| - 1])) && p[|p| - 1] != r.Orig(p[0])
    ensures p[|p| - 1] in r.original
  {
    hide Round.Ok, Walk, Edges;
    RoundFacts(r);
    NonEmpty(Edges(r.after), p);
    var d, x := r.Orig(p[0]), p[|p| - 1];
    if x !in r.original {
      var w := CopyAround(r, d);
      NonEmpty(Edges(r.after), w);
      r.DominatesLifts(d, x);
      WalkConcat(Edges(r.after), w, p);
      NotPassed(r, p);
    }
  }

  lemma NotPassed(r: Round, p: seq<Block>)
    requires r.Ok() && |p| > 0 && p[0] in r.original && PassedOnce(r, p) && p[|p| - 1] != r.Orig(p[0])
    ensures forall k :: 0 < k < |p| ==> p[k] != r.Orig(p[0])
  {
    hide Round.Ok;
    r.CopyOf(p[0]);
    r.CopyOf(r.Orig(p[0]));
  }

  lemma EntryUncopied(r: Round, x: Block)
    requires r.Ok() && r.Orig(x) == r.after.entry
    ensures x == r.after.entry
  {
    hide Round.Ok, Dominates;
    RoundFacts(r);
    assert Dominates(r.before, r.before.entry, r.e) by {
      EntryDominatesAll(r.before, r.e);
    }
    r.DominatorUncopied(r.before.entry);
  }

  lemma EntryDominatesAll(g: Graph, b: Block)
    ensures Dominates(g, g.entry, b)
  {
  }

  /** Where the first block dominates, it and what its ways lead to are on one side. */
  lemma SideOfStart(r: Round, bars: set<Block>, p: seq<Block>)
    requires r.Ok() && BelowBarrier(r, bars) && Way(r.after, BarsAfter(r, bars), p) && PassedOnce(r, p)
    requires Dominates(r.before, r.Orig(p[0]), r.Orig(p[|p| - 1])) && p[0] in r.after.succ
    requires p[0] in r.original ==> p[|p| - 1] != r.Orig(p[0])
    ensures p[|p| - 1] in r.original <==> p[0] in r.original
  {
    hide Round.Ok, Walk, Edges, Dominates, PassedOnce;
    var d0 :| d0 in bars && Dominates(r.before, d0, r.e) && !Dominates(r.before, d0, r.Target());
    NonEmpty(Edges(r.after), p);
    var x := p[|p| - 1];
    if p[0] in r.original {
      CopyStays(r, bars, p);
    } else if x in r.original {
      RoundFacts(r);
      StartBelow(r, bars, d0, p);
      DominatesThrough(r.before, d0, p[0], r.Orig(x));
      CopiesNotBelow(r, d0, r.Orig(x));
    }
  }

  /** The same where the way may come back to the first block, if that dominates where it comes
      from. */
  lemma SideOfWay(r: Round, bars: set<Block>, p: seq<Block>)
    requires r.Ok() && BelowBarrier(r, bars) && Way(r.after, BarsAfter(r, bars), p) && |p| > 1 && PassedOnce(r, p)
    requires Dominates(r.before, r.Orig(p[0]), r.Orig(p[|p| - 1]))
             && Dominates(r.before, r.Orig(p[0]), r.Orig(p[|p| - 2]))
    ensures p[|p| - 1] in r.original <==> p[0] in r.original
    ensures p[|p| - 2] in r.original <==> p[0] in r.original
  {
    hide Round.Ok, Walk, Edges, Dominates, BelowBarrier;
    var n := |p| - 1;
    WayPart(r.after, BarsAfter(r, bars), p);
    StepOf(Edges(r.after), p, 0);
    EdgeInside(r, p[0], p[1]);
    PreviousIsNot(r, p);
    SideOfStart(r, bars, p[..n]);
    if p[0] in r.original && p[n] == r.Orig(p[0]) {
      r.EdgeProjects(p[n - 1], p[n]);
      r.CopyOf(p[0]);
    } else {
      SideOfStart(r, bars, p);
    }
  }

  lemma PreviousIsNot(r: Round, p: seq<Block>)
    requires r.Ok() && |p| > 1 && PassedOnce(r, p)
    ensures p[0] in r.original ==> p[|p| - 2] != r.Orig(p[0])
    ensures PassedOnce(r, p[..|p| - 1])
  {
    hide Round.Ok;
    r.CopyOf(p[0]);
    if p[0] in r.original {
      r.CopyOf(r.Orig(p[0]));
    }
  }

  // ------------------------------------------------------------------------ meeting again

  lemma SameEdge(r: Round, u: Block, x: Block, y: Block)
    requires r.Ok() && SingleEdges(r.before) && (u, x) in Edges(r.after) && (u, y) in Edges(r.after)
             && r.Orig(x) == r.Orig(y)
    ensures x == y
  {
    hide Round.Ok;
    RoundFacts(r);
    ValidBefore(r);
    var i :| 0 <= i < |r.after.succ[u]| && r.after.succ[u][i] == x;
    var j :| 0 <= j < |r.after.succ[u]| && r.after.succ[u][j] == y;
    SlotOrig(r, u, i);
    SlotOrig(r, u, j);
    assert r.before.succ[r.Orig(u)][i] == r.before.succ[r.Orig(u)][j];
  }

  lemma SlotOrig(r: Round, u: Block, i: nat)
    requires r.Ok() && u in r.after.succ && i < |r.after.succ[u]|
    ensures r.Orig(u) in r.before.succ && i < |r.before.succ[r.Orig(u)]|
            && r.Orig(r.after.succ[u][i]) == r.before.succ[r.Orig(u)][i]
  {
    hide Round.Ok;
    RoundFacts(r);
    ValidBefore(r);
  }

  lemma SidesDecide(r: Round, x: Block, y: Block)
    requires r.Ok() && r.Orig(x) == r.Orig(y) && (x in r.original <==> y in r.original)
    ensures x == y
  {
    hide Round.Ok;
    RoundFacts(r);
  }

  lemma StartsProject(r: Round, bars: set<Block>, d: Block)
    requires r.Ok() && Starts(r.after, BarsAfter(r, bars), d)
    ensures Starts(r.before, bars, r.Orig(d))
  {
    hide Round.Ok, Reachable;
    r.ReachableProjects(d);
    r.Basics();
  }

  lemma WayCut(g: Graph, bars: set<Block>, p: seq<Block>, i: nat)
    requires Way(g, bars, p) && i < |p|
    ensures Way(g, bars, p[..i + 1]) && Way(g, bars, p[i..])
  {
    hide Walk, Edges;
    WalkSplit(Edges(g), p, i);
  }

  /** The last place, but the end, at which the block w is passed. */
  lemma LastPassed(p: seq<Block>, w: Block, i: nat) returns (k: nat)
    requires i < |p| - 1 && p[i] == w
    ensures i <= k < |p| - 1 && p[k] == w && forall l :: k < l < |p| - 1 ==> p[l] != w
  {
    k := i;
    for l := i to |p| - 1
      invariant i <= k < |p| - 1 && p[k] == w && forall h :: k < h < l ==> p[h] != w
    {
      if p[l] == w {
        k := l;
      }
    }
  }

  /** From the last block that both ways pass and that dominates where they meet. */
  ghost predicate Parted(r: Round, p: seq<Block>, q: seq<Block>, i: nat, j: nat) {
    && PartAt(r.before, r.OrigSeq(p), r.OrigSeq(q), i, j) && PassedOnce(r, p[i..]) && PassedOnce(r, q[j..])
  }

  lemma MeetingBelow(r: Round, bars: set<Block>, p: seq<Block>, q: seq<Block>) returns (i: nat, j: nat)
    requires r.Ok() && MeetBelow(r.before, bars)
    requires Way(r.after, BarsAfter(r, bars), p) && Way(r.after, BarsAfter(r, bars), q) && |p| > 1 && |q| > 1
    requires p[0] == q[0] && Starts(r.after, BarsAfter(r, bars), p[0]) && r.Orig(p[|p| - 1]) == r.Orig(q[|q| - 1])
    requires r.Orig(p[|p| - 2]) != r.Orig(q[|q| - 2])
    ensures Parted(r, p, q, i, j)
  {
    hide Round.Ok, Way, Starts, Dominates;
    WayProjects(r, bars, p);
    WayProjects(r, bars, q);
    StartsProject(r, bars, p[0]);
    var op, oq := r.OrigSeq(p), r.OrigSeq(q);
    assert Meet(r.before, bars, r.Orig(p[0]), op, oq);
    var a: nat, b: nat :| PartAt(r.before, op, oq, a, b);
    i := LastPassed(op, op[a], a);
    j := LastPassed(oq, oq[b], b);
    PassedFrom(r, p, i);
    PassedFrom(r, q, j);
  }

  lemma PassedFrom(r: Round, p: seq<Block>, i: nat)
    requires i < |p| - 1 && forall l :: i < l < |p| - 1 ==> r.OrigSeq(p)[l] != r.OrigSeq(p)[i]
    ensures PassedOnce(r, p[i..])
  {
    forall k | 0 < k < |p[i..]| - 1
      ensures r.Orig(p[i..][k]) != r.Orig(p[i..][0])
    {
      assert r.OrigSeq(p)[i + k] != r.OrigSeq(p)[i];
    }
  }

  /** From where they part, both ways keep to the side of that block. */
  lemma PartedSides(r: Round, bars: set<Block>, p: seq<Block>, q: seq<Block>, i: nat, j: nat)
    requires r.Ok() && BelowBarrier(r, bars) && Parted(r, p, q, i, j) && p[i] == q[j]
    requires Way(r.after, BarsAfter(r, bars), p) && Way(r.after, BarsAfter(r, bars), q)
    requires r.Orig(p[|p| - 1]) == r.Orig(q[|q| - 1])
    ensures p[|p| - 1] in r.original <==> p[i] in r.original
    ensures p[|p| - 2] in r.original <==> p[i] in r.original
    ensures q[|q| - 1] in r.original <==> p[i] in r.original
    ensures q[|q| - 2] in r.original <==> p[i] in r.original
  {
    hide Round.Ok, Way, Dominates, BelowBarrier, PassedOnce;
    WayCut(r.after, BarsAfter(r, bars), p, i);
    WayCut(r.after, BarsAfter(r, bars), q, j);
    SideOfWay(r, bars, p[i..]);
    SideOfWay(r, bars, q[j..]);
  }

  /** Ways from one start that meet in the old graph meet in the new one. */
  lemma {:induction false} SameVersion(r: Round, bars: set<Block>, p: seq<Block>, q: seq<Block>)
    requires r.Ok() && BelowBarrier(r, bars) && MeetBelow(r.before, bars) && SingleEdges(r.before)
    requires Way(r.after, BarsAfter(r, bars), p) && Way(r.after, BarsAfter(r, bars), q) && |p| > 1 && |q| > 1
    requires p[0] == q[0] && Starts(r.after, BarsAfter(r, bars), p[0]) && r.Orig(p[|p| - 1]) == r.Orig(q[|q| - 1])
    ensures p[|p| - 1] == q[|q| - 1]
    decreases |p| + |q|, 1
  {
    hide Round.Ok, Way, Starts, Edges, MeetBelow, SingleEdges, BelowBarrier, Dominates, PassedOnce;
    WayPart(r.after, BarsAfter(r, bars), p);
    WayPart(r.after, BarsAfter(r, bars), q);
    if r.Orig(p[|p| - 2]) == r.Orig(q[|q| - 2]) {
      SamePrevious(r, bars, p, q);
      SameEdge(r, p[|p| - 2], p[|p| - 1], q[|q| - 1]);
    } else {
      var i, j := MeetingBelow(r, bars, p, q);
      SameParting(r, bars, p, q, i, j);
      PartedSides(r, bars, p, q, i, j);
      SidesDecide(r, p[|p| - 1], q[|q| - 1]);
    }
  }

  /** Blocks on the two ways that are one in the old graph are one in the new. */
  lemma {:induction false} SameParting(r: Round, bars: set<Block>, p: seq<Block>, q: seq<Block>, i: nat, j: nat)
    requires r.Ok() && BelowBarrier(r, bars) && MeetBelow(r.before, bars) && SingleEdges(r.before)
    requires Way(r.after, BarsAfter(r, bars), p) && Way(r.after, BarsAfter(r, bars), q) && i < |p| - 1 && j < |q| - 1
    requires p[0] == q[0] && Starts(r.after, BarsAfter(r, bars), p[0]) && r.Orig(p[i]) == r.Orig(q[j])
    ensures p[i] == q[j]
    decreases |p| + |q|, 0
  {
    hide Round.Ok, Starts, Way, Edges, MeetBelow, SingleEdges, BelowBarrier;
    WayCut(r.after, BarsAfter(r, bars), p, i);
    WayCut(r.after, BarsAfter(r, bars), q, j);
    if i > 0 && j > 0 {
      SameVersion(r, bars, p[..i + 1], q[..j + 1]);
    } else if i > 0 {
      WayCut(r.after, BarsAfter(r, bars), p, i + 1);
      BackAtStart(r, bars, p[..i + 2]);
    } else if j > 0 {
      WayCut(r.after, BarsAfter(r, bars), q, j + 1);
      BackAtStart(r, bars, q[..j + 2]);
    }
  }

  lemma {:induction false} SamePrevious(r: Round, bars: set<Block>, p: seq<Block>, q: seq<Block>)
    requires r.Ok() && BelowBarrier(r, bars) && MeetBelow(r.before, bars) && SingleEdges(r.before)
    requires Way(r.after, BarsAfter(r, bars), p) && Way(r.after, BarsAfter(r, bars), q) && |p| > 1 && |q| > 1
    requires p[0] == q[0] && Starts(r.after, BarsAfter(r, bars), p[0]) && r.Orig(p[|p| - 2]) == r.Orig(q[|q| - 2])
    ensures p[|p| - 2] == q[|q| - 2]
    decreases |p| + |q|, 0
  {
    hide Round.Ok, Starts, Way, Edges, MeetBelow, SingleEdges, BelowBarrier;
    WayPart(r.after, BarsAfter(r, bars), p);
    WayPart(r.after, BarsAfter(r, bars), q);
    if |p| > 2 && |q| > 2 {
      SameVersion(r, bars, p[..|p| - 1], q[..|q| - 1]);
    } else if |p| > 2 {
      BackAtStart(r, bars, p);
    } else if |q| > 2 {
      BackAtStart(r, bars, q);
    }
  }

  /** Only the entry can be passed again on a way that starts from it. */
  lemma BackAtStart(r: Round, bars: set<Block>, p: seq<Block>)
    requires r.Ok() && Way(r.after, BarsAfter(r, bars), p) && |p| > 2 && Starts(r.after, BarsAfter(r, bars), p[0])
    ensures r.Orig(p[|p| - 2]) == r.Orig(p[0]) ==> p[|p| - 2] == p[0]
  {
    hide Round.Ok, Walk, Edges, Reachable;
    r.Basics();
    var u := p[|p| - 2];
    if r.Orig(u) == r.Orig(p[0]) {
      WayPart(r.after, BarsAfter(r, bars), p);
      EdgeInside(r, u, p[|p| - 1]);
      if p[0] == r.after.entry {
        EntryUncopied(r, u);
      }
    }
  }

  // --------------------------------------------------------------------- from round to round

  lemma SingleEdgesStay(r: Round)
    requires r.Ok() && SingleEdges(r.before)
    ensures SingleEdges(r.after)
  {
    hide Round.Ok;
    forall b, i, j | b in r.after.succ && 0 <= i < j < |r.after.succ[b]|
      ensures r.after.succ[b][i] != r.after.succ[b][j]
    {
      SlotOrig(r, b, i);
      SlotOrig(r, b, j);
    }
  }

  lemma StartDominates(r: Round, d: Block, x: Block)
    requires r.Ok() && Dominates(r.before, r.Orig(d), r.Orig(x)) && (x in r.original <==> d in r.original)
    ensures Dominates(r.after, d, x)
  {
    hide Round.Ok, Dominates;
    RoundFacts(r);
    r.DominatesLifts(r.Orig(d), x);
  }

  /** A round leaves ways from barriers meeting below where they have parted. */
  lemma MeetBelowStays(r: Round, bars: set<Block>)
    requires r.Ok() && BelowBarrier(r, bars) && MeetBelow(r.before, bars) && SingleEdges(r.before)
    ensures MeetBelow(r.after, BarsAfter(r, bars))
  {
    hide Round.Ok, Way, Starts, Edges, SingleEdges, BelowBarrier, Dominates, BarsAfter;
    var bars' := BarsAfter(r, bars);
    forall d, p, q | Starts(r.after, bars', d) && Meet(r.after, bars', d, p, q)
      ensures exists i: nat, j: nat :: PartAt(r.after, p, q, i, j)
    {
      if r.Orig(p[|p| - 2]) == r.Orig(q[|q| - 2]) {
        SamePrevious(r, bars, p, q);
      }
      var i, j := MeetingBelow(r, bars, p, q);
      SameParting(r, bars, p, q, i, j);
      PartedSides(r, bars, p, q, i, j);
      StartDominates(r, p[i], p[|p| - 1]);
      StartDominates(r, p[i], p[|p| - 2]);
      StartDominates(r, p[i], q[|q| - 2]);
      assert PartAt(r.after, p, q, i, j);
    }
  }

  /** The barriers after all the rounds. */
  function BarsOf(bars: set<Block>, rounds: seq<Round>): set<Block>
    decreases |rounds|
  {
    if rounds == [] then bars else BarsAfter(rounds[|rounds| - 1], BarsOf(bars, rounds[..|rounds| - 1]))
  }

  ghost predicate AllBelow(bars: set<Block>, rounds: seq<Round>)
    decreases |rounds|
  {
    rounds != [] ==>
      var init := rounds[..|rounds| - 1];
      AllBelow(bars, init) && BelowBarrier(rounds[|rounds| - 1], BarsOf(bars, init))
  }

  /** Ways that meet below where they part do so after every round. */
  lemma {:induction false} RoundsMeetBelow(g: Graph, bars: set<Block>, rounds: seq<Round>, h: Graph)
    requires Chain(g, rounds, h) && AllBelow(bars, rounds) && MeetBelow(g, bars) && SingleEdges(g)
    ensures MeetBelow(h, BarsOf(bars, rounds)) && SingleEdges(h)
    decreases |rounds|
  {
    hide Round.Ok, MeetBelow, SingleEdges, BelowBarrier, BarsAfter;
    if rounds != [] {
      var init, last := rounds[..|rounds| - 1], rounds[|rounds| - 1];
      RoundsMeetBelow(g, bars, init, last.before);
      MeetBelowStays(last, BarsOf(bars, init));
      SingleEdgesStay(last);
    }
  }
}
