/** The digraph of dependences and its closure by depth-first searches. */
module Digraphs {
  import opened Graphs

  type Adjacency = map<Block, seq<Block>>

  ghost predicate Closed(adj: Adjacency) {
    forall v, i :: v in adj && 0 <= i < |adj[v]| ==> adj[v][i] in adj
  }

  ghost function Arcs(adj: Adjacency): Rel {
    Edges(Graph(0, adj))
  }

  class Digraph {
    var adj: Adjacency
    var numEdges: nat

    constructor ()
      ensures adj == map[] && numEdges == 0
    {
      adj, numEdges := map[], 0;
    }

    method AddNode(v: Block)
      modifies this
      ensures adj == if v in old(adj) then old(adj) else old(adj)[v := []]
      ensures numEdges == old(numEdges)
    {
      if v !in adj {
        adj := adj[v := []];
      }
    }

    method AddEdge(v: Block, w: Block)
      modifies this
      ensures adj == old(adj)[v := (if v in old(adj) then old(adj)[v] else []) + [w]]
      ensures numEdges == old(numEdges) + 1
    {
      adj := adj[v := (if v in adj then adj[v] else []) + [w]];
      numEdges := numEdges + 1;
    }
  }

  /** What a search from v has added to the marks. */
  ghost predicate Searched(adj: Adjacency, v: Block, before: set<Block>, after: set<Block>) {
    && before + {v} <= after <= adj.Keys
    && (forall u :: u in after && u !in before ==> Reach(Arcs(adj), v, u))
    && (forall u, w :: u in after && u !in before && (u, w) in Arcs(adj) ==> w in after)
  }

  /** In the middle of the search from v, when its first i arcs have been followed. */
  ghost predicate Searching(adj: Adjacency, v: Block, i: nat, before: set<Block>, now: set<Block>)
    requires v in adj && i <= |adj[v]|
  {
    && before + {v} <= now <= adj.Keys
    && (forall u :: u in now && u !in before ==> Reach(Arcs(adj), v, u))
    && (forall u, w :: u in now && u !in before && u != v && (u, w) in Arcs(adj) ==> w in now)
    && (forall j :: 0 <= j < i ==> adj[v][j] in now)
  }

  lemma SearchStarts(adj: Adjacency, v: Block, before: set<Block>)
    requires v in adj && before <= adj.Keys && v !in before
    ensures Searching(adj, v, 0, before, before + {v})
  {
    ReachSelf(Arcs(adj), v);
  }

  lemma SearchPasses(adj: Adjacency, v: Block, i: nat, before: set<Block>, now: set<Block>)
    requires v in adj && i < |adj[v]| && Searching(adj, v, i, before, now) && adj[v][i] in now
    ensures Searching(adj, v, i + 1, before, now)
  {
    hide Arcs, Reach;
  }

  lemma SearchFollows(adj: Adjacency, v: Block, i: nat, before: set<Block>, now: set<Block>, after: set<Block>)
    requires v in adj && i < |adj[v]| && Searching(adj, v, i, before, now) && Searched(adj, adj[v][i], now, after)
    ensures Searching(adj, v, i + 1, before, after)
  {
    hide Reach;
    var x := adj[v][i];
    assert (v, x) in Arcs(adj);
    ReachEdge(Arcs(adj), v, x);
    forall u | u in after && u !in before
      ensures Reach(Arcs(adj), v, u)
    {
      if u !in now {
        ReachTrans(Arcs(adj), v, x, u);
      }
    }
  }

  lemma SearchEnds(adj: Adjacency, v: Block, before: set<Block>, now: set<Block>)
    requires v in adj && Searching(adj, v, |adj[v]|, before, now)
    ensures Searched(adj, v, before, now)
  {
    hide Reach;
  }

  class DirectedDFS {
    var marked: set<Block>

    /** Cycles or not: a node that is marked is not entered again. */
    method Dfs(adj: Adjacency, v: Block)
      requires Closed(adj) && v in adj && v !in marked && marked <= adj.Keys
      modifies this
      ensures Searched(adj, v, old(marked), marked)
      decreases adj.Keys - marked
    {
      hide Searched, Searching;
      SearchStarts(adj, v, marked);
      marked := marked + {v};
      var i := 0;
      while i < |adj[v]|
        invariant 0 <= i <= |adj[v]| && Searching(adj, v, i, old(marked), marked)
        invariant old(marked) + {v} <= marked <= adj.Keys
      {
        var x := adj[v][i];
        if x in marked {
          SearchPasses(adj, v, i, old(marked), marked);
        } else {
          ghost var now := marked;
          Dfs(adj, x);
          SearchFollows(adj, v, i, old(marked), now, marked);
          SearchedKeys(adj, x, now, marked);
        }
        i := i + 1;
      }
      SearchEnds(adj, v, old(marked), marked);
    }

    constructor (adj: Adjacency, s: Block)
      requires Closed(adj) && s in adj
      ensures forall w :: w in marked <==> Reach(Arcs(adj), s, w)
    {
      marked := {};
      new;
      Dfs(adj, s);
      FromNothing(adj, s, marked);
    }
  }

  lemma SearchedKeys(adj: Adjacency, v: Block, before: set<Block>, after: set<Block>)
    requires Searched(adj, v, before, after)
    ensures before + {v} <= after <= adj.Keys
  {
  }

  /** A search that begins without marks marks just what is reachable. */
  lemma FromNothing(adj: Adjacency, v: Block, after: set<Block>)
    requires Searched(adj, v, {}, after)
    ensures forall w :: w in after <==> Reach(Arcs(adj), v, w)
  {
    hide Arcs;
    forall w | Reach(Arcs(adj), v, w)
      ensures w in after
    {
      var p :| WalkFromTo(Arcs(adj), p, v, w);
      ClosedUnderWalks(Arcs(adj), after, p);
    }
  }

  class TransitiveClosure {
    var all: map<Block, set<Block>>

    constructor ()
      ensures all == map[]
    {
      all := map[];
    }

    /** A search from every node. */
    method ComputeTC(adj: Adjacency)
      requires Closed(adj)
      modifies this
      ensures all.Keys == old(all).Keys + adj.Keys
      ensures forall v, w :: v in adj ==> (w in all[v] <==> Reach(Arcs(adj), v, w))
    {
      hide Reach, Closed;
      var todo := adj.Keys;
      while todo != {}
        invariant todo <= adj.Keys && all.Keys == old(all).Keys + (adj.Keys - todo)
        invariant forall v, w :: v in adj && v !in todo ==> (w in all[v] <==> Reach(Arcs(adj), v, w))
        decreases todo
      {
        var a :| a in todo;
        var dfs := new DirectedDFS(adj, a);
        all := all[a := dfs.marked];
        todo := todo - {a};
      }
    }

    predicate Reachable(v: Block, w: Block)
      reads this
    {
      v in all && w in all[v]
    }
  }
}
