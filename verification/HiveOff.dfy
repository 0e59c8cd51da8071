/** Hiving off barriers: every barrier gets a block of its own, the entry and the exits among them.

    Splitting a block changes which walks there are but not which instructions they run. */
module HiveOff {
  import opened Graphs

  /** Instructions other than terminators. */
  datatype Inst = Barrier(id: nat) | Phi(id: nat) | Op(id: nat)

  datatype Fn = Fn(entry: Block, code: map<Block, seq<Inst>>, succ: map<Block, seq<Block>>)

  ghost predicate FnOk(f: Fn) {
    && f.code.Keys == f.succ.Keys && f.entry in f.succ
    && forall b, i :: b in f.succ && 0 <= i < |f.succ[b]| ==> f.succ[b][i] in f.succ
  }

  ghost function Arcs(f: Fn): Rel {
    Edges(Graph(f.entry, f.succ))
  }

  /** The instructions along a walk. */
  function Trace(f: Fn, p: seq<Block>): seq<Inst> {
    if p == [] then [] else Trace(f, p[..|p| - 1]) + CodeOf(f, p[|p| - 1])
  }

  function CodeOf(f: Fn, b: Block): seq<Inst> {
    if b in f.code then f.code[b] else []
  }

  function Last(p: seq<Block>): Block {
    if p == [] then 0 else p[|p| - 1]
  }

  predicate Exit(f: Fn, b: Block) {
    b in f.succ && f.succ[b] == []
  }

  /** A run from the entry: up to an exit, or cut off anywhere. */
  ghost predicate IsRun(f: Fn, p: seq<Block>, finished: bool) {
    |p| > 0 && Walk(Arcs(f), p) && p[0] == f.entry && (finished ==> Exit(f, Last(p)))
  }

  /** A trace without the barriers that have been added. */
  function Kept(t: seq<Inst>, added: set<nat>): seq<Inst> {
    if t == [] then []
    else
      var x := t[|t| - 1];
      Kept(t[..|t| - 1], added) + if x.Barrier? && x.id in added then [] else [x]
  }

  lemma {:induction false} KeptOfBoth(s: seq<Inst>, t: seq<Inst>, added: set<nat>)
    ensures Kept(s + t, added) == Kept(s, added) + Kept(t, added)
    decreases |t|
  {
    if t == [] {
      assert s + t == s;
    } else {
      assert (s + t)[..|s + t| - 1] == s + t[..|t| - 1];
      KeptOfBoth(s, t[..|t| - 1], added);
    }
  }

  lemma {:induction false} KeptTwice(t: seq<Inst>, a: set<nat>, b: set<nat>)
    ensures Kept(Kept(t, a), b) == Kept(t, a + b)
    decreases |t|
  {
    if t != [] {
      var x := t[|t| - 1];
      KeptTwice(t[..|t| - 1], a, b);
      KeptOfBoth(Kept(t[..|t| - 1], a), if x.Barrier? && x.id in a then [] else [x], b);
      assert Kept([], b) == [];
      assert [x][..0] == [];
      assert Kept([x], b) == if x.Barrier? && x.id in b then [] else [x];
    }
  }

  lemma {:induction false} KeptAll(t: seq<Inst>)
    ensures Kept(t, {}) == t
    decreases |t|
  {
    if t != [] {
      KeptAll(t[..|t| - 1]);
    }
  }

  lemma KeptPrefix(s: seq<Inst>, t: seq<Inst>, added: set<nat>)
    requires s <= t
    ensures Kept(s, added) <= Kept(t, added)
  {
    assert t == s + t[|s|..];
    KeptOfBoth(s, t[|s|..], added);
  }

  /** Walk q of the new function runs what walk p of the old one runs, but for added barriers. */
  ghost predicate Matches(f: Fn, p: seq<Block>, h: Fn, q: seq<Block>, added: set<nat>) {
    Kept(Trace(h, q), added) == Trace(f, p)
  }

  /** It runs a first part of that. */
  ghost predicate Follows(f: Fn, p: seq<Block>, h: Fn, q: seq<Block>, added: set<nat>) {
    Kept(Trace(h, q), added) <= Trace(f, p)
  }

  ghost predicate Forth(f: Fn, h: Fn, added: set<nat>, finished: bool) {
    forall p :: IsRun(f, p, finished) ==> exists q :: IsRun(h, q, finished) && Matches(f, p, h, q, added)
  }

  ghost predicate Back(f: Fn, h: Fn, added: set<nat>) {
    forall q :: IsRun(h, q, true) ==> exists p :: IsRun(f, p, true) && Matches(f, p, h, q, added)
  }

  ghost predicate BackPartly(f: Fn, h: Fn, added: set<nat>) {
    forall q :: IsRun(h, q, false) ==> exists p :: IsRun(f, p, false) && Follows(f, p, h, q, added)
  }

  /** The functions have the same runs, finished and not, but for added barriers. */
  ghost predicate SameRuns(f: Fn, h: Fn, added: set<nat>) {
    Forth(f, h, added, true) && Forth(f, h, added, false) && Back(f, h, added) && BackPartly(f, h, added)
  }

  lemma SameRunsSelf(f: Fn)
    ensures SameRuns(f, f, {})
  {
    forall p
      ensures Matches(f, p, f, p, {}) && Follows(f, p, f, p, {})
    {
      KeptAll(Trace(f, p));
    }
  }

  lemma MatchesTrans(f: Fn, p: seq<Block>, g: Fn, q: seq<Block>, h: Fn, r: seq<Block>, a: set<nat>, b: set<nat>)
    ensures Matches(f, p, g, q, a) && Matches(g, q, h, r, b) ==> Matches(f, p, h, r, a + b)
    ensures Follows(f, p, g, q, a) && Follows(g, q, h, r, b) ==> Follows(f, p, h, r, a + b)
  {
    KeptTwice(Trace(h, r), b, a);
    assert b + a == a + b;
    if Follows(g, q, h, r, b) {
      KeptPrefix(Kept(Trace(h, r), b), Trace(g, q), a);
    }
  }

  lemma ForthTrans(f: Fn, g: Fn, h: Fn, a: set<nat>, b: set<nat>, finished: bool)
    requires Forth(f, g, a, finished) && Forth(g, h, b, finished)
    ensures Forth(f, h, a + b, finished)
  {
    hide IsRun, Matches, Follows;
    forall p | IsRun(f, p, finished)
      ensures exists q :: IsRun(h, q, finished) && Matches(f, p, h, q, a + b)
    {
      var q :| IsRun(g, q, finished) && Matches(f, p, g, q, a);
      var r :| IsRun(h, r, finished) && Matches(g, q, h, r, b);
      MatchesTrans(f, p, g, q, h, r, a, b);
    }
  }

  lemma BackTrans(f: Fn, g: Fn, h: Fn, a: set<nat>, b: set<nat>)
    requires Back(f, g, a) && Back(g, h, b)
    ensures Back(f, h, a + b)
  {
    hide IsRun, Matches, Follows;
    forall r | IsRun(h, r, true)
      ensures exists p :: IsRun(f, p, true) && Matches(f, p, h, r, a + b)
    {
      var q :| IsRun(g, q, true) && Matches(g, q, h, r, b);
      var p :| IsRun(f, p, true) && Matches(f, p, g, q, a);
      MatchesTrans(f, p, g, q, h, r, a, b);
    }
  }

  lemma BackPartlyTrans(f: Fn, g: Fn, h: Fn, a: set<nat>, b: set<nat>)
    requires BackPartly(f, g, a) && BackPartly(g, h, b)
    ensures BackPartly(f, h, a + b)
  {
    hide IsRun, Matches, Follows;
    forall r | IsRun(h, r, false)
      ensures exists p :: IsRun(f, p, false) && Follows(f, p, h, r, a + b)
    {
      var q :| IsRun(g, q, false) && Follows(g, q, h, r, b);
      var p :| IsRun(f, p, false) && Follows(f, p, g, q, a);
      MatchesTrans(f, p, g, q, h, r, a, b);
    }
  }

  lemma SameRunsTrans(f: Fn, g: Fn, h: Fn, a: set<nat>, b: set<nat>)
    requires SameRuns(f, g, a) && SameRuns(g, h, b)
    ensures SameRuns(f, h, a + b)
  {
    hide Forth, Back, BackPartly;
    ForthTrans(f, g, h, a, b, true);
    ForthTrans(f, g, h, a, b, false);
    BackTrans(f, g, h, a, b);
    BackPartlyTrans(f, g, h, a, b);
  }

  // ------------------------------------------------------------------------ splitting a block

  /** Block b keeps its first i instructions and leads to n, which takes the rest. */
  function Split(f: Fn, b: Block, i: nat, n: Block): Fn
    requires b in f.code && b in f.succ && i <= |f.code[b]|
  {
    Fn(f.entry, f.code[n := f.code[b][i..]][b := f.code[b][..i]], f.succ[n := f.succ[b]][b := [n]])
  }

  /** There is a block b with so many instructions, and no block n yet. */
  ghost predicate CanSplit(f: Fn, b: Block, i: nat, n: Block) {
    FnOk(f) && b in f.succ && b in f.code && i <= |f.code[b]| && n !in f.succ
  }

  lemma SplitArcs(f: Fn, b: Block, i: nat, n: Block, u: Block, v: Block)
    requires CanSplit(f, b, i, n)
    ensures (u, v) in Arcs(Split(f, b, i, n)) <==>
            (u == b && v == n) || (u == n && (b, v) in Arcs(f)) || (u != b && u != n && (u, v) in Arcs(f))
  {
    var h := Split(f, b, i, n);
    assert (u, v) in Arcs(h) <==> u in h.succ && v in h.succ[u];
    assert (u, v) in Arcs(f) <==> u in f.succ && v in f.succ[u];
    assert (b, v) in Arcs(f) <==> v in f.succ[b];
  }

  lemma SplitOk(f: Fn, b: Block, i: nat, n: Block)
    requires CanSplit(f, b, i, n)
    ensures FnOk(Split(f, b, i, n))
  {
  }

  lemma TraceSnoc(f: Fn, p: seq<Block>, b: Block)
    ensures Trace(f, p + [b]) == Trace(f, p) + CodeOf(f, b)
  {
    assert (p + [b])[..|p|] == p;
  }

  lemma ArcInside(f: Fn, u: Block, v: Block)
    requires FnOk(f) && (u, v) in Arcs(f)
    ensures v in f.succ
  {
  }

  lemma {:induction false} InFunction(f: Fn, p: seq<Block>)
    requires FnOk(f) && IsRun(f, p, false)
    ensures Last(p) in f.succ
    decreases |p|
  {
    hide Arcs;
    if |p| > 1 {
      ArcInside(f, p[|p| - 2], p[|p| - 1]);
    }
  }

  lemma SplitCode(f: Fn, b: Block, i: nat, n: Block, x: Block)
    requires CanSplit(f, b, i, n)
    ensures x != n ==> CodeOf(Split(f, b, i, n), x) == if x == b then f.code[b][..i] else CodeOf(f, x)
    ensures CodeOf(Split(f, b, i, n), n) == f.code[b][i..] && CodeOf(f, b) == f.code[b]
    ensures Split(f, b, i, n).entry == f.entry && f.entry != n
  {
  }

  lemma RunStep(f: Fn, p: seq<Block>)
    requires IsRun(f, p, false) && |p| > 1
    ensures IsRun(f, p[..|p| - 1], false) && (Last(p[..|p| - 1]), Last(p)) in Arcs(f)
  {
  }

  lemma RunSnoc(f: Fn, p: seq<Block>, x: Block)
    requires IsRun(f, p, false) && (Last(p), x) in Arcs(f)
    ensures IsRun(f, p + [x], false) && Last(p + [x]) == x
  {
    WalkSnoc(Arcs(f), p, x);
  }

  lemma RunStart(f: Fn)
    ensures IsRun(f, [f.entry], false) && Last([f.entry]) == f.entry && Trace(f, [f.entry]) == CodeOf(f, f.entry)
  {
    TraceSnoc(f, [], f.entry);
  }

  /** A new walk that has come to block x as the old one has, goes on through n if x is b. */
  lemma ThroughNew(f: Fn, b: Block, i: nat, n: Block, q: seq<Block>, t: seq<Inst>, x: Block) returns (r: seq<Block>)
    requires CanSplit(f, b, i, n) && IsRun(Split(f, b, i, n), q, false) && Last(q) == x && x != n
    requires Trace(Split(f, b, i, n), q) == t + CodeOf(Split(f, b, i, n), x)
    ensures IsRun(Split(f, b, i, n), r, false) && Last(r) == if x == b then n else x
    ensures Trace(Split(f, b, i, n), r) == t + CodeOf(f, x)
  {
    hide Split, Arcs, IsRun, Trace, CodeOf, FnOk;
    var h := Split(f, b, i, n);
    SplitCode(f, b, i, n, x);
    r := q;
    if x == b {
      SplitArcs(f, b, i, n, b, n);
      RunSnoc(h, q, n);
      TraceSnoc(h, q, n);
      r := q + [n];
      assert t + f.code[b][..i] + f.code[b][i..] == t + f.code[b];
    }
  }

  /** Every walk of the old function, with b followed by n. */
  lemma {:induction false} Expanded(f: Fn, b: Block, i: nat, n: Block, p: seq<Block>) returns (q: seq<Block>)
    requires CanSplit(f, b, i, n) && IsRun(f, p, false)
    ensures IsRun(Split(f, b, i, n), q, false) && Trace(Split(f, b, i, n), q) == Trace(f, p)
    ensures Last(q) == if Last(p) == b then n else Last(p)
    decreases |p|
  {
    hide Split, Arcs, Trace, CodeOf, FnOk;
    var h := Split(f, b, i, n);
    SplitCode(f, b, i, n, b);
    if |p| == 1 {
      assert p == [f.entry];
      RunStart(f);
      RunStart(h);
      q := ThroughNew(f, b, i, n, [f.entry], [], f.entry);
      assert [] + CodeOf(f, f.entry) == CodeOf(f, f.entry);
    } else {
      var p', x := p[..|p| - 1], Last(p);
      RunStep(f, p);
      InFunction(f, p);
      InFunction(f, p');
      var q' := Expanded(f, b, i, n, p');
      SplitArcs(f, b, i, n, Last(q'), x);
      RunSnoc(h, q', x);
      TraceSnoc(h, q', x);
      TraceSnoc(f, p', x);
      assert p == p' + [x];
      q := ThroughNew(f, b, i, n, q' + [x], Trace(h, q'), x);
    }
  }

  /** Every walk of the new function without its visits to n; between b and n it is on its way. */
  lemma {:induction false} Contracted(f: Fn, b: Block, i: nat, n: Block, q: seq<Block>) returns (p: seq<Block>)
    requires CanSplit(f, b, i, n) && IsRun(Split(f, b, i, n), q, false)
    ensures IsRun(f, p, false) && Last(p) == if Last(q) == n then b else Last(q)
    ensures Trace(Split(f, b, i, n), q) + (if Last(q) == b then f.code[b][i..] else []) == Trace(f, p)
    decreases |q|
  {
    hide Split, Arcs, Trace, CodeOf, FnOk;
    var h := Split(f, b, i, n);
    var x := Last(q);
    SplitCode(f, b, i, n, x);
    if |q| == 1 {
      assert q == [f.entry];
      RunStart(f);
      RunStart(h);
      p := [f.entry];
    } else {
      var q' := q[..|q| - 1];
      RunStep(h, q);
      p := Contracted(f, b, i, n, q');
      TraceSnoc(h, q', x);
      assert q == q' + [x];
      SplitArcs(f, b, i, n, Last(q'), x);
      SplitCode(f, b, i, n, b);
      if x == n {
        NoArcTo(f, b, i, n);
        assert Last(q') == b;
      } else {
        RunSnoc(f, p, x);
        TraceSnoc(f, p, x);
        assert Trace(h, q') + f.code[b][..i] + f.code[b][i..] == Trace(h, q') + f.code[b];
        p := p + [x];
      }
    }
  }

  lemma NoArcTo(f: Fn, b: Block, i: nat, n: Block)
    requires CanSplit(f, b, i, n)
    ensures forall u :: (u, n) !in Arcs(f)
  {
  }

  lemma ExitKept(f: Fn, b: Block, i: nat, n: Block, x: Block)
    requires CanSplit(f, b, i, n) && x in f.succ
    ensures Exit(Split(f, b, i, n), if x == b then n else x) <==> Exit(f, x)
    ensures !Exit(Split(f, b, i, n), b)
  {
  }

  lemma SplitForth(f: Fn, b: Block, i: nat, n: Block, finished: bool)
    requires CanSplit(f, b, i, n)
    ensures Forth(f, Split(f, b, i, n), {}, finished)
  {
    hide Split, Arcs, Trace, FnOk, Exit;
    var h := Split(f, b, i, n);
    forall p | IsRun(f, p, finished)
      ensures exists q :: IsRun(h, q, finished) && Matches(f, p, h, q, {})
    {
      var q := Expanded(f, b, i, n, p);
      KeptAll(Trace(h, q));
      InFunction(f, p);
      ExitKept(f, b, i, n, Last(p));
      assert IsRun(h, q, finished) && Matches(f, p, h, q, {});
    }
  }

  lemma SplitBack(f: Fn, b: Block, i: nat, n: Block)
    requires CanSplit(f, b, i, n)
    ensures Back(f, Split(f, b, i, n), {}) && BackPartly(f, Split(f, b, i, n), {})
  {
    hide Split, Arcs, Trace, FnOk, Exit;
    var h := Split(f, b, i, n);
    forall q | IsRun(h, q, false)
      ensures exists p :: IsRun(f, p, false) && Follows(f, p, h, q, {})
      ensures IsRun(h, q, true) ==> exists p :: IsRun(f, p, true) && Matches(f, p, h, q, {})
    {
      var p := Contracted(f, b, i, n, q);
      KeptAll(Trace(h, q));
      InFunction(f, p);
      ExitKept(f, b, i, n, Last(p));
      assert IsRun(f, p, false) && Follows(f, p, h, q, {});
      assert IsRun(h, q, true) ==> IsRun(f, p, true) && Matches(f, p, h, q, {});
    }
    RunsBegin(h);
  }

  lemma RunsBegin(f: Fn)
    ensures forall q :: IsRun(f, q, true) ==> IsRun(f, q, false)
  {
  }

  lemma SplitKeepsRuns(f: Fn, b: Block, i: nat, n: Block)
    requires CanSplit(f, b, i, n)
    ensures SameRuns(f, Split(f, b, i, n), {})
  {
    hide Split, Forth, Back, BackPartly;
    SplitForth(f, b, i, n, true);
    SplitForth(f, b, i, n, false);
    SplitBack(f, b, i, n);
  }

  // --------------------------------------------------------------------- adding a barrier

  /** The block with a barrier behind its instructions. */
  function WithBarrier(f: Fn, b: Block, id: nat): Fn
    requires b in f.code
  {
    f.(code := f.code[b := f.code[b] + [Barrier(id)]])
  }

  ghost predicate NewBarrier(f: Fn, id: nat) {
    forall b, i :: b in f.code && 0 <= i < |f.code[b]| ==> f.code[b][i] != Barrier(id)
  }

  lemma {:induction false} KeptWithout(t: seq<Inst>, id: nat)
    requires forall i :: 0 <= i < |t| ==> t[i] != Barrier(id)
    ensures Kept(t, {id}) == t
    decreases |t|
  {
    if t != [] {
      KeptWithout(t[..|t| - 1], id);
    }
  }

  lemma {:induction false} TraceWithBarrier(f: Fn, b: Block, id: nat, p: seq<Block>)
    requires b in f.code && NewBarrier(f, id)
    ensures Kept(Trace(WithBarrier(f, b, id), p), {id}) == Trace(f, p)
    decreases |p|
  {
    var h := WithBarrier(f, b, id);
    if p != [] {
      var init, x := p[..|p| - 1], p[|p| - 1];
      TraceWithBarrier(f, b, id, init);
      KeptOfBoth(Trace(h, init), CodeOf(h, x), {id});
      KeptWithout(CodeOf(f, x), id);
      if x == b {
        KeptOfBoth(CodeOf(f, x), [Barrier(id)], {id});
        assert Kept([Barrier(id)], {id}) == Kept([], {id});
      }
    }
  }

  lemma BarrierKeepsRuns(f: Fn, b: Block, id: nat)
    requires b in f.code && NewBarrier(f, id)
    ensures SameRuns(f, WithBarrier(f, b, id), {id})
  {
    hide Trace, Kept, NewBarrier;
    var h := WithBarrier(f, b, id);
    forall p
      ensures Matches(f, p, h, p, {id}) && Follows(f, p, h, p, {id})
    {
      TraceWithBarrier(f, b, id, p);
    }
    assert forall p, finished :: IsRun(f, p, finished) <==> IsRun(h, p, finished);
  }

  // -------------------------------------------------------------------------------- the pass

  predicate JustABarrier(f: Fn, b: Block) {
    b in f.code && |f.code[b]| == 1 && f.code[b][0].Barrier?
  }

  predicate EndsWithBarrier(f: Fn, b: Block)
    requires b in f.code
  {
    f.code[b] != [] && f.code[b][|f.code[b]| - 1].Barrier?
  }

  /** Block b has an instruction at i. */
  predicate Holds(f: Fn, b: Block, i: int) {
    b in f.code && 0 <= i < |f.code[b]|
  }

  /** Instruction `id` is at one place at most, and names from the counters on are free. */
  ghost predicate Named(f: Fn, nextBlock: Block, nextId: nat) {
    && FnOk(f)
    && (forall b :: b in f.succ ==> b < nextBlock)
    && (forall b, i :: Holds(f, b, i) && f.code[b][i].Barrier? ==> f.code[b][i].id < nextId)
    && (forall b, i, c, j ::
          Holds(f, b, i) && Holds(f, c, j) && f.code[b][i] == f.code[c][j] && f.code[b][i].Barrier? ==>
            b == c && i == j)
  }

  /** The pass has got from f0 to f without changing what runs, but for `added`. */
  ghost predicate Sound(f0: Fn, f: Fn, added: set<nat>, nextBlock: Block, nextId: nat) {
    var ok := Named(f, nextBlock, nextId) && SameRuns(f0, f, added);
    ok
  }

  lemma SoundSplit(f0: Fn, f: Fn, added: set<nat>, nextBlock: Block, nextId: nat, b: Block, i: nat)
    requires Sound(f0, f, added, nextBlock, nextId) && b in f.code && i <= |f.code[b]|
    ensures CanSplit(f, b, i, nextBlock) && Sound(f0, Split(f, b, i, nextBlock), added, nextBlock + 1, nextId)
  {
    hide SameRuns;
    SplitOk(f, b, i, nextBlock);
    SplitKeepsRuns(f, b, i, nextBlock);
    SameRunsTrans(f0, f, Split(f, b, i, nextBlock), added, {});
    assert added + {} == added;
    SplitNamed(f, b, i, nextBlock, nextId);
  }

  /** Where an instruction has come from. */
  lemma SplitFrom(f: Fn, b: Block, i: nat, n: Block, c: Block, j: nat)
    requires CanSplit(f, b, i, n) && Holds(Split(f, b, i, n), c, j)
    ensures var (d, k) := if c == n then (b, i + j) else (c, j);
            Holds(f, d, k) && Split(f, b, i, n).code[c][j] == f.code[d][k] && (c == b ==> j < i)
  {
  }

  lemma NamedAt(f: Fn, n: Block, nextId: nat, b: Block, i: nat, c: Block, j: nat)
    requires Named(f, n, nextId) && Holds(f, b, i) && Holds(f, c, j) && f.code[b][i] == f.code[c][j]
             && f.code[b][i].Barrier?
    ensures b == c && i == j && f.code[b][i].id < nextId
  {
  }

  lemma SplitNamed(f: Fn, b: Block, i: nat, n: Block, nextId: nat)
    requires Named(f, n, nextId) && CanSplit(f, b, i, n)
    ensures Named(Split(f, b, i, n), n + 1, nextId)
  {
    hide Split;
    var h := Split(f, b, i, n);
    SplitOk(f, b, i, n);
    SplitKeys(f, b, i, n);
    forall c, j, d, l | Holds(h, c, j) && Holds(h, d, l) && h.code[c][j] == h.code[d][l] && h.code[c][j].Barrier?
      ensures c == d && j == l && h.code[c][j].id < nextId
    {
      SplitFrom(f, b, i, n, c, j);
      SplitFrom(f, b, i, n, d, l);
      var (c', j') := if c == n then (b, i + j) else (c, j);
      var (d', l') := if d == n then (b, i + l) else (d, l);
      NamedAt(f, n, nextId, c', j', d', l');
    }
  }

  lemma SplitKeys(f: Fn, b: Block, i: nat, n: Block)
    requires CanSplit(f, b, i, n)
    ensures Split(f, b, i, n).succ.Keys == f.succ.Keys + {n} == Split(f, b, i, n).code.Keys
  {
  }

  lemma SoundBarrier(f0: Fn, f: Fn, added: set<nat>, nextBlock: Block, nextId: nat, b: Block)
    requires Sound(f0, f, added, nextBlock, nextId) && b in f.code
    ensures Sound(f0, WithBarrier(f, b, nextId), added + {nextId}, nextBlock, nextId + 1)
  {
    hide SameRuns, Named, WithBarrier;
    BarrierNamed(f, b, nextBlock, nextId);
    BarrierKeepsRuns(f, b, nextId);
    SameRunsTrans(f0, f, WithBarrier(f, b, nextId), added, {nextId});
  }

  lemma BarrierFrom(f: Fn, b: Block, id: nat, c: Block, j: nat)
    requires b in f.code && Holds(WithBarrier(f, b, id), c, j)
    ensures var x := WithBarrier(f, b, id).code[c][j];
            if c == b && j == |f.code[b]| then x == Barrier(id) else Holds(f, c, j) && x == f.code[c][j]
  {
  }

  lemma BarrierNamed(f: Fn, b: Block, n: Block, id: nat)
    requires Named(f, n, id) && b in f.code
    ensures Named(WithBarrier(f, b, id), n, id + 1) && NewBarrier(f, id)
  {
    hide WithBarrier;
    var h := WithBarrier(f, b, id);
    forall c, i | c in f.code && 0 <= i < |f.code[c]|
      ensures f.code[c][i] != Barrier(id)
    {
      assert Holds(f, c, i);
    }
    assert h.succ == f.succ && h.entry == f.entry && h.code.Keys == f.code.Keys by {
      BarrierKeys(f, b, id);
    }
    forall c, j, d, l | Holds(h, c, j) && Holds(h, d, l) && h.code[c][j] == h.code[d][l] && h.code[c][j].Barrier?
      ensures c == d && j == l && h.code[c][j].id < id + 1
    {
      BarrierFrom(f, b, id, c, j);
      BarrierFrom(f, b, id, d, l);
      if h.code[c][j] != Barrier(id) {
        NamedAt(f, n, id, c, j, d, l);
      }
    }
  }

  lemma BarrierKeys(f: Fn, b: Block, id: nat)
    requires b in f.code
    ensures WithBarrier(f, b, id).succ == f.succ && WithBarrier(f, b, id).entry == f.entry
    ensures WithBarrier(f, b, id).code.Keys == f.code.Keys
  {
  }

  predicate PhisFirst(code: seq<Inst>) {
    forall i, j :: 0 <= i < j < |code| && code[j].Phi? ==> code[i].Phi?
  }

  /** The first position from i on that is not taken by a PHI. */
  function AfterPhis(code: seq<Inst>, i: nat): (j: nat)
    requires i <= |code|
    ensures i <= j <= |code| && (j < |code| ==> !code[j].Phi?) && forall k :: i <= k < j ==> code[k].Phi?
    decreases |code| - i
  {
    if i < |code| && code[i].Phi? then AfterPhis(code, i + 1) else i
  }

  ghost predicate ExitsAlone(f: Fn, but: set<Block>) {
    forall b :: Exit(f, b) && b !in but ==> JustABarrier(f, b)
  }

  ghost predicate Ready(f: Fn) {
    && JustABarrier(f, f.entry)
    && forall b :: b in f.code ==> PhisFirst(f.code[b])
  }

  function Barriers(f: Fn): set<nat> {
    set b, i | b in f.code && 0 <= i < |f.code[b]| && f.code[b][i].Barrier? :: f.code[b][i].id
  }

  ghost predicate Alone(f: Fn, id: nat) {
    exists b :: b in f.code && f.code[b] == [Barrier(id)]
  }

  class HiveOffBarrier {
    var f: Fn
    var nextBlock: Block
    var nextId: nat
    ghost var added: set<nat>
    ghost const original: Fn

    ghost predicate Valid()
      reads this
    {
      Sound(original, f, added, nextBlock, nextId)
    }

    constructor (g: Fn, firstBlock: Block, firstId: nat)
      requires Named(g, firstBlock, firstId)
      ensures Valid() && f == original == g && added == {} && nextBlock == firstBlock && nextId == firstId
    {
      f, original, added, nextBlock, nextId := g, g, {}, firstBlock, firstId;
      SameRunsSelf(g);
    }

    method SplitBlock(b: Block, at: nat) returns (n: Block)
      requires Valid() && b in f.code && at <= |f.code[b]|
      modifies this
      ensures Valid() && added == old(added) && nextId == old(nextId) && n == old(nextBlock)
      ensures var i := AfterPhis(old(f).code[b], at);
              CanSplit(old(f), b, i, n) && f == Split(old(f), b, i, n)
    {
      hide Sound;
      var i := at;
      while i < |f.code[b]| && f.code[b][i].Phi?
        invariant at <= i <= |f.code[b]| && AfterPhis(f.code[b], at) == AfterPhis(f.code[b], i)
      {
        i := i + 1;
      }
      SoundSplit(original, f, added, nextBlock, nextId, b, i);
      n := nextBlock;
      f := Split(f, b, i, n);
      nextBlock := nextBlock + 1;
    }

    method CreateBarrier(b: Block)
      requires Valid() && b in f.code
      modifies this
      ensures Valid() && f == WithBarrier(old(f), b, old(nextId)) && nextBlock == old(nextBlock)
      ensures added == old(added) + {old(nextId)} && NewBarrier(old(f), old(nextId))
    {
      hide Sound;
      SoundBarrier(original, f, added, nextBlock, nextId, b);
      NextIsNew(original, f, added, nextBlock, nextId, b);
      f, added, nextId := WithBarrier(f, b, nextId), added + {nextId}, nextId + 1;
    }

    /** A barrier block on top of the function. */
    method HiveOffEntry()
      requires Valid() && (forall b :: b in f.code ==> PhisFirst(f.code[b]))
      requires f.entry in f.code && forall i :: 0 <= i < |f.code[f.entry]| ==> !f.code[f.entry][i].Phi?
      requires added == {}
      modifies this
      ensures Valid() && Ready(f) && AddedAtEnds(f, added)
    {
      hide Sound;
      if !JustABarrier(f, f.entry) {
        var n := SplitBlock(f.entry, 0);
        ghost var f1, id := f, nextId;
        CreateBarrier(f.entry);
        AddedBarrier(f1, f.entry, id, {});
      }
    }

    /** A barrier block at every exit. */
    method HiveOffExits()
      requires Valid() && Ready(f) && AddedAtEnds(f, added)
      modifies this
      ensures Valid() && Ready(f) && ExitsAlone(f, {}) && AddedAtEnds(f, added)
    {
      hide Sound, ExitsAlone, Split, WithBarrier, Ready, JustABarrier, AddedAtEnds;
      var todo := f.succ.Keys;
      NoExitsElse(f, todo);
      BlocksHaveCode(original, f, added, nextBlock, nextId);
      while todo != {}
        invariant Valid() && Ready(f) && ExitsAlone(f, todo) && AddedAtEnds(f, added)
        invariant forall b :: b in todo ==> b in f.code
        decreases todo
      {
        var b :| b in todo;
        ghost var f0 := f;
        if Exit(f, b) && !JustABarrier(f, b) {
          var last := |f.code[b]| - if EndsWithBarrier(f, b) then 1 else 0;
          var ends := EndsWithBarrier(f, b);
          var exit := SplitBlock(b, last);
          NewExit(f0, b, last, exit, todo);
          AddedSplit(f0, b, last, exit, added);
          ghost var f1, id, added1 := f, nextId, added;
          if !ends {
            CreateBarrier(exit);
            NewBarrierExit(f1, exit, id, todo - {b});
            AddedBarrier(f1, exit, id, added1);
          }
        } else {
          ExitPassed(f, b, todo);
        }
        todo := todo - {b};
      }
    }

    /** Splits behind and before the barrier, which is at position i of block b. */
    method SplitAround(b: Block, i: nat)
      requires Valid() && Processed(f) && b in f.code && i < |f.code[b]| && f.code[b][i].Barrier?
               && AddedAtEnds(f, added)
      modifies this
      ensures Valid() && Processed(f) && added == old(added) && AddedAtEnds(f, added)
      ensures Barriers(f) == Barriers(old(f)) && Alone(f, old(f).code[b][i].id)
      ensures forall id :: Alone(old(f), id) ==> Alone(f, id)
    {
      hide Sound, Processed, Split, Alone, Barriers, AddedAtEnds;
      ghost var f0 := f;
      PhisDone(f, b, i);
      if i + 1 != |f.code[b]| {
        var after := SplitBlock(b, i + 1);
        SplitAfter(f0, b, i, after);
        AddedSplit(f0, b, i + 1, after, added);
      } else {
        NothingAfter(f, b, i);
      }
      ghost var f1 := f;
      if b == f.entry && AfterPhis(f.code[b], 0) == i {
        EntryDone(f, b, i);
        return;
      }
      PhisDone(f, b, i);
      var own := SplitBlock(b, i);
      SplitBefore(f1, b, i, own);
      AddedSplit(f1, b, i, own, added);
    }

    /** Every barrier gets a block of its own, in whatever order they are taken. */
    method ProcessBarriers()
      requires Valid() && Processed(f) && AddedAtEnds(f, added)
      modifies this
      ensures Valid() && Processed(f) && added == old(added) && AddedAtEnds(f, added)
      ensures forall b, i :: b in f.code && 0 <= i < |f.code[b]| && f.code[b][i].Barrier? ==> |f.code[b]| == 1
    {
      hide Sound, Processed, Alone, AddedAtEnds;
      var barriers := Barriers(f);
      var todo := barriers;
      while todo != {}
        invariant todo <= barriers == Barriers(f) && Valid() && Processed(f) && added == old(added)
                  && AddedAtEnds(f, added)
        invariant forall id :: id in barriers && id !in todo ==> Alone(f, id)
        decreases todo
      {
        var id :| id in todo;
        var b, i :| b in f.code && 0 <= i < |f.code[b]| && f.code[b][i].Barrier? && f.code[b][i].id == id;
        SplitAround(b, i);
        todo := todo - {id};
      }
      AllAlone(original, f, added, nextBlock, nextId);
    }

    /** Afterwards every barrier is alone in its block, the entry and all exits are such blocks,
        and the function runs what it ran before, but for the barriers added at the ends. */
    method RunOnFunction()
      requires Valid() && added == {} && original == f && (forall b :: b in f.code ==> PhisFirst(f.code[b]))
      requires f.entry in f.code && forall i :: 0 <= i < |f.code[f.entry]| ==> !f.code[f.entry][i].Phi?
      modifies this
      ensures SameRuns(old(f), f, added) && AddedAtEnds(f, added)
      ensures f.entry in f.code && |f.code[f.entry]| == 1 && f.code[f.entry][0].Barrier?
      ensures forall b :: b in f.succ && f.succ[b] == [] ==> b in f.code && |f.code[b]| == 1 && f.code[b][0].Barrier?
      ensures forall b, i :: b in f.code && 0 <= i < |f.code[b]| && f.code[b][i].Barrier? ==> |f.code[b]| == 1
    {
      hide SameRuns, Named, Ready, AddedAtEnds;
      HiveOffEntry();
      HiveOffExits();
      ProcessBarriers();
      ProcessedEnds(f);
      assert forall b :: Exit(f, b) <==> b in f.succ && f.succ[b] == [];
    }
  }

  /** What has been added stands alone in the entry or in an exit. */
  ghost predicate AddedAtEnds(f: Fn, added: set<nat>) {
    forall b, i :: Holds(f, b, i) && f.code[b][i].Barrier? && f.code[b][i].id in added ==>
      |f.code[b]| == 1 && (b == f.entry || Exit(f, b))
  }

  lemma AddedSplit(f: Fn, b: Block, i: nat, n: Block, added: set<nat>)
    requires AddedAtEnds(f, added) && CanSplit(f, b, i, n) && b != f.entry && (JustABarrier(f, b) ==> i == 0)
    ensures AddedAtEnds(Split(f, b, i, n), added)
  {
    var h := Split(f, b, i, n);
    forall c, j | Holds(h, c, j) && h.code[c][j].Barrier? && h.code[c][j].id in added
      ensures |h.code[c]| == 1 && (c == h.entry || Exit(h, c))
    {
      SplitFrom(f, b, i, n, c, j);
    }
  }

  lemma AddedBarrier(f: Fn, b: Block, id: nat, added: set<nat>)
    requires AddedAtEnds(f, added) && b in f.code && f.code[b] == [] && (b == f.entry || Exit(f, b))
             && NewBarrier(f, id)
    ensures AddedAtEnds(WithBarrier(f, b, id), added + {id})
  {
    var h := WithBarrier(f, b, id);
    forall c, j | Holds(h, c, j) && h.code[c][j].Barrier? && h.code[c][j].id in added + {id}
      ensures |h.code[c]| == 1 && (c == h.entry || Exit(h, c))
    {
      BarrierFrom(f, b, id, c, j);
      if c != b {
        assert f.code[c][j] == h.code[c][j];
      }
    }
  }

  /** Entry and exits have been hived off. */
  ghost predicate Processed(f: Fn) {
    Ready(f) && ExitsAlone(f, {})
  }

  lemma ProcessedEnds(f: Fn)
    requires Processed(f)
    ensures JustABarrier(f, f.entry) && forall b :: Exit(f, b) ==> JustABarrier(f, b)
  {
  }

  lemma ReadySplit(f: Fn, b: Block, i: nat, n: Block)
    requires Ready(f) && CanSplit(f, b, i, n) && b != f.entry
    ensures Ready(Split(f, b, i, n))
  {
    var h := Split(f, b, i, n);
    forall c | c in h.code
      ensures PhisFirst(h.code[c])
    {
      if c != n && c != b {
        assert h.code[c] == f.code[c];
      }
      assert PhisFirst(f.code[b]);
    }
  }

  lemma ReadyBarrier(f: Fn, b: Block, id: nat)
    requires Ready(f) && b in f.code && b != f.entry
    ensures Ready(WithBarrier(f, b, id))
  {
    var h := WithBarrier(f, b, id);
    forall c | c in h.code
      ensures PhisFirst(h.code[c])
    {
      assert PhisFirst(f.code[c]);
    }
  }

  /** Splitting off the end of an exit block. */
  lemma NewExit(f: Fn, b: Block, last: nat, n: Block, todo: set<Block>)
    requires Ready(f) && ExitsAlone(f, todo) && Exit(f, b) && !JustABarrier(f, b) && b in f.code
    requires last <= |f.code[b]| && (last < |f.code[b]| ==> last + 1 == |f.code[b]| && f.code[b][last].Barrier?)
    requires CanSplit(f, b, AfterPhis(f.code[b], last), n) && b in todo
    ensures AfterPhis(f.code[b], last) == last && b != f.entry
    ensures var h := Split(f, b, last, n);
            && Ready(h) && n in h.code && n != h.entry && n !in f.code && ExitsAlone(h, todo - {b} + {n})
            && (last < |f.code[b]| ==> ExitsAlone(h, todo - {b}))
            && h.code[n] == f.code[b][last..] && Exit(h, n)
            && forall c :: c in f.code ==> c in h.code
  {
    ReadySplit(f, b, last, n);
  }

  lemma NewBarrierExit(f: Fn, n: Block, id: nat, todo: set<Block>)
    requires Ready(f) && n in f.code && n != f.entry && f.code[n] == [] && ExitsAlone(f, todo + {n})
    ensures Ready(WithBarrier(f, n, id)) && ExitsAlone(WithBarrier(f, n, id), todo)
    ensures WithBarrier(f, n, id).code.Keys == f.code.Keys
  {
    ReadyBarrier(f, n, id);
    assert [] + [Barrier(id)] == [Barrier(id)];
    forall c | Exit(WithBarrier(f, n, id), c) && c !in todo
      ensures JustABarrier(WithBarrier(f, n, id), c)
    {
      assert Exit(f, c);
    }
  }

  lemma PhisDone(f: Fn, b: Block, i: nat)
    requires Processed(f) && b in f.code && i < |f.code[b]| && f.code[b][i].Barrier?
    ensures AfterPhis(f.code[b], i) == i && AfterPhis(f.code[b], i + 1) == i + 1
    ensures b == f.entry ==> i == 0 && |f.code[b]| == 1
  {
    assert PhisFirst(f.code[b]);
  }

  lemma BarriersOfSplit(f: Fn, b: Block, i: nat, n: Block)
    requires CanSplit(f, b, i, n)
    ensures Barriers(Split(f, b, i, n)) == Barriers(f)
  {
    var h := Split(f, b, i, n);
    forall id | id in Barriers(f)
      ensures id in Barriers(h)
    {
      var c, j :| c in f.code && 0 <= j < |f.code[c]| && f.code[c][j].Barrier? && f.code[c][j].id == id;
      if c == b && j >= i {
        assert h.code[n][j - i] == f.code[c][j];
      } else {
        assert h.code[c][j] == f.code[c][j];
      }
    }
    forall id | id in Barriers(h)
      ensures id in Barriers(f)
    {
      var c, j :| c in h.code && 0 <= j < |h.code[c]| && h.code[c][j].Barrier? && h.code[c][j].id == id;
      SplitFrom(f, b, i, n, c, j);
    }
  }

  /** A split at a barrier that is not alone leaves those that are. */
  lemma AloneStays(f: Fn, b: Block, i: nat, n: Block, id: nat)
    requires CanSplit(f, b, i, n) && Alone(f, id) && (f.code[b] == [Barrier(id)] ==> i == 0)
    ensures Alone(Split(f, b, i, n), id)
  {
    var h := Split(f, b, i, n);
    var c :| c in f.code && f.code[c] == [Barrier(id)];
    if c == b {
      assert h.code[n] == [Barrier(id)];
    } else {
      assert h.code[c] == [Barrier(id)];
    }
  }

  lemma ProcessedSplit(f: Fn, b: Block, i: nat, n: Block)
    requires Processed(f) && CanSplit(f, b, i, n) && b != f.entry && (Exit(f, b) ==> i == 0)
    ensures Processed(Split(f, b, i, n))
  {
    ReadySplit(f, b, i, n);
    var h := Split(f, b, i, n);
    forall c | Exit(h, c)
      ensures JustABarrier(h, c)
    {
      if c == n {
        assert Exit(f, b) && h.code[n] == f.code[b];
      } else {
        assert Exit(f, c);
      }
    }
  }

  lemma SplitAfter(f: Fn, b: Block, i: nat, n: Block)
    requires Processed(f) && b in f.code && i + 1 < |f.code[b]| && f.code[b][i].Barrier? && CanSplit(f, b, i + 1, n)
    ensures var h := Split(f, b, i + 1, n);
            && Processed(h) && Barriers(h) == Barriers(f) && b in h.code && b != h.entry
            && |h.code[b]| == i + 1 && h.code[b][i] == f.code[b][i]
            && forall id :: Alone(f, id) ==> Alone(h, id)
  {
    hide Alone, Barriers;
    if b == f.entry || Exit(f, b) {
      ExitIsShort(f, b);
    }
    ProcessedSplit(f, b, i + 1, n);
    BarriersOfSplit(f, b, i + 1, n);
    forall id | Alone(f, id)
      ensures Alone(Split(f, b, i + 1, n), id)
    {
      AloneStays(f, b, i + 1, n, id);
    }
  }

  lemma ExitIsShort(f: Fn, b: Block)
    requires Processed(f) && (b == f.entry || Exit(f, b))
    ensures b in f.code && |f.code[b]| == 1
  {
  }

  lemma NothingAfter(f: Fn, b: Block, i: nat)
    requires b in f.code && i + 1 == |f.code[b]|
    ensures f.code[b][..i] + [f.code[b][i]] == f.code[b]
  {
  }

  lemma EntryDone(f: Fn, b: Block, i: nat)
    requires Processed(f) && b == f.entry && b in f.code && i + 1 == |f.code[b]| && f.code[b][i].Barrier?
    ensures Alone(f, f.code[b][i].id)
  {
    assert f.code[b] == [Barrier(f.code[b][i].id)];
  }

  lemma SplitBefore(f: Fn, b: Block, i: nat, n: Block)
    requires Processed(f) && b in f.code && i + 1 == |f.code[b]| && f.code[b][i].Barrier? && CanSplit(f, b, i, n)
             && b != f.entry
    ensures var h := Split(f, b, i, n);
            && Processed(h) && Barriers(h) == Barriers(f) && Alone(h, f.code[b][i].id)
            && forall id :: Alone(f, id) ==> Alone(h, id)
  {
    hide Alone, Barriers;
    if Exit(f, b) {
      ExitIsShort(f, b);
    }
    ProcessedSplit(f, b, i, n);
    BarriersOfSplit(f, b, i, n);
    NowAlone(f, b, i, n);
    forall id | Alone(f, id)
      ensures Alone(Split(f, b, i, n), id)
    {
      AloneStays(f, b, i, n, id);
    }
  }

  lemma NowAlone(f: Fn, b: Block, i: nat, n: Block)
    requires CanSplit(f, b, i, n) && i + 1 == |f.code[b]| && f.code[b][i].Barrier?
    ensures Alone(Split(f, b, i, n), f.code[b][i].id)
  {
    assert Split(f, b, i, n).code[n] == [Barrier(f.code[b][i].id)];
  }

  lemma AllAlone(f0: Fn, f: Fn, added: set<nat>, nextBlock: Block, nextId: nat)
    requires Sound(f0, f, added, nextBlock, nextId) && forall id :: id in Barriers(f) ==> Alone(f, id)
    ensures forall b, i :: b in f.code && 0 <= i < |f.code[b]| && f.code[b][i].Barrier? ==> |f.code[b]| == 1
  {
    hide SameRuns;
    forall b, i | b in f.code && 0 <= i < |f.code[b]| && f.code[b][i].Barrier?
      ensures |f.code[b]| == 1
    {
      assert f.code[b][i].id in Barriers(f);
      var c :| c in f.code && f.code[c] == [Barrier(f.code[b][i].id)];
      NamedAt(f, nextBlock, nextId, b, i, c, 0);
    }
  }

  lemma NextIsNew(f0: Fn, f: Fn, added: set<nat>, nextBlock: Block, nextId: nat, b: Block)
    requires Sound(f0, f, added, nextBlock, nextId) && b in f.code
    ensures NewBarrier(f, nextId)
  {
    hide SameRuns, Named;
    BarrierNamed(f, b, nextBlock, nextId);
  }

  lemma NoExitsElse(f: Fn, todo: set<Block>)
    requires todo == f.succ.Keys
    ensures ExitsAlone(f, todo)
  {
  }

  lemma BlocksHaveCode(f0: Fn, f: Fn, added: set<nat>, nextBlock: Block, nextId: nat)
    requires Sound(f0, f, added, nextBlock, nextId)
    ensures forall b :: b in f.succ ==> b in f.code
  {
  }

  lemma ExitPassed(f: Fn, b: Block, todo: set<Block>)
    requires ExitsAlone(f, todo) && (Exit(f, b) ==> JustABarrier(f, b))
    ensures ExitsAlone(f, todo - {b})
  {
  }
}
