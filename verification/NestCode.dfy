/** The loops of the nests as code: headers with a PHI for each induction variable, latches that
    count and branch, local ids replaced by the induction variables.

    For each region, the nest that the graph gets becomes part of the kernel, so that the graph of
    the kernel stays the one that the loop builder works on. When all regions have their loops, the
    barriers are erased. */
module NestCode {
  import opened Graphs
  import opened FlatIndex
  import opened WorkItems
  import opened Contexts
  import opened ContextPass
  import opened SharedRegisters
  import opened Coarsening
  import opened LoopNest

  /** The operations of the kernel's arithmetic that add and that compare. */
  datatype Ops = Ops(add: nat, less: nat)

  /** They are those of unsigned 32-bit words. */
  ghost predicate Calculates(k: Kernel, ops: Ops) {
    forall a: nat, b: nat :: a < WORD && b < WORD ==>
      k.alu(ops.add, [a, b]) == Add(a, b) && k.alu(ops.less, [a, b]) == if a < b then 1 else 0
  }

  // -------------------------------------------------------------------- the loops' blocks

  /** Registers of a nest, one of each for every dimension: the induction variable, the incremented
      one and the condition of the latch. */
  function Iv(base: Name, d: nat): Name {
    base + d
  }

  function Inc(base: Name, d: nat): Name {
    base + 3 + d
  }

  function Cond(base: Name, d: nat): Name {
    base + 6 + d
  }

  const REGISTERS: nat := 9

  function LoopOf(n: Nest, d: nat): Loop {
    if d == 0 then n.l0 else if d == 1 then n.l1 else n.l2
  }

  function LoopPhis(n: Nest, base: Name, b: Block): seq<Phi> {
    match KindOf(n, b)
    case Header(d) =>
      [Phi(Iv(base, d), map[LoopOf(n, d).preheader := Imm(0), LoopOf(n, d).latch := Reg(Inc(base, d))])]
    case _ => []
  }

  function LoopCode(n: Nest, ops: Ops, base: Name, b: Block): seq<Inst> {
    match KindOf(n, b)
    case Latch(d) =>
      [Compute(Inc(base, d), ops.add, [Reg(Iv(base, d)), Imm(1)]),
       Compute(Cond(base, d), ops.less, [Reg(Inc(base, d)), Imm(Get(n.sizes, d))])]
    case _ => []
  }

  function LoopTerm(n: Nest, base: Name, b: Block): Term {
    match KindOf(n, b)
    case Preheader(d) => Goto(LoopOf(n, d).header)
    case Header(d) => Goto(if d == 0 then n.r.entry else LoopOf(n, d - 1).preheader)
    case Latch(d) => Branch(Reg(Cond(base, d)), LoopOf(n, d).header, LoopOf(n, d).end)
    case End(d) => Goto(if d == 2 then n.after else LoopOf(n, d + 1).latch)
    case _ => Return
  }

  // -------------------------------------------------------------------- the other blocks

  /** A call for a local id becomes the induction variable; there is none for a dimension above 2. */
  function WithIv(ops: Ops, base: Name, x: Inst): Inst {
    match x
    case LocalId(d, dim) => if dim <= 2 then Compute(d, ops.add, [Reg(Iv(base, dim)), Imm(0)]) else x
    case _ => x
  }

  function WithIvs(ops: Ops, base: Name, code: seq<Inst>): (r: seq<Inst>)
    ensures |r| == |code| && forall i :: 0 <= i < |code| ==> r[i] == WithIv(ops, base, code[i])
  {
    seq(|code|, i requires 0 <= i < |code| => WithIv(ops, base, code[i]))
  }

  function Retarget(t: Term, from: Block, to: Block): Term {
    match t
    case Goto(b) => Goto(if b == from then to else b)
    case Branch(c, yes, no) => Branch(c, if yes == from then to else yes, if no == from then to else no)
    case Return => Return
  }

  /** Block b led to the region's entry and now leads to the outermost preheader. */
  predicate TurnedToTop(n: Nest, b: Block) {
    b !in LoopBlocks(n) && b in n.g.succ && n.l2.preheader in n.g.succ[b]
  }

  function NestTerm(n: Nest, b: Block, t: Term): Term {
    if b == n.r.exit || b == n.r.entry then Retarget(t, n.after, n.l0.latch)
    else if b in n.r.blocks || !TurnedToTop(n, b) then t
    else Retarget(t, n.r.entry, n.l2.preheader)
  }

  /** What a PHI of the entry received from redirected blocks it receives from the innermost header. */
  ghost predicate PhiMoved(n: Nest, p: Phi, p': Phi) {
    && p'.dst == p.dst
    && (forall f :: f != n.l0.header ==>
          (f in p'.incoming <==> f in p.incoming && !TurnedToTop(n, f))
          && (f in p'.incoming ==> p'.incoming[f] == p.incoming[f]))
    && (forall f :: f in p.incoming && TurnedToTop(n, f) ==> n.l0.header in p'.incoming)
    && (n.l0.header in p'.incoming ==> FromTurned(n, p, p'.incoming[n.l0.header]))
  }

  ghost predicate FromTurned(n: Nest, p: Phi, o: Operand) {
    exists f :: f in p.incoming && TurnedToTop(n, f) && p.incoming[f] == o
  }

  ghost predicate PhisMoved(n: Nest, ps: seq<Phi>, ps': seq<Phi>) {
    |ps'| == |ps| && forall q :: 0 <= q < |ps| ==> PhiMoved(n, ps[q], ps'[q])
  }

  /** Kernel k' is k with nest n, whose registers start at `base`. */
  ghost predicate HasNest(k: Kernel, k': Kernel, n: Nest, ops: Ops, base: Name) {
    && k'.entry == k.entry && k'.alu == k.alu && k'.ids == k.ids && Blocks(k') == Blocks(k) + LoopBlocks(n)
    && (forall b :: b in LoopBlocks(n) ==> IsLoopBlock(k', n, ops, base, b))
    && (forall b :: b !in LoopBlocks(n) ==> IsOldBlock(k, k', n, ops, base, b))
  }

  ghost predicate IsLoopBlock(k': Kernel, n: Nest, ops: Ops, base: Name, b: Block) {
    && Phis(k', b) == LoopPhis(n, base, b) && Code(k', b) == LoopCode(n, ops, base, b)
    && Terminator(k', b) == LoopTerm(n, base, b)
  }

  ghost predicate IsOldBlock(k: Kernel, k': Kernel, n: Nest, ops: Ops, base: Name, b: Block) {
    && (if b == n.r.entry then PhisMoved(n, Phis(k, b), Phis(k', b)) else Phis(k', b) == Phis(k, b))
    && Code(k', b) == (if b in n.r.blocks then WithIvs(ops, base, Code(k, b)) else Code(k, b))
    && Terminator(k', b) == NestTerm(n, b, Terminator(k, b))
  }

  // ------------------------------------------------------------------ its graph is the nest's

  lemma RetargetedSuccessors(t: Term, from: Block, to: Block)
    ensures Successors(Retarget(t, from, to)) == Replaced(Successors(t), from, to)
  {
  }

  lemma OldSuccessors(k: Kernel, n: Nest, b: Block)
    requires NestOf(Cfg(k), n) && b in Blocks(k)
    ensures b in n.g.succ && Successors(NestTerm(n, b, Terminator(k, b))) == n.g.succ[b]
  {
    hide Dominates, Connected, KindOf, LoopBlocks, Replaced, RegionOk;
    var t, g := Terminator(k, b), Cfg(k);
    NestFacts(g, n);
    RetargetedSuccessors(t, n.after, n.l0.latch);
    RetargetedSuccessors(t, n.r.entry, n.l2.preheader);
    assert g.succ[b] == Successors(t);
    if b !in n.r.blocks {
      assert n.l2.preheader !in g.succ[b] by {
        if i :| 0 <= i < |g.succ[b]| && g.succ[b][i] == n.l2.preheader {
          SuccessorIn(g, b);
        }
      }
      if n.l2.preheader !in Replaced(g.succ[b], n.r.entry, n.l2.preheader) {
        NotReplaced(g.succ[b], n.r.entry, n.l2.preheader);
      }
    }
  }

  lemma NotReplaced(s: seq<Block>, from: Block, to: Block)
    requires to !in Replaced(s, from, to)
    ensures Replaced(s, from, to) == s
  {
    forall i | 0 <= i < |s|
      ensures s[i] != from
    {
      assert Replaced(s, from, to)[i] in Replaced(s, from, to);
    }
  }

  lemma NestFacts(g: Graph, n: Nest)
    requires NestOf(g, n)
    ensures Valid(g) && RegionOk(g, n.r) && Connected(n) && n.g.succ.Keys == g.succ.Keys + LoopBlocks(n)
    ensures LoopBlocks(n) !! g.succ.Keys && n.l0.latch in LoopBlocks(n) && n.l2.preheader in LoopBlocks(n)
    ensures n.l0.header in LoopBlocks(n)
    ensures n.r.entry in n.r.blocks && n.r.exit in n.r.blocks && n.r.blocks <= g.succ.Keys && n.after in g.succ
            && n.after !in n.r.blocks
    ensures n.g.entry == g.entry && |g.succ[n.r.exit]| == 1 && n.after == g.succ[n.r.exit][0]
  {
    hide Dominates, Connected;
  }

  lemma NestSuccessors(n: Nest, base: Name, b: Block)
    requires Connected(n) && b in LoopBlocks(n)
    ensures b in n.g.succ && Successors(LoopTerm(n, base, b)) == n.g.succ[b]
  {
    hide Connected;
    Kinds(n);
    LoopSuccessors(n);
  }

  lemma LoopSuccessors(n: Nest)
    requires Connected(n)
    ensures LoopBlocks(n) <= n.g.succ.Keys
    ensures var succ := n.g.succ;
            && succ[n.l2.preheader] == [n.l2.header] && succ[n.l2.header] == [n.l1.preheader]
            && succ[n.l1.preheader] == [n.l1.header] && succ[n.l1.header] == [n.l0.preheader]
            && succ[n.l0.preheader] == [n.l0.header] && succ[n.l0.header] == [n.r.entry]
            && succ[n.l0.latch] == [n.l0.header, n.l0.end] && succ[n.l0.end] == [n.l1.latch]
            && succ[n.l1.latch] == [n.l1.header, n.l1.end] && succ[n.l1.end] == [n.l2.latch]
            && succ[n.l2.latch] == [n.l2.header, n.l2.end] && succ[n.l2.end] == [n.after]
  {
  }

  lemma BlockSuccessors(k: Kernel, k': Kernel, n: Nest, ops: Ops, base: Name, b: Block)
    requires NestOf(Cfg(k), n) && HasNest(k, k', n, ops, base) && b in Blocks(k')
    ensures b in n.g.succ && Successors(Terminator(k', b)) == n.g.succ[b]
  {
    hide NestOf, LoopTerm, NestTerm, LoopBlocks, Connected, PhisMoved, RegionOk, Valid, Cfg;
    NestFacts(Cfg(k), n);
    if b in LoopBlocks(n) {
      assert IsLoopBlock(k', n, ops, base, b);
      NestSuccessors(n, base, b);
    } else {
      assert IsOldBlock(k, k', n, ops, base, b);
      OldSuccessors(k, n, b);
    }
  }

  lemma SameBlocks(k: Kernel, k': Kernel, n: Nest, ops: Ops, base: Name)
    requires NestOf(Cfg(k), n) && HasNest(k, k', n, ops, base)
    ensures Blocks(k') == n.g.succ.Keys && k'.entry == n.g.entry
  {
    hide Connected, RegionOk, Valid, IsLoopBlock, IsOldBlock, LoopBlocks, Blocks;
    CfgKeys(k);
  }

  lemma CfgKeys(k: Kernel)
    ensures Cfg(k).succ.Keys == Blocks(k) && Cfg(k).entry == k.entry
    ensures forall b :: b in Blocks(k) ==> Cfg(k).succ[b] == Successors(Terminator(k, b))
  {
  }

  /** The graph of the kernel with the nest is the graph of the nest. */
  lemma NestIsCfg(k: Kernel, k': Kernel, n: Nest, ops: Ops, base: Name)
    requires NestOf(Cfg(k), n) && HasNest(k, k', n, ops, base)
    ensures Cfg(k') == n.g
  {
    hide NestOf, HasNest, Cfg, Blocks, Terminator;
    SameBlocks(k, k', n, ops, base);
    CfgKeys(k');
    forall b | b in Blocks(k')
      ensures Cfg(k').succ[b] == n.g.succ[b]
    {
      BlockSuccessors(k, k', n, ops, base, b);
    }
    assert Cfg(k').succ == n.g.succ;
  }

  // ------------------------------------------------------------------- one nest and the others

  /** Two regions apart, neither leading to the other but through what lies between. */
  ghost predicate Apart(g: Graph, n: Nest, r: ParallelRegion) {
    && NestOf(g, n) && RegionOk(g, r) && (forall b :: b in r.blocks ==> b !in n.r.blocks)
    && n.after !in r.blocks && g.succ[r.exit][0] !in n.r.blocks
  }

  /** The other region's blocks lead where they led. */
  lemma OthersLead(g: Graph, n: Nest, r: ParallelRegion, b: Block)
    requires Apart(g, n, r) && b in r.blocks
    ensures b in g.succ && b in n.g.succ && b !in LoopBlocks(n) && n.g.succ[b] == g.succ[b]
  {
    hide Dominates, Connected, Valid, LoopBlocks;
    NestFacts(g, n);
    assert n.r.entry !in g.succ[b];
    assert Replaced(g.succ[b], n.r.entry, n.l2.preheader) == g.succ[b];
  }

  /** What leads to the other region led to it before. */
  lemma OthersEntered(g: Graph, n: Nest, r: ParallelRegion, b: Block, s: Block)
    requires Apart(g, n, r) && b in n.g.succ && s in n.g.succ[b] && s in r.blocks
    ensures b in g.succ && s in g.succ[b] && b !in LoopBlocks(n) && b !in n.r.blocks
  {
    hide Dominates, Valid, LoopBlocks, Connected;
    NestFacts(g, n);
    if b in LoopBlocks(n) {
      LoopsLeadTo(g, n, b, s);
    } else if b in n.r.blocks {
      RegionLeads(n, b, s);
    } else {
      var i :| 0 <= i < |n.g.succ[b]| && n.g.succ[b][i] == s;
      assert g.succ[b][i] == s;
    }
  }

  lemma LoopsLeadTo(g: Graph, n: Nest, b: Block, s: Block)
    requires Connected(n) && b in LoopBlocks(n) && b in n.g.succ && s in n.g.succ[b]
    ensures s in LoopBlocks(n) || s == n.r.entry || s == n.after
  {
    hide Connected, LoopBlocks;
    assert (b, s) in Edges(n.g);
    LoopsLead(n, b, s);
  }

  lemma RegionLeads(n: Nest, b: Block, s: Block)
    requires Connected(n) && b in n.r.blocks && b in n.g.succ && s in n.g.succ[b]
    ensures s in n.r.blocks || s == n.l0.latch
  {
  }

  /** In graph h the region's blocks lead where they led in g, and nothing new leads to them. */
  ghost predicate KeptIn(g: Graph, h: Graph, r: ParallelRegion) {
    && h.entry == g.entry
    && (forall b :: b in r.blocks ==> b in g.succ && b in h.succ && h.succ[b] == g.succ[b])
    && (forall b, s :: b in h.succ && s in h.succ[b] && s in r.blocks ==> b in g.succ && s in g.succ[b])
  }

  lemma KeptIsOk(g: Graph, h: Graph, r: ParallelRegion)
    requires RegionOk(g, r) && KeptIn(g, h, r)
    ensures RegionOk(h, r) && h.succ[r.exit] == g.succ[r.exit]
  {
  }

  lemma OthersKept(g: Graph, n: Nest, r: ParallelRegion)
    requires Apart(g, n, r)
    ensures KeptIn(g, n.g, r)
  {
    hide Apart, NestOf, LoopBlocks, RegionOk, Connected, Valid;
    ApartFacts(g, n, r);
    NestFacts(g, n);
    forall b | b in r.blocks
      ensures b in g.succ && b in n.g.succ && n.g.succ[b] == g.succ[b]
    {
      OthersLead(g, n, r, b);
    }
    forall b, s | b in n.g.succ && s in n.g.succ[b] && s in r.blocks
      ensures b in g.succ && s in g.succ[b]
    {
      OthersEntered(g, n, r, b, s);
    }
  }

  lemma StaysUndominated(g: Graph, n: Nest, r: ParallelRegion)
    requires Apart(g, n, r) && !DominatedOutside(g, r)
    ensures !DominatedOutside(n.g, r)
  {
    hide Apart, NestOf, LoopBlocks, Reachable, Dominates;
    ApartFacts(g, n, r);
    if p :|
      p in n.g.succ && p !in r.blocks && r.entry in n.g.succ[p] && Reachable(n.g, p) && Dominates(n.g, r.entry, p)
    {
      OthersEntered(g, n, r, p, r.entry);
      ReachedBefore(g, n, p);
      OthersLead(g, n, r, r.entry);
      ReachedStill(g, n, r.entry, p);
    }
  }

  lemma ApartFacts(g: Graph, n: Nest, r: ParallelRegion)
    requires Apart(g, n, r)
    ensures NestOf(g, n) && RegionOk(g, r) && r.entry in r.blocks && r.exit in r.blocks && r.exit in g.succ
            && |g.succ[r.exit]| == 1
  {
  }

  // ---------------------------------------------------------- what is asked of kernel and regions

  /** What the entry's PHIs receive from outside does not depend on the edge. */
  ghost predicate SamePhis(k: Kernel, r: ParallelRegion) {
    forall q, f, f' :: 0 <= q < |Phis(k, r.entry)| && EntersFrom(k, r, f) && EntersFrom(k, r, f') ==>
      IncomingOf(Phis(k, r.entry)[q], f) == IncomingOf(Phis(k, r.entry)[q], f')
  }

  /** The one block behind the region. */
  ghost function Behind(g: Graph, r: ParallelRegion): Block
    requires RegionOk(g, r)
  {
    g.succ[r.exit][0]
  }

  /** A region in front of a barrier: no block outside that can be reached and leads to its entry
      is dominated by the entry. */
  ghost predicate RegionReady(k: Kernel, pr: seq<ParallelRegion>, r: ParallelRegion) {
    var g := Cfg(k);
    && RegionOk(g, r) && !DominatedOutside(g, r) && k.entry !in r.blocks && SamePhis(k, r)
    && BarrierBlock(k, Behind(g, r)) && !InRegion(pr, Behind(g, r))
  }

  ghost predicate Ready(k: Kernel, pr: seq<ParallelRegion>, next: Name) {
    && Valid(Cfg(k)) && Disjoint(pr) && Below(k, next)
    && forall i :: 0 <= i < |pr| ==> RegionReady(k, pr, pr[i])
  }

  lemma ReadyFacts(k: Kernel, pr: seq<ParallelRegion>, next: Name, i: nat)
    requires Ready(k, pr, next) && i < |pr|
    ensures Valid(Cfg(k)) && Disjoint(pr) && Below(k, next) && RegionReady(k, pr, pr[i])
    ensures var g, r := Cfg(k), pr[i];
            && RegionOk(g, r) && !DominatedOutside(g, r) && k.entry !in r.blocks && SamePhis(k, r)
            && BarrierBlock(k, Behind(g, r)) && !InRegion(pr, Behind(g, r))
            && r.entry in r.blocks && r.exit in r.blocks && r.blocks <= g.succ.Keys && r.exit in g.succ
               && |g.succ[r.exit]| == 1
  {
    hide DominatedOutside, SamePhis, Valid, Disjoint, Below, InRegion, BarrierBlock, Cfg;
  }

  lemma RestApart(k: Kernel, pr: seq<ParallelRegion>, next: Name, n: Nest, i: nat)
    requires Ready(k, pr, next) && 0 < i < |pr| && n.r == pr[0] && NestOf(Cfg(k), n)
    ensures Apart(Cfg(k), n, pr[i])
  {
    hide Ready, NestOf, RegionOk, Valid, DominatedOutside, SamePhis, Below, BarrierBlock, LoopBlocks, Cfg;
    ReadyFacts(k, pr, next, i);
    ReadyFacts(k, pr, next, 0);
    NestFacts(Cfg(k), n);
  }

  lemma NestValid(g: Graph, n: Nest)
    requires NestOf(g, n)
    ensures Valid(n.g)
  {
    hide NestOf, Connected, RegionOk, LoopBlocks;
    NestFacts(g, n);
    forall b, i | b in n.g.succ && 0 <= i < |n.g.succ[b]|
      ensures n.g.succ[b][i] in n.g.succ
    {
      assert (b, n.g.succ[b][i]) in Edges(n.g);
      StaysKnown(g, n, b, n.g.succ[b][i]);
    }
  }

  // new names only

  lemma WithIvMentions(ops: Ops, base: Name, x: Inst, r: Name)
    requires r >= base + REGISTERS && !Defines(x, r) && !UsedBy(r, x)
    ensures !Defines(WithIv(ops, base, x), r) && !UsedBy(r, WithIv(ops, base, x))
  {
  }

  lemma LoopMentions(n: Nest, ops: Ops, base: Name, b: Block, r: Name)
    requires r >= base + REGISTERS && Connected(n) && b in LoopBlocks(n)
    ensures forall i :: 0 <= i < |LoopCode(n, ops, base, b)| ==>
              !Defines(LoopCode(n, ops, base, b)[i], r) && !UsedBy(r, LoopCode(n, ops, base, b)[i])
    ensures !UsedByTerm(r, LoopTerm(n, base, b))
    ensures forall q :: 0 <= q < |LoopPhis(n, base, b)| ==>
              LoopPhis(n, base, b)[q].dst != r && !UsedByPhi(r, LoopPhis(n, base, b)[q])
  {
    hide Connected;
    Kinds(n);
  }

  lemma MovedMentions(n: Nest, p: Phi, p': Phi, r: Name)
    requires PhiMoved(n, p, p') && p.dst != r && !UsedByPhi(r, p)
    ensures p'.dst != r && !UsedByPhi(r, p')
  {
    hide TurnedToTop;
    forall f | f in p'.incoming
      ensures p'.incoming[f] != Reg(r)
    {
      if f == n.l0.header {
        var o :| o in p.incoming && TurnedToTop(n, o) && p.incoming[o] == p'.incoming[f];
      }
    }
  }

  lemma NewNamesOnly(k: Kernel, k': Kernel, n: Nest, ops: Ops, base: Name, r: Name)
    requires HasNest(k, k', n, ops, base) && Connected(n) && Unmentioned(k, r) && r >= base + REGISTERS
    ensures Unmentioned(k', r)
  {
    hide Connected, LoopBlocks, LoopCode, LoopPhis, LoopTerm, WithIv, UsedByPhi, UsedBy, Defines, PhiMoved, TurnedToTop;
    hide HasNest, Phis, Code, Terminator, REGISTERS;
    forall b
      ensures forall i :: 0 <= i < |Code(k', b)| ==> !Defines(Code(k', b)[i], r) && !UsedBy(r, Code(k', b)[i])
      ensures !UsedByTerm(r, Terminator(k', b))
      ensures forall q :: 0 <= q < |Phis(k', b)| ==> Phis(k', b)[q].dst != r && !UsedByPhi(r, Phis(k', b)[q])
    {
      HasNestAt(k, k', n, ops, base, b);
      if b in LoopBlocks(n) {
        LoopMentions(n, ops, base, b, r);
      } else {
        OldMentions(k, k', n, ops, base, b, r);
      }
    }
  }

  lemma HasNestAt(k: Kernel, k': Kernel, n: Nest, ops: Ops, base: Name, b: Block)
    requires HasNest(k, k', n, ops, base)
    ensures b in LoopBlocks(n) ==> IsLoopBlock(k', n, ops, base, b)
    ensures b !in LoopBlocks(n) ==> IsOldBlock(k, k', n, ops, base, b)
  {
    hide LoopBlocks, IsLoopBlock, IsOldBlock;
  }

  lemma OldMentions(k: Kernel, k': Kernel, n: Nest, ops: Ops, base: Name, b: Block, r: Name)
    requires IsOldBlock(k, k', n, ops, base, b) && Unmentioned(k, r) && r >= base + REGISTERS
    ensures forall i :: 0 <= i < |Code(k', b)| ==> !Defines(Code(k', b)[i], r) && !UsedBy(r, Code(k', b)[i])
    ensures !UsedByTerm(r, Terminator(k', b))
    ensures forall q :: 0 <= q < |Phis(k', b)| ==> Phis(k', b)[q].dst != r && !UsedByPhi(r, Phis(k', b)[q])
  {
    hide WithIv, UsedByPhi, UsedBy, Defines, PhiMoved, TurnedToTop, Phis, Code, Terminator, REGISTERS;
    forall i | 0 <= i < |Code(k', b)|
      ensures !Defines(Code(k', b)[i], r) && !UsedBy(r, Code(k', b)[i])
    {
      WithIvMentions(ops, base, Code(k, b)[i], r);
    }
    forall q | 0 <= q < |Phis(k', b)|
      ensures Phis(k', b)[q].dst != r && !UsedByPhi(r, Phis(k', b)[q])
    {
      if b == n.r.entry {
        MovedMentions(n, Phis(k, b)[q], Phis(k', b)[q], r);
      }
    }
  }

  // the regions that are still to get their loops

  lemma OutsideAsBefore(k: Kernel, k': Kernel, n: Nest, ops: Ops, base: Name, b: Block)
    requires HasNest(k, k', n, ops, base) && b !in n.r.blocks && b !in LoopBlocks(n) && n.r.entry in n.r.blocks
    ensures Phis(k', b) == Phis(k, b) && Code(k', b) == Code(k, b)
  {
    hide LoopBlocks;
    HasNestAt(k, k', n, ops, base, b);
  }

  lemma RegionAsBefore(k: Kernel, k': Kernel, n: Nest, ops: Ops, base: Name, r: ParallelRegion)
    requires HasNest(k, k', n, ops, base) && Apart(Cfg(k), n, r)
    ensures SamePhis(k, r) ==> SamePhis(k', r)
  {
    hide HasNest, NestOf, Connected, RegionOk, LoopBlocks, Valid, Cfg, Phis, Code;
    NestFacts(Cfg(k), n);
    ApartFacts(Cfg(k), n, r);
    NestIsCfg(k, k', n, ops, base);
    OthersKept(Cfg(k), n, r);
    forall b | b in r.blocks
      ensures Phis(k', b) == Phis(k, b) && Code(k', b) == Code(k, b)
    {
      OthersLead(Cfg(k), n, r, b);
      OutsideAsBefore(k, k', n, ops, base, b);
    }
    forall f: Block | EntersFrom(k', r, f)
      ensures EntersFrom(k, r, f)
    {
      assert (f, r.entry) in Edges(n.g);
    }
  }

  lemma RegionReadyStays(k: Kernel, k': Kernel, n: Nest, ops: Ops, base: Name, pr: seq<ParallelRegion>, i: nat)
    requires Ready(k, pr, base) && 0 < i < |pr| && n.r == pr[0] && NestOf(Cfg(k), n) && HasNest(k, k', n, ops, base)
    ensures RegionReady(k', pr[1..], pr[i])
  {
    hide Ready, NestOf, HasNest, RegionOk, Valid, DominatedOutside, SamePhis, Below, BarrierBlock, LoopBlocks, Cfg;
    hide Disjoint, Connected, Apart;
    var g, r := Cfg(k), pr[i];
    ReadyFacts(k, pr, base, i);
    ReadyFacts(k, pr, base, 0);
    RestApart(k, pr, base, n, i);
    NestFacts(g, n);
    NestIsCfg(k, k', n, ops, base);
    OthersKept(g, n, r);
    KeptIsOk(g, n.g, r);
    StaysUndominated(g, n, r);
    RegionAsBefore(k, k', n, ops, base, r);
    SuccessorIn(g, r.exit);
    InRest(pr, Behind(g, r));
    BarrierStays(k, k', n, ops, base, Behind(g, r));
    SameStart(k, k', n, ops, base);
  }

  lemma SameStart(k: Kernel, k': Kernel, n: Nest, ops: Ops, base: Name)
    requires HasNest(k, k', n, ops, base)
    ensures k'.entry == k.entry && k'.alu == k.alu && k'.ids == k.ids
  {
  }

  lemma InRest(pr: seq<ParallelRegion>, b: Block)
    requires pr != []
    ensures InRegion(pr, b) <==> b in pr[0].blocks || InRegion(pr[1..], b)
  {
    var rest := pr[1..];
    if i :| 0 <= i < |pr| && b in pr[i].blocks {
      assert i > 0 ==> rest[i - 1] == pr[i];
    }
    if j :| 0 <= j < |rest| && b in rest[j].blocks {
      assert pr[j + 1] == rest[j];
    }
  }

  lemma BarrierStays(k: Kernel, k': Kernel, n: Nest, ops: Ops, base: Name, b: Block)
    requires HasNest(k, k', n, ops, base) && b !in n.r.blocks && b !in LoopBlocks(n) && n.r.entry in n.r.blocks
    ensures BarrierBlock(k', b) <==> BarrierBlock(k, b)
  {
    hide HasNest, LoopBlocks, Phis, Code;
    OutsideAsBefore(k, k', n, ops, base, b);
  }

  /** With the first region's nest, the kernel is as fit for the nests of the others. */
  lemma ReadyStays(k: Kernel, k': Kernel, n: Nest, ops: Ops, base: Name, pr: seq<ParallelRegion>)
    requires pr != [] && Ready(k, pr, base) && n.r == pr[0] && NestOf(Cfg(k), n) && HasNest(k, k', n, ops, base)
    ensures Ready(k', pr[1..], base + REGISTERS)
  {
    hide NestOf, HasNest, RegionOk, Valid, RegionReady, Unmentioned, LoopBlocks, Cfg, Connected, REGISTERS;
    NestFacts(Cfg(k), n);
    NestIsCfg(k, k', n, ops, base);
    NestValid(Cfg(k), n);
    forall r: Name | r >= base + REGISTERS
      ensures Unmentioned(k', r)
    {
      NewNamesOnly(k, k', n, ops, base, r);
    }
    var rest := pr[1..];
    forall i | 0 <= i < |rest|
      ensures RegionReady(k', rest, rest[i])
    {
      RegionReadyStays(k, k', n, ops, base, pr, i + 1);
    }
    RestDisjoint(pr);
  }

  lemma RestDisjoint(pr: seq<ParallelRegion>)
    requires pr != [] && Disjoint(pr)
    ensures Disjoint(pr[1..])
  {
    var rest := pr[1..];
    assert forall i :: 0 <= i < |rest| ==> rest[i] == pr[i + 1];
  }

  // ------------------------------------------------------------------------ building them all

  /** A nest and where its registers start. */
  datatype Placed = Placed(nest: Nest, base: Name)

  ghost predicate OneNest(k: Kernel, k': Kernel, r: ParallelRegion, p: Placed, sizes: Triple, ops: Ops) {
    NestOf(Cfg(k), p.nest) && p.nest.r == r && p.nest.sizes == sizes && HasNest(k, k', p.nest, ops, p.base)
  }

  /** The kernels ks[0], ks[1], and so on: in each, one more region has its nest. */
  ghost predicate AllNested(ks: seq<Kernel>, pr: seq<ParallelRegion>, ps: seq<Placed>, sizes: Triple, ops: Ops,
                            base: Name) {
    && |ps| <= |pr| && |ks| == |ps| + 1
    && forall i :: 0 <= i < |ps| ==>
         OneNest(ks[i], ks[i + 1], pr[i], ps[i], sizes, ops) && ps[i].base == base + i * REGISTERS
  }

  function WithoutBarriers(code: seq<Inst>): (r: seq<Inst>)
    ensures forall x :: x in r <==> x in code && !x.Barrier?
  {
    if code == [] then []
    else
      var init := WithoutBarriers(code[..|code| - 1]);
      assert code == code[..|code| - 1] + [code[|code| - 1]];
      if code[|code| - 1].Barrier? then init else init + [code[|code| - 1]]
  }

  function Erased(k: Kernel): Kernel {
    k.(code := map b | b in k.code :: WithoutBarriers(k.code[b]))
  }

  /** The entries of one PHI, one after the other. */
  method MovePhi(n: Nest, p: Phi) returns (p': Phi)
    ensures PhiMoved(n, p, p')
  {
    var incoming: map<Block, Operand> := map[];
    var todo := p.incoming.Keys;
    while todo != {}
      invariant todo <= p.incoming.Keys
      invariant forall f ::
                f != n.l0.header ==> (f in incoming <==> f in p.incoming && f !in todo && !TurnedToTop(n, f))
      invariant forall f :: f != n.l0.header && f in incoming ==> incoming[f] == p.incoming[f]
      invariant forall f :: f in p.incoming && f !in todo && TurnedToTop(n, f) ==> n.l0.header in incoming
      invariant n.l0.header in incoming ==> FromTurned(n, p, incoming[n.l0.header])
      decreases todo
    {
      var f :| f in todo;
      if TurnedToTop(n, f) {
        incoming := incoming[n.l0.header := p.incoming[f]];
      } else if f != n.l0.header {
        incoming := incoming[f := p.incoming[f]];
      }
      todo := todo - {f};
    }
    p' := Phi(p.dst, incoming);
  }

  method MovePhis(n: Nest, ps: seq<Phi>) returns (ps': seq<Phi>)
    ensures PhisMoved(n, ps, ps')
  {
    hide PhiMoved;
    ps' := [];
    for q := 0 to |ps|
      invariant |ps'| == q && forall i :: 0 <= i < q ==> PhiMoved(n, ps[i], ps'[i])
    {
      var p := MovePhi(n, ps[q]);
      ps' := ps' + [p];
    }
  }

  /** Makes the nest part of the kernel. */
  method PlaceNest(k: Kernel, n: Nest, ops: Ops, base: Name) returns (k': Kernel)
    requires n.r.entry in n.r.blocks && n.r.blocks <= Blocks(k) && LoopBlocks(n) !! Blocks(k)
    ensures HasNest(k, k', n, ops, base)
  {
    hide LoopPhis, LoopCode, LoopTerm, NestTerm, PhisMoved, LoopBlocks, TurnedToTop;
    var bs, added := Blocks(k), LoopBlocks(n);
    var moved := MovePhis(n, Phis(k, n.r.entry));
    var phis := map b | b in bs + added ::
      if b in added then LoopPhis(n, base, b) else if b == n.r.entry then moved else Phis(k, b);
    var code := map b | b in bs + added ::
      if b in added then LoopCode(n, ops, base, b) else if b in n.r.blocks then WithIvs(ops, base, Code(k, b))
         else Code(k, b);
    var term := map b | b in bs + added ::
      if b in added then LoopTerm(n, base, b) else NestTerm(n, b, Terminator(k, b));
    k' := Kernel(k.entry, phis, code, term, k.alu, k.ids);
    forall b | b !in added
      ensures IsOldBlock(k, k', n, ops, base, b)
    {
      NestReturns(n, b);
    }
  }

  lemma NestReturns(n: Nest, b: Block)
    ensures NestTerm(n, b, Return) == Return
  {
  }

  method FirstFree(k: Kernel) returns (free: Block)
    ensures forall b :: b in Blocks(k) ==> b < free
  {
    hide Blocks;
    free := 0;
    var todo := Blocks(k);
    while todo != {}
      invariant forall b :: b in Blocks(k) ==> b in todo || b < free
      decreases todo
    {
      var b :| b in todo;
      if b >= free {
        free := b + 1;
      }
      todo := todo - {b};
    }
  }

  /** Builds the loops around one region after the other and then erases the barriers. */
  method InsertLoops(k: Kernel, pr: seq<ParallelRegion>, sizes: Triple, ops: Ops, base: Name)
    returns (k': Kernel, ps: seq<Placed>, ghost ks: seq<Kernel>)
    requires Ready(k, pr, base)
    ensures |ps| == |pr| && AllNested(ks, pr, ps, sizes, ops, base) && ks[0] == k && k' == Erased(ks[|pr|])
  {
    hide Ready, NestOf, HasNest, Valid, EnteredAtTop, DominatedOutside, Blocks, RegionOk, Cfg, Erased, REGISTERS;
    CfgKeys(k);
    BeginReady(k, pr, base);
    var free := FirstFree(k);
    var inserter := new LoopInserter(Cfg(k), free);
    k', ks, ps := k, [k], [];
    for i := 0 to |pr|
      invariant fresh(inserter) && inserter.Fresh() && inserter.g == Cfg(k')
      invariant |ps| == i && AllNested(ks, pr, ps, sizes, ops, base) && ks[0] == k && ks[i] == k'
      invariant Ready(k', pr[i..], base + i * REGISTERS)
    {
      var rest := pr[i..];
      ReadyFacts(k', rest, base + i * REGISTERS, 0);
      var n := inserter.BuildNest(pr[i], sizes);
      NestFits(k', n);
      var k1 := PlaceNest(k', n, ops, base + i * REGISTERS);
      NestIsCfg(k', k1, n, ops, base + i * REGISTERS);
      ReadyStays(k', k1, n, ops, base + i * REGISTERS, rest);
      assert rest[1..] == pr[i + 1..];
      NextBase(base, i);
      k', ks, ps := k1, ks + [k1], ps + [Placed(n, base + i * REGISTERS)];
    }
    assert pr[|pr|..] == [];
    k' := Erased(k');
  }

  lemma NextBase(base: Name, i: nat)
    ensures base + i * REGISTERS + REGISTERS == base + (i + 1) * REGISTERS
  {
  }

  lemma BeginReady(k: Kernel, pr: seq<ParallelRegion>, base: Name)
    requires Ready(k, pr, base)
    ensures Valid(Cfg(k)) && pr[0..] == pr && base + 0 * REGISTERS == base
  {
    hide RegionReady, Valid, Below, Disjoint, Cfg;
  }

  lemma NestFits(k: Kernel, n: Nest)
    requires NestOf(Cfg(k), n)
    ensures n.r.entry in n.r.blocks && n.r.blocks <= Blocks(k) && LoopBlocks(n) !! Blocks(k)
  {
    hide NestOf, LoopBlocks, Cfg, Blocks, Connected, RegionOk, Valid;
    NestFacts(Cfg(k), n);
    CfgKeys(k);
  }
}
