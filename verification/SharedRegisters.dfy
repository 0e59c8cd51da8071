/** One register file for all items: what the loop around a region does.

    The items of the model have registers of their own. The loop that the pass builds runs the
    same code for one item after the other on one and the same registers. In a kernel in SSA form
    that reads no other looped region's values, a visit to a region defines every register of the
    region before it reads it, so the loop leaves the memory that the items would leave, each with
    its own registers. */
module SharedRegisters {
  import opened Graphs
  import opened WorkItems
  import opened Contexts
  import opened ContextPass

  // ---------------------------------------------------------------------------- SSA form

  function Successors(t: Term): seq<Block> {
    match t
    case Goto(b) => [b]
    case Branch(_, yes, no) => [yes, no]
    case Return => []
  }

  function Cfg(k: Kernel): Graph {
    Graph(k.entry, map b | b in Blocks(k) :: Successors(Terminator(k, b)))
  }

  predicate PhiDefines(k: Kernel, x: Name, b: Block) {
    exists q :: 0 <= q < |Phis(k, b)| && Phis(k, b)[q].dst == x
  }

  ghost predicate DefBlock(k: Kernel, x: Name, b: Block) {
    DefIn(k, x, b) || PhiDefines(k, x, b)
  }

  predicate DefinedAbove(code: seq<Inst>, x: Name, i: nat) {
    exists j :: 0 <= j < i && j < |code| && Defines(code[j], x)
  }

  /** At position i of block b, x has been defined on every way there, or is never defined. */
  ghost predicate DefinedBefore(k: Kernel, x: Name, b: Block, i: nat) {
    || DefinedAbove(Code(k, b), x, i)
    || PhiDefines(k, x, b)
    || (exists d :: d != b && DefBlock(k, x, d) && Dominates(Cfg(k), d, b))
    || (forall d :: !DefBlock(k, x, d))
  }

  ghost predicate OneBlock(k: Kernel) {
    forall x, b, c :: DefBlock(k, x, b) && DefBlock(k, x, c) ==> b == c
  }

  ghost predicate InstReadsOk(k: Kernel) {
    forall b, i, x :: 0 <= i < |Code(k, b)| && UsedBy(x, Code(k, b)[i]) ==> DefinedBefore(k, x, b, i)
  }

  ghost predicate TermReadsOk(k: Kernel) {
    forall b, x :: UsedByTerm(x, Terminator(k, b)) ==> DefinedBefore(k, x, b, |Code(k, b)|)
  }

  ghost predicate PhiReadsOk(k: Kernel) {
    forall b, q, f, x :: PhiReads(k, x, b, q, f) ==> DefinedBefore(k, x, f, |Code(k, f)|)
  }

  ghost predicate Ssa(k: Kernel) {
    OneBlock(k) && InstReadsOk(k) && TermReadsOk(k) && PhiReadsOk(k)
  }

  // ------------------------------------------------------------- edits keep the SSA form

  lemma SameCfg(k: Kernel, e: Edit)
    requires EditOk(k, e) && InRange(k, e)
    ensures Edges(Cfg(Applied(k, e))) == Edges(Cfg(k)) && Cfg(Applied(k, e)).entry == Cfg(k).entry
  {
    hide EditOk, Applied;
    var g, g' := Cfg(k), Cfg(Applied(k, e));
    SameElsewhere(k, e, k.entry);
    forall u, v
      ensures u in g.succ && v in g.succ[u] <==> u in g'.succ && v in g'.succ[u]
    {
      SameElsewhere(k, e, u);
      SameTargets(k, e, u);
      if u !in Blocks(k) {
        assert Successors(Terminator(k, u)) == [];
      }
      if u !in Blocks(Applied(k, e)) {
        assert Successors(Terminator(Applied(k, e), u)) == [];
      }
    }
    assert forall p :: p in Edges(g) <==> p in Edges(g');
  }

  lemma SameTargets(k: Kernel, e: Edit, b: Block)
    requires InRange(k, e)
    ensures Successors(Terminator(Applied(k, e), b)) == Successors(Terminator(k, b))
  {
  }

  lemma SameDominance(k: Kernel, e: Edit, d: Block, b: Block)
    requires EditOk(k, e) && InRange(k, e) && Dominates(Cfg(k), d, b)
    ensures Dominates(Cfg(Applied(k, e)), d, b)
  {
    hide EditOk, Applied, WalkFromTo, Edges;
    SameCfg(k, e);
  }

  lemma PhiDefinesSame(k: Kernel, e: Edit, x: Name, b: Block)
    requires InRange(k, e)
    ensures PhiDefines(Applied(k, e), x, b) <==> PhiDefines(k, x, b)
  {
    SamePhiCount(k, e, b);
    forall q | 0 <= q < |Phis(k, b)|
      ensures Phis(Applied(k, e), b)[q].dst == Phis(k, b)[q].dst
    {
      PhiDstKept(k, e, b, q);
    }
  }

  lemma DefBlockAfter(k: Kernel, e: Edit, x: Name, b: Block)
    requires EditOk(k, e) && InRange(k, e)
    ensures DefBlock(Applied(k, e), x, b) <==> DefBlock(k, x, b) || NewDef(e, x, b)
  {
    hide EditOk, Applied, DefIn, PhiDefines;
    DefsAfter(k, e, x, b);
    PhiDefinesSame(k, e, x, b);
  }

  /** Where position i of block b has gone. */
  function Moved(k: Kernel, e: Edit, b: Block, i: nat): nat {
    if b == EditedBlock(e) && i >= EditedPos(k, e) then i + 1 else i
  }

  lemma DefinedBeforeStays(k: Kernel, e: Edit, x: Name, b: Block, i: nat)
    requires EditOk(k, e) && InRange(k, e) && DefinedBefore(k, x, b, i) && (e.ReloadFor? ==> x != e.reg)
    ensures DefinedBefore(Applied(k, e), x, b, Moved(k, e, b, i))
  {
    hide EditOk, Applied, DefBlock, PhiDefines, Dominates, EditedPos, Defines;
    var k' := Applied(k, e);
    if DefinedAbove(Code(k, b), x, i) {
      var j :| 0 <= j < i && j < |Code(k, b)| && Defines(Code(k, b)[j], x);
      var j' := ToAfter(k, e, b, j);
      if e.ReloadFor? {
        RegIsNew(k, e);
        SubstUses(Code(k, b)[j], e.value, e.reg, x);
      }
      assert Defines(Code(k', b)[j'], x);
    } else if PhiDefines(k, x, b) {
      PhiDefinesSame(k, e, x, b);
    } else if d :| d != b && DefBlock(k, x, d) && Dominates(Cfg(k), d, b) {
      DefBlockAfter(k, e, x, d);
      SameDominance(k, e, d, b);
    } else {
      forall d
        ensures !DefBlock(k', x, d)
      {
        DefBlockAfter(k, e, x, d);
      }
    }
  }

  lemma ReloadedAbove(k: Kernel, e: Edit, i: nat)
    requires EditOk(k, e) && InRange(k, e) && e.ReloadFor? && i > EditedPos(k, e)
    ensures DefinedBefore(Applied(k, e), e.reg, EditedBlock(e), i)
  {
    hide Applied, EditOk, DefBlock, PhiDefines, Dominates;
    EditInRange(k, e);
    CodeAt(k, e, EditedBlock(e), EditedPos(k, e));
    assert Defines(Code(Applied(k, e), EditedBlock(e))[EditedPos(k, e)], e.reg);
  }

  lemma OneBlockStays(k: Kernel, e: Edit)
    requires EditOk(k, e) && InRange(k, e) && OneBlock(k)
    ensures OneBlock(Applied(k, e))
  {
    hide EditOk, Applied, DefBlock;
    forall x, b, c | DefBlock(Applied(k, e), x, b) && DefBlock(Applied(k, e), x, c)
      ensures b == c
    {
      DefBlockAfter(k, e, x, b);
      DefBlockAfter(k, e, x, c);
      if e.ReloadFor? && x == e.reg {
        NotDefinedYet(k, e, b);
        NotDefinedYet(k, e, c);
      }
    }
  }

  lemma NotDefinedYet(k: Kernel, e: Edit, b: Block)
    requires EditOk(k, e) && e.ReloadFor?
    ensures !DefBlock(k, e.reg, b)
  {
    hide Saved, UserOk, UsedByPhi, UsedBy;
    RegIsNew(k, e);
    UnmentionedIsNot(k, e.reg, b, b);
  }

  lemma InstReadStays(k: Kernel, e: Edit, b: Block, i: nat, x: Name)
    requires EditOk(k, e) && InRange(k, e) && InstReadsOk(k)
    requires i < |Code(Applied(k, e), b)| && UsedBy(x, Code(Applied(k, e), b)[i])
    ensures DefinedBefore(Applied(k, e), x, b, i)
  {
    hide Applied, EditOk, DefinedBefore, Unmentioned, Saved, UserOk;
    if b == EditedBlock(e) && i == EditedPos(k, e) {
      CodeAt(k, e, b, i);
      SavedIsDefined(k, e);
    } else {
      var o := FromBefore(k, e, b, i);
      if e.ReloadFor? {
        RegIsNew(k, e);
        UnmentionedAt(k, e.reg, b, o);
        SubstUses(Code(k, b)[o], e.value, e.reg, x);
      }
      if e.ReloadFor? && x == e.reg {
        ReloadedAbove(k, e, i);
      } else {
        assert UsedBy(x, Code(k, b)[o]);
        DefinedBeforeStays(k, e, x, b, o);
      }
    }
  }

  lemma SavedIsDefined(k: Kernel, e: Edit)
    requires EditOk(k, e) && InRange(k, e) && e.SaveAfter?
    ensures DefinedBefore(Applied(k, e), e.value, EditedBlock(e), EditedPos(k, e))
  {
    hide Applied, DefBlock, PhiDefines, Dominates;
    CodeAt(k, e, e.at, e.pos);
    assert Defines(Code(Applied(k, e), e.at)[e.pos], e.value);
  }

  lemma CodeGrows(k: Kernel, e: Edit, b: Block)
    requires EditOk(k, e) && InRange(k, e)
    ensures |Code(Applied(k, e), b)| == Moved(k, e, b, |Code(k, b)|)
  {
    hide Applied, EditOk;
    EditInRange(k, e);
    CodeAt(k, e, b, 0);
  }

  lemma TermReadStays(k: Kernel, e: Edit, b: Block, x: Name)
    requires EditOk(k, e) && InRange(k, e) && TermReadsOk(k) && UsedByTerm(x, Terminator(Applied(k, e), b))
    ensures DefinedBefore(Applied(k, e), x, b, |Code(Applied(k, e), b)|)
  {
    hide DefinedBefore, Saved;
    SameElsewhere(k, e, b);
    CodeGrows(k, e, b);
    if e.ReloadFor? && x == e.reg {
      RegIsNew(k, e);
      assert !UsedByTerm(x, Terminator(k, b));
      ReloadedAbove(k, e, |Code(Applied(k, e), b)|);
    } else {
      DefinedBeforeStays(k, e, x, b, |Code(k, b)|);
    }
  }

  lemma PhiReadStays(k: Kernel, e: Edit, b: Block, q: nat, f: Block, x: Name)
    requires EditOk(k, e) && InRange(k, e) && PhiReadsOk(k) && PhiReads(Applied(k, e), x, b, q, f)
    ensures DefinedBefore(Applied(k, e), x, f, |Code(Applied(k, e), f)|)
  {
    hide DefinedBefore, Saved, PhiReads;
    CodeGrows(k, e, f);
    PhiReadsAfter(k, e, x, b, q, f);
    if PhiReads(k, x, b, q, f) {
      if e.ReloadFor? && x == e.reg {
        PhiReadsRead(k, x, b, q, f);
        NotRead(k, e, b);
      } else {
        DefinedBeforeStays(k, e, x, f, |Code(k, f)|);
      }
    } else {
      RewrittenFrom(k, e, b, q, f);
      ReloadPrecedes(k, e);
      ReloadedAbove(k, e, |Code(Applied(k, e), f)|);
    }
  }

  lemma PhiReadsRead(k: Kernel, x: Name, b: Block, q: nat, f: Block)
    requires PhiReads(k, x, b, q, f)
    ensures ReadIn(k, x, b)
  {
    assert UsedByPhi(x, Phis(k, b)[q]);
  }

  lemma NotRead(k: Kernel, e: Edit, b: Block)
    requires EditOk(k, e) && e.ReloadFor?
    ensures !ReadIn(k, e.reg, b)
  {
    hide Saved, UserOk, ReadIn, DefIn;
    RegIsNew(k, e);
    UnmentionedIsNot(k, e.reg, b, b);
  }

  /** The reload stands in the block that it was inserted into. */
  lemma ReloadPrecedes(k: Kernel, e: Edit)
    requires EditOk(k, e) && InRange(k, e)
    ensures |Code(Applied(k, e), EditedBlock(e))| > EditedPos(k, e)
  {
    EditInRange(k, e);
    CodeAt(k, e, EditedBlock(e), 0);
  }

  lemma SsaStays(k: Kernel, e: Edit)
    requires EditOk(k, e) && InRange(k, e) && Ssa(k)
    ensures Ssa(Applied(k, e))
  {
    hide EditOk, Applied, DefinedBefore, OneBlock, PhiReads, UsedBy, UsedByTerm;
    var k' := Applied(k, e);
    OneBlockStays(k, e);
    forall b, i, x | 0 <= i < |Code(k', b)| && UsedBy(x, Code(k', b)[i])
      ensures DefinedBefore(k', x, b, i)
    {
      InstReadStays(k, e, b, i, x);
    }
    forall b, x | UsedByTerm(x, Terminator(k', b))
      ensures DefinedBefore(k', x, b, |Code(k', b)|)
    {
      TermReadStays(k, e, b, x);
    }
    forall b, q: nat, f, x | PhiReads(k', x, b, q, f)
      ensures DefinedBefore(k', x, f, |Code(k', f)|)
    {
      PhiReadStays(k, e, b, q, f, x);
    }
  }

  // ------------------------------------------------------------------ visiting a region

  /** A region that gets a loop is entered at its entry only, which the kernel's entry, lying
      outside, reaches. */
  ghost predicate SingleEntry(k: Kernel, r: ParallelRegion) {
    && r.entry in r.blocks && k.entry !in r.blocks && Reachable(Cfg(k), r.entry)
    && (forall u, v :: (u, v) in Edges(Cfg(k)) && v in r.blocks && u !in r.blocks ==> v == r.entry)
    && EntryPhisOk(k, r)
  }

  ghost predicate DefinedInRegion(k: Kernel, r: ParallelRegion, x: Name) {
    exists d :: d in r.blocks && DefBlock(k, x, d)
  }

  function IncomingOf(p: Phi, from: Block): Operand {
    if from in p.incoming then p.incoming[from] else Imm(0)
  }

  /** The loop evaluates the PHIs of the entry anew in every iteration, always along the edge from
      its header: what they receive from outside must not be computed in the region itself, nor
      depend on the edge. */
  ghost predicate EntryPhisOk(k: Kernel, r: ParallelRegion) {
    && (forall x, q, f :: f !in r.blocks && PhiReads(k, x, r.entry, q, f) ==> !DefinedInRegion(k, r, x))
    && (forall q, f, f' :: 0 <= q < |Phis(k, r.entry)| && EntersFrom(k, r, f) && EntersFrom(k, r, f') ==>
          IncomingOf(Phis(k, r.entry)[q], f) == IncomingOf(Phis(k, r.entry)[q], f'))
  }

  ghost predicate EntersFrom(k: Kernel, r: ParallelRegion, f: Block) {
    f !in r.blocks && (f, r.entry) in Edges(Cfg(k))
  }

  /** The blocks of a visit, from the entry of the region to where the item stands. */
  ghost predicate Visit(k: Kernel, r: ParallelRegion, p: seq<Block>) {
    Walk(Edges(Cfg(k)), p) && p[0] == r.entry && forall i :: 0 <= i < |p| ==> p[i] in r.blocks
  }

  lemma CfgEntry(k: Kernel)
    ensures Cfg(k).entry == k.entry
  {
  }

  lemma {:induction false} FirstArrival(k: Kernel, r: ParallelRegion, p: seq<Block>) returns (q: seq<Block>)
    requires SingleEntry(k, r) && Walk(Edges(Cfg(k)), p) && p[0] == k.entry && p[|p| - 1] in r.blocks
    ensures WalkFromTo(Edges(Cfg(k)), q, k.entry, r.entry)
    ensures forall i :: 0 <= i < |q| - 1 ==> q[i] !in r.blocks
    decreases |p|
  {
    hide Edges, Reachable, Cfg;
    var init := p[..|p| - 1];
    if p[|p| - 2] in r.blocks {
      q := FirstArrival(k, r, init);
    } else if i :| 0 <= i < |init| && init[i] in r.blocks {
      WalkSplit(Edges(Cfg(k)), p, i);
      q := FirstArrival(k, r, p[..i + 1]);
    } else {
      q := p;
    }
  }

  /** A visit passes through every block of the region that dominates where it has come. */
  lemma VisitPassesDominator(k: Kernel, r: ParallelRegion, p: seq<Block>, d: Block)
    requires SingleEntry(k, r) && Visit(k, r, p) && d in r.blocks && Dominates(Cfg(k), d, p[|p| - 1])
    ensures d in p
  {
    hide Edges, Walk, Cfg;
    NonEmpty(Edges(Cfg(k)), p);
    CfgEntry(k);
    var w :| WalkFromTo(Edges(Cfg(k)), w, k.entry, r.entry);
    NonEmpty(Edges(Cfg(k)), w);
    var q := FirstArrival(k, r, w);
    NonEmpty(Edges(Cfg(k)), q);
    WalkConcat(Edges(Cfg(k)), q, p);
    assert d in q + p[1..];
    if d in q {
      var i :| 0 <= i < |q| && q[i] == d;
      assert i == |q| - 1;
    }
  }

  /** x has been defined in the course of the visit. */
  ghost predicate DefinedSoFar(k: Kernel, x: Name, p: seq<Block>, pc: nat) {
    && |p| > 0
    && (|| (exists i :: 0 <= i < |p| - 1 && DefBlock(k, x, p[i]))
        || PhiDefines(k, x, p[|p| - 1])
        || DefinedAbove(Code(k, p[|p| - 1]), x, pc))
  }

  /** What a block of the region reads has been defined in the same visit, unless it is defined
      nowhere in the region. */
  lemma ReadsAreDefined(k: Kernel, r: ParallelRegion, p: seq<Block>, x: Name, i: nat)
    requires Ssa(k) && SingleEntry(k, r) && Visit(k, r, p) && DefinedBefore(k, x, p[|p| - 1], i)
    ensures DefinedSoFar(k, x, p, i) || !DefinedInRegion(k, r, x)
  {
    hide Ssa, SingleEntry, DefBlock, PhiDefines, Dominates, DefinedAbove, Walk, Edges;
    NonEmpty(Edges(Cfg(k)), p);
    var b := p[|p| - 1];
    if DefinedInRegion(k, r, x) && !DefinedAbove(Code(k, b), x, i) && !PhiDefines(k, x, b) {
      var d' :| d' in r.blocks && DefBlock(k, x, d');
      var d :| d != b && DefBlock(k, x, d) && Dominates(Cfg(k), d, b);
      InOneBlock(k, x, d, d');
      VisitPassesDominator(k, r, p, d);
    }
  }

  lemma InOneBlock(k: Kernel, x: Name, b: Block, c: Block)
    requires Ssa(k) && DefBlock(k, x, b) && DefBlock(k, x, c)
    ensures b == c
  {
    hide DefBlock, InstReadsOk, TermReadsOk, PhiReadsOk;
  }

  /** Two register files that started a visit as `env0` and `sh0`: they agree on what the visit
      has defined, and neither has changed elsewhere. */
  ghost predicate Locked(k: Kernel, p: seq<Block>, pc: nat, env0: map<Name, int>, sh0: map<Name, int>,
                         env: map<Name, int>, sh: map<Name, int>) {
    forall x :: if DefinedSoFar(k, x, p, pc) then Value(env, Reg(x)) == Value(sh, Reg(x))
                else Value(env, Reg(x)) == Value(env0, Reg(x)) && Value(sh, Reg(x)) == Value(sh0, Reg(x))
  }

  /** The region finds what it does not define itself alike in both. */
  ghost predicate Alike(k: Kernel, r: ParallelRegion, env: map<Name, int>, sh: map<Name, int>) {
    forall x, b :: b in r.blocks && ReadIn(k, x, b) && !DefinedInRegion(k, r, x) ==>
           Value(env, Reg(x)) == Value(sh, Reg(x))
  }

  lemma NotDefinedOutside(k: Kernel, r: ParallelRegion, p: seq<Block>, x: Name, pc: nat)
    requires Visit(k, r, p) && DefinedSoFar(k, x, p, pc)
    ensures DefinedInRegion(k, r, x)
  {
    hide Walk, Edges, Cfg;
    NonEmpty(Edges(Cfg(k)), p);
    var b := p[|p| - 1];
    if DefinedAbove(Code(k, b), x, pc) {
      assert DefIn(k, x, b);
    }
  }

  /** A register that is read where the visit stands holds the same in both. */
  lemma ReadsAgree(k: Kernel, r: ParallelRegion, p: seq<Block>, x: Name, i: nat, env0: map<Name, int>,
                   sh0: map<Name, int>,
                   env: map<Name, int>, sh: map<Name, int>)
    requires Ssa(k) && SingleEntry(k, r) && Visit(k, r, p) && Alike(k, r, env0, sh0)
    requires Locked(k, p, i, env0, sh0, env, sh)
    requires DefinedBefore(k, x, p[|p| - 1], i) && exists b :: b in r.blocks && ReadIn(k, x, b)
    ensures Value(env, Reg(x)) == Value(sh, Reg(x))
  {
    hide Ssa, SingleEntry, DefinedSoFar, DefinedBefore, Visit, ReadIn, DefinedInRegion;
    ReadsAreDefined(k, r, p, x, i);
    if DefinedSoFar(k, x, p, i) {
      NotDefinedOutside(k, r, p, x, i);
    }
  }

  lemma ExecAlike(k: Kernel, id: nat, x: Inst, env: map<Name, int>, sh: map<Name, int>, m: Memory)
    requires forall n :: UsedBy(n, x) ==> Value(env, Reg(n)) == Value(sh, Reg(n))
    ensures Exec(k, id, x, env, m).1 == Exec(k, id, x, sh, m).1
    ensures forall n :: Defines(x, n) ==>
            Value(Exec(k, id, x, env, m).0, Reg(n)) == Value(Exec(k, id, x, sh, m).0, Reg(n))
    ensures forall n :: !Defines(x, n) ==>
              && Value(Exec(k, id, x, env, m).0, Reg(n)) == Value(env, Reg(n))
              && Value(Exec(k, id, x, sh, m).0, Reg(n)) == Value(sh, Reg(n))
  {
    forall o | o in Operands(x)
      ensures Value(env, o) == Value(sh, o)
    {
      if o.Reg? {
        assert UsedBy(o.name, x);
      }
    }
    match x {
      case Compute(_, _, args) => assert Values(env, args) == Values(sh, args);
      case Load(_, a) => assert a in Operands(x);
      case Store(a, v) => assert a in Operands(x) && v in Operands(x);
      case Save(_, v) => assert v in Operands(x);
      case _ =>
    }
  }

  /** One instruction keeps the two in step. */
  lemma InstLocked(k: Kernel, r: ParallelRegion, p: seq<Block>, id: nat, pc: nat, env0: map<Name, int>,
                   sh0: map<Name, int>,
                   env: map<Name, int>, sh: map<Name, int>, m: Memory)
    requires Ssa(k) && SingleEntry(k, r) && Visit(k, r, p) && Alike(k, r, env0, sh0)
    requires Locked(k, p, pc, env0, sh0, env, sh) && |p| > 0 && pc < |Code(k, p[|p| - 1])|
    ensures var x := Code(k, p[|p| - 1])[pc];
            && Exec(k, id, x, env, m).1 == Exec(k, id, x, sh, m).1
            && Locked(k, p, pc + 1, env0, sh0, Exec(k, id, x, env, m).0, Exec(k, id, x, sh, m).0)
  {
    hide Ssa, SingleEntry, Alike, Exec, Defines, Visit, DefBlock, PhiDefines, DefinedBefore;
    var b := p[|p| - 1];
    var x := Code(k, b)[pc];
    LastInRegion(k, r, p);
    forall n | UsedBy(n, x)
      ensures Value(env, Reg(n)) == Value(sh, Reg(n))
    {
      InstReadDefined(k, b, pc, n);
      ReadsAgree(k, r, p, n, pc, env0, sh0, env, sh);
    }
    ExecAlike(k, id, x, env, sh, m);
    forall n
      ensures DefinedSoFar(k, n, p, pc + 1) <==> DefinedSoFar(k, n, p, pc) || Defines(x, n)
    {
      assert DefinedAbove(Code(k, b), n, pc + 1) <==> DefinedAbove(Code(k, b), n, pc) || Defines(x, n);
    }
  }

  lemma LastInRegion(k: Kernel, r: ParallelRegion, p: seq<Block>)
    requires Visit(k, r, p)
    ensures |p| > 0 && p[|p| - 1] in r.blocks
  {
  }

  lemma InstReadDefined(k: Kernel, b: Block, i: nat, x: Name)
    requires Ssa(k) && i < |Code(k, b)| && UsedBy(x, Code(k, b)[i])
    ensures DefinedBefore(k, x, b, i) && ReadIn(k, x, b)
  {
    hide OneBlock, TermReadsOk, PhiReadsOk, DefinedBefore;
  }

  lemma {:induction false} SetPhisAgree(phis: seq<Phi>, from: Block, x: Name, before: map<Name, int>,
                                        shBefore: map<Name, int>,
                                        env: map<Name, int>, sh: map<Name, int>)
    requires forall q :: 0 <= q < |phis| ==> Incoming(phis[q], from, before) == Incoming(phis[q], from, shBefore)
    ensures var env', sh' := SetPhis(phis, from, before, env), SetPhis(phis, from, shBefore, sh);
            && (Value(env, Reg(x)) == Value(sh, Reg(x)) ==> Value(env', Reg(x)) == Value(sh', Reg(x)))
            && ((exists q :: 0 <= q < |phis| && phis[q].dst == x) ==> Value(env', Reg(x)) == Value(sh', Reg(x)))
            && (!(exists q :: 0 <= q < |phis| && phis[q].dst == x) ==>
                  Value(env', Reg(x)) == Value(env, Reg(x)) && Value(sh', Reg(x)) == Value(sh, Reg(x)))
    decreases |phis|
  {
    if phis != [] {
      var p, rest := phis[0], phis[1..];
      var env1, sh1 := env[p.dst := Incoming(p, from, before)], sh[p.dst := Incoming(p, from, shBefore)];
      assert forall q :: 0 <= q < |rest| ==> rest[q] == phis[q + 1];
      SetPhisAgree(rest, from, x, before, shBefore, env1, sh1);
      if q :| 0 <= q < |phis| && phis[q].dst == x {
        if q > 0 {
          assert rest[q - 1].dst == x;
        }
      }
    }
  }

  /** Beyond the last instruction nothing more is defined in a block. */
  lemma DefinedAtEnd(k: Kernel, x: Name, p: seq<Block>, pc: nat)
    requires |p| > 0 && pc >= |Code(k, p[|p| - 1])|
    ensures DefinedSoFar(k, x, p, pc) <==> DefinedSoFar(k, x, p, |Code(k, p[|p| - 1])|)
  {
    hide DefBlock, PhiDefines, Defines;
  }

  lemma DefinedOnEntering(k: Kernel, x: Name, p: seq<Block>, pc: nat, t: Block)
    requires |p| > 0 && pc >= |Code(k, p[|p| - 1])|
    ensures DefinedSoFar(k, x, p + [t], 0) <==> DefinedSoFar(k, x, p, pc) || PhiDefines(k, x, t)
  {
    hide PhiDefines, Defines;
    var b, p' := p[|p| - 1], p + [t];
    assert p'[|p'| - 1] == t && !DefinedAbove(Code(k, t), x, 0);
    assert DefIn(k, x, b) <==> DefinedAbove(Code(k, b), x, pc);
    if i :| 0 <= i < |p| - 1 && DefBlock(k, x, p[i]) {
      assert p'[i] == p[i];
    }
    if DefBlock(k, x, b) {
      assert p'[|p| - 1] == b;
    }
    if i :| 0 <= i < |p'| - 1 && DefBlock(k, x, p'[i]) {
      if i < |p| - 1 {
        assert p[i] == p'[i];
      }
    }
  }

  lemma TargetAlike(k: Kernel, r: ParallelRegion, p: seq<Block>, pc: nat, env0: map<Name, int>, sh0: map<Name, int>,
                    env: map<Name, int>, sh: map<Name, int>)
    requires Ssa(k) && SingleEntry(k, r) && Visit(k, r, p) && Alike(k, r, env0, sh0)
    requires |p| > 0 && pc >= |Code(k, p[|p| - 1])| && Locked(k, p, pc, env0, sh0, env, sh)
    requires !Terminator(k, p[|p| - 1]).Return?
    ensures Target(Terminator(k, p[|p| - 1]), env) == Target(Terminator(k, p[|p| - 1]), sh)
    ensures (p[|p| - 1], Target(Terminator(k, p[|p| - 1]), env)) in Edges(Cfg(k))
  {
    hide Ssa, SingleEntry, Visit, Alike, DefinedBefore, DefinedSoFar;
    var b := p[|p| - 1];
    var t := Terminator(k, b);
    LastInRegion(k, r, p);
    LockedAtEnd(k, p, pc, env0, sh0, env, sh);
    if t.Branch? && t.cond.Reg? {
      TermReadDefined(k, b, t.cond.name);
      ReadsAgree(k, r, p, t.cond.name, |Code(k, b)|, env0, sh0, env, sh);
    }
    assert b in Cfg(k).succ && Target(t, env) in Cfg(k).succ[b];
  }

  lemma LockedAtEnd(k: Kernel, p: seq<Block>, pc: nat, env0: map<Name, int>, sh0: map<Name, int>,
                    env: map<Name, int>, sh: map<Name, int>)
    requires |p| > 0 && pc >= |Code(k, p[|p| - 1])| && Locked(k, p, pc, env0, sh0, env, sh)
    ensures Locked(k, p, |Code(k, p[|p| - 1])|, env0, sh0, env, sh)
  {
    hide DefinedSoFar;
    forall x
      ensures DefinedSoFar(k, x, p, pc) <==> DefinedSoFar(k, x, p, |Code(k, p[|p| - 1])|)
    {
      DefinedAtEnd(k, x, p, pc);
    }
  }

  lemma TermReadDefined(k: Kernel, b: Block, x: Name)
    requires Ssa(k) && UsedByTerm(x, Terminator(k, b))
    ensures DefinedBefore(k, x, b, |Code(k, b)|) && ReadIn(k, x, b)
  {
    hide OneBlock, InstReadsOk, PhiReadsOk, DefinedBefore;
  }

  lemma PhiReadDefined(k: Kernel, b: Block, q: nat, f: Block, x: Name)
    requires Ssa(k) && PhiReads(k, x, b, q, f)
    ensures DefinedBefore(k, x, f, |Code(k, f)|) && ReadIn(k, x, b)
  {
    hide OneBlock, InstReadsOk, TermReadsOk, DefinedBefore;
    PhiReadsRead(k, x, b, q, f);
  }

  /** Entering the next block of the region keeps the two in step. */
  lemma EnterLocked(k: Kernel, r: ParallelRegion, p: seq<Block>, pc: nat, t: Block, env0: map<Name, int>,
                    sh0: map<Name, int>,
                    env: map<Name, int>, sh: map<Name, int>)
    requires Ssa(k) && SingleEntry(k, r) && Visit(k, r, p) && Alike(k, r, env0, sh0) && t in r.blocks
    requires |p| > 0 && pc >= |Code(k, p[|p| - 1])| && Locked(k, p, pc, env0, sh0, env, sh)
    ensures Locked(k, p + [t], 0, env0, sh0, Enter(k, p[|p| - 1], t, env).env, Enter(k, p[|p| - 1], t, sh).env)
  {
    hide Ssa, SingleEntry, Visit, Alike, DefinedBefore, DefinedSoFar, SetPhis, ReadIn;
    var b, phis := p[|p| - 1], Phis(k, t);
    LastInRegion(k, r, p);
    LockedAtEnd(k, p, pc, env0, sh0, env, sh);
    forall q | 0 <= q < |phis|
      ensures Incoming(phis[q], b, env) == Incoming(phis[q], b, sh)
    {
      if b in phis[q].incoming && phis[q].incoming[b].Reg? {
        var x := phis[q].incoming[b].name;
        assert PhiReads(k, x, t, q, b);
        PhiReadDefined(k, t, q, b, x);
        ReadsAgree(k, r, p, x, |Code(k, b)|, env0, sh0, env, sh);
      }
    }
    forall x
      ensures DefinedSoFar(k, x, p + [t], 0) <==> DefinedSoFar(k, x, p, pc) || PhiDefines(k, x, t)
    {
      DefinedOnEntering(k, x, p, pc, t);
    }
    forall x: Name
      ensures PhiDefines(k, x, t) || Value(env, Reg(x)) == Value(sh, Reg(x)) ==>
                Value(Enter(k, b, t, env).env, Reg(x)) == Value(Enter(k, b, t, sh).env, Reg(x))
      ensures !PhiDefines(k, x, t) ==> Value(Enter(k, b, t, env).env, Reg(x)) == Value(env, Reg(x))
                                       && Value(Enter(k, b, t, sh).env, Reg(x)) == Value(sh, Reg(x))
    {
      SetPhisAgree(phis, b, x, env, sh, env, sh);
    }
  }

  // -------------------------------------------------------------------------- the whole visit

  /** Item `id` after n steps that no other item interrupts. */
  function Alone(k: Kernel, id: nat, l: Local, m: Memory, n: nat): (Local, Memory) {
    if n == 0 then (l, m)
    else
      var (l', m') := Alone(k, id, l, m, n - 1);
      Step(k, id, l', m')
  }

  /** A visit: the item stays in the region and then leaves it for a block without PHIs. */
  ghost predicate Leaves(k: Kernel, r: ParallelRegion, id: nat, l: Local, m: Memory, n: nat) {
    && n > 0
    && (forall i :: 0 <= i < n ==> Alone(k, id, l, m, i).0.at in r.blocks && !Stopped(k, Alone(k, id, l, m, i).0))
    && Alone(k, id, l, m, n).0.at !in r.blocks && Phis(k, Alone(k, id, l, m, n).0.at) == []
  }

  ghost predicate InStep(k: Kernel, r: ParallelRegion, p: seq<Block>, env0: map<Name, int>, sh0: map<Name, int>,
                         a: (Local, Memory), b: (Local, Memory)) {
    && Visit(k, r, p) && |p| > 0
    && a.0.at == b.0.at == p[|p| - 1] && a.0.pc == b.0.pc && a.1 == b.1
    && Locked(k, p, a.0.pc, env0, sh0, a.0.env, b.0.env)
  }

  /** Entering the region from outside, along the same edge with both. */
  lemma VisitBegins(k: Kernel, r: ParallelRegion, from: Block, env0: map<Name, int>, sh0: map<Name, int>, m: Memory)
    requires SingleEntry(k, r) && Alike(k, r, env0, sh0) && from !in r.blocks
    ensures InStep(k, r, [r.entry], env0, sh0, (Enter(k, from, r.entry, env0), m), (Enter(k, from, r.entry, sh0), m))
  {
    hide DefinedInRegion, ReadIn, SetPhis, PhiDefines, Defines, Edges, Reach;
    var t := r.entry;
    var phis := Phis(k, t);
    forall q | 0 <= q < |phis|
      ensures Incoming(phis[q], from, env0) == Incoming(phis[q], from, sh0)
    {
      if from in phis[q].incoming && phis[q].incoming[from].Reg? {
        var x := phis[q].incoming[from].name;
        assert PhiReads(k, x, t, q, from);
        PhiReadsRead(k, x, t, q, from);
      }
    }
    forall x: Name
      ensures DefinedSoFar(k, x, [t], 0) <==> PhiDefines(k, x, t)
      ensures PhiDefines(k, x, t) ==>
              Value(Enter(k, from, t, env0).env, Reg(x)) == Value(Enter(k, from, t, sh0).env, Reg(x))
      ensures !PhiDefines(k, x, t) ==> Value(Enter(k, from, t, env0).env, Reg(x)) == Value(env0, Reg(x))
                                       && Value(Enter(k, from, t, sh0).env, Reg(x)) == Value(sh0, Reg(x))
    {
      EntryPhis(k, x, t, from, env0, sh0);
    }
  }

  lemma EntryPhis(k: Kernel, x: Name, t: Block, from: Block, env: map<Name, int>, sh: map<Name, int>)
    requires forall q ::
             0 <= q < |Phis(k, t)| ==> Incoming(Phis(k, t)[q], from, env) == Incoming(Phis(k, t)[q], from, sh)
    ensures DefinedSoFar(k, x, [t], 0) <==> PhiDefines(k, x, t)
    ensures PhiDefines(k, x, t) || Value(env, Reg(x)) == Value(sh, Reg(x)) ==>
              Value(Enter(k, from, t, env).env, Reg(x)) == Value(Enter(k, from, t, sh).env, Reg(x))
    ensures !PhiDefines(k, x, t) ==> Value(Enter(k, from, t, env).env, Reg(x)) == Value(env, Reg(x))
                                     && Value(Enter(k, from, t, sh).env, Reg(x)) == Value(sh, Reg(x))
  {
    hide SetPhis;
    SetPhisAgree(Phis(k, t), from, x, env, sh, env, sh);
  }

  lemma StepInStep(k: Kernel, r: ParallelRegion, p: seq<Block>, id: nat, env0: map<Name, int>, sh0: map<Name, int>,
                   a: (Local, Memory), b: (Local, Memory)) returns (p': seq<Block>)
    requires Ssa(k) && SingleEntry(k, r) && Alike(k, r, env0, sh0) && InStep(k, r, p, env0, sh0, a, b)
    requires Step(k, id, a.0, a.1).0.at in r.blocks
    ensures InStep(k, r, p', env0, sh0, Step(k, id, a.0, a.1), Step(k, id, b.0, b.1))
  {
    hide Ssa, SingleEntry, Alike, Exec, Locked;
    var at := a.0.at;
    p' := p;
    if Stopped(k, a.0) {
    } else if AtInst(k, a.0) {
      InstLocked(k, r, p, id, a.0.pc, env0, sh0, a.0.env, b.0.env, a.1);
    } else {
      TargetAlike(k, r, p, a.0.pc, env0, sh0, a.0.env, b.0.env);
      var t := Target(Terminator(k, at), a.0.env);
      EnterLocked(k, r, p, a.0.pc, t, env0, sh0, a.0.env, b.0.env);
      WalkSnoc(Edges(Cfg(k)), p, t);
      p' := p + [t];
    }
  }

  lemma {:induction false} VisitInStep(k: Kernel, r: ParallelRegion, id: nat, from: Block, env0: map<Name, int>,
                                       sh0: map<Name, int>, m: Memory, n: nat) returns (p: seq<Block>)
    requires Ssa(k) && SingleEntry(k, r) && Alike(k, r, env0, sh0) && from !in r.blocks
    requires forall i :: 0 <= i <= n ==> Alone(k, id, Enter(k, from, r.entry, env0), m, i).0.at in r.blocks
    ensures InStep(k, r, p, env0, sh0, Alone(k, id, Enter(k, from, r.entry, env0), m, n),
                   Alone(k, id, Enter(k, from, r.entry, sh0), m, n))
    decreases n
  {
    hide Ssa, SingleEntry, Alike, Step, InStep, Enter;
    var l, l' := Enter(k, from, r.entry, env0), Enter(k, from, r.entry, sh0);
    if n == 0 {
      VisitBegins(k, r, from, env0, sh0, m);
      p := [r.entry];
    } else {
      p := VisitInStep(k, r, id, from, env0, sh0, m, n - 1);
      assert Alone(k, id, l, m, n).0.at in r.blocks;
      p := StepInStep(k, r, p, id, env0, sh0, Alone(k, id, l, m, n - 1), Alone(k, id, l', m, n - 1));
    }
  }

  /** After a visit: every register is as the visit found it, in both, or is the region's and
      the same in both. */
  ghost predicate Ends(k: Kernel, r: ParallelRegion, env0: map<Name, int>, sh0: map<Name, int>, env: map<Name, int>,
                       sh: map<Name, int>) {
    forall x ::
      || (Value(env, Reg(x)) == Value(env0, Reg(x)) && Value(sh, Reg(x)) == Value(sh0, Reg(x)))
      || (DefinedInRegion(k, r, x) && Value(env, Reg(x)) == Value(sh, Reg(x)))
  }

  lemma LeavingInStep(k: Kernel, r: ParallelRegion, p: seq<Block>, id: nat, env0: map<Name, int>, sh0: map<Name, int>,
                      a: (Local, Memory), b: (Local, Memory))
    requires Ssa(k) && SingleEntry(k, r) && Alike(k, r, env0, sh0) && InStep(k, r, p, env0, sh0, a, b)
    requires Step(k, id, a.0, a.1).0.at !in r.blocks && Phis(k, Step(k, id, a.0, a.1).0.at) == []
    ensures var (l, m) := Step(k, id, a.0, a.1); var (l', m') := Step(k, id, b.0, b.1);
            l'.at == l.at && l'.pc == l.pc && m' == m && Ends(k, r, env0, sh0, l.env, l'.env)
  {
    hide Ssa, SingleEntry, Alike, Exec, DefinedSoFar, DefinedInRegion;
    LastInRegion(k, r, p);
    TargetAlike(k, r, p, a.0.pc, env0, sh0, a.0.env, b.0.env);
    forall x | DefinedSoFar(k, x, p, a.0.pc)
      ensures DefinedInRegion(k, r, x)
    {
      NotDefinedOutside(k, r, p, x, a.0.pc);
    }
  }

  lemma SameStop(k: Kernel, l: Local, l': Local)
    requires l.at == l'.at && l.pc == l'.pc
    ensures Stopped(k, l) <==> Stopped(k, l')
  {
  }

  /** One visit, made with an item's own registers and with the shared ones: it goes the same way,
      writes the same, and leaves at the same step for the same block. */
  lemma VisitShared(k: Kernel, r: ParallelRegion, id: nat, from: Block, env0: map<Name, int>, sh0: map<Name, int>,
                    m: Memory, n: nat)
    requires Ssa(k) && SingleEntry(k, r) && Alike(k, r, env0, sh0) && from !in r.blocks
    requires Leaves(k, r, id, Enter(k, from, r.entry, env0), m, n)
    ensures Leaves(k, r, id, Enter(k, from, r.entry, sh0), m, n)
    ensures var (l, m1) := Alone(k, id, Enter(k, from, r.entry, env0), m, n);
            var (l', m2) := Alone(k, id, Enter(k, from, r.entry, sh0), m, n);
            l'.at == l.at && l'.pc == l.pc && m2 == m1 && Ends(k, r, env0, sh0, l.env, l'.env)
  {
    hide Ssa, SingleEntry, Alike, Step, Ends, Enter, Stopped, Visit, Locked;
    var a, b := Enter(k, from, r.entry, env0), Enter(k, from, r.entry, sh0);
    var p := VisitInStep(k, r, id, from, env0, sh0, m, n - 1);
    LeavingInStep(k, r, p, id, env0, sh0, Alone(k, id, a, m, n - 1), Alone(k, id, b, m, n - 1));
    forall i | 0 <= i < n
      ensures Alone(k, id, b, m, i).0.at in r.blocks && !Stopped(k, Alone(k, id, b, m, i).0)
    {
      var q := VisitInStep(k, r, id, from, env0, sh0, m, i);
      SameStop(k, Alone(k, id, a, m, i).0, Alone(k, id, b, m, i).0);
    }
  }

  // ------------------------------------------------------------------------------- the loop

  /** The first w items visit the region in flat order, item v making ns[v] steps. */
  function PrivateLoop(k: Kernel, items: seq<Local>, m: Memory, ns: seq<nat>, w: nat): (r: (seq<Local>, Memory))
    requires w <= |items| == |ns|
    ensures |r.0| == |items| && forall v :: w <= v < |items| ==> r.0[v] == items[v]
  {
    if w == 0 then (items, m)
    else
      var (done, m1) := PrivateLoop(k, items, m, ns, w - 1);
      var (l, m2) := Alone(k, w - 1, items[w - 1], m1, ns[w - 1]);
      (done[w - 1 := l], m2)
  }

  /** The items once they have gone on from block `from` to a region. */
  function Entering(k: Kernel, items: seq<Local>, from: Block, entry: Block): (r: seq<Local>)
    ensures |r| == |items|
  {
    seq(|items|, w requires 0 <= w < |items| => Enter(k, from, entry, items[w].env))
  }

  /** The same with one set of registers, each iteration entering the region where the last has
      left them. */
  function SharedLoop(k: Kernel, from: Block, entry: Block, sh: map<Name, int>, m: Memory, ns: seq<nat>, w: nat)
    : (map<Name, int>, Memory)
    requires w <= |ns|
  {
    if w == 0 then (sh, m)
    else
      var (sh1, m1) := SharedLoop(k, from, entry, sh, m, ns, w - 1);
      var (l, m2) := Alone(k, w - 1, Enter(k, from, entry, sh1), m1, ns[w - 1]);
      (l.env, m2)
  }

  ghost predicate AllLeave(k: Kernel, r: ParallelRegion, items: seq<Local>, m: Memory, ns: seq<nat>, w: nat)
    requires w <= |items| == |ns|
  {
    forall v :: 0 <= v < w ==>
      items[v].at == r.entry && items[v].pc == 0 && Leaves(k, r, v, items[v], PrivateLoop(k, items, m, ns, v).1, ns[v])
  }

  /** What the shared registers hold after w iterations: what they held before if no item has
      changed its own, or else what one of the items holds. */
  ghost predicate FromSome(x: Name, before: seq<Local>, after: seq<Local>, w: nat, sh0: map<Name, int>,
                           sh: map<Name, int>)
    requires w <= |before| == |after|
  {
    || (Value(sh, Reg(x)) == Value(sh0, Reg(x))
        && forall v :: 0 <= v < w ==> Value(after[v].env, Reg(x)) == Value(before[v].env, Reg(x)))
    || (exists v :: 0 <= v < w && Value(sh, Reg(x)) == Value(after[v].env, Reg(x)))
  }

  ghost predicate Unchanged(k: Kernel, r: ParallelRegion, env: map<Name, int>, env': map<Name, int>) {
    forall x :: !DefinedInRegion(k, r, x) ==> Value(env', Reg(x)) == Value(env, Reg(x))
  }

  lemma AlikeStays(k: Kernel, r: ParallelRegion, env: map<Name, int>, sh: map<Name, int>, sh': map<Name, int>)
    requires Alike(k, r, env, sh) && Unchanged(k, r, sh, sh')
    ensures Alike(k, r, env, sh')
  {
    hide ReadIn, DefinedInRegion;
  }

  lemma EndsUnchanged(k: Kernel, r: ParallelRegion, env0: map<Name, int>, sh0: map<Name, int>, env: map<Name, int>,
                      sh: map<Name, int>)
    requires Ends(k, r, env0, sh0, env, sh)
    ensures Unchanged(k, r, env0, env) && Unchanged(k, r, sh0, sh)
  {
    hide DefinedInRegion;
  }

  lemma FromSomeNext(k: Kernel, r: ParallelRegion, x: Name, before: seq<Local>, after: seq<Local>, w: nat, l: Local,
                     sh0: map<Name, int>, sh1: map<Name, int>, sh: map<Name, int>)
    requires w < |before| == |after| && FromSome(x, before, after, w, sh0, sh1)
    requires Ends(k, r, before[w].env, sh1, l.env, sh)
    ensures FromSome(x, before, after[w := l], w + 1, sh0, sh)
  {
    hide DefinedInRegion;
    var after' := after[w := l];
    if v :| 0 <= v < w && Value(sh1, Reg(x)) == Value(after[v].env, Reg(x)) {
      assert after'[v] == after[v];
    }
    assert after'[w] == l;
  }

  /** Items and shared registers after w iterations. */
  ghost predicate AfterLoop(k: Kernel, r: ParallelRegion, items: seq<Local>, sh: map<Name, int>,
                            done: seq<Local>, sh': map<Name, int>, w: nat) {
    && w <= |items| == |done| && Unchanged(k, r, sh, sh')
    && (forall v :: 0 <= v < w ==> Unchanged(k, r, items[v].env, done[v].env))
    && (forall x :: FromSome(x, items, done, w, sh, sh'))
  }

  lemma AfterLoopNext(k: Kernel, r: ParallelRegion, items: seq<Local>, sh: map<Name, int>,
                      done: seq<Local>, sh1: map<Name, int>, w: nat, l: Local, sh': map<Name, int>)
    requires AfterLoop(k, r, items, sh, done, sh1, w) && w < |items|
    requires Ends(k, r, items[w].env, sh1, l.env, sh')
    ensures AfterLoop(k, r, items, sh, done[w := l], sh', w + 1)
  {
    hide Ends, FromSome, Unchanged;
    EndsUnchanged(k, r, items[w].env, sh1, l.env, sh');
    UnchangedTrans(k, r, sh, sh1, sh');
    var done', n := done[w := l], w + 1;
    forall x: Name
      ensures FromSome(x, items, done', n, sh, sh')
    {
      FromSomeNext(k, r, x, items, done, w, l, sh, sh1, sh');
    }
  }

  ghost predicate LoopAgrees(k: Kernel, r: ParallelRegion, from: Block, items: seq<Local>, sh: map<Name, int>,
                             m: Memory,
                             ns: seq<nat>, w: nat)
    requires w <= |items| == |ns|
  {
    var (done, m1) := PrivateLoop(k, Entering(k, items, from, r.entry), m, ns, w);
    var (sh', m2) := SharedLoop(k, from, r.entry, sh, m, ns, w);
    m2 == m1 && AfterLoop(k, r, items, sh, done, sh', w)
  }

  /** Iteration w of the loop finds the memory that item w finds, and leaves the region just when
      item w does, for the same block. */
  ghost predicate IterationLeaves(k: Kernel, r: ParallelRegion, from: Block, items: seq<Local>, sh: map<Name, int>,
                                  m: Memory,
                                  ns: seq<nat>, w: nat)
    requires w < |items| == |ns|
  {
    var (sh1, m1) := SharedLoop(k, from, r.entry, sh, m, ns, w);
    var (l, l') := (Alone(k, w, Enter(k, from, r.entry, items[w].env), m1, ns[w]).0,
      Alone(k, w, Enter(k, from, r.entry, sh1), m1, ns[w]).0);
    && m1 == PrivateLoop(k, Entering(k, items, from, r.entry), m, ns, w).1
    && Leaves(k, r, w, Enter(k, from, r.entry, sh1), m1, ns[w]) && l'.at == l.at && l'.pc == l.pc
  }

  lemma OneMoreIteration(k: Kernel, r: ParallelRegion, from: Block, items: seq<Local>, sh: map<Name, int>, m: Memory,
                         ns: seq<nat>, w: nat)
    requires w < |items| == |ns| && Ssa(k) && SingleEntry(k, r) && Alike(k, r, items[w].env, sh) && from !in r.blocks
    requires var entering := Entering(k, items, from, r.entry);
             Leaves(k, r, w, entering[w], PrivateLoop(k, entering, m, ns, w).1, ns[w])
    requires LoopAgrees(k, r, from, items, sh, m, ns, w)
    ensures LoopAgrees(k, r, from, items, sh, m, ns, w + 1) && IterationLeaves(k, r, from, items, sh, m, ns, w)
  {
    hide Ssa, SingleEntry, Alike, Alone, Ends, Leaves, AfterLoop, Enter;
    var entering := Entering(k, items, from, r.entry);
    var (done, m1) := PrivateLoop(k, entering, m, ns, w);
    var sh1 := SharedLoop(k, from, r.entry, sh, m, ns, w).0;
    AfterLoopAlike(k, r, items, sh, done, sh1, w, w);
    VisitShared(k, r, w, from, items[w].env, sh1, m1, ns[w]);
    var l := Alone(k, w, entering[w], m1, ns[w]).0;
    var sh' := Alone(k, w, Enter(k, from, r.entry, sh1), m1, ns[w]).0.env;
    AfterLoopNext(k, r, items, sh, done, sh1, w, l, sh');
  }

  lemma {:induction false} LoopInStep(k: Kernel, r: ParallelRegion, from: Block, items: seq<Local>, sh: map<Name, int>,
                                      m: Memory, ns: seq<nat>, w: nat)
    requires w <= |items| == |ns| && Ssa(k) && SingleEntry(k, r) && from !in r.blocks
    requires forall v :: 0 <= v < |items| ==> Alike(k, r, items[v].env, sh)
    requires AllLeave(k, r, Entering(k, items, from, r.entry), m, ns, w)
    ensures LoopAgrees(k, r, from, items, sh, m, ns, w)
    ensures forall v :: 0 <= v < w ==> IterationLeaves(k, r, from, items, sh, m, ns, v)
    decreases w
  {
    hide Ssa, SingleEntry, Alike, LoopAgrees, Leaves, PrivateLoop, IterationLeaves, Enter;
    if w == 0 {
      NothingYet(k, r, from, items, sh, m, ns);
    } else {
      LoopInStep(k, r, from, items, sh, m, ns, w - 1);
      OneMoreIteration(k, r, from, items, sh, m, ns, w - 1);
    }
  }

  lemma AfterLoopAlike(k: Kernel, r: ParallelRegion, items: seq<Local>, sh: map<Name, int>,
                       done: seq<Local>, sh1: map<Name, int>, w: nat, v: nat)
    requires AfterLoop(k, r, items, sh, done, sh1, w) && v < |items| && Alike(k, r, items[v].env, sh)
    ensures Alike(k, r, items[v].env, sh1)
  {
    hide FromSome, Unchanged, Alike;
    AlikeStays(k, r, items[v].env, sh, sh1);
  }

  lemma NothingYet(k: Kernel, r: ParallelRegion, from: Block, items: seq<Local>, sh: map<Name, int>, m: Memory,
                   ns: seq<nat>)
    requires |items| == |ns|
    ensures LoopAgrees(k, r, from, items, sh, m, ns, 0)
  {
  }

  lemma UnchangedTrans(k: Kernel, r: ParallelRegion, env: map<Name, int>, env1: map<Name, int>, env2: map<Name, int>)
    requires Unchanged(k, r, env, env1) && Unchanged(k, r, env1, env2)
    ensures Unchanged(k, r, env, env2)
  {
    hide DefinedInRegion;
  }

  /** x, defined in looped block d, is read outside the region of d without being reloaded: in
      uniform code, or when it is a PHI, which has no slots, in another looped region. */
  ghost predicate ReadDirectly(k: Kernel, pr: seq<ParallelRegion>, x: Name, d: Block) {
    exists b :: !SameRegion(pr, b, d) && ReadIn(k, x, b) && (DefIn(k, x, d) ==> !InRegion(pr, b))
  }

  /** Registers of which the one thread keeps one value for all items: what uniform code computes,
      and what looped regions compute and hand on directly. */
  ghost predicate Uniform(k: Kernel, pr: seq<ParallelRegion>, x: Name) {
    forall d :: InRegion(pr, d) && DefBlock(k, x, d) ==> ReadDirectly(k, pr, x, d)
  }

  ghost predicate Agree(k: Kernel, pr: seq<ParallelRegion>, items: seq<Local>, sh: map<Name, int>) {
    forall x, v :: Uniform(k, pr, x) && 0 <= v < |items| ==> Value(items[v].env, Reg(x)) == Value(sh, Reg(x))
  }

  lemma AgreeIsAlike(k: Kernel, pr: seq<ParallelRegion>, i: nat, items: seq<Local>, sh: map<Name, int>, v: nat)
    requires RegionsOk(k, pr) && (forall x :: !Cross(k, pr, x)) && i < |pr| && v < |items| && Agree(k, pr, items, sh)
    ensures Alike(k, pr[i], items[v].env, sh)
  {
    hide ReadIn, DefIn, PhiDefines, PhiReads;
    forall x, b | b in pr[i].blocks && ReadIn(k, x, b) && !DefinedInRegion(k, pr[i], x)
      ensures Uniform(k, pr, x)
    {
      forall d | InRegion(pr, d) && DefBlock(k, x, d)
        ensures ReadDirectly(k, pr, x, d)
      {
        assert !Cross(k, pr, x) && InRegion(pr, b);
        assert d !in pr[i].blocks;
        assert !SameRegion(pr, b, d);
      }
    }
  }

  /** All items hold the same in the uniform registers. */
  ghost predicate AllSame(k: Kernel, pr: seq<ParallelRegion>, items: seq<Local>) {
    forall x, v, w :: Uniform(k, pr, x) && 0 <= v < |items| && 0 <= w < |items| ==>
      Value(items[v].env, Reg(x)) == Value(items[w].env, Reg(x))
  }

  lemma AgreeAfter(k: Kernel, pr: seq<ParallelRegion>, r: ParallelRegion, items: seq<Local>, done: seq<Local>,
                   sh: map<Name, int>, sh': map<Name, int>)
    requires AfterLoop(k, r, items, sh, done, sh', |items|) && Agree(k, pr, items, sh) && AllSame(k, pr, done)
    ensures Agree(k, pr, done, sh')
  {
    hide Uniform, Unchanged;
    forall x, v | Uniform(k, pr, x) && 0 <= v < |done|
      ensures Value(done[v].env, Reg(x)) == Value(sh', Reg(x))
    {
      assert FromSome(x, items, done, |items|, sh, sh');
      assert Value(items[v].env, Reg(x)) == Value(sh, Reg(x));
    }
  }

  /** The loop around a region. When no looped region reads the values of another, the loop on
      one set of registers leaves the memory that the items leave, in each iteration leaves the
      region when the item does, and the registers again agree with those of every item on all
      that is uniform. */
  lemma LoopMatchesItems(k: Kernel, pr: seq<ParallelRegion>, i: nat, from: Block, items: seq<Local>, sh: map<Name, int>,
                         m: Memory, ns: seq<nat>)
    requires Ssa(k) && RegionsOk(k, pr) && (forall x :: !Cross(k, pr, x)) && i < |pr| && SingleEntry(k, pr[i])
    requires |items| == |ns| > 0 && Agree(k, pr, items, sh) && from !in pr[i].blocks
    requires AllLeave(k, pr[i], Entering(k, items, from, pr[i].entry), m, ns, |items|)
    requires AllSame(k, pr, PrivateLoop(k, Entering(k, items, from, pr[i].entry), m, ns, |items|).0)
    ensures var (done, m1) := PrivateLoop(k, Entering(k, items, from, pr[i].entry), m, ns, |items|);
            var (sh', m2) := SharedLoop(k, from, pr[i].entry, sh, m, ns, |items|);
            m2 == m1 && Agree(k, pr, done, sh')
    ensures forall w :: 0 <= w < |items| ==> IterationLeaves(k, pr[i], from, items, sh, m, ns, w)
  {
    hide Ssa, RegionsOk, Cross, SingleEntry, AllLeave, Alike, PrivateLoop, SharedLoop, Agree, AllSame, AfterLoop;
    hide Entering;
    hide IterationLeaves;
    forall v | 0 <= v < |items|
      ensures Alike(k, pr[i], items[v].env, sh)
    {
      AgreeIsAlike(k, pr, i, items, sh, v);
    }
    LoopInStep(k, pr[i], from, items, sh, m, ns, |items|);
    var (done, m1) := PrivateLoop(k, Entering(k, items, from, pr[i].entry), m, ns, |items|);
    var (sh', m2) := SharedLoop(k, from, pr[i].entry, sh, m, ns, |items|);
    AgreeAfter(k, pr, pr[i], items, done, sh, sh');
  }
}
