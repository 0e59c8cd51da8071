/** Deploying the context of every looped region, and which values are then still read directly. */
module ContextPass {
  import opened Graphs
  import opened WorkItems
  import opened Contexts
  import opened ContextBuffering

  predicate InRegion(pr: seq<ParallelRegion>, b: Block) {
    exists i :: 0 <= i < |pr| && b in pr[i].blocks
  }

  predicate SameRegion(pr: seq<ParallelRegion>, b: Block, c: Block) {
    exists i :: 0 <= i < |pr| && b in pr[i].blocks && c in pr[i].blocks
  }

  // --------------------------------------------------------- where values are read and defined

  predicate ReadIn(k: Kernel, x: Name, b: Block) {
    || (exists i :: 0 <= i < |Code(k, b)| && UsedBy(x, Code(k, b)[i]))
    || UsedByTerm(x, Terminator(k, b))
    || (exists q :: 0 <= q < |Phis(k, b)| && UsedByPhi(x, Phis(k, b)[q]))
  }

  ghost predicate DefIn(k: Kernel, x: Name, b: Block) {
    exists i :: 0 <= i < |Code(k, b)| && Defines(Code(k, b)[i], x)
  }

  /** One looped region reads directly what another computes. */
  ghost predicate Cross(k: Kernel, pr: seq<ParallelRegion>, x: Name) {
    exists b, d :: InRegion(pr, b) && InRegion(pr, d) && !SameRegion(pr, b, d) && ReadIn(k, x, b) && DefIn(k, x, d)
  }

  ghost predicate PhiReads(k: Kernel, x: Name, b: Block, q: nat, f: Block) {
    q < |Phis(k, b)| && f in Phis(k, b)[q].incoming && Phis(k, b)[q].incoming[f] == Reg(x)
  }

  /** An instruction of a looped region computes x. */
  ghost predicate LoopDefined(k: Kernel, pr: seq<ParallelRegion>, x: Name) {
    exists d :: InRegion(pr, d) && DefIn(k, x, d)
  }

  ghost predicate Disjoint(pr: seq<ParallelRegion>) {
    && (forall i :: 0 <= i < |pr| ==>
          pr[i].entry in pr[i].blocks && pr[i].exit in pr[i].blocks
          && (pr[i].entry == pr[i].exit ==> pr[i].blocks == {pr[i].entry}))
    && (forall i, j, b :: 0 <= i < |pr| && 0 <= j < |pr| && b in pr[i].blocks && b in pr[j].blocks ==> i == j)
  }

  /** The regions that get a loop do not overlap, and what a PHI in one of them receives from
      outside its region is not computed in a looped region: the pass has no place for a reload
      there. */
  ghost predicate RegionsOk(k: Kernel, pr: seq<ParallelRegion>) {
    && Disjoint(pr)
    && forall x, b, q, f ::
       InRegion(pr, b) && PhiReads(k, x, b, q, f) && !SameRegion(pr, b, f) ==> !LoopDefined(k, pr, x)
  }

  /** No PHI of the block receives x along two edges. */
  ghost predicate SingleAt(k: Kernel, x: Name, b: Block, q: nat) {
    forall f, f' :: PhiReads(k, x, b, q, f) && PhiReads(k, x, b, q, f') ==> f == f'
  }

  ghost predicate SingleIn(k: Kernel, x: Name, b: Block) {
    forall q :: 0 <= q < |Phis(k, b)| ==> SingleAt(k, x, b, q)
  }

  ghost predicate SingleIncoming(k: Kernel, pr: seq<ParallelRegion>, x: Name) {
    forall b :: InRegion(pr, b) ==> SingleIn(k, x, b)
  }

  ghost predicate OneDefinition(k: Kernel) {
    && (forall x, b, i, c, j ::
          0 <= i < |Code(k, b)| && 0 <= j < |Code(k, c)| && Defines(Code(k, b)[i], x) && Defines(Code(k, c)[j], x) ==>
            b == c && i == j)
    && (forall x, b, i, c, q :: 0 <= i < |Code(k, b)| && Defines(Code(k, b)[i], x) && 0 <= q < |Phis(k, c)| ==>
          Phis(k, c)[q].dst != x)
  }

  ghost predicate SlotUsed(k: Kernel, n: Name) {
    exists b, i :: 0 <= i < |Code(k, b)| && UsesSlot(n, Code(k, b)[i])
  }

  ghost predicate Below(k: Kernel, next: Name) {
    forall r :: r >= next ==> Unmentioned(k, r)
  }

  // -------------------------------------------------------------- what one edit changes of it

  /** Position i of a block of the result: the added instruction, or one that was there before,
      with its users of the value rewritten or not. */
  lemma FromBefore(k: Kernel, e: Edit, b: Block, i: nat) returns (o: nat)
    requires EditOk(k, e) && InRange(k, e) && i < |Code(Applied(k, e), b)|
    requires b == EditedBlock(e) ==> i != EditedPos(k, e)
    ensures o < |Code(k, b)| && (i == o || i == o + 1)
    ensures b == EditedBlock(e) ==> i == if o < EditedPos(k, e) then o else o + 1
    ensures b != EditedBlock(e) ==> i == o
    ensures var x, x' := Code(k, b)[o], Code(Applied(k, e), b)[i];
            x' == x || (e.ReloadFor? && e.user == ByInst(b, o) && x' == SubstInst(x, e.value, e.reg))
  {
    hide SaveOk, UserOk, Saved, Unmentioned, Applied;
    CodeAt(k, e, b, i);
    o := if b == EditedBlock(e) && i > EditedPos(k, e) then i - 1 else i;
  }

  lemma ToAfter(k: Kernel, e: Edit, b: Block, o: nat) returns (i: nat)
    requires EditOk(k, e) && InRange(k, e) && o < |Code(k, b)|
    ensures i < |Code(Applied(k, e), b)| && (b == EditedBlock(e) ==> i != EditedPos(k, e))
    ensures i == if b == EditedBlock(e) && o >= EditedPos(k, e) then o + 1 else o
    ensures var x, x' := Code(k, b)[o], Code(Applied(k, e), b)[i];
            x' == x || (e.ReloadFor? && e.user == ByInst(b, o) && x' == SubstInst(x, e.value, e.reg))
  {
    hide SaveOk, UserOk, Saved, Unmentioned, Applied;
    i := if b == EditedBlock(e) && o >= EditedPos(k, e) then o + 1 else o;
    CodeAt(k, e, b, i);
  }

  lemma SubstUses(x: Inst, n: Name, r: Name, y: Name)
    requires n != r
    ensures y != n && y != r ==> (UsedBy(y, SubstInst(x, n, r)) <==> UsedBy(y, x))
    ensures !UsedBy(n, SubstInst(x, n, r))
    ensures SubstInst(x, n, r).Save? <==> x.Save?
    ensures UsesSlot(y, SubstInst(x, n, r)) <==> UsesSlot(y, x)
    ensures Defines(SubstInst(x, n, r), y) <==> Defines(x, y)
  {
    var os, os' := Operands(x), Operands(SubstInst(x, n, r));
    assert |os'| == |os| && forall i :: 0 <= i < |os| ==> os'[i] == Subst(os[i], n, r);
    if y != n && y != r {
      if Reg(y) in os {
        var i :| 0 <= i < |os| && os[i] == Reg(y);
        assert os'[i] == Reg(y);
      }
      if Reg(y) in os' {
        var i :| 0 <= i < |os| && os'[i] == Reg(y);
        assert os[i] == Reg(y);
      }
    }
  }

  ghost predicate NewRead(e: Edit, x: Name, b: Block) {
    match e
    case SaveAfter(n, d, _) => x == n && b == d
    case ReloadFor(_, u, r) => x == r && b == u.at
  }

  ghost predicate NewDef(e: Edit, x: Name, b: Block) {
    e.ReloadFor? && x == e.reg && b == EditedBlock(e)
  }

  lemma ReadsAfter(k: Kernel, e: Edit, x: Name, b: Block)
    requires EditOk(k, e) && InRange(k, e) && ReadIn(Applied(k, e), x, b)
    ensures ReadIn(k, x, b) || NewRead(e, x, b)
  {
    hide Applied, EditOk, EditedPos;
    var k' := Applied(k, e);
    if i :| 0 <= i < |Code(k', b)| && UsedBy(x, Code(k', b)[i]) {
      InstReadsAfter(k, e, x, b, i);
    } else if UsedByTerm(x, Terminator(k', b)) {
      TermReadsAfter(k, e, x, b);
    } else {
      var q :| 0 <= q < |Phis(k', b)| && UsedByPhi(x, Phis(k', b)[q]);
      var f :| f in Phis(k', b)[q].incoming && Phis(k', b)[q].incoming[f] == Reg(x);
      PhiReadsAfter(k, e, x, b, q, f);
    }
  }

  lemma InstReadsAfter(k: Kernel, e: Edit, x: Name, b: Block, i: nat)
    requires EditOk(k, e) && InRange(k, e)
    requires i < |Code(Applied(k, e), b)| && UsedBy(x, Code(Applied(k, e), b)[i])
    ensures ReadIn(k, x, b) || NewRead(e, x, b)
  {
    hide Applied, EditOk, Unmentioned, UserOk, Saved, SaveOk;
    if b == EditedBlock(e) && i == EditedPos(k, e) {
      CodeAt(k, e, b, i);
    } else {
      var o := FromBefore(k, e, b, i);
      if e.ReloadFor? {
        RegIsNew(k, e);
        SubstUses(Code(k, b)[o], e.value, e.reg, x);
      }
    }
  }

  lemma TermReadsAfter(k: Kernel, e: Edit, x: Name, b: Block)
    requires EditOk(k, e) && InRange(k, e) && UsedByTerm(x, Terminator(Applied(k, e), b))
    ensures ReadIn(k, x, b) || NewRead(e, x, b)
  {
    SameElsewhere(k, e, b);
    if e.ReloadFor? && e.user.ByTerm? && e.user.at == b {
      assert Terminator(Applied(k, e), b) == SubstTerm(Terminator(k, b), e.value, e.reg);
    }
  }

  lemma PhiReadsAfter(k: Kernel, e: Edit, x: Name, b: Block, q: nat, f: Block)
    requires EditOk(k, e) && InRange(k, e) && PhiReads(Applied(k, e), x, b, q, f)
    ensures PhiReads(k, x, b, q, f) || (e.ReloadFor? && e.user.ByPhi? && x == e.reg && b == e.user.at)
    ensures ReadIn(k, x, b) || NewRead(e, x, b)
  {
    hide EditOk, Unmentioned, UserOk, Saved, SaveOk;
    SameElsewhere(k, e, b);
    if PhiReads(k, x, b, q, f) {
      assert UsedByPhi(x, Phis(k, b)[q]);
    }
  }

  lemma PhiReadsBefore(k: Kernel, e: Edit, x: Name, b: Block, q: nat, f: Block)
    requires EditOk(k, e) && InRange(k, e) && PhiReads(k, x, b, q, f)
    requires e.ReloadFor? ==> x != e.value
    ensures PhiReads(Applied(k, e), x, b, q, f)
  {
    hide EditOk, Unmentioned, UserOk, Saved, SaveOk;
    SameElsewhere(k, e, b);
  }

  /** Reads of other values than the one being buffered stay. */
  lemma ReadsBefore(k: Kernel, e: Edit, x: Name, b: Block)
    requires EditOk(k, e) && InRange(k, e) && ReadIn(k, x, b)
    requires e.ReloadFor? ==> x != e.value
    ensures ReadIn(Applied(k, e), x, b)
  {
    hide Applied, EditOk, EditedPos;
    var k' := Applied(k, e);
    if o :| 0 <= o < |Code(k, b)| && UsedBy(x, Code(k, b)[o]) {
      InstReadsBefore(k, e, x, b, o);
    } else if UsedByTerm(x, Terminator(k, b)) {
      TermReadsBefore(k, e, x, b);
    } else {
      var q :| 0 <= q < |Phis(k, b)| && UsedByPhi(x, Phis(k, b)[q]);
      var f :| f in Phis(k, b)[q].incoming && Phis(k, b)[q].incoming[f] == Reg(x);
      PhiReadsBefore(k, e, x, b, q, f);
      assert UsedByPhi(x, Phis(k', b)[q]);
    }
  }

  lemma InstReadsBefore(k: Kernel, e: Edit, x: Name, b: Block, o: nat)
    requires EditOk(k, e) && InRange(k, e) && o < |Code(k, b)| && UsedBy(x, Code(k, b)[o])
    requires e.ReloadFor? ==> x != e.value
    ensures ReadIn(Applied(k, e), x, b)
  {
    hide Applied, EditOk, Unmentioned, UserOk, Saved, SaveOk;
    var i := ToAfter(k, e, b, o);
    if e.ReloadFor? {
      RegIsNew(k, e);
      UnmentionedAt(k, e.reg, b, o);
      SubstUses(Code(k, b)[o], e.value, e.reg, x);
    }
  }

  lemma TermReadsBefore(k: Kernel, e: Edit, x: Name, b: Block)
    requires EditOk(k, e) && InRange(k, e) && UsedByTerm(x, Terminator(k, b))
    requires e.ReloadFor? ==> x != e.value
    ensures ReadIn(Applied(k, e), x, b)
  {
    SameElsewhere(k, e, b);
  }

  lemma DefsAfter(k: Kernel, e: Edit, x: Name, b: Block)
    requires EditOk(k, e) && InRange(k, e)
    ensures DefIn(Applied(k, e), x, b) <==> DefIn(k, x, b) || NewDef(e, x, b)
  {
    hide Applied, EditOk, Unmentioned, UserOk, Saved, SaveOk;
    var k' := Applied(k, e);
    if e.ReloadFor? {
      RegIsNew(k, e);
    }
    if i :| 0 <= i < |Code(k', b)| && Defines(Code(k', b)[i], x) {
      if b == EditedBlock(e) && i == EditedPos(k, e) {
        CodeAt(k, e, b, i);
      } else {
        var o := FromBefore(k, e, b, i);
        if e.ReloadFor? {
          SubstUses(Code(k, b)[o], e.value, e.reg, x);
        }
        assert Defines(Code(k, b)[o], x);
      }
    }
    if o :| 0 <= o < |Code(k, b)| && Defines(Code(k, b)[o], x) {
      var i := ToAfter(k, e, b, o);
      if e.ReloadFor? {
        SubstUses(Code(k, b)[o], e.value, e.reg, x);
      }
      assert Defines(Code(k', b)[i], x);
    }
    if NewDef(e, x, b) {
      EditInRange(k, e);
      CodeAt(k, e, b, EditedPos(k, e));
      assert Defines(Code(k', b)[EditedPos(k, e)], x);
    }
  }

  lemma SlotsAfter(k: Kernel, e: Edit, n: Name)
    requires EditOk(k, e) && InRange(k, e) && SlotUsed(Applied(k, e), n)
    ensures SlotUsed(k, n) || n == e.value
  {
    hide Applied, EditOk, Unmentioned, UserOk, Saved, SaveOk;
    var k' := Applied(k, e);
    var b, i :| 0 <= i < |Code(k', b)| && UsesSlot(n, Code(k', b)[i]);
    if b == EditedBlock(e) && i == EditedPos(k, e) {
      CodeAt(k, e, b, i);
    } else {
      var o := FromBefore(k, e, b, i);
      if e.ReloadFor? {
        RegIsNew(k, e);
        SubstUses(Code(k, b)[o], e.value, e.reg, n);
      }
      assert UsesSlot(n, Code(k, b)[o]);
    }
  }

  /** No edit makes one looped region read what another computes. */
  lemma CrossShrinks(k: Kernel, pr: seq<ParallelRegion>, e: Edit, x: Name)
    requires EditOk(k, e) && InRange(k, e) && InsideOne(pr, e) && Cross(Applied(k, e), pr, x)
    ensures Cross(k, pr, x)
  {
    hide Applied, EditOk, Unmentioned, Saved, ReadIn, DefIn;
    var k' := Applied(k, e);
    var b, d :| InRegion(pr, b) && InRegion(pr, d) && !SameRegion(pr, b, d) && ReadIn(k', x, b) && DefIn(k', x, d);
    ReadsAfter(k, e, x, b);
    DefsAfter(k, e, x, d);
    if e.SaveAfter? {
      SaveOkOf(k, e);
      OnlyDefinedThere(k, e.value, e.at, e.pos, d);
    } else {
      RegIsNew(k, e);
      UnmentionedIsNot(k, e.reg, b, d);
    }
  }

  lemma OnlyDefinedThere(k: Kernel, n: Name, b: Block, j: nat, d: Block)
    requires SaveOk(k, n, b, j)
    ensures DefIn(k, n, d) ==> d == b
  {
  }

  lemma UnmentionedIsNot(k: Kernel, r: Name, b: Block, d: Block)
    requires Unmentioned(k, r)
    ensures !ReadIn(k, r, b) && !DefIn(k, r, d)
  {
  }

  // ------------------------------------------------------------- what all edits together keep

  /** The edit changes one looped region only. */
  ghost predicate InsideOne(pr: seq<ParallelRegion>, e: Edit) {
    InRegion(pr, EditedBlock(e)) && (e.ReloadFor? ==> SameRegion(pr, e.user.at, EditedBlock(e)))
  }

  ghost predicate Inside(pr: seq<ParallelRegion>, edits: seq<Edit>) {
    forall e :: e in edits ==> InsideOne(pr, e)
  }

  ghost predicate Logged(k0: Kernel, edits: seq<Edit>, k: Kernel, next: Name, pr: seq<ParallelRegion>) {
    var ok :=
      && AllOk(k0, edits) && k == Result(k0, edits) && Inside(pr, edits)
      && RegionsOk(k, pr) && OneDefinition(k) && Below(k, next);
    ok
  }

  /** Whatever has slots, be it buffered or a private variable, is not read across regions. */
  ghost predicate SlotsApart(k: Kernel, pr: seq<ParallelRegion>) {
    forall n: Name :: SlotUsed(k, n) ==> !Cross(k, pr, n)
  }

  ghost predicate SameUses(k: Kernel, k': Kernel, x: Name) {
    && (forall b :: ReadIn(k, x, b) <==> ReadIn(k', x, b))
    && (forall b :: DefIn(k, x, b) <==> DefIn(k', x, b))
    && (forall b, q, f :: PhiReads(k, x, b, q, f) <==> PhiReads(k', x, b, q, f))
  }

  /** What buffering n, with registers from `lo` on, leaves as it was. */
  ghost predicate Keeps(k: Kernel, k': Kernel, pr: seq<ParallelRegion>, n: Name, lo: Name) {
    && (forall x: Name :: x != n && x < lo ==> SameUses(k, k', x))
    && (forall x :: Cross(k', pr, x) ==> Cross(k, pr, x))
    && (forall x: Name :: x < lo && Saved(k, x) ==> Saved(k', x))
    && (forall x :: SlotUsed(k', x) ==> SlotUsed(k, x) || x == n)
  }

  lemma KeepsSelf(k: Kernel, pr: seq<ParallelRegion>, n: Name, lo: Name)
    ensures Keeps(k, k, pr, n, lo)
  {
  }

  lemma KeepsTrans(k: Kernel, k1: Kernel, k2: Kernel, pr: seq<ParallelRegion>, n: Name, lo: Name, lo1: Name)
    requires Keeps(k, k1, pr, n, lo) && Keeps(k1, k2, pr, n, lo1) && lo <= lo1
    ensures Keeps(k, k2, pr, n, lo)
  {
    hide Cross, Saved, SlotUsed;
    forall x: Name | x != n && x < lo
      ensures SameUses(k, k2, x)
    {
      SameUsesTrans(k, k1, k2, x);
    }
  }

  lemma SameUsesTrans(k: Kernel, k1: Kernel, k2: Kernel, x: Name)
    requires SameUses(k, k1, x) && SameUses(k1, k2, x)
    ensures SameUses(k, k2, x)
  {
    hide ReadIn, DefIn, PhiReads;
  }

  lemma SameUsesEdit(k: Kernel, e: Edit, x: Name)
    requires EditOk(k, e) && InRange(k, e) && x != e.value && (e.ReloadFor? ==> x != e.reg)
    ensures SameUses(k, Applied(k, e), x)
  {
    hide EditOk, Applied, ReadIn, DefIn, PhiReads;
    var k' := Applied(k, e);
    forall b
      ensures ReadIn(k, x, b) <==> ReadIn(k', x, b)
      ensures DefIn(k, x, b) <==> DefIn(k', x, b)
    {
      DefsAfter(k, e, x, b);
      if ReadIn(k, x, b) {
        ReadsBefore(k, e, x, b);
      }
      if ReadIn(k', x, b) {
        ReadsAfter(k, e, x, b);
      }
    }
    forall b, q: nat, f
      ensures PhiReads(k, x, b, q, f) <==> PhiReads(k', x, b, q, f)
    {
      if PhiReads(k, x, b, q, f) {
        PhiReadsBefore(k, e, x, b, q, f);
      }
      if PhiReads(k', x, b, q, f) {
        PhiReadsAfter(k, e, x, b, q, f);
      }
    }
  }

  lemma KeepsEdit(k: Kernel, pr: seq<ParallelRegion>, e: Edit, lo: Name)
    requires EditOk(k, e) && InRange(k, e) && InsideOne(pr, e) && (e.ReloadFor? ==> e.reg >= lo)
    ensures Keeps(k, Applied(k, e), pr, e.value, lo)
  {
    hide EditOk, Applied, SameUses, Cross, Saved, SlotUsed, RegionsOk;
    var k' := Applied(k, e);
    forall x: Name
      ensures x != e.value && x < lo ==> SameUses(k, k', x)
      ensures Cross(k', pr, x) ==> Cross(k, pr, x)
      ensures x < lo && Saved(k, x) ==> Saved(k', x)
      ensures SlotUsed(k', x) ==> SlotUsed(k, x) || x == e.value
    {
      if x != e.value && x < lo {
        SameUsesEdit(k, e, x);
      }
      if Cross(k', pr, x) {
        CrossShrinks(k, pr, e, x);
      }
      if x < lo && Saved(k, x) {
        SavedStays(k, e, x);
      }
      if SlotUsed(k', x) {
        SlotsAfter(k, e, x);
      }
    }
  }

  lemma OneDefinitionStays(k: Kernel, e: Edit)
    requires EditOk(k, e) && InRange(k, e) && OneDefinition(k)
    ensures OneDefinition(Applied(k, e))
  {
    hide Applied, EditOk, Saved, SaveOk, UserOk, Unmentioned, OneDefinition;
    var k' := Applied(k, e);
    forall x, b, i, c, j | 0 <= i < |Code(k', b)| && 0 <= j < |Code(k', c)|
        && Defines(Code(k', b)[i], x) && Defines(Code(k', c)[j], x)
      ensures b == c && i == j
    {
      DefinedOnce(k, e, x, b, i, c, j);
    }
    forall x, b, i, c, q | 0 <= i < |Code(k', b)| && Defines(Code(k', b)[i], x) && 0 <= q < |Phis(k', c)|
      ensures Phis(k', c)[q].dst != x
    {
      NotByPhi(k, e, x, b, i, c, q);
    }
    OneDefinitionIntro(k');
  }

  lemma OneDefinitionIntro(k: Kernel)
    requires forall x, b, i, c, j ::
               0 <= i < |Code(k, b)| && 0 <= j < |Code(k, c)| && Defines(Code(k, b)[i], x)
                 && Defines(Code(k, c)[j], x) ==>
                 b == c && i == j
    requires forall x, b, i, c, q :: 0 <= i < |Code(k, b)| && Defines(Code(k, b)[i], x) && 0 <= q < |Phis(k, c)| ==>
               Phis(k, c)[q].dst != x
    ensures OneDefinition(k)
  {
  }

  lemma OneDefinitionAt(k: Kernel, x: Name, b: Block, i: nat, c: Block, j: nat)
    requires OneDefinition(k) && i < |Code(k, b)| && j < |Code(k, c)| && Defines(Code(k, b)[i], x)
             && Defines(Code(k, c)[j], x)
    ensures b == c && i == j
  {
  }

  lemma NoPhiOf(k: Kernel, x: Name, b: Block, i: nat, c: Block, q: nat)
    requires OneDefinition(k) && i < |Code(k, b)| && Defines(Code(k, b)[i], x) && q < |Phis(k, c)|
    ensures Phis(k, c)[q].dst != x
  {
  }

  lemma UnmentionedPhi(k: Kernel, r: Name, c: Block, q: nat)
    requires Unmentioned(k, r) && q < |Phis(k, c)|
    ensures Phis(k, c)[q].dst != r
  {
  }

  /** A definition in the result is the one in the original, or the added reload. */
  lemma DefinitionFrom(k: Kernel, e: Edit, x: Name, b: Block, i: nat) returns (o: nat)
    requires EditOk(k, e) && InRange(k, e) && i < |Code(Applied(k, e), b)| && Defines(Code(Applied(k, e), b)[i], x)
    ensures if e.ReloadFor? && x == e.reg then b == EditedBlock(e) && i == EditedPos(k, e)
            else o < |Code(k, b)| && Defines(Code(k, b)[o], x)
                 && i == if b == EditedBlock(e) && o >= EditedPos(k, e) then o + 1 else o
  {
    hide Applied, EditOk, Saved, SaveOk, UserOk, Unmentioned;
    if b == EditedBlock(e) && i == EditedPos(k, e) {
      CodeAt(k, e, b, i);
      o := 0;
    } else {
      o := FromBefore(k, e, b, i);
      if e.ReloadFor? {
        RegIsNew(k, e);
        SubstUses(Code(k, b)[o], e.value, e.reg, x);
        UnmentionedAt(k, e.reg, b, o);
      }
    }
  }

  lemma DefinedOnce(k: Kernel, e: Edit, x: Name, b: Block, i: nat, c: Block, j: nat)
    requires EditOk(k, e) && InRange(k, e) && OneDefinition(k)
    requires i < |Code(Applied(k, e), b)| && Defines(Code(Applied(k, e), b)[i], x)
    requires j < |Code(Applied(k, e), c)| && Defines(Code(Applied(k, e), c)[j], x)
    ensures b == c && i == j
  {
    hide Applied, EditOk, OneDefinition, EditedPos, Defines;
    var o := DefinitionFrom(k, e, x, b, i);
    var o' := DefinitionFrom(k, e, x, c, j);
    if !(e.ReloadFor? && x == e.reg) {
      OneDefinitionAt(k, x, b, o, c, o');
    }
  }

  lemma NotByPhi(k: Kernel, e: Edit, x: Name, b: Block, i: nat, c: Block, q: nat)
    requires EditOk(k, e) && InRange(k, e) && OneDefinition(k)
    requires i < |Code(Applied(k, e), b)| && Defines(Code(Applied(k, e), b)[i], x) && q < |Phis(Applied(k, e), c)|
    ensures Phis(Applied(k, e), c)[q].dst != x
  {
    hide Applied, EditOk, OneDefinition, EditedPos, Defines, Unmentioned;
    PhiDstKept(k, e, c, q);
    var o := DefinitionFrom(k, e, x, b, i);
    if e.ReloadFor? && x == e.reg {
      RegIsNew(k, e);
      UnmentionedPhi(k, e.reg, c, q);
    } else {
      NoPhiOf(k, x, b, o, c, q);
    }
  }

  lemma RegionsOkStays(k: Kernel, pr: seq<ParallelRegion>, e: Edit)
    requires EditOk(k, e) && InRange(k, e) && RegionsOk(k, pr) && InsideOne(pr, e)
    ensures RegionsOk(Applied(k, e), pr)
  {
    hide Applied, EditOk, InRegion, SameRegion, DefIn, ReadIn, PhiReads, LoopDefined;
    var k' := Applied(k, e);
    forall x, b, q: nat, f | InRegion(pr, b) && PhiReads(k', x, b, q, f) && !SameRegion(pr, b, f)
      ensures !LoopDefined(k', pr, x)
    {
      if e.ReloadFor? && x == e.reg {
        RewrittenFrom(k, e, b, q, f);
      } else {
        PhiReadsAfter(k, e, x, b, q, f);
        LoopDefinedBefore(k, pr, e, x);
      }
    }
  }

  lemma LoopDefinedBefore(k: Kernel, pr: seq<ParallelRegion>, e: Edit, x: Name)
    requires EditOk(k, e) && InRange(k, e) && (e.ReloadFor? ==> x != e.reg)
    ensures LoopDefined(Applied(k, e), pr, x) ==> LoopDefined(k, pr, x)
  {
    hide EditOk, Applied, DefIn, InRegion;
    if d :| InRegion(pr, d) && DefIn(Applied(k, e), x, d) {
      DefsAfter(k, e, x, d);
    }
  }

  lemma UnmentionedEdge(k: Kernel, r: Name, b: Block, q: nat, f: Block)
    requires Unmentioned(k, r)
    ensures !PhiReads(k, r, b, q, f)
  {
  }

  /** The edge along which a PHI now reads the reloaded register. */
  lemma RewrittenFrom(k: Kernel, e: Edit, b: Block, q: nat, f: Block)
    requires EditOk(k, e) && InRange(k, e) && e.ReloadFor? && PhiReads(Applied(k, e), e.reg, b, q, f)
    ensures e.user.ByPhi? && b == e.user.at && f == EditedBlock(e)
  {
    RegIsNew(k, e);
    UnmentionedEdge(k, e.reg, b, q, f);
    hide Unmentioned, Saved;
  }

  lemma UnmentionedStays(k: Kernel, e: Edit, r: Name)
    requires EditOk(k, e) && InRange(k, e) && Unmentioned(k, r) && r != e.value && (e.ReloadFor? ==> r != e.reg)
    ensures Unmentioned(Applied(k, e), r)
  {
    hide Applied, EditOk, Saved, SaveOk, UserOk, Unmentioned, ReadIn, DefIn, NewRead;
    var k' := Applied(k, e);
    forall b
      ensures !ReadIn(k', r, b) && !DefIn(k', r, b)
    {
      UnmentionedIsNot(k, r, b, b);
      DefsAfter(k, e, r, b);
      if ReadIn(k', r, b) {
        ReadsAfter(k, e, r, b);
        NotNewRead(e, r, b);
      }
    }
    forall b, q | 0 <= q < |Phis(k', b)|
      ensures Phis(k', b)[q].dst != r
    {
      PhiDstKept(k, e, b, q);
      UnmentionedPhi(k, r, b, q);
    }
    UnmentionedIntro(k', r);
  }

  lemma NotNewRead(e: Edit, r: Name, b: Block)
    requires r != e.value && (e.ReloadFor? ==> r != e.reg)
    ensures !NewRead(e, r, b)
  {
  }

  lemma UnmentionedIntro(k: Kernel, r: Name)
    requires forall b :: !ReadIn(k, r, b) && !DefIn(k, r, b)
    requires forall b, q :: 0 <= q < |Phis(k, b)| ==> Phis(k, b)[q].dst != r
    ensures Unmentioned(k, r)
  {
    forall b, i | 0 <= i < |Code(k, b)|
      ensures !Defines(Code(k, b)[i], r) && !UsedBy(r, Code(k, b)[i])
    {
      assert !ReadIn(k, r, b) && !DefIn(k, r, b);
    }
    forall b, q | 0 <= q < |Phis(k, b)|
      ensures !UsedByPhi(r, Phis(k, b)[q])
    {
      assert !ReadIn(k, r, b);
    }
    forall b
      ensures !UsedByTerm(r, Terminator(k, b))
    {
      assert !ReadIn(k, r, b);
    }
  }

  lemma ValueIsMentioned(k: Kernel, e: Edit)
    requires EditOk(k, e)
    ensures !Unmentioned(k, e.value)
  {
    match e {
      case SaveAfter(n, b, j) => assert Defines(Code(k, b)[j], n);
      case ReloadFor(n, u, r) =>
        match u {
          case ByInst(b, i) => assert UsedBy(n, Code(k, b)[i]);
          case ByTerm(b) => assert UsedByTerm(n, Terminator(k, b));
          case ByPhi(c, q, f) => assert UsedByPhi(n, Phis(k, c)[q]);
        }
    }
  }

  lemma LoggedEdit(k0: Kernel, edits: seq<Edit>, k: Kernel, next: Name, pr: seq<ParallelRegion>, e: Edit)
    requires Logged(k0, edits, k, next, pr) && EditOk(k, e) && InRange(k, e) && (e.ReloadFor? ==> e.reg == next)
    requires InsideOne(pr, e)
    ensures Logged(k0, edits + [e], Applied(k, e), if e.ReloadFor? then next + 1 else next, pr)
  {
    hide EditOk, Applied, RegionsOk, OneDefinition, Unmentioned, Saved, InsideOne;
    assert (edits + [e])[..|edits|] == edits;
    RegionsOkStays(k, pr, e);
    OneDefinitionStays(k, e);
    ValueIsMentioned(k, e);
    forall r | r >= next && (e.ReloadFor? ==> r != e.reg)
      ensures Unmentioned(Applied(k, e), r)
    {
      UnmentionedStays(k, e, r);
    }
  }

  // --------------------------------------------------------------- what a region exports

  function Involved(r: ParallelRegion): set<Block> {
    if r.entry != r.exit then r.blocks else {r.exit}
  }

  /** Some looped block outside `involved` reads x. */
  predicate Foreign(k: Kernel, pr: seq<ParallelRegion>, involved: set<Block>, x: Name) {
    exists b :: b in Blocks(k) && InRegion(pr, b) && b !in involved && ReadIn(k, x, b)
  }

  function WorkList(k: Kernel, pr: seq<ParallelRegion>, involved: set<Block>): set<Name> {
    set b, j | b in involved && 0 <= j < |Code(k, b)| && HasDst(Code(k, b)[j])
               && Foreign(k, pr, involved, Dst(Code(k, b)[j])) :: Dst(Code(k, b)[j])
  }

  lemma WorkListIs(k: Kernel, pr: seq<ParallelRegion>, involved: set<Block>, x: Name)
    ensures x in WorkList(k, pr, involved)
            <==> (exists b :: b in involved && DefIn(k, x, b)) && Foreign(k, pr, involved, x)
  {
    hide Foreign;
    if b :| b in involved && DefIn(k, x, b) {
      var j :| 0 <= j < |Code(k, b)| && Defines(Code(k, b)[j], x);
      assert HasDst(Code(k, b)[j]) && Dst(Code(k, b)[j]) == x;
    }
  }

  /** The values to buffer for a region are those that it defines and that are read across. */
  lemma WorkListIsCross(k: Kernel, pr: seq<ParallelRegion>, i: nat, x: Name)
    requires RegionsOk(k, pr) && OneDefinition(k) && i < |pr|
    ensures x in WorkList(k, pr, Involved(pr[i]))
            <==> (exists d :: d in pr[i].blocks && DefIn(k, x, d)) && Cross(k, pr, x)
  {
    hide OneDefinition, ReadIn, DefIn, WorkList;
    var involved := Involved(pr[i]);
    assert involved == pr[i].blocks;
    WorkListIs(k, pr, involved, x);
    if x in WorkList(k, pr, involved) {
      var d :| d in involved && DefIn(k, x, d);
      var b :| b in Blocks(k) && InRegion(pr, b) && b !in involved && ReadIn(k, x, b);
      assert !SameRegion(pr, b, d);
      assert InRegion(pr, d);
    }
    if (exists d :: d in pr[i].blocks && DefIn(k, x, d)) && Cross(k, pr, x) {
      var d :| d in pr[i].blocks && DefIn(k, x, d);
      var b, d' :| InRegion(pr, b) && InRegion(pr, d') && !SameRegion(pr, b, d') && ReadIn(k, x, b) && DefIn(k, x, d');
      SameDefinition(k, x, d, d');
      ReadsInBlocks(k, x, b);
    }
  }

  lemma SameDefinition(k: Kernel, x: Name, d: Block, d': Block)
    requires OneDefinition(k) && DefIn(k, x, d) && DefIn(k, x, d')
    ensures d == d'
  {
    hide OneDefinition, Defines;
    var i :| 0 <= i < |Code(k, d)| && Defines(Code(k, d)[i], x);
    var j :| 0 <= j < |Code(k, d')| && Defines(Code(k, d')[j], x);
    OneDefinitionAt(k, x, d, i, d', j);
  }

  lemma ReadsInBlocks(k: Kernel, x: Name, b: Block)
    requires ReadIn(k, x, b)
    ensures b in Blocks(k)
  {
  }

  lemma CrossIsOld(k: Kernel, pr: seq<ParallelRegion>, next: Name, x: Name)
    requires Below(k, next) && Cross(k, pr, x)
    ensures x < next
  {
    hide Unmentioned, ReadIn, DefIn;
    var b, d :| InRegion(pr, b) && InRegion(pr, d) && !SameRegion(pr, b, d) && ReadIn(k, x, b) && DefIn(k, x, d);
    if x >= next {
      UnmentionedIsNot(k, x, b, d);
    }
  }

  lemma WorkListFacts(k0: Kernel, edits: seq<Edit>, k: Kernel, next: Name, pr: seq<ParallelRegion>, i: nat)
    requires Logged(k0, edits, k, next, pr) && i < |pr|
    ensures forall x: Name :: x in WorkList(k, pr, Involved(pr[i])) ==> Cross(k, pr, x) && x < next
  {
    hide Logged, WorkList, Cross, RegionsOk, OneDefinition, Below;
    LoggedFacts(k0, edits, k, next, pr);
    forall x: Name | x in WorkList(k, pr, Involved(pr[i]))
      ensures Cross(k, pr, x) && x < next
    {
      WorkListIsCross(k, pr, i, x);
      CrossIsOld(k, pr, next, x);
    }
  }

  lemma HasDefinition(k: Kernel, pr: seq<ParallelRegion>, x: Name)
    requires Cross(k, pr, x)
    ensures exists b, j :: b in k.code && InRegion(pr, b) && 0 <= j < |k.code[b]| && Defines(k.code[b][j], x)
  {
    hide ReadIn, Defines;
    var b, d :| InRegion(pr, b) && InRegion(pr, d) && !SameRegion(pr, b, d) && ReadIn(k, x, b) && DefIn(k, x, d);
    var j :| 0 <= j < |Code(k, d)| && Defines(Code(k, d)[j], x);
    assert d in k.code && 0 <= j < |k.code[d]| && Defines(k.code[d][j], x);
  }

  lemma ReadyToSave(k: Kernel, n: Name, b: Block, j: nat)
    requires OneDefinition(k) && !SlotUsed(k, n) && b in k.code && j < |k.code[b]| && Defines(k.code[b][j], n)
    ensures SaveOk(k, n, b, j)
  {
    hide Defines, UsesSlot;
    assert Code(k, b)[j] == k.code[b][j];
    forall c, q | 0 <= q < |Phis(k, c)|
      ensures Phis(k, c)[q].dst != n
    {
      NoPhiOf(k, n, b, j, c, q);
    }
  }

  /** The values of `ns` are saved and no longer read across regions; other values and their
      users have not been touched. */
  ghost predicate Deployed(k: Kernel, k': Kernel, pr: seq<ParallelRegion>, ns: set<Name>, lo: Name) {
    && (forall x: Name :: x !in ns && x < lo ==> SameUses(k, k', x))
    && (forall x :: Cross(k', pr, x) ==> Cross(k, pr, x))
    && (forall x: Name :: x < lo && Saved(k, x) ==> Saved(k', x))
    && (forall x: Name :: x in ns ==> Saved(k', x) && !Cross(k', pr, x) && x < lo)
  }

  lemma DeployedNone(k: Kernel, pr: seq<ParallelRegion>, lo: Name)
    ensures Deployed(k, k, pr, {}, lo)
  {
  }

  lemma DeployedSaved(k: Kernel, k': Kernel, pr: seq<ParallelRegion>, ns: set<Name>, lo: Name)
    requires Deployed(k, k', pr, ns, lo)
    ensures forall x :: x in ns ==> Saved(k', x)
  {
    hide Saved;
  }

  lemma DeployedNext(k0: Kernel, k1: Kernel, k2: Kernel, pr: seq<ParallelRegion>, ns: set<Name>, lo: Name, n: Name,
                     lo1: Name)
    requires Deployed(k0, k1, pr, ns, lo) && Keeps(k1, k2, pr, n, lo1) && n < lo <= lo1
    requires Saved(k2, n) && !Cross(k2, pr, n)
    ensures Deployed(k0, k2, pr, ns + {n}, lo)
  {
    hide SameUses, Cross, Saved, SlotUsed;
    forall x: Name | x !in ns + {n} && x < lo
      ensures SameUses(k0, k2, x)
    {
      SameUsesTrans(k0, k1, k2, x);
    }
  }

  lemma DeployedTrans(k0: Kernel, k1: Kernel, k2: Kernel, pr: seq<ParallelRegion>, ns: set<Name>, lo: Name,
                      work: set<Name>, lo1: Name)
    requires Deployed(k0, k1, pr, ns, lo) && Deployed(k1, k2, pr, work, lo1) && lo <= lo1
    requires forall x: Name :: x in work ==> x < lo
    ensures Deployed(k0, k2, pr, ns + work, lo)
  {
    hide SameUses, Cross, Saved, SlotUsed;
    forall x: Name | x !in ns + work && x < lo
      ensures SameUses(k0, k2, x)
    {
      SameUsesTrans(k0, k1, k2, x);
    }
  }

  lemma CrossSame(k: Kernel, k': Kernel, pr: seq<ParallelRegion>, x: Name)
    requires SameUses(k, k', x) && Cross(k, pr, x)
    ensures Cross(k', pr, x)
  {
    hide ReadIn, DefIn;
  }

  lemma SingleSame(k: Kernel, k': Kernel, pr: seq<ParallelRegion>, x: Name)
    requires SameUses(k, k', x) && SingleIncoming(k, pr, x)
    ensures SingleIncoming(k', pr, x)
  {
    hide ReadIn, DefIn, InRegion;
    forall b, q, f, f' | InRegion(pr, b) && 0 <= q < |Phis(k', b)| && PhiReads(k', x, b, q, f)
           && PhiReads(k', x, b, q, f')
      ensures f == f'
    {
      assert PhiReads(k, x, b, q, f) && PhiReads(k, x, b, q, f');
      assert SingleIn(k, x, b);
      assert SingleAt(k, x, b, q);
    }
  }

  lemma SameUsesSymmetric(k: Kernel, k': Kernel, x: Name)
    requires SameUses(k, k', x)
    ensures SameUses(k', k, x)
  {
    hide ReadIn, DefIn, PhiReads;
  }

  /** A value that has not been buffered yet is as it was. */
  lemma StillCross(k0: Kernel, k: Kernel, pr: seq<ParallelRegion>, done: set<Name>, lo: Name, n: Name, next: Name)
    requires Deployed(k0, k, pr, done, lo) && Cross(k0, pr, n) && n < lo && SlotsApart(k, pr)
    ensures n !in done ==> Cross(k, pr, n) && !SlotUsed(k, n)
    ensures n !in done ==> (SingleIncoming(k0, pr, n) <==> SingleIncoming(k, pr, n))
  {
    hide SameUses, Cross, Saved, SlotUsed, SingleIncoming;
    if n !in done {
      CrossSame(k0, k, pr, n);
      SameUsesSymmetric(k0, k, n);
      if SingleIncoming(k0, pr, n) {
        SingleSame(k0, k, pr, n);
      }
      if SingleIncoming(k, pr, n) {
        SingleSame(k, k0, pr, n);
      }
    }
  }

  /** Nothing that the first i regions define is read across. */
  ghost predicate Clear(k: Kernel, pr: seq<ParallelRegion>, i: nat)
    requires i <= |pr|
  {
    forall x, i', d :: 0 <= i' < i && d in pr[i'].blocks && DefIn(k, x, d) ==> !Cross(k, pr, x)
  }

  lemma ClearNext(k0: Kernel, edits: seq<Edit>, k: Kernel, k': Kernel, pr: seq<ParallelRegion>, work: set<Name>,
                  next: Name, i: nat)
    requires Logged(k0, edits, k, next, pr) && i < |pr| && work == WorkList(k, pr, Involved(pr[i]))
    requires Clear(k, pr, i) && Deployed(k, k', pr, work, next)
    ensures Clear(k', pr, i + 1)
  {
    hide Logged, WorkList, RegionsOk, OneDefinition, Below, Cross, Saved, DefIn, SameUses, Inside, AllOk, Result;
    hide Unmentioned;
    LoggedFacts(k0, edits, k, next, pr);
    forall x, i', d | 0 <= i' < i + 1 && d in pr[i'].blocks && DefIn(k', x, d)
      ensures !Cross(k', pr, x)
    {
      if Cross(k', pr, x) {
        CrossIsOld(k, pr, next, x);
        DefSame(k, k', x, d);
        WorkListIsCross(k, pr, i, x);
      }
    }
  }

  lemma DefSame(k: Kernel, k': Kernel, x: Name, d: Block)
    requires SameUses(k, k', x)
    ensures DefIn(k, x, d) <==> DefIn(k', x, d)
  {
    hide DefIn, ReadIn;
  }

  lemma AllClear(k: Kernel, pr: seq<ParallelRegion>)
    requires Clear(k, pr, |pr|)
    ensures forall x :: !Cross(k, pr, x)
  {
    hide ReadIn, DefIn;
  }

  lemma LoggedStart(k0: Kernel, edits: seq<Edit>, k: Kernel, next: Name, pr: seq<ParallelRegion>)
    requires Logged(k0, edits, k, next, pr) && edits == []
    ensures k0 == k
  {
  }

  /** Single edges in the kernel that a deployment starts from and in the original. */
  lemma SameSingles(k0: Kernel, k: Kernel, pr: seq<ParallelRegion>, done: set<Name>, lo: Name, work: set<Name>,
                    next: Name)
    requires Deployed(k0, k, pr, done, lo) && Below(k0, lo) && SlotsApart(k, pr)
    requires forall x :: x in work ==> Cross(k, pr, x)
    ensures forall x: Name :: x in work ==>
              Cross(k0, pr, x) && x < lo && (SingleIncoming(k0, pr, x) <==> SingleIncoming(k, pr, x))
  {
    hide SameUses, Cross, Saved, SlotUsed, SingleIncoming, Below, SlotsApart;
    forall x: Name | x in work
      ensures Cross(k0, pr, x) && x < lo && (SingleIncoming(k0, pr, x) <==> SingleIncoming(k, pr, x))
    {
      CrossIsOld(k0, pr, lo, x);
      StillCross(k0, k, pr, done, lo, x, next);
    }
  }

  // ------------------------------------------------------------------- no reads are left

  ghost predicate NoPhiUse(k: Kernel, n: Name, b: Block, upTo: nat) {
    forall q :: 0 <= q < upTo && q < |Phis(k, b)| ==> !UsedByPhi(n, Phis(k, b)[q])
  }

  ghost predicate NoInstUse(k: Kernel, n: Name, b: Block, from: nat) {
    forall i :: from <= i < |Code(k, b)| && UsedBy(n, Code(k, b)[i]) ==> Code(k, b)[i] == Save(n, Reg(n))
  }

  /** Block b reads n only to save it. */
  ghost predicate NoUseIn(k: Kernel, n: Name, b: Block) {
    NoPhiUse(k, n, b, |Phis(k, b)|) && !UsedByTerm(n, Terminator(k, b)) && NoInstUse(k, n, b, 0)
  }

  lemma NoPhiUseStays(k: Kernel, e: Edit, b: Block, upTo: nat)
    requires EditOk(k, e) && InRange(k, e) && e.ReloadFor? && NoPhiUse(k, e.value, b, upTo)
    ensures NoPhiUse(Applied(k, e), e.value, b, upTo)
  {
    hide EditOk, Applied, Saved, Unmentioned, UserOk;
    var k' := Applied(k, e);
    RegIsNew(k, e);
    forall q | 0 <= q < upTo && q < |Phis(k', b)|
      ensures !UsedByPhi(e.value, Phis(k', b)[q])
    {
      PhiDstKept(k, e, b, q);
      assert !UsedByPhi(e.value, Phis(k, b)[q]);
      if f :| f in Phis(k', b)[q].incoming && Phis(k', b)[q].incoming[f] == Reg(e.value) {
        PhiReadsAfter(k, e, e.value, b, q, f);
      }
    }
  }

  lemma NoTermUseStays(k: Kernel, e: Edit, b: Block)
    requires EditOk(k, e) && InRange(k, e) && e.ReloadFor? && !UsedByTerm(e.value, Terminator(k, b))
    ensures !UsedByTerm(e.value, Terminator(Applied(k, e), b))
  {
    hide Saved, Unmentioned;
    SameElsewhere(k, e, b);
    RegIsNew(k, e);
  }

  lemma InstUseFrom(k: Kernel, e: Edit, b: Block, i: nat)
    requires EditOk(k, e) && InRange(k, e) && e.ReloadFor?
    requires i < |Code(Applied(k, e), b)| && UsedBy(e.value, Code(Applied(k, e), b)[i])
    ensures var o := if b == EditedBlock(e) && i > EditedPos(k, e) then i - 1 else i;
            && (b == EditedBlock(e) ==> i != EditedPos(k, e))
            && e.user != ByInst(b, o)
            && o < |Code(k, b)| && Code(Applied(k, e), b)[i] == Code(k, b)[o]
  {
    hide EditOk, Applied, Saved, Unmentioned, UserOk;
    RegIsNew(k, e);
    CodeAt(k, e, b, i);
    var o := if b == EditedBlock(e) && i > EditedPos(k, e) then i - 1 else i;
    if e.user == ByInst(b, o) {
      SubstUses(Code(k, b)[o], e.value, e.reg, e.value);
    }
  }

  lemma NoInstUseStays(k: Kernel, e: Edit, b: Block, from: nat)
    requires EditOk(k, e) && InRange(k, e) && e.ReloadFor? && NoInstUse(k, e.value, b, from)
    requires b == EditedBlock(e) ==> from <= EditedPos(k, e)
    ensures NoInstUse(Applied(k, e), e.value, b, from)
  {
    hide EditOk, Applied, Saved, Unmentioned, UserOk;
    forall i | from <= i < |Code(Applied(k, e), b)| && UsedBy(e.value, Code(Applied(k, e), b)[i])
      ensures Code(Applied(k, e), b)[i] == Save(e.value, Reg(e.value))
    {
      InstUseFrom(k, e, b, i);
    }
  }

  /** Rewriting the last reader leaves one reader less. */
  lemma OneUseLess(k: Kernel, e: Edit, b: Block, at: nat)
    requires EditOk(k, e) && InRange(k, e) && e.ReloadFor? && e.user == ByInst(b, at)
             && NoInstUse(k, e.value, b, at + 1)
    ensures NoInstUse(Applied(k, e), e.value, b, at)
  {
    hide EditOk, Applied, Saved, Unmentioned, UserOk;
    forall i | at <= i < |Code(Applied(k, e), b)| && UsedBy(e.value, Code(Applied(k, e), b)[i])
      ensures Code(Applied(k, e), b)[i] == Save(e.value, Reg(e.value))
    {
      InstUseFrom(k, e, b, i);
    }
  }

  lemma NoUseInStays(k: Kernel, e: Edit, b: Block)
    requires EditOk(k, e) && InRange(k, e) && e.ReloadFor? && NoUseIn(k, e.value, b)
    ensures NoUseIn(Applied(k, e), e.value, b)
  {
    hide EditOk, Applied, NoInstUse, NoPhiUse;
    NoPhiUseStays(k, e, b, |Phis(k, b)|);
    NoTermUseStays(k, e, b);
    NoInstUseStays(k, e, b, 0);
    SamePhiCount(k, e, b);
  }

  lemma SamePhiCount(k: Kernel, e: Edit, b: Block)
    requires InRange(k, e)
    ensures |Phis(Applied(k, e), b)| == |Phis(k, b)|
  {
  }

  lemma OnlySavesRead(k: Kernel, n: Name, b: Block) returns (i: nat)
    requires NoUseIn(k, n, b) && ReadIn(k, n, b)
    ensures i < |Code(k, b)| && Code(k, b)[i] == Save(n, Reg(n))
  {
    i :| 0 <= i < |Code(k, b)| && UsedBy(n, Code(k, b)[i]);
  }

  lemma SavedAtDefinition(k: Kernel, n: Name, b: Block, i: nat)
    requires Saved(k, n) && i < |Code(k, b)| && Code(k, b)[i] == Save(n, Reg(n))
    ensures DefIn(k, n, b)
  {
    hide Saved, Defines;
    SavesItself(k, n, b, i);
  }

  /** Once no looped block reads n but to save it, n is not read across regions. */
  lemma BufferedIsNotCross(k: Kernel, pr: seq<ParallelRegion>, n: Name)
    requires OneDefinition(k) && Saved(k, n)
    requires forall b :: InRegion(pr, b) ==> NoUseIn(k, n, b)
    ensures !Cross(k, pr, n)
  {
    hide OneDefinition, Saved, DefIn, ReadIn, InRegion, SameRegion, NoUseIn, SlotUsed;
    if b, d :| InRegion(pr, b) && InRegion(pr, d) && !SameRegion(pr, b, d) && ReadIn(k, n, b) && DefIn(k, n, d) {
      var i := OnlySavesRead(k, n, b);
      SavedAtDefinition(k, n, b, i);
      SameDefinition(k, n, b, d);
      InSameAsItself(pr, b);
    }
  }

  lemma InSameAsItself(pr: seq<ParallelRegion>, b: Block)
    requires InRegion(pr, b)
    ensures SameRegion(pr, b, b)
  {
  }

  // ----------------------------------------------------------------------------- the pass

  predicate HasDst(x: Inst) {
    x.Compute? || x.LocalId? || x.Load? || x.Reload?
  }

  function Dst(x: Inst): (d: Name)
    requires HasDst(x)
    ensures Defines(x, d)
  {
    x.dst
  }

  function Blocks(k: Kernel): set<Block> {
    k.phis.Keys + k.code.Keys + k.term.Keys
  }

  /** The state in which a method of the pass may leave the kernel while it buffers n. */
  ghost predicate Buffering(k0: Kernel, edits: seq<Edit>, k: Kernel, next: Name, pr: seq<ParallelRegion>,
                            n: Name, before: Kernel, lo: Name) {
    var ok :=
      && Logged(k0, edits, k, next, pr) && Saved(k, n) && LoopDefined(k, pr, n)
      && n < lo <= next && Keeps(before, k, pr, n, lo);
    ok
  }

  lemma BufferingEdit(k0: Kernel, edits: seq<Edit>, k: Kernel, next: Name, pr: seq<ParallelRegion>,
                      n: Name, before: Kernel, lo: Name, u: User)
    requires Buffering(k0, edits, k, next, pr, n, before, lo) && UserOk(k, n, u) && InRegion(pr, u.at)
    ensures var e := ReloadFor(n, u, next);
            && EditOk(k, e) && InRange(k, e)
            && Buffering(k0, edits + [e], Applied(k, e), next + 1, pr, n, before, lo)
  {
    hide Applied, AllOk, Result, RegionsOk, OneDefinition, Saved, Unmentioned, UserOk, Keeps, InRegion, InsideOne;
    hide LoopDefined;
    var e := ReloadFor(n, u, next);
    LoggedFacts(k0, edits, k, next, pr);
    ReloadsInside(k, pr, n, u, next);
    assert EditOk(k, e);
    EditInRange(k, e);
    StillLoopDefined(k, pr, e, n);
    LoggedEdit(k0, edits, k, next, pr, e);
    SavedStays(k, e, n);
    KeepsEdit(k, pr, e, next);
    KeepsTrans(before, k, Applied(k, e), pr, n, lo, next);
  }

  lemma StillLoopDefined(k: Kernel, pr: seq<ParallelRegion>, e: Edit, n: Name)
    requires EditOk(k, e) && InRange(k, e) && LoopDefined(k, pr, n)
    ensures LoopDefined(Applied(k, e), pr, n)
  {
    hide EditOk, Applied, DefIn, InRegion;
    var d :| InRegion(pr, d) && DefIn(k, n, d);
    DefsAfter(k, e, n, d);
  }

  /** The block that a reload goes to lies in the region of its user. */
  lemma ReloadsInside(k: Kernel, pr: seq<ParallelRegion>, n: Name, u: User, r: Name)
    requires RegionsOk(k, pr) && UserOk(k, n, u) && InRegion(pr, u.at) && LoopDefined(k, pr, n)
    ensures InsideOne(pr, ReloadFor(n, u, r))
  {
    hide LoopDefined;
    InSameAsItself(pr, u.at);
    if u.ByPhi? {
      assert PhiReads(k, n, u.at, u.pos, u.from);
    }
  }

  lemma LoggedFacts(k0: Kernel, edits: seq<Edit>, k: Kernel, next: Name, pr: seq<ParallelRegion>)
    requires Logged(k0, edits, k, next, pr)
    ensures AllOk(k0, edits) && k == Result(k0, edits) && RegionsOk(k, pr) && OneDefinition(k) && Unmentioned(k, next)
    ensures Below(k, next) && Inside(pr, edits)
  {
  }

  class CondBarrier {
    var kernel: Kernel
    const PR: seq<ParallelRegion>   // the regions that get a loop
    var next: Name                  // names of new registers start here
    ghost var edits: seq<Edit>
    ghost const original: Kernel

    ghost predicate Consistent()
      reads this
    {
      Logged(original, edits, kernel, next, PR)
    }

    constructor (f: Kernel, regions: seq<ParallelRegion>, firstFree: Name)
      requires RegionsOk(f, regions) && OneDefinition(f) && Below(f, firstFree)
      ensures Consistent() && kernel == original == f && PR == regions && next == firstFree && edits == []
    {
      kernel, original, PR, next, edits := f, f, regions, firstFree, [];
    }

    /** Stores the value to its slot right behind its definition. */
    method DoContextStore(n: Name, b: Block, j: nat)
      requires Consistent() && SaveOk(kernel, n, b, j) && n < next && InRegion(PR, b)
      modifies this
      ensures Buffering(original, edits, kernel, next, PR, n, old(kernel), next) && next == old(next)
      ensures kernel == Applied(old(kernel), SaveAfter(n, b, j)) && edits == old(edits) + [SaveAfter(n, b, j)]
    {
      hide Logged, Applied, SaveOk, Keeps, Saved, InRegion, LoopDefined;
      ghost var e := SaveAfter(n, b, j);
      SaveOkInRange(kernel, n, b, j);
      LoggedFacts(original, edits, kernel, next, PR);
      LoggedEdit(original, edits, kernel, next, PR, e);
      SaveMakesSaved(kernel, e);
      DefinedForSave(kernel, PR, n, b, j);
      StillLoopDefined(kernel, PR, e, n);
      KeepsEdit(kernel, PR, e, next);
      SaveApplied(kernel, n, b, j);
      var code := kernel.code[b];
      kernel := kernel.(code := kernel.code[b := code[..j + 1] + [Save(n, Reg(n))] + code[j + 1..]]);
      edits := edits + [e];
    }

    /** Reloads the value into a new register in front of the user, which then reads that. */
    method DoContextReload(n: Name, u: User, ghost before: Kernel, ghost lo: Name)
      requires Buffering(original, edits, kernel, next, PR, n, before, lo) && UserOk(kernel, n, u)
      requires InRegion(PR, u.at)
      modifies this
      ensures Buffering(original, edits, kernel, next, PR, n, before, lo)
      ensures EditOk(old(kernel), ReloadFor(n, u, old(next))) && InRange(old(kernel), ReloadFor(n, u, old(next)))
      ensures kernel == Applied(old(kernel), ReloadFor(n, u, old(next)))
    {
      hide Buffering, UserOk, EditOk, InRegion;
      var e := ReloadFor(n, u, next);
      BufferingEdit(original, edits, kernel, next, PR, n, before, lo, u);
      var b := EditedBlock(e);
      var code, i := Code(kernel, b), EditedPos(kernel, e);
      var users, term, phis := code, kernel.term, kernel.phis;
      match u {
        case ByInst(_, pos) => users := code[pos := SubstInst(code[pos], n, next)];
        case ByTerm(_) => term := term[b := SubstTerm(Terminator(kernel, b), n, next)];
        case ByPhi(c, q, _) => phis := phis[c := Phis(kernel, c)[q := SubstPhi(Phis(kernel, c)[q], n, next)]];
      }
      kernel := kernel.(phis := phis, code := kernel.code[b := users[..i] + [Reload(next, n)] + users[i..]],
        term := term);
      next, edits := next + 1, edits + [e];
    }

    /** Breaks the PHIs of a block off the value. A PHI that receives it along two edges is
        beyond the pass: one reload stands for all its uses, and the second is not found. */
    method ReloadForPhis(n: Name, b: Block, ghost before: Kernel, ghost lo: Name) returns (ok: bool)
      requires Buffering(original, edits, kernel, next, PR, n, before, lo) && InRegion(PR, b)
      modifies this
      ensures Buffering(original, edits, kernel, next, PR, n, before, lo) && Aside(old(kernel), kernel, n, b)
      ensures ok <==> SingleIn(old(kernel), n, b)
      ensures ok ==> NoPhiUse(kernel, n, b, |Phis(kernel, b)|)
    {
      hide Buffering, NoUseIn, Applied, EditOk, UserOk, SingleAt, UsedByPhi, Aside, NoPhiUse, InRegion;
      NoPhiYet(kernel, n, b);
      ghost var k0 := kernel;
      AsideSelf(k0, n, b);
      var q := 0;
      while q < |Phis(kernel, b)|
        invariant 0 <= q <= |Phis(kernel, b)| == |Phis(k0, b)|
        invariant Buffering(original, edits, kernel, next, PR, n, before, lo) && Aside(k0, kernel, n, b)
        invariant NoPhiUse(kernel, n, b, q)
        invariant forall q' :: q <= q' < |Phis(k0, b)| ==> Phis(kernel, b)[q'] == Phis(k0, b)[q']
        invariant forall q' :: 0 <= q' < q ==> SingleAt(k0, n, b, q')
      {
        var p := Phis(kernel, b)[q];
        var fs := set f | f in p.incoming && p.incoming[f] == Reg(n);
        assert EdgesOf(kernel, n, b, q, fs);
        if fs != {} {
          var f :| f in fs;
          SecondEdge(k0, kernel, n, b, q, fs, f);
          if fs != {f} {
            return false;
          }
          ghost var k1, e := kernel, ReloadFor(n, ByPhi(b, q, f), next);
          DoContextReload(n, ByPhi(b, q, f), before, lo);
          AsideEdit(k0, k1, e, n, b);
          PhiDone(k1, e, b, q);
        } else {
          NoEdge(k0, kernel, n, b, q);
        }
        q := q + 1;
      }
      return true;
    }

    /** All reads of the value in a block, the instructions from the last to the first. */
    method ReloadInBlock(n: Name, b: Block, ghost before: Kernel, ghost lo: Name) returns (ok: bool)
      requires Buffering(original, edits, kernel, next, PR, n, before, lo) && InRegion(PR, b)
      modifies this
      ensures Buffering(original, edits, kernel, next, PR, n, before, lo) && Aside(old(kernel), kernel, n, b)
      ensures ok <==> SingleIn(old(kernel), n, b)
      ensures ok ==> NoUseIn(kernel, n, b)
    {
      hide Buffering, Applied, EditOk, SingleIn, UsedByPhi, Aside, NoPhiUse, NoInstUse, InRegion;
      ghost var k0 := kernel;
      ok := ReloadForPhis(n, b, before, lo);
      if !ok {
        return;
      }
      if UsedByTerm(n, Terminator(kernel, b)) {
        ghost var k1, e := kernel, ReloadFor(n, ByTerm(b), next);
        DoContextReload(n, ByTerm(b), before, lo);
        AsideEdit(k0, k1, e, n, b);
        NoPhiUseStays(k1, e, b, |Phis(k1, b)|);
        SamePhiCount(k1, e, b);
        TermDone(k1, e, b);
      }
      var i: nat := |Code(kernel, b)|;
      NoInstBeyond(kernel, n, b);
      while i > 0
        invariant i <= |Code(kernel, b)|
        invariant Buffering(original, edits, kernel, next, PR, n, before, lo) && Aside(k0, kernel, n, b)
        invariant NoPhiUse(kernel, n, b, |Phis(kernel, b)|) && !UsedByTerm(n, Terminator(kernel, b))
        invariant NoInstUse(kernel, n, b, i)
      {
        i := i - 1;
        if UsedBy(n, Code(kernel, b)[i]) && Code(kernel, b)[i] != Save(n, Reg(n)) {
          ghost var k1, e := kernel, ReloadFor(n, ByInst(b, i), next);
          DoContextReload(n, ByInst(b, i), before, lo);
          AsideEdit(k0, k1, e, n, b);
          NoPhiUseStays(k1, e, b, |Phis(k1, b)|);
          SamePhiCount(k1, e, b);
          NoTermUseStays(k1, e, b);
          OneUseLess(k1, e, b, i);
          CodeAt(k1, e, b, i);
        } else {
          NoInstUseAt(kernel, n, b, i);
        }
      }
    }

    /** Saves the value behind its definition and reloads it in front of every user in a looped
        region. Users elsewhere go on to read the register. */
    method PerformContextBuffering(n: Name, b: Block, j: nat) returns (ok: bool)
      requires Consistent() && SlotsApart(kernel, PR) && SaveOk(kernel, n, b, j) && n < next
      requires InRegion(PR, b)
      modifies this
      ensures Consistent() && old(next) <= next
      ensures ok <==> SingleIncoming(old(kernel), PR, n)
      ensures ok ==> Saved(kernel, n) && !Cross(kernel, PR, n)
      ensures ok ==> Keeps(old(kernel), kernel, PR, n, old(next)) && SlotsApart(kernel, PR)
    {
      hide Logged, Applied, SaveOk, Keeps, SlotsApart, NoUseIn, SingleIn, Aside, Saved, Cross;
      ghost var k0, lo, e := kernel, next, SaveAfter(n, b, j);
      SaveOkInRange(kernel, n, b, j);
      DoContextStore(n, b, j);
      var todo := set c | c in Blocks(kernel) && InRegion(PR, c);
      NothingElsewhere(kernel, n, todo);
      PhisOfSave(k0, e);
      while todo != {}
        invariant Buffering(original, edits, kernel, next, PR, n, k0, lo)
        invariant forall c :: InRegion(PR, c) && c !in todo ==> NoUseIn(kernel, n, c) && SingleIn(k0, n, c)
        invariant forall c :: c in todo ==> InRegion(PR, c) && Phis(kernel, c) == Phis(k0, c)
        decreases todo
      {
        var c :| c in todo;
        ghost var k1 := kernel;
        SameSingle(k0, kernel, n, c);
        ok := ReloadInBlock(n, c, k0, lo);
        if !ok {
          return;
        }
        AsideFacts(k1, kernel, n, c);
        todo := todo - {c};
      }
      BufferingDone(original, edits, kernel, next, PR, n, k0, lo);
      return true;
    }

    /** Buffers every value that the region computes and another looped region reads. */
    method DeployRegionContext(i: nat) returns (ok: bool)
      requires Consistent() && SlotsApart(kernel, PR) && i < |PR|
      modifies this
      ensures Consistent() && old(next) <= next
      ensures var work := WorkList(old(kernel), PR, Involved(PR[i]));
              && (ok <==> forall x :: x in work ==> SingleIncoming(old(kernel), PR, x))
              && (ok ==> Deployed(old(kernel), kernel, PR, work, old(next)) && SlotsApart(kernel, PR))
    {
      hide Logged, Keeps, SlotsApart, SameUses, Saved, Cross, WorkList, SingleIncoming, Deployed, DefIn;
      ghost var k0, lo := kernel, next;
      var work := WorkList(kernel, PR, Involved(PR[i]));
      ghost var all, done := work, {};
      WorkListFacts(original, edits, kernel, next, PR, i);
      DeployedNone(k0, PR, lo);
      while work != {}
        invariant Consistent() && SlotsApart(kernel, PR) && lo <= next
        invariant done + work == all && done !! work
        invariant forall x: Name :: x in work ==> Cross(k0, PR, x) && x < lo
        invariant Deployed(k0, kernel, PR, done, lo)
        invariant forall x :: x in done ==> SingleIncoming(k0, PR, x)
        decreases work
      {
        var n :| n in work;
        StillCross(k0, kernel, PR, done, lo, n, next);
        HasDefinition(kernel, PR, n);
        var b, j :| b in kernel.code && InRegion(PR, b) && 0 <= j < |kernel.code[b]| && Defines(kernel.code[b][j], n);
        LoggedFacts(original, edits, kernel, next, PR);
        ReadyToSave(kernel, n, b, j);
        ghost var k1, next1 := kernel, next;
        ok := PerformContextBuffering(n, b, j);
        if !ok {
          return;
        }
        DeployedNext(k0, k1, kernel, PR, done, lo, n, next1);
        work, done := work - {n}, done + {n};
      }
      assert done == all;
      return true;
    }

    /** Deploys the regions one after the other. Afterwards no looped region reads directly what
        another computes, other than through a PHI; what was read so is saved to its slots. The
        pass gives up exactly when such a value comes to a PHI along two edges. */
    method BufferContexts() returns (ok: bool)
      requires Consistent() && edits == [] && SlotsApart(kernel, PR)
      modifies this
      ensures Consistent() && original == old(kernel)
      ensures ok <==> forall x :: Cross(old(kernel), PR, x) ==> SingleIncoming(old(kernel), PR, x)
      ensures ok ==> forall x :: !Cross(kernel, PR, x)
      ensures ok ==> forall x :: Cross(old(kernel), PR, x) ==> Saved(kernel, x)
    {
      hide Logged, Keeps, SlotsApart, SameUses, Saved, Cross, WorkList, SingleIncoming, Deployed, DefIn, SlotUsed;
      hide Below, RegionsOk, OneDefinition, AllOk, Result, Unmentioned;
      ghost var k0, lo, done := kernel, next, {};
      DeployedNone(k0, PR, lo);
      LoggedStart(original, edits, kernel, next, PR);
      LoggedFacts(original, edits, kernel, next, PR);
      var i := 0;
      while i < |PR|
        invariant 0 <= i <= |PR|
        invariant Consistent() && SlotsApart(kernel, PR) && lo <= next
        invariant Deployed(k0, kernel, PR, done, lo) && Clear(kernel, PR, i)
        invariant forall x :: x in done ==> SingleIncoming(k0, PR, x)
      {
        ghost var k1, lo1, edits1, work := kernel, next, edits, WorkList(kernel, PR, Involved(PR[i]));
        WorkListFacts(original, edits, kernel, next, PR, i);
        SameSingles(k0, k1, PR, done, lo, work, next);
        ok := DeployRegionContext(i);
        if !ok {
          return;
        }
        ClearNext(original, edits1, k1, kernel, PR, work, lo1, i);
        DeployedTrans(k0, k1, kernel, PR, done, lo, work, lo1);
        done := done + work;
        i := i + 1;
      }
      AllClear(kernel, PR);
      forall x | Cross(k0, PR, x)
        ensures x in done
      {
        CrossIsOld(k0, PR, lo, x);
        StillCross(k0, kernel, PR, done, lo, x, next);
      }
      DeployedSaved(k0, kernel, PR, done, lo);
      return true;
    }
  }

  lemma SaveOkInRange(k: Kernel, n: Name, b: Block, j: nat)
    requires SaveOk(k, n, b, j)
    ensures b in k.code && j < |k.code[b]| && EditOk(k, SaveAfter(n, b, j)) && InRange(k, SaveAfter(n, b, j))
  {
  }

  lemma DefinedForSave(k: Kernel, pr: seq<ParallelRegion>, n: Name, b: Block, j: nat)
    requires SaveOk(k, n, b, j) && InRegion(pr, b)
    ensures LoopDefined(k, pr, n)
  {
    hide InRegion;
    assert DefIn(k, n, b);
  }

  lemma SaveApplied(k: Kernel, n: Name, b: Block, j: nat)
    requires b in k.code && j < |k.code[b]|
    ensures var code := k.code[b];
            Applied(k, SaveAfter(n, b, j)) == k.(code := k.code[b := code[..j + 1] + [Save(n, Reg(n))] + code[j + 1..]])
  {
  }

  /** What reloads for the users in block b leave as it was. */
  ghost predicate Aside(k: Kernel, k': Kernel, n: Name, b: Block) {
    && (forall c :: c != b ==> Phis(k', c) == Phis(k, c))
    && (forall c :: NoUseIn(k, n, c) ==> NoUseIn(k', n, c))
  }

  lemma AsideSelf(k: Kernel, n: Name, b: Block)
    ensures Aside(k, k, n, b)
  {
  }

  lemma AsideFacts(k: Kernel, k': Kernel, n: Name, b: Block)
    requires Aside(k, k', n, b)
    ensures forall c :: c != b ==> Phis(k', c) == Phis(k, c)
    ensures forall c :: NoUseIn(k, n, c) ==> NoUseIn(k', n, c)
  {
  }

  lemma AsideEdit(k0: Kernel, k: Kernel, e: Edit, n: Name, b: Block)
    requires Aside(k0, k, n, b) && EditOk(k, e) && InRange(k, e) && e.ReloadFor? && e.value == n && e.user.at == b
    ensures Aside(k0, Applied(k, e), n, b)
  {
    hide EditOk, NoUseIn, Applied;
    forall c
      ensures c != b ==> Phis(Applied(k, e), c) == Phis(k0, c)
      ensures NoUseIn(k0, n, c) ==> NoUseIn(Applied(k, e), n, c)
    {
      SameElsewhere(k, e, c);
      if NoUseIn(k0, n, c) {
        NoUseInStays(k, e, c);
      }
    }
  }

  ghost predicate EdgesOf(k: Kernel, n: Name, b: Block, q: nat, fs: set<Block>) {
    q < |Phis(k, b)| && forall f :: f in fs <==> f in Phis(k, b)[q].incoming && Phis(k, b)[q].incoming[f] == Reg(n)
  }

  lemma SecondEdge(k0: Kernel, k: Kernel, n: Name, b: Block, q: nat, fs: set<Block>, f: Block)
    requires EdgesOf(k, n, b, q, fs) && q < |Phis(k0, b)| && Phis(k, b)[q] == Phis(k0, b)[q] && f in fs
    ensures SingleAt(k0, n, b, q) <==> fs == {f}
    ensures fs == {f} ==> UserOk(k, n, ByPhi(b, q, f))
  {
    assert forall f' :: f' in fs <==> PhiReads(k0, n, b, q, f');
    if f' :| f' in fs && f' != f {
      assert PhiReads(k0, n, b, q, f') && PhiReads(k0, n, b, q, f);
    }
  }

  lemma NoEdge(k0: Kernel, k: Kernel, n: Name, b: Block, q: nat)
    requires EdgesOf(k, n, b, q, {}) && q < |Phis(k0, b)| && Phis(k, b)[q] == Phis(k0, b)[q] && NoPhiUse(k, n, b, q)
    ensures SingleAt(k0, n, b, q) && NoPhiUse(k, n, b, q + 1)
  {
  }

  lemma PhiDone(k: Kernel, e: Edit, b: Block, q: nat)
    requires EditOk(k, e) && InRange(k, e) && e.ReloadFor? && e.user.ByPhi? && e.user.at == b && e.user.pos == q
    requires NoPhiUse(k, e.value, b, q)
    ensures var phis := Phis(Applied(k, e), b);
            |phis| == |Phis(k, b)| && forall q' :: q < q' < |phis| ==> phis[q'] == Phis(k, b)[q']
    ensures NoPhiUse(Applied(k, e), e.value, b, q + 1)
  {
    hide EditOk, NoPhiUse;
    RegIsNew(k, e);
    NoPhiUseStays(k, e, b, q);
    assert Phis(Applied(k, e), b) == Phis(k, b)[q := SubstPhi(Phis(k, b)[q], e.value, e.reg)];
    NoPhiUseNext(Applied(k, e), e.value, b, q);
  }

  lemma NoPhiYet(k: Kernel, n: Name, b: Block)
    ensures NoPhiUse(k, n, b, 0)
  {
  }

  lemma NoPhiUseNext(k: Kernel, n: Name, b: Block, q: nat)
    requires q < |Phis(k, b)| && NoPhiUse(k, n, b, q) && !UsedByPhi(n, Phis(k, b)[q])
    ensures NoPhiUse(k, n, b, q + 1)
  {
  }

  lemma TermDone(k: Kernel, e: Edit, b: Block)
    requires EditOk(k, e) && InRange(k, e) && e.ReloadFor? && e.user == ByTerm(b)
    ensures !UsedByTerm(e.value, Terminator(Applied(k, e), b))
  {
    hide EditOk;
    RegIsNew(k, e);
  }

  lemma NoInstBeyond(k: Kernel, n: Name, b: Block)
    ensures NoInstUse(k, n, b, |Code(k, b)|)
  {
  }

  lemma NoInstUseAt(k: Kernel, n: Name, b: Block, i: nat)
    requires i < |Code(k, b)| && NoInstUse(k, n, b, i + 1)
             && (UsedBy(n, Code(k, b)[i]) ==> Code(k, b)[i] == Save(n, Reg(n)))
    ensures NoInstUse(k, n, b, i)
  {
  }

  lemma NothingElsewhere(k: Kernel, n: Name, todo: set<Block>)
    ensures forall c :: c !in Blocks(k) ==> NoUseIn(k, n, c)
  {
  }

  lemma PhisOfSave(k: Kernel, e: Edit)
    requires InRange(k, e) && e.SaveAfter?
    ensures forall c :: Phis(Applied(k, e), c) == Phis(k, c)
    ensures forall c, n :: c !in Blocks(Applied(k, e)) ==> SingleIn(k, n, c)
  {
  }

  lemma SameSingle(k: Kernel, k': Kernel, n: Name, c: Block)
    requires Phis(k', c) == Phis(k, c)
    ensures SingleIn(k', n, c) <==> SingleIn(k, n, c)
  {
    assert forall q: nat, f :: PhiReads(k, n, c, q, f) <==> PhiReads(k', n, c, q, f);
    assert forall q: nat :: SingleAt(k, n, c, q) <==> SingleAt(k', n, c, q);
  }

  lemma BufferingDone(k0: Kernel, edits: seq<Edit>, k: Kernel, next: Name, pr: seq<ParallelRegion>,
                      n: Name, before: Kernel, lo: Name)
    requires Buffering(k0, edits, k, next, pr, n, before, lo) && SlotsApart(before, pr)
    requires forall b :: InRegion(pr, b) ==> NoUseIn(k, n, b)
    ensures Logged(k0, edits, k, next, pr) && lo <= next
    ensures Saved(k, n) && !Cross(k, pr, n) && Keeps(before, k, pr, n, lo) && SlotsApart(k, pr)
  {
    hide AllOk, Result, RegionsOk, OneDefinition, Saved, Unmentioned, Cross, SameUses, NoUseIn, SlotUsed, Below;
    BufferedIsNotCross(k, pr, n);
  }
}
