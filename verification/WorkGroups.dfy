/** Coarsening as a whole: what is assumed is about the kernel as it was written, and the items
    begin at its entry. For this, the visits that items make to regions of the original are
    matched by visits of the buffered kernel, inserted instructions in between. */
module WorkGroups {
  import opened Graphs
  import opened WorkItems
  import opened Interleaving
  import opened Contexts
  import opened ContextBuffering
  import opened ContextPass
  import opened SharedRegisters
  import opened UniformStretch
  import opened Coarsening

  // ------------------------------------------------------- one item, one step of the original

  /** A branch of the result is a branch of the original. */
  lemma {:induction false} BranchIsReal(k: Kernel, edits: seq<Edit>, id: nat, l: Local, m: Memory)
    requires AllOk(k, edits) && Invs(k, edits, id, l, m) && !AtInst(Result(k, edits), l)
    ensures !AtInst(k, Before(k, edits, l))
    ensures var (l', m') := Step(Result(k, edits), id, l, m);
            (Before(k, edits, l'), BeforeMem(edits, m')) == Step(k, id, Before(k, edits, l), BeforeMem(edits, m))
    decreases |edits|
  {
    hide AllOk, EditOk, Applied, Step, Stopped, Back, BackMem, Inv, AtInst, AtAdded;
    if edits != [] {
      var init, e := edits[..|edits| - 1], edits[|edits| - 1];
      var k1 := Result(k, init);
      LastEdit(k, edits);
      AtAddedIsInst(k1, e, l);
      StepBack(k1, e, id, l, m);
      TermBack(k1, e, id, l, m);
      BranchIsReal(k, init, id, Back(k1, e, l), BackMem(e, m));
    }
  }

  lemma {:induction false} BeforeAt(k: Kernel, edits: seq<Edit>, l: Local)
    ensures Before(k, edits, l).at == l.at
    ensures l.pc == 0 ==> Before(k, edits, l).pc == 0
    decreases |edits|
  {
    hide Applied, EditedPos, EditedBlock;
    if edits != [] {
      BeforeAt(k, edits[..|edits| - 1], Back(Result(k, edits[..|edits| - 1]), edits[|edits| - 1], l));
    }
  }

  /** The item makes steps in its block until it has made the step that it makes in the original. */
  lemma {:induction false} StepBuffered(k: Kernel, edits: seq<Edit>, id: nat, l: Local, m: Memory) returns (n: nat)
    requires AllOk(k, edits) && Invs(k, edits, id, l, m) && !Stopped(k, Before(k, edits, l))
    ensures n > 0
    ensures forall i :: 0 <= i < n ==>
              var x := Alone(Result(k, edits), id, l, m, i).0; x.at == l.at && !Stopped(Result(k, edits), x)
    ensures var (l', m') := Alone(Result(k, edits), id, l, m, n);
            && Invs(k, edits, id, l', m')
            && (Before(k, edits, l'), BeforeMem(edits, m')) == Step(k, id, Before(k, edits, l), BeforeMem(edits, m))
            && (l'.at != l.at ==> l'.pc == 0)
    decreases if l.pc < |Code(Result(k, edits), l.at)| then |Code(Result(k, edits), l.at)| - l.pc else 0
  {
    hide AllOk, Result, Invs, Before, BeforeMem;
    var k' := Result(k, edits);
    StepBefore(k, edits, id, l, m);
    var (l1, m1) := Step(k', id, l, m);
    assert Alone(k', id, l, m, 0) == (l, m) && Alone(k', id, l, m, 1) == (l1, m1);
    if (Before(k, edits, l1), BeforeMem(edits, m1)) == Step(k, id, Before(k, edits, l), BeforeMem(edits, m)) {
      n := 1;
    } else {
      if !AtInst(k', l) {
        BranchIsReal(k, edits, id, l, m);
      }
      assert l1.at == l.at && l1.pc == l.pc + 1;
      var n1 := StepBuffered(k, edits, id, l1, m1);
      n := n1 + 1;
      AloneAfterStep(k', id, l, m, n1);
      forall i | 0 <= i < n
        ensures Alone(k', id, l, m, i).0.at == l.at && !Stopped(k', Alone(k', id, l, m, i).0)
      {
        if i > 0 {
          AloneAfterStep(k', id, l, m, i - 1);
        }
      }
    }
  }

  lemma {:induction false} AloneOn(k: Kernel, id: nat, l: Local, m: Memory, a: nat, b: nat)
    ensures var (l', m') := Alone(k, id, l, m, a);
            Alone(k, id, l, m, a + b) == Alone(k, id, l', m', b)
    decreases b
  {
    if b > 0 {
      AloneOn(k, id, l, m, a, b - 1);
      var (l', m') := Alone(k, id, l, m, a);
      assert Alone(k, id, l', m', b) == Step(k, id, Alone(k, id, l', m', b - 1).0, Alone(k, id, l', m', b - 1).1);
      assert Alone(k, id, l, m, a + b)
             == Step(k, id, Alone(k, id, l, m, a + (b - 1)).0, Alone(k, id, l, m, a + (b - 1)).1);
    }
  }

  // --------------------------------------------------------------------------- one visit

  /** Item `id` stays in the region and does not stop for n steps. */
  ghost predicate Stays(k: Kernel, r: ParallelRegion, id: nat, l: Local, m: Memory, n: nat) {
    forall i :: 0 <= i < n ==> Alone(k, id, l, m, i).0.at in r.blocks && !Stopped(k, Alone(k, id, l, m, i).0)
  }

  /** Item `id`, n' steps from l in the result, is where it is n steps on in the original. */
  ghost predicate Arrived(k: Kernel, edits: seq<Edit>, id: nat, l: Local, m: Memory, n: nat, n': nat) {
    var (l', m') := Alone(Result(k, edits), id, l, m, n');
    && Invs(k, edits, id, l', m')
    && (Before(k, edits, l'), BeforeMem(edits, m')) == Alone(k, id, Before(k, edits, l), BeforeMem(edits, m), n)
  }

  lemma StaysOn(k: Kernel, r: ParallelRegion, id: nat, l: Local, m: Memory, a: nat, b: nat)
    requires Stays(k, r, id, l, m, a)
    requires var (l', m') := Alone(k, id, l, m, a); Stays(k, r, id, l', m', b)
    ensures Stays(k, r, id, l, m, a + b)
  {
    hide Alone, Stopped;
    forall i | 0 <= i < a + b
      ensures Alone(k, id, l, m, i).0.at in r.blocks && !Stopped(k, Alone(k, id, l, m, i).0)
    {
      if i >= a {
        AloneOn(k, id, l, m, a, i - a);
      }
    }
  }

  lemma {:induction false} StaysBuffered(k: Kernel, edits: seq<Edit>, r: ParallelRegion, id: nat, l: Local, m: Memory,
                                         n: nat)
    returns (n': nat)
    requires AllOk(k, edits) && Invs(k, edits, id, l, m)
    requires Stays(k, r, id, Before(k, edits, l), BeforeMem(edits, m), n)
    ensures Stays(Result(k, edits), r, id, l, m, n') && Arrived(k, edits, id, l, m, n, n')
    ensures n > 0 ==> n' > 0
    ensures var x := Alone(Result(k, edits), id, l, m, n').0; n > 0 && x.at !in r.blocks ==> x.pc == 0
    decreases n
  {
    hide AllOk, Result, Invs, Before, BeforeMem, Stopped, Step;
    var k' := Result(k, edits);
    if n == 0 {
      n' := 0;
    } else {
      var n1 := StaysBuffered(k, edits, r, id, l, m, n - 1);
      var (l1, m1) := Alone(k', id, l, m, n1);
      BeforeAt(k, edits, l1);
      assert Alone(k, id, Before(k, edits, l), BeforeMem(edits, m), n - 1).0.at in r.blocks;
      var n2 := StepBuffered(k, edits, id, l1, m1);
      n' := n1 + n2;
      AloneOn(k', id, l, m, n1, n2);
      StaysOn(k', r, id, l, m, n1, n2);
    }
  }

  lemma {:induction false} SamePhiCounts(k: Kernel, edits: seq<Edit>, b: Block)
    requires AllOk(k, edits)
    ensures |Phis(Result(k, edits), b)| == |Phis(k, b)|
    decreases |edits|
  {
    hide AllOk, EditOk, Applied;
    if edits != [] {
      var init := edits[..|edits| - 1];
      LastEdit(k, edits);
      SamePhiCount(Result(k, init), edits[|edits| - 1], b);
      SamePhiCounts(k, init, b);
    }
  }

  /** Every visit of the original is matched by a visit of the result. */
  lemma VisitBuffered(k: Kernel, edits: seq<Edit>, r: ParallelRegion, id: nat, l: Local, m: Memory, n: nat)
    returns (n': nat)
    requires AllOk(k, edits) && Invs(k, edits, id, l, m)
    requires Leaves(k, r, id, Before(k, edits, l), BeforeMem(edits, m), n)
    ensures Leaves(Result(k, edits), r, id, l, m, n') && Arrived(k, edits, id, l, m, n, n')
    ensures Alone(Result(k, edits), id, l, m, n').0.pc == 0
  {
    hide AllOk, Result, Invs, Before, BeforeMem, Stopped, Alone;
    n' := StaysBuffered(k, edits, r, id, l, m, n);
    var l' := Alone(Result(k, edits), id, l, m, n').0;
    BeforeAt(k, edits, l');
    SamePhiCounts(k, edits, l'.at);
  }

  // ----------------------------------------------------------------------- all items visit

  lemma {:induction false} InvsBesideVisit(k: Kernel, edits: seq<Edit>, id: nat, l: Local, m: Memory, id': nat,
                                           l': Local,
                                           n: nat)
    requires AllOk(k, edits) && Invs(k, edits, id, l, m) && id != id' && Invs(k, edits, id', l', m)
    ensures var (l1, m1) := Alone(Result(k, edits), id, l, m, n);
            Invs(k, edits, id, l1, m1) && Invs(k, edits, id', l', m1)
    decreases n
  {
    hide AllOk, Result, Invs, Step, Before, BeforeMem, Stopped;
    if n > 0 {
      InvsBesideVisit(k, edits, id, l, m, id', l', n - 1);
      var (l1, m1) := Alone(Result(k, edits), id, l, m, n - 1);
      StepBefore(k, edits, id, l1, m1);
      InvsBesideStep(k, edits, id, l1, m1, id', l');
    }
  }

  /** The loop over the first w items depends on how long these visit only. */
  lemma {:induction false} LoopPrefix(k: Kernel, items: seq<Local>, m: Memory, ns: seq<nat>, at: nat, n: nat, w: nat)
    requires w <= at < |items| == |ns|
    ensures PrivateLoop(k, items, m, ns[at := n], w) == PrivateLoop(k, items, m, ns, w)
    decreases w
  {
    hide Alone;
    if w > 0 {
      LoopPrefix(k, items, m, ns, at, n, w - 1);
    }
  }

  ghost predicate AtStart(items: seq<Local>, w: nat) {
    forall v :: 0 <= v < w && v < |items| ==> items[v].pc == 0
  }

  /** After w visits, in the result for s and in the original for what s stands for. */
  ghost predicate InLockstep(k: Kernel, edits: seq<Edit>, s: State, ns': seq<nat>, ns: seq<nat>, w: nat)
    requires w <= |s.items| == |ns| == |ns'|
  {
    var o := BeforeState(k, edits, s);
    var (done', m') := PrivateLoop(Result(k, edits), s.items, s.mem, ns', w);
    var (done, m) := PrivateLoop(k, o.items, o.mem, ns, w);
    && GroupInvs(k, edits, State(done', m')) && BeforeState(k, edits, State(done', m')) == State(done, m)
    && AtStart(done', w)
  }

  lemma AllLeaveNext(k: Kernel, r: ParallelRegion, items: seq<Local>, m: Memory, ns: seq<nat>, n: nat, w: nat)
    requires w < |items| == |ns| && AllLeave(k, r, items, m, ns, w)
    requires items[w].at == r.entry && items[w].pc == 0
    requires Leaves(k, r, w, items[w], PrivateLoop(k, items, m, ns, w).1, n)
    ensures AllLeave(k, r, items, m, ns[w := n], w + 1)
  {
    hide Leaves, PrivateLoop;
    var ns1 := ns[w := n];
    forall v | 0 <= v < w + 1
      ensures items[v].at == r.entry && items[v].pc == 0
              && Leaves(k, r, v, items[v], PrivateLoop(k, items, m, ns1, v).1, ns1[v])
    {
      LoopPrefix(k, items, m, ns, w, n, v);
    }
  }

  lemma LockstepNext(k: Kernel, edits: seq<Edit>, s: State, ns': seq<nat>, ns: seq<nat>, n': nat, w: nat)
    requires AllOk(k, edits) && w < |s.items| == |ns| == |ns'| && InLockstep(k, edits, s, ns', ns, w)
    requires var m' := PrivateLoop(Result(k, edits), s.items, s.mem, ns', w).1;
             && Arrived(k, edits, w, s.items[w], m', ns[w], n')
             && Alone(Result(k, edits), w, s.items[w], m', n').0.pc == 0
    ensures InLockstep(k, edits, s, ns'[w := n'], ns, w + 1)
  {
    hide AllOk, Result, Invs, Before, BeforeMem, Alone, PrivateLoop;
    var k', o := Result(k, edits), BeforeState(k, edits, s);
    LoopPrefix(k', s.items, s.mem, ns', w, n', w);
    var (done', m') := PrivateLoop(k', s.items, s.mem, ns', w);
    var (l1, m1) := Alone(k', w, s.items[w], m', n');
    OneVisitMore(k', s.items, s.mem, ns'[w := n'], w);
    OneVisitMore(k, o.items, o.mem, ns, w);
    var items := done'[w := l1];
    forall v | 0 <= v < |s.items|
      ensures Invs(k, edits, v, items[v], m1)
    {
      if v != w {
        InvsBesideVisit(k, edits, w, done'[w], m', v, done'[v], n');
      }
    }
    var after := BeforeState(k, edits, State(items, m1));
    assert after.items == PrivateLoop(k, o.items, o.mem, ns, w + 1).0;
  }

  lemma OneVisitMore(k: Kernel, items: seq<Local>, m: Memory, ns: seq<nat>, w: nat)
    requires w < |items| == |ns|
    ensures var (done, m1) := PrivateLoop(k, items, m, ns, w);
            var (l, m2) := Alone(k, w, items[w], m1, ns[w]);
            done[w] == items[w] && PrivateLoop(k, items, m, ns, w + 1) == (done[w := l], m2)
  {
    hide Alone;
  }

  lemma LockstepStarts(k: Kernel, edits: seq<Edit>, s: State, ns: seq<nat>)
    requires GroupInvs(k, edits, s) && |s.items| == |ns|
    ensures InLockstep(k, edits, s, ns, ns, 0)
  {
    hide GroupInvs, BeforeState;
  }

  /** The first w items, visiting one by one, leave the region in the result as in the original. */
  lemma {:induction false} LoopBuffered(k: Kernel, edits: seq<Edit>, r: ParallelRegion, s: State, ns: seq<nat>, w: nat)
    returns (ns': seq<nat>)
    requires AllOk(k, edits) && GroupInvs(k, edits, s) && w <= |s.items| == |ns|
    requires forall v :: 0 <= v < |s.items| ==> s.items[v].at == r.entry && s.items[v].pc == 0
    requires AllLeave(k, r, BeforeState(k, edits, s).items, BeforeState(k, edits, s).mem, ns, w)
    ensures |ns'| == |ns| && AllLeave(Result(k, edits), r, s.items, s.mem, ns', w)
            && InLockstep(k, edits, s, ns', ns, w)
    decreases w
  {
    hide AllOk, Result, Invs, Before, BeforeMem, Leaves, PrivateLoop, Arrived;
    if w == 0 {
      ns' := ns;
      LockstepStarts(k, edits, s, ns);
    } else {
      var v, k', o := w - 1, Result(k, edits), BeforeState(k, edits, s);
      var before := LoopBuffered(k, edits, r, s, ns, v);
      var (done', m') := PrivateLoop(k', s.items, s.mem, before, v);
      assert done'[v] == s.items[v];
      assert o.items[v] == Before(k, edits, s.items[v]);
      var n' := VisitBuffered(k, edits, r, v, s.items[v], m', ns[v]);
      ns' := before[v := n'];
      AllLeaveNext(k', r, s.items, s.mem, before, n', v);
      LockstepNext(k, edits, s, before, ns, n', v);
    }
  }

  // ------------------------------------------------------------ what edits leave as it was

  /** Blocks of no looped region are as they were. */
  lemma {:induction false} OutsideUnedited(k: Kernel, edits: seq<Edit>, pr: seq<ParallelRegion>, b: Block)
    requires AllOk(k, edits) && Inside(pr, edits) && !InRegion(pr, b)
    ensures Code(Result(k, edits), b) == Code(k, b) && Terminator(Result(k, edits), b) == Terminator(k, b)
    ensures Phis(Result(k, edits), b) == Phis(k, b)
    decreases |edits|
  {
    hide AllOk, EditOk;
    if edits != [] {
      var init, e := edits[..|edits| - 1], edits[|edits| - 1];
      LastEdit(k, edits);
      assert InsideOne(pr, e);
      OutsideUnedited(k, init, pr, b);
      NotEdited(Result(k, init), pr, e, b);
    }
  }

  lemma NotEdited(k: Kernel, pr: seq<ParallelRegion>, e: Edit, b: Block)
    requires InRange(k, e) && InsideOne(pr, e) && !InRegion(pr, b)
    ensures Code(Applied(k, e), b) == Code(k, b) && Terminator(Applied(k, e), b) == Terminator(k, b)
    ensures Phis(Applied(k, e), b) == Phis(k, b) && b != EditedBlock(e)
  {
  }

  /** Regions keep their entries, and what the PHIs there receive from outside. */
  lemma {:induction false} EntryStays(k: Kernel, edits: seq<Edit>, pr: seq<ParallelRegion>, i: nat)
    requires AllOk(k, edits) && Inside(pr, edits) && Disjoint(pr) && i < |pr| && SingleEntry(k, pr[i])
    ensures SingleEntry(Result(k, edits), pr[i])
    decreases |edits|
  {
    hide AllOk, EditOk, Applied, Edges, Cfg, EntryPhisOk, InsideOne, Disjoint;
    if edits != [] {
      var init, e := edits[..|edits| - 1], edits[|edits| - 1];
      LastEdit(k, edits);
      assert InsideOne(pr, e);
      EntryStays(k, init, pr, i);
      SameCfg(Result(k, init), e);
      CfgEntry(Result(k, init));
      CfgEntry(Applied(Result(k, init), e));
      EntryPhisStay(Result(k, init), pr, e, i);
    }
  }

  lemma EntryPhisStay(k: Kernel, pr: seq<ParallelRegion>, e: Edit, i: nat)
    requires EditOk(k, e) && InRange(k, e) && InsideOne(pr, e) && Disjoint(pr) && i < |pr| && EntryPhisOk(k, pr[i])
    ensures EntryPhisOk(Applied(k, e), pr[i])
  {
    hide Applied, EditOk, Edges, Cfg, DefBlock, PhiReads;
    var k', r := Applied(k, e), pr[i];
    SameCfg(k, e);
    SamePhiCount(k, e, r.entry);
    forall x, q: nat, f | f !in r.blocks && PhiReads(k', x, r.entry, q, f)
      ensures !DefinedInRegion(k', r, x)
    {
      if e.ReloadFor? && x == e.reg {
        RewrittenFrom(k, e, r.entry, q, f);
      } else {
        PhiReadsAfter(k, e, x, r.entry, q, f);
        forall d | DefBlock(k', x, d)
          ensures DefBlock(k, x, d)
        {
          DefBlockAfter(k, e, x, d);
        }
      }
    }
    forall q, f, f' | 0 <= q < |Phis(k', r.entry)| && EntersFrom(k', r, f) && EntersFrom(k', r, f')
      ensures IncomingOf(Phis(k', r.entry)[q], f) == IncomingOf(Phis(k', r.entry)[q], f')
    {
      assert EntersFrom(k, r, f) && EntersFrom(k, r, f');
      IncomingRenamed(k, e, r.entry, q, f);
      IncomingRenamed(k, e, r.entry, q, f');
    }
  }

  lemma IncomingRenamed(k: Kernel, e: Edit, b: Block, q: nat, f: Block)
    requires InRange(k, e) && q < |Phis(k, b)| && |Phis(Applied(k, e), b)| == |Phis(k, b)|
    ensures var o, o' := IncomingOf(Phis(k, b)[q], f), IncomingOf(Phis(Applied(k, e), b)[q], f);
            o' == if e.ReloadFor? && e.user.ByPhi? && e.user.at == b && e.user.pos == q then Subst(o, e.value, e.reg)
              else o
  {
  }

  lemma EditKeepsUniform(k: Kernel, pr: seq<ParallelRegion>, e: Edit, x: Name)
    requires EditOk(k, e) && InRange(k, e) && InsideOne(pr, e) && Uniform(Applied(k, e), pr, x)
    ensures Uniform(k, pr, x) && (e.ReloadFor? ==> x != e.reg)
  {
    hide Applied, EditOk, ReadIn, DefIn, PhiDefines;
    var k' := Applied(k, e);
    if e.ReloadFor? {
      ReloadNotUniform(k, pr, e);
    }
    forall d | InRegion(pr, d) && DefBlock(k, x, d)
      ensures ReadDirectly(k, pr, x, d)
    {
      DefBlockAfter(k, e, x, d);
      DefsAfter(k, e, x, d);
      var b :| !SameRegion(pr, b, d) && ReadIn(k', x, b) && (DefIn(k', x, d) ==> !InRegion(pr, b));
      ReadsAfter(k, e, x, b);
      if e.SaveAfter? && x == e.value && b == EditedBlock(e) {
        SavesDefined(k, e, d);
        InSameAsItself(pr, b);
      }
    }
  }

  lemma ReloadNotUniform(k: Kernel, pr: seq<ParallelRegion>, e: Edit)
    requires EditOk(k, e) && InRange(k, e) && InsideOne(pr, e) && e.ReloadFor?
    ensures !Uniform(Applied(k, e), pr, e.reg)
  {
    hide Applied, EditOk, ReadIn, DefIn, PhiDefines, Unmentioned;
    var k', d := Applied(k, e), EditedBlock(e);
    DefsAfter(k, e, e.reg, d);
    RegIsNew(k, e);
    forall b | ReadIn(k', e.reg, b)
      ensures SameRegion(pr, b, d)
    {
      ReadsAfter(k, e, e.reg, b);
      UnmentionedIsNot(k, e.reg, b, d);
    }
    assert InRegion(pr, d) && DefBlock(k', e.reg, d);
    assert !ReadDirectly(k', pr, e.reg, d);
  }

  lemma SavesDefined(k: Kernel, e: Edit, d: Block)
    requires EditOk(k, e) && e.SaveAfter?
    ensures DefBlock(k, e.value, d) ==> d == EditedBlock(e)
  {
  }

  /** A uniform register of the result is one of the original and holds the same there. */
  lemma {:induction false} UniformBefore(k: Kernel, edits: seq<Edit>, pr: seq<ParallelRegion>, x: Name, l: Local)
    requires AllOk(k, edits) && Inside(pr, edits) && Uniform(Result(k, edits), pr, x)
    ensures Uniform(k, pr, x) && Value(Before(k, edits, l).env, Reg(x)) == Value(l.env, Reg(x))
    decreases |edits|
  {
    hide AllOk, EditOk, Applied, Uniform, InsideOne;
    if edits != [] {
      var init, e := edits[..|edits| - 1], edits[|edits| - 1];
      LastEdit(k, edits);
      assert InsideOne(pr, e);
      EditKeepsUniform(Result(k, init), pr, e, x);
      UniformBefore(k, init, pr, x, Back(Result(k, init), e, l));
    }
  }

  lemma AllSameBuffered(k: Kernel, edits: seq<Edit>, pr: seq<ParallelRegion>, s: State)
    requires AllOk(k, edits) && Inside(pr, edits) && AllSame(k, pr, BeforeState(k, edits, s).items)
    ensures AllSame(Result(k, edits), pr, s.items)
  {
    hide AllOk, Result, Inside, Uniform, Before, BeforeMem;
    forall x, v, w | Uniform(Result(k, edits), pr, x) && 0 <= v < |s.items| && 0 <= w < |s.items|
      ensures Value(s.items[v].env, Reg(x)) == Value(s.items[w].env, Reg(x))
    {
      UniformBefore(k, edits, pr, x, s.items[v]);
      UniformBefore(k, edits, pr, x, s.items[w]);
      assert BeforeState(k, edits, s).items[v] == Before(k, edits, s.items[v]);
      assert BeforeState(k, edits, s).items[w] == Before(k, edits, s.items[w]);
    }
  }

  // -------------------------------------------------------------------- through uniform code

  /** Outside the looped regions, a step of the result is a step of the original. */
  lemma {:induction false} OutsideIsReal(k: Kernel, edits: seq<Edit>, pr: seq<ParallelRegion>, id: nat, l: Local,
                                         m: Memory)
    requires AllOk(k, edits) && Inside(pr, edits) && Invs(k, edits, id, l, m) && !InRegion(pr, l.at)
    ensures var (l', m') := Step(Result(k, edits), id, l, m);
            && Invs(k, edits, id, l', m')
            && (Before(k, edits, l'), BeforeMem(edits, m')) == Step(k, id, Before(k, edits, l), BeforeMem(edits, m))
    decreases |edits|
  {
    hide AllOk, EditOk, Applied, Step, Stopped, BackMem, Inv, InRegion, SameRegion;
    if edits != [] {
      var init, e := edits[..|edits| - 1], edits[|edits| - 1];
      var k1 := Result(k, init);
      LastEdit(k, edits);
      assert InsideOne(pr, e);
      StepBack(k1, e, id, l, m);
      InvAfterStep(k1, e, id, l, m);
      OutsideIsReal(k, init, pr, id, Back(k1, e, l), BackMem(e, m));
    }
  }

  lemma {:induction false} OutsideStands(k: Kernel, edits: seq<Edit>, pr: seq<ParallelRegion>, l: Local)
    requires AllOk(k, edits) && Inside(pr, edits) && !InRegion(pr, l.at)
    ensures Before(k, edits, l).at == l.at && Before(k, edits, l).pc == l.pc
    decreases |edits|
  {
    hide AllOk, EditOk, Applied, InRegion, SameRegion;
    if edits != [] {
      var init, e := edits[..|edits| - 1], edits[|edits| - 1];
      LastEdit(k, edits);
      assert InsideOne(pr, e);
      OutsideStands(k, init, pr, Back(Result(k, init), e, l));
    }
  }

  /** The item stands in the result where it stands in the original, at the same instruction. */
  lemma SamePlace(k: Kernel, edits: seq<Edit>, pr: seq<ParallelRegion>, l: Local)
    requires AllOk(k, edits) && Inside(pr, edits) && !InRegion(pr, l.at)
    ensures var o := Before(k, edits, l);
            && o.at == l.at && o.pc == l.pc
            && (Stopped(Result(k, edits), l) <==> Stopped(k, o))
               && (StoresNext(Result(k, edits), l) <==> StoresNext(k, o))
  {
    hide AllOk, Result, Inside, Before;
    OutsideUnedited(k, edits, pr, l.at);
    OutsideStands(k, edits, pr, l);
  }

  lemma {:induction false} StretchBuffered(k: Kernel, edits: seq<Edit>, pr: seq<ParallelRegion>, id: nat, l: Local,
                                           m: Memory,
                                           n: nat, i: nat)
    requires AllOk(k, edits) && Inside(pr, edits) && Invs(k, edits, id, l, m) && i <= n
    requires Goes(k, pr, id, Before(k, edits, l), BeforeMem(edits, m), n)
    ensures Arrived(k, edits, id, l, m, i, i)
    ensures !InRegion(pr, Alone(Result(k, edits), id, l, m, i).0.at)
    decreases i
  {
    hide AllOk, Result, Inside, Invs, Before, BeforeMem, InRegion, Goes, Step;
    var k' := Result(k, edits);
    if i == 0 {
      assert Alone(k', id, l, m, 0) == (l, m);
    } else {
      StretchBuffered(k, edits, pr, id, l, m, n, i - 1);
      var (l1, m1) := Alone(k', id, l, m, i - 1);
      OutsideIsReal(k, edits, pr, id, l1, m1);
    }
    GoesAt(k, pr, id, Before(k, edits, l), BeforeMem(edits, m), n, i);
    BeforeAt(k, edits, Alone(k', id, l, m, i).0);
  }

  /** A stretch of the original is one of the result, step by step. */
  lemma StretchIsKept(k: Kernel, edits: seq<Edit>, pr: seq<ParallelRegion>, id: nat, l: Local, m: Memory, n: nat)
    requires AllOk(k, edits) && Inside(pr, edits) && Invs(k, edits, id, l, m)
    requires Goes(k, pr, id, Before(k, edits, l), BeforeMem(edits, m), n)
    ensures Goes(Result(k, edits), pr, id, l, m, n) && Arrived(k, edits, id, l, m, n, n)
    ensures StoresNothing(k, id, Before(k, edits, l), BeforeMem(edits, m), n) ==>
            StoresNothing(Result(k, edits), id, l, m, n)
    ensures Alone(Result(k, edits), id, l, m, n).0.pc == Alone(k, id, Before(k, edits, l), BeforeMem(edits, m), n).0.pc
    ensures Alone(Result(k, edits), id, l, m, n).0.at == Alone(k, id, Before(k, edits, l), BeforeMem(edits, m), n).0.at
  {
    hide AllOk, Result, Inside, Invs, Before, BeforeMem, InRegion, Stopped, StoresNext, Alone;
    var k', o := Result(k, edits), Before(k, edits, l);
    forall i | 0 <= i <= n
      ensures var x, y := Alone(k', id, l, m, i).0, Alone(k, id, o, BeforeMem(edits, m), i).0;
              && !InRegion(pr, x.at) && (i < n ==> !Stopped(k', x)) && x.at == y.at && x.pc == y.pc
              && (StoresNext(k', x) <==> StoresNext(k, y))
    {
      StretchBuffered(k, edits, pr, id, l, m, n, i);
      SamePlace(k, edits, pr, Alone(k', id, l, m, i).0);
    }
    StretchBuffered(k, edits, pr, id, l, m, n, n);
  }

  /** The first w items, one by one, go along in the result as in the original. */
  lemma {:induction false} AlongBuffered(k: Kernel, edits: seq<Edit>, pr: seq<ParallelRegion>, s: State, n: nat,
                                         ns: seq<nat>,
                                         b': Block, w: nat)
    requires AllOk(k, edits) && Inside(pr, edits) && GroupInvs(k, edits, s) && w <= |s.items| == |ns|
             && ns == Times(n, |ns|)
    requires var o := BeforeState(k, edits, s);
             && (forall v :: 0 <= v < |s.items| ==> Goes(k, pr, v, o.items[v], o.mem, n)) && Quiet(k, o.items, o.mem, n)
             && forall v :: 0 <= v < |s.items| ==> Alone(k, v, o.items[v], o.mem, n).0.pc == 0
    ensures InLockstep(k, edits, s, ns, ns, w)
    decreases w
  {
    hide AllOk, Result, Inside, Invs, Before, BeforeMem, Goes, PrivateLoop, Arrived, Alone, Quiet;
    var k', o := Result(k, edits), BeforeState(k, edits, s);
    if w == 0 {
      LockstepStarts(k, edits, s, ns);
    } else {
      var v := w - 1;
      AlongBuffered(k, edits, pr, s, n, ns, b', v);
      var (done', m') := PrivateLoop(k', s.items, s.mem, ns, v);
      assert done'[v] == s.items[v] && o.items[v] == Before(k, edits, s.items[v]);
      StretchMemory(k, o.items, o.mem, n, ns, v);
      StretchIsKept(k, edits, pr, v, s.items[v], m', n);
      LockstepNext(k, edits, s, ns, ns, n, v);
      assert ns[v := n] == ns;
    }
  }

  // ----------------------------------------------------------------------------- intervals

  /** Going on from a barrier is the same step in both. */
  lemma EntersBuffered(k: Kernel, edits: seq<Edit>, pr: seq<ParallelRegion>, id: nat, l: Local, m: Memory, entry: Block)
    requires AllOk(k, edits) && Inside(pr, edits) && Invs(k, edits, id, l, m) && l.pc == 1 && !InRegion(pr, l.at)
    requires Code(k, l.at) == [Barrier] && !Terminator(k, l.at).Return?
    requires Target(Terminator(k, l.at), Before(k, edits, l).env) == entry
    ensures var k' := Result(k, edits); var l' := Enter(k', l.at, entry, l.env);
            && !Terminator(k', l.at).Return? && Target(Terminator(k', l.at), l.env) == entry
            && Invs(k, edits, id, l', m) && Before(k, edits, l') == Enter(k, l.at, entry, Before(k, edits, l).env)
  {
    hide AllOk, Result, Inside, Invs, Before, BeforeMem, SetPhis, InRegion;
    OutsideUnedited(k, edits, pr, l.at);
    OutsideIsReal(k, edits, pr, id, l, m);
    OutsideStands(k, edits, pr, l);
    BeforeAt(k, edits, Step(Result(k, edits), id, l, m).0);
  }

  lemma EnteringBuffered(k: Kernel, edits: seq<Edit>, pr: seq<ParallelRegion>, s: State, b: Block, entry: Block)
    requires AllOk(k, edits) && Inside(pr, edits) && GroupInvs(k, edits, s) && Standing(s, b, 1) && !InRegion(pr, b)
    requires Code(k, b) == [Barrier] && !Terminator(k, b).Return?
    requires forall w :: 0 <= w < |s.items| ==> Target(Terminator(k, b), BeforeState(k, edits, s).items[w].env) == entry
    ensures var k', o := Result(k, edits), BeforeState(k, edits, s);
            var s' := State(Entering(k', s.items, b, entry), s.mem);
            && !Terminator(k', b).Return?
            && (forall w :: 0 <= w < |s.items| ==> Target(Terminator(k', b), s.items[w].env) == entry)
            && GroupInvs(k, edits, s') && BeforeState(k, edits, s') == State(Entering(k, o.items, b, entry), o.mem)
  {
    hide AllOk, Result, Inside, Invs, Before, BeforeMem, Enter, InRegion;
    var k', o := Result(k, edits), BeforeState(k, edits, s);
    var s' := State(Entering(k', s.items, b, entry), s.mem);
    OutsideUnedited(k, edits, pr, b);
    forall v | 0 <= v < |s.items|
      ensures Invs(k, edits, v, s'.items[v], s.mem)
      ensures Target(Terminator(k', b), s.items[v].env) == entry
      ensures BeforeState(k, edits, s').items[v] == Entering(k, o.items, b, entry)[v]
    {
      assert o.items[v] == Before(k, edits, s.items[v]);
      EntersBuffered(k, edits, pr, v, s.items[v], s.mem, entry);
    }
    assert BeforeState(k, edits, s').items == Entering(k, o.items, b, entry);
  }

  /** The barriers of the original are barriers of the result. */
  lemma SameBarriers(k: Kernel, edits: seq<Edit>, pr: seq<ParallelRegion>, b: Block)
    requires AllOk(k, edits) && Inside(pr, edits) && !InRegion(pr, b)
    ensures BarrierBlock(Result(k, edits), b) <==> BarrierBlock(k, b)
    ensures Terminator(Result(k, edits), b) == Terminator(k, b)
  {
    hide AllOk, Result, Inside, InRegion;
    OutsideUnedited(k, edits, pr, b);
  }

  lemma StandsLike(k: Kernel, edits: seq<Edit>, s: State, b: Block)
    requires Standing(BeforeState(k, edits, s), b, 0) && AtStart(s.items, |s.items|)
    ensures Standing(s, b, 0)
  {
    hide Before, BeforeMem;
    forall w | 0 <= w < |s.items|
      ensures s.items[w].at == b
    {
      BeforeAt(k, edits, s.items[w]);
      assert BeforeState(k, edits, s).items[w] == Before(k, edits, s.items[w]);
    }
  }

  lemma AroundBuffered(k: Kernel, edits: seq<Edit>, pr: seq<ParallelRegion>, s: State, b: Block, j: Interval, b': Block)
    returns (j': Interval)
    requires AllOk(k, edits) && Inside(pr, edits) && Disjoint(pr) && GroupInvs(k, edits, s) && Standing(s, b, 1)
    requires IntervalOk(k, pr, BeforeState(k, edits, s), b, j, b') && j.Around?
    ensures j'.Around? && j'.region == j.region && IntervalOk(Result(k, edits), pr, s, b, j', b')
    ensures var r := Privately(Result(k, edits), pr, s, b, j');
            GroupInvs(k, edits, r) && BeforeState(k, edits, r) == Privately(k, pr, BeforeState(k, edits, s), b, j)
  {
    hide AllOk, Result, Inside, Disjoint, Invs, Before, BeforeMem, PrivateLoop, AllLeave, AllSame, InRegion;
    hide SingleEntry, Enter;
    var k', r := Result(k, edits), pr[j.region];
    SameBarriers(k, edits, pr, b);
    SameBarriers(k, edits, pr, b');
    EntryStays(k, edits, pr, j.region);
    EnteringBuffered(k, edits, pr, s, b, r.entry);
    var s' := State(Entering(k', s.items, b, r.entry), s.mem);
    EnteredAt(k', s.items, b, r.entry);
    var ns' := LoopBuffered(k, edits, r, s', j.steps, |s.items|);
    j' := Around(j.region, ns');
    var after := Privately(k', pr, s, b, j');
    AllSameBuffered(k, edits, pr, after);
    StandsLike(k, edits, after, b');
  }

  lemma EnteredAt(k: Kernel, items: seq<Local>, b: Block, entry: Block)
    ensures forall v :: 0 <= v < |items| ==> var l := Entering(k, items, b, entry)[v]; l.at == entry && l.pc == 0
  {
  }

  lemma AlongIsKept(k: Kernel, edits: seq<Edit>, pr: seq<ParallelRegion>, s: State, b: Block, j: Interval, b': Block)
    requires AllOk(k, edits) && Inside(pr, edits) && GroupInvs(k, edits, s) && Standing(s, b, 1)
    requires IntervalOk(k, pr, BeforeState(k, edits, s), b, j, b') && j.Along?
    ensures IntervalOk(Result(k, edits), pr, s, b, j, b')
    ensures var r := Privately(Result(k, edits), pr, s, b, j);
            GroupInvs(k, edits, r) && BeforeState(k, edits, r) == Privately(k, pr, BeforeState(k, edits, s), b, j)
  {
    hide AllOk, Result, Inside, Invs, Before, BeforeMem, PrivateLoop, InRegion, Goes, Alone, StoresNothing;
    var k', o, n := Result(k, edits), BeforeState(k, edits, s), j.length;
    var ns := Times(n, |s.items|);
    SameBarriers(k, edits, pr, b);
    SameBarriers(k, edits, pr, b');
    StretchLoop(k, o.items, o.mem, n, ns, |ns|);
    forall v | 0 <= v < |s.items|
      ensures Alone(k, v, o.items[v], o.mem, n).0.pc == 0 && Goes(k', pr, v, s.items[v], s.mem, n)
      ensures StoresNothing(k, v, o.items[v], o.mem, n) ==> StoresNothing(k', v, s.items[v], s.mem, n)
    {
      assert Privately(k, pr, o, b, j).items[v].pc == 0;
      assert o.items[v] == Before(k, edits, s.items[v]);
      StretchIsKept(k, edits, pr, v, s.items[v], s.mem, n);
    }
    AlongBuffered(k, edits, pr, s, n, ns, b', |ns|);
    StandsLike(k, edits, Privately(k', pr, s, b, j), b');
  }

  /** An interval of the original is one of the result, with as many or more steps. */
  lemma IntervalBuffered(k: Kernel, edits: seq<Edit>, pr: seq<ParallelRegion>, s: State, b: Block, j: Interval,
                         b': Block)
    returns (j': Interval)
    requires AllOk(k, edits) && Inside(pr, edits) && Disjoint(pr) && GroupInvs(k, edits, s) && Standing(s, b, 1)
    requires IntervalOk(k, pr, BeforeState(k, edits, s), b, j, b')
    ensures SameWay(j, j') && IntervalOk(Result(k, edits), pr, s, b, j', b')
    ensures var r := Privately(Result(k, edits), pr, s, b, j');
            GroupInvs(k, edits, r) && BeforeState(k, edits, r) == Privately(k, pr, BeforeState(k, edits, s), b, j)
  {
    hide AllOk, Result, Inside, Disjoint, GroupInvs, BeforeState, IntervalOk, Privately;
    if j.Around? {
      j' := AroundBuffered(k, edits, pr, s, b, j, b');
    } else {
      AlongIsKept(k, edits, pr, s, b, j, b');
      j' := j;
    }
  }

  /** Around the same region, or along for as many steps. */
  predicate SameWay(j: Interval, j': Interval) {
    if j.Around? then j'.Around? && j'.region == j.region else j' == j
  }

  ghost predicate SameWays(js: seq<Interval>, js': seq<Interval>) {
    |js'| == |js| && forall i :: 0 <= i < |js| ==> SameWay(js[i], js'[i])
  }

  /** If the items come to all barriers together in the original, they do so in the result. */
  lemma {:induction false} UniformRunIsKept(k: Kernel, edits: seq<Edit>, pr: seq<ParallelRegion>, s: State,
                                            bs: seq<Block>, js: seq<Interval>) returns (js': seq<Interval>)
    requires AllOk(k, edits) && Inside(pr, edits) && Disjoint(pr) && GroupInvs(k, edits, s) && |bs| == |js| + 1
    requires Standing(s, bs[0], 1) && !InRegion(pr, bs[|js|]) && LoopedOk(k, pr, BeforeState(k, edits, s), bs, js)
    ensures SameWays(js, js') && LoopedOk(Result(k, edits), pr, s, bs, js')
    decreases |js|
  {
    hide AllOk, Result, Inside, Disjoint, GroupInvs, BeforeState, IntervalOk, Privately, InRegion, SameWay;
    if js == [] {
      js' := [];
      SameBarriers(k, edits, pr, bs[0]);
    } else {
      var k', o := Result(k, edits), BeforeState(k, edits, s);
      var j' := IntervalBuffered(k, edits, pr, s, bs[0], js[0], bs[1]);
      IntervalFacts(k', pr, s, bs[0], j', bs[1]);
      var r := Privately(k', pr, s, bs[0], j');
      ReleaseBefore(k, edits, r, bs[1]);
      ReleasedBehind(r, bs[1]);
      var rest := UniformRunIsKept(k, edits, pr, Release(r), bs[1..], js[1..]);
      js' := [j'] + rest;
      assert js'[1..] == rest;
      assert SameWays(js, js') by {
        SameWaysFrom(js, js');
      }
    }
  }

  lemma SameWaysFrom(js: seq<Interval>, js': seq<Interval>)
    requires js != [] && js' != [] && SameWay(js[0], js'[0]) && SameWays(js[1..], js'[1..])
    ensures SameWays(js, js')
  {
    hide SameWay;
    forall i | 0 <= i < |js|
      ensures SameWay(js[i], js'[i])
    {
      if i > 0 {
        assert SameWay(js[1..][i - 1], js'[1..][i - 1]);
      }
    }
  }

  lemma ReleasedBehind(s: State, b: Block)
    requires Standing(s, b, 0)
    ensures Standing(Release(s), b, 1)
  {
  }

  // --------------------------------------------------------------------------- the theorem

  ghost predicate GlobalOnly(m: Memory) {
    forall a :: a in m ==> a.Global?
  }

  /** In the original, the items of the group come together to one barrier after the other, from
      the one in the entry block on. Between any two they go around a region that gets a loop, or
      along code that gets none. */
  ghost predicate UniformRun(k: Kernel, pr: seq<ParallelRegion>, n: nat, m: Memory, bs: seq<Block>, js: seq<Interval>) {
    && n > 0 && GlobalOnly(m)
    && |bs| == |js| + 1 && bs[0] == k.entry && !InRegion(pr, bs[0]) && !InRegion(pr, bs[|js|])
       && BarrierBlock(k, k.entry)
    && LoopedMet(k, pr, Release(Launched(k, n, m)), bs, js)
  }

  lemma LaunchedBefore(k: Kernel, edits: seq<Edit>, n: nat, m: Memory)
    requires AllOk(k, edits) && GlobalOnly(m)
    ensures var s := Launched(k, n, m); GroupInvs(k, edits, s) && BeforeState(k, edits, s) == s
  {
    hide AllOk, Result, Invs, Before, BeforeMem;
    var s := Launched(k, n, m);
    forall w | 0 <= w < n
      ensures Invs(k, edits, w, s.items[w], m) && Before(k, edits, s.items[w]) == s.items[w]
    {
      FreshInvs(k, edits, w, s.items[w], m);
    }
    assert BeforeMem(edits, m) == m by {
      FreshInvs(k, edits, 0, Local(k.entry, 0, map[]), m);
    }
    assert BeforeState(k, edits, s).items == s.items;
  }

  /** Before the first barrier nothing happens. */
  lemma LaunchedWaits(k: Kernel, n: nat, m: Memory)
    requires n > 0 && BarrierBlock(k, k.entry)
    ensures AtBarrier(k, Launched(k, n, m)) && Standing(Launched(k, n, m), k.entry, 0)
    ensures Respects(k, Launched(k, n, m), []) && Run(k, Launched(k, n, m), []) == Launched(k, n, m)
  {
  }

  lemma {:induction false} SharedMemoryBefore(edits: seq<Edit>, m: Memory, at: int)
    ensures Peek(BeforeMem(edits, m), Global(at)) == Peek(m, Global(at))
    decreases |edits|
  {
    if edits != [] {
      SharedMemoryBefore(edits[..|edits| - 1], BackMem(edits[|edits| - 1], m), at);
    }
  }

  /** Whenever the group stands at a barrier, however the items have been interleaved, the slots
      of a saved value hold what the items have in their registers. */
  lemma SlotsAtBarriers(k: Kernel, x: Name, n: nat, m: Memory, rounds: seq<seq<nat>>)
    requires Saved(k, x) && GlobalOnly(m) && Allowed(k, Launched(k, n, m), rounds)
    ensures var r := After(k, Launched(k, n, m), rounds);
            |r.items| == n
            && (AtBarrier(k, r) ==> forall w :: 0 <= w < n ==> Peek(r.mem, Slot(x, w)) == Value(r.items[w].env, Reg(x)))
  {
    hide Saved, Allowed, AtBarrier, Holds;
    var s := Launched(k, n, m);
    forall w | 0 <= w < n
      ensures Holds(k, x, w, s.items[w], m)
    {
      FreshHolds(k, x, w, s.items[w], m);
    }
    SlotsHoldThroughout(k, x, s, rounds, |rounds|);
    var r := After(k, s, rounds);
    SameNumber(k, s, rounds, |rounds|);
    if AtBarrier(k, r) {
      ReleaseHolds(k, x, r);
    }
  }

  lemma {:induction false} SameNumber(k: Kernel, s: State, rounds: seq<seq<nat>>, i: nat)
    requires i <= |rounds|
    ensures |StateAt(k, s, rounds, i).items| == |s.items|
    decreases |rounds|
  {
    hide Run, Release;
    if i > 0 && |rounds| > 1 {
      SameNumber(k, Release(Run(k, s, rounds[0])), rounds[1..], i - 1);
    }
  }

  lemma NothingInRegisters(k: Kernel, k': Kernel, pr: seq<ParallelRegion>, n: nat, m: Memory)
    ensures Agree(k', pr, Release(Launched(k, n, m)).items, map[])
    ensures AllSame(k', pr, Release(Launched(k, n, m)).items)
  {
    hide Uniform;
  }

  lemma LaunchedMemory(k: Kernel, n: nat, m: Memory)
    ensures Release(Launched(k, n, m)).mem == m && |Release(Launched(k, n, m)).items| == n
  {
  }

  lemma BehindFirstBarrier(k: Kernel, edits: seq<Edit>, pr: seq<ParallelRegion>, s: State, b: Block)
    requires AllOk(k, edits) && Inside(pr, edits) && GroupInvs(k, edits, s) && BeforeState(k, edits, s) == s
    requires Standing(s, b, 0) && BarrierBlock(k, b) && !InRegion(pr, b)
    ensures GroupInvs(k, edits, Release(s)) && BeforeState(k, edits, Release(s)) == Release(s)
  {
    hide AllOk, Result, Inside, GroupInvs, BeforeState, InRegion, Standing, Release;
    SameBarriers(k, edits, pr, b);
    ReleaseBefore(k, edits, s, b);
  }

  /** What is asked of the kernel as it was written: SSA form, regions apart, no local ids and no
      private variables outside them; the items do not race and come to all barriers together. */
  ghost predicate Coarsenable(k: Kernel, pr: seq<ParallelRegion>, n: nat, m: Memory, bs: seq<Block>,
                              js: seq<Interval>) {
    && Ssa(k) && RegionsOk(k, pr) && UniformCode(k, pr)
    && UniformRun(k, pr, n, m, bs, js) && NoRaces(k, Launched(k, n, m))
  }

  lemma CoarsenableFacts(k: Kernel, pr: seq<ParallelRegion>, n: nat, m: Memory, bs: seq<Block>, js: seq<Interval>)
    requires Coarsenable(k, pr, n, m, bs, js)
    ensures Ssa(k) && RegionsOk(k, pr) && Disjoint(pr) && UniformCode(k, pr) && NoRaces(k, Launched(k, n, m))
    ensures n > 0 && GlobalOnly(m) && |bs| == |js| + 1 && bs[0] == k.entry
    ensures !InRegion(pr, bs[0]) && !InRegion(pr, bs[|js|]) && BarrierBlock(k, k.entry)
    ensures LoopedMet(k, pr, Release(Launched(k, n, m)), bs, js)
  {
  }

  /** Coarsening is correct. `k'` is what context buffering has made of kernel k; n items begin at
      the entry of k with memory m; they do not race between barriers and come to all barriers
      together. `other` is any execution of k, its items interleaved at will between barriers. It
      does not get stuck, it passes no more barriers than the loops, and once it is over it leaves
      in every cell of the shared memory what the loops over k' leave there on their one set of
      registers, led by these registers, and in each item's registers what the loops with private
      registers compute. */
  lemma CoarseningIsCorrect(k: Kernel, edits: seq<Edit>, k': Kernel, next: Name, pr: seq<ParallelRegion>, n: nat,
                            m: Memory,
                            bs: seq<Block>, js: seq<Interval>, other: seq<seq<nat>>) returns (js': seq<Interval>)
    requires Coarsenable(k, pr, n, m, bs, js) && Allowed(k, Launched(k, n, m), other)
    requires Logged(k, edits, k', next, pr) && forall x :: !Cross(k', pr, x)
    ensures SameWays(js, js') && |bs| == |js'| + 1 && forall j :: j in js' ==> Fits(pr, n, j)
    ensures ThreadRuns(k', pr, map[], m, bs, js')
    ensures |other| <= |js| + 2
    ensures var r := After(k, Launched(k, n, m), other);
            var looped := LoopedRun(k', pr, map[], m, bs, js').1;
            if !Ended(k, r) then CanGoOn(k, r)
            else r.mem == BeforeMem(edits, looped)
                 && (forall at :: Peek(r.mem, Global(at)) == Peek(looped, Global(at)))
                 && r == BeforeState(k, edits, PrivateRun(k', pr, Release(Launched(k, n, m)), bs, js'))
  {
    hide AllOk, Result, Inside, GroupInvs, LoopedOk, LoopedMet, NoRaces, Allowed, Coarsened, After, Ended, CanGoOn, Ssa;
    hide RegionsOk;
    hide Disjoint, UniformCode, Cross, Agree, AllSame, LoopedRun, PrivateRun, BeforeMem, Before, Logged, Launched;
    hide Release;
    hide BeforeState, Respects, RaceFree, Run, Standing, AtBarrier, BarrierBlock, InRegion, GlobalOnly, SameWays;
    hide Coarsenable;
    hide ThreadRuns;
    LoggedFacts(k, edits, k', next, pr);
    CoarsenableFacts(k, pr, n, m, bs, js);
    var s0 := Launched(k, n, m);
    var s := Release(s0);
    LaunchedWaits(k, n, m);
    LaunchedBefore(k, edits, n, m);
    BehindFirstBarrier(k, edits, pr, s0, k.entry);
    ReleasedBehind(s0, k.entry);
    NothingInRegisters(k, k, pr, n, m);
    NothingInRegisters(k, k', pr, n, m);
    NoRaceIn(k, s0, []);
    NoRacesAfter(k, s0, []);
    MetIsOk(k, pr, s, bs, js);
    js' := UniformRunIsKept(k, edits, pr, s, bs, js);
    SameCount(js, js');
    EmptyIsFlat();
    LaunchedMemory(k, n, m);
    var rounds := LoopsMatchSchedule(k, edits, k', pr, s, map[], bs, js');
    CoarsenedFirst(k, s0, [], rounds);
    CoarsenedIsNotEmpty(k, s, rounds);
    AfterFirst(k, s0, [], rounds);
    LoopsRefineInterleavings(k, s0, [[]] + rounds, other);
    forall at
      ensures Peek(BeforeMem(edits, LoopedRun(k', pr, map[], m, bs, js').1), Global(at))
           == Peek(LoopedRun(k', pr, map[], m, bs, js').1, Global(at))
    {
      SharedMemoryBefore(edits, LoopedRun(k', pr, map[], m, bs, js').1, at);
    }
  }

  lemma SameCount(js: seq<Interval>, js': seq<Interval>)
    requires SameWays(js, js')
    ensures |js'| == |js|
  {
  }
}
