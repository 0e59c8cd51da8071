/** Breaking PHIs: each becomes a private variable, stored to in front of the terminator of every
    predecessor and loaded at the place of the PHI.

    PHIs are broken one at a time. A kernel with one PHI less runs in lockstep with the kernel
    before: all other names hold the same values, whatever the PHIs feed each other and whatever
    else their predecessors lead to. */
module PhiElimination {
  import opened Graphs
  import opened WorkItems
  import opened Interleaving
  import opened Contexts
  import opened ContextBuffering
  import opened ContextPass

  // ----------------------------------------------------------------------- one PHI broken

  /** The PHI that defines x, at block b; r is the name that the load gives to x. */
  datatype Break = Break(b: Block, p: Phi, r: Name)

  function SubstCode(code: seq<Inst>, x: Name, r: Name): (s: seq<Inst>)
    ensures |s| == |code|
  {
    seq(|code|, i requires 0 <= i < |code| => SubstInst(code[i], x, r))
  }

  function KeptPhis(phis: seq<Phi>, x: Name, r: Name): seq<Phi> {
    if phis == [] then []
    else (if phis[0].dst == x then [] else [SubstPhi(phis[0], x, r)]) + KeptPhis(phis[1..], x, r)
  }

  /** The loads of PHIs broken before are at the head of their block. */
  function LoadsAhead(code: seq<Inst>): (n: nat)
    ensures n <= |code| && (forall i :: 0 <= i < n ==> code[i].Reload?) && (n < |code| ==> !code[n].Reload?)
  {
    if code == [] || !code[0].Reload? then 0 else 1 + LoadsAhead(code[1..])
  }

  function LoadPos(k: Kernel, e: Break): nat {
    LoadsAhead(Code(k, e.b))
  }

  function NewCode(k: Kernel, e: Break, b: Block): seq<Inst> {
    var x, r := e.p.dst, e.r;
    var code := SubstCode(Code(k, b), x, r);
    var loaded := if b == e.b then Insert(code, LoadPos(k, e), Reload(r, x)) else code;
    if b in e.p.incoming then loaded + [Save(x, Subst(e.p.incoming[b], x, r))] else loaded
  }

  function Broken(k: Kernel, e: Break): Kernel {
    k.(phis := map b | b in k.phis :: KeptPhis(k.phis[b], e.p.dst, e.r),
       code := map b | b in k.code.Keys + {e.b} + e.p.incoming.Keys :: NewCode(k, e, b),
       term := map b | b in k.term :: SubstTerm(k.term[b], e.p.dst, e.r))
  }

  lemma BrokenIs(k: Kernel, e: Break, b: Block)
    ensures Code(Broken(k, e), b) == NewCode(k, e, b)
    ensures Phis(Broken(k, e), b) == KeptPhis(Phis(k, b), e.p.dst, e.r)
    ensures Terminator(Broken(k, e), b) == SubstTerm(Terminator(k, b), e.p.dst, e.r)
  {
  }

  /** Block t may follow block b. */
  predicate MayFollow(k: Kernel, b: Block, t: Block) {
    match Terminator(k, b)
    case Goto(c) => c == t
    case Branch(_, yes, no) => yes == t || no == t
    case Return => false
  }

  /** p is the one definition of its name, with a value for every predecessor of its block. */
  ghost predicate BreakOk(k: Kernel, e: Break) {
    && (exists q :: 0 <= q < |Phis(k, e.b)| && Phis(k, e.b)[q] == e.p)
    && (forall c, q :: 0 <= q < |Phis(k, c)| && Phis(k, c)[q].dst == e.p.dst ==> c == e.b && Phis(k, c)[q] == e.p)
    && (forall c, i :: 0 <= i < |Code(k, c)| ==> !Defines(Code(k, c)[i], e.p.dst) && !UsesSlot(e.p.dst, Code(k, c)[i]))
    && (forall f :: MayFollow(k, f, e.b) ==> f in e.p.incoming)
    && Unmentioned(k, e.r) && e.r != e.p.dst
  }

  // ------------------------------------------------------------------------ in lockstep

  /** Position in the old code; the load and the stores stand for the instruction behind them. */
  function OldPos(k: Kernel, e: Break, b: Block, pc: nat): nat {
    var pc1 := if b == e.b && pc > LoadPos(k, e) then pc - 1 else pc;
    if b in e.p.incoming && pc1 > |Code(k, b)| then |Code(k, b)| else pc1
  }

  predicate AtLoad(k: Kernel, e: Break, l: Local) {
    l.at == e.b && l.pc == LoadPos(k, e)
  }

  predicate AtStore(k: Kernel, e: Break, l: Local) {
    l.at in e.p.incoming && l.pc + 1 == |NewCode(k, e, l.at)|
  }

  /** The PHI's value in the new kernel: still in the variable until the load has been made. */
  function Held(k: Kernel, e: Break, id: nat, l: Local, m: Memory): int {
    if l.at == e.b && l.pc <= LoadPos(k, e) then Peek(m, Slot(e.p.dst, id)) else Value(l.env, Reg(e.r))
  }

  ghost predicate SameNames(e: Break, env: map<Name, int>, env': map<Name, int>) {
    forall n :: n != e.p.dst && n != e.r ==> Value(env, Reg(n)) == Value(env', Reg(n))
  }

  ghost predicate SameMemory(e: Break, m: Memory, m': Memory) {
    forall a: Addr :: !(a.Slot? && a.value == e.p.dst) ==> (a in m <==> a in m') && (a in m ==> m[a] == m'[a])
  }

  /** Old state l and m, new state l' and m', of item id. */
  ghost predicate Lockstep(k: Kernel, e: Break, id: nat, l: Local, m: Memory, l': Local, m': Memory) {
    && l.at == l'.at && l.pc == OldPos(k, e, l'.at, l'.pc) && l'.pc <= |NewCode(k, e, l'.at)|
    && SameNames(e, l.env, l'.env) && Value(l.env, Reg(e.p.dst)) == Held(k, e, id, l', m')
    && SameMemory(e, m, m')
    && (l'.at in e.p.incoming && l'.pc == |NewCode(k, e, l'.at)| ==>
          Peek(m', Slot(e.p.dst, id)) == Value(l'.env, Subst(e.p.incoming[l'.at], e.p.dst, e.r)))
  }

  /** An operand, and what has become of it. */
  predicate SameValue(e: Break, o: Operand, env: map<Name, int>, env': map<Name, int>) {
    Value(env, o) == Value(env', Subst(o, e.p.dst, e.r))
  }

  lemma OperandSame(k: Kernel, e: Break, id: nat, l: Local, m: Memory, l': Local, m': Memory, o: Operand)
    requires Lockstep(k, e, id, l, m, l', m') && o != Reg(e.r) && !(l'.at == e.b && l'.pc <= LoadPos(k, e))
    ensures SameValue(e, o, l.env, l'.env)
  {
  }

  lemma ExecSame(k: Kernel, k': Kernel, e: Break, id: nat, x: Inst, env: map<Name, int>, env': map<Name, int>,
                 m: Memory, m': Memory)
    requires k.alu == k'.alu && k.ids == k'.ids
    requires forall o :: o in Operands(x) ==> SameValue(e, o, env, env')
    requires !UsesSlot(e.p.dst, x) && SameMemory(e, m, m') && SameNames(e, env, env')
    requires !Defines(x, e.p.dst) && !Defines(x, e.r)
    ensures var (a, n), (a', n') := Exec(k, id, x, env, m), Exec(k', id, SubstInst(x, e.p.dst, e.r), env', m');
            && SameNames(e, a, a') && SameMemory(e, n, n')
            && Value(a, Reg(e.p.dst)) == Value(env, Reg(e.p.dst)) && Value(a', Reg(e.r)) == Value(env', Reg(e.r))
            && (forall i :: Peek(n', Slot(e.p.dst, i)) == Peek(m', Slot(e.p.dst, i)))
  {
    match x {
      case Compute(_, _, args) =>
        assert Values(env, args) == Values(env', SubstAll(args, e.p.dst, e.r)) by {
          forall i | 0 <= i < |args|
            ensures Value(env, args[i]) == Value(env', Subst(args[i], e.p.dst, e.r))
          {
            assert args[i] in Operands(x);
          }
        }
      case Load(_, a) => assert a in Operands(x);
      case Store(a, v) => assert a in Operands(x) && v in Operands(x);
      case Save(_, v) => assert v in Operands(x);
      case _ =>
    }
  }

  /** The instruction at a position of the new code. */
  lemma NewCodeAt(k: Kernel, e: Break, b: Block, pc: nat)
    requires pc <= |NewCode(k, e, b)|
    ensures var code, l := NewCode(k, e, b), Local(b, pc, map[]);
            && (pc == |code| ==> OldPos(k, e, b, pc) == |Code(k, b)|)
            && (pc < |code| && AtLoad(k, e, l) ==> code[pc] == Reload(e.r, e.p.dst) && !AtStore(k, e, l))
            && (pc < |code| && AtStore(k, e, l) ==> code[pc] == Save(e.p.dst, Subst(e.p.incoming[b], e.p.dst, e.r)))
            && (pc < |code| && (AtLoad(k, e, l) || AtStore(k, e, l)) ==> OldPos(k, e, b, pc + 1) == OldPos(k, e, b, pc))
            && (pc < |code| && !AtLoad(k, e, l) && !AtStore(k, e, l) ==>
                  OldPos(k, e, b, pc) < |Code(k, b)| && OldPos(k, e, b, pc + 1) == OldPos(k, e, b, pc) + 1
                  && code[pc] == SubstInst(Code(k, b)[OldPos(k, e, b, pc)], e.p.dst, e.r))
  {
    hide SubstInst, LoadsAhead;
    var code := SubstCode(Code(k, b), e.p.dst, e.r);
    var i := LoadPos(k, e);
    if b == e.b {
      assert Insert(code, i, Reload(e.r, e.p.dst))[i] == Reload(e.r, e.p.dst);
    }
  }

  lemma LoadStep(k: Kernel, e: Break, id: nat, l: Local, m: Memory, l': Local, m': Memory)
    requires BreakOk(k, e) && Lockstep(k, e, id, l, m, l', m') && AtLoad(k, e, l')
    ensures !Stopped(Broken(k, e), l')
    ensures var (d', n') := Step(Broken(k, e), id, l', m'); Lockstep(k, e, id, l, m, d', n')
  {
    hide BreakOk, NewCode, Broken, OldPos, LoadsAhead;
    BrokenIs(k, e, l'.at);
    NewCodeAt(k, e, l'.at, l'.pc);
    LoadInside(k, e);
    BreakFacts(k, e);
  }

  lemma BreakFacts(k: Kernel, e: Break)
    requires BreakOk(k, e)
    ensures e.r != e.p.dst && Unmentioned(k, e.r)
  {
  }

  lemma LoadInside(k: Kernel, e: Break)
    ensures LoadPos(k, e) < |NewCode(k, e, e.b)|
    ensures e.b in e.p.incoming ==> LoadPos(k, e) + 1 < |NewCode(k, e, e.b)|
  {
  }

  lemma StoreStep(k: Kernel, e: Break, id: nat, l: Local, m: Memory, l': Local, m': Memory)
    requires BreakOk(k, e) && Lockstep(k, e, id, l, m, l', m') && AtStore(k, e, l')
    ensures !Stopped(Broken(k, e), l')
    ensures var (d', n') := Step(Broken(k, e), id, l', m'); Lockstep(k, e, id, l, m, d', n')
  {
    hide BreakOk, NewCode, Broken, OldPos, LoadsAhead;
    BrokenIs(k, e, l'.at);
    NewCodeAt(k, e, l'.at, l'.pc);
    LoadInside(k, e);
  }

  lemma InstIs(k: Kernel, e: Break, b: Block, i: nat)
    requires BreakOk(k, e) && i < |Code(k, b)|
    ensures var x := Code(k, b)[i];
            !Defines(x, e.p.dst) && !Defines(x, e.r) && !UsesSlot(e.p.dst, x) && Reg(e.r) !in Operands(x)
  {
    hide LoadsAhead;
    UnmentionedAt2(k, e.r, b, i);
  }

  lemma UnmentionedAt2(k: Kernel, r: Name, b: Block, i: nat)
    requires Unmentioned(k, r) && i < |Code(k, b)|
    ensures !Defines(Code(k, b)[i], r) && !UsedBy(r, Code(k, b)[i])
  {
  }

  /** Up to its load the block does nothing but load. */
  lemma BeforeLoad(k: Kernel, e: Break, i: nat)
    requires i < LoadPos(k, e)
    ensures i < |Code(k, e.b)| && Operands(Code(k, e.b)[i]) == []
  {
  }

  lemma OtherInst(k: Kernel, e: Break, id: nat, l: Local, m: Memory, l': Local, m': Memory)
    requires BreakOk(k, e) && Lockstep(k, e, id, l, m, l', m')
    requires !AtLoad(k, e, l') && !AtStore(k, e, l') && AtInst(Broken(k, e), l')
    ensures AtInst(k, l) && (Stopped(Broken(k, e), l') <==> Stopped(k, l))
    ensures var (d, n) := Step(k, id, l, m); var (d', n') := Step(Broken(k, e), id, l', m');
            Lockstep(k, e, id, d, n, d', n')
  {
    hide BreakOk, NewCode, Broken, LoadsAhead, Exec, Operands, SameNames, SameMemory;
    BrokenIs(k, e, l'.at);
    NewCodeAt(k, e, l'.at, l'.pc);
    var x := Code(k, l.at)[l.pc];
    InstIs(k, e, l.at, l.pc);
    forall o | o in Operands(x)
      ensures SameValue(e, o, l.env, l'.env)
    {
      if l'.at == e.b && l'.pc < LoadPos(k, e) {
        BeforeLoad(k, e, l.pc);
      } else {
        OperandSame(k, e, id, l, m, l', m', o);
      }
    }
    SameOps(k, e);
    ExecSame(k, Broken(k, e), e, id, x, l.env, l'.env, m, m');
  }

  lemma SameOps(k: Kernel, e: Break)
    ensures Broken(k, e).alu == k.alu && Broken(k, e).ids == k.ids
  {
  }

  // ---------------------------------------------------------------------- entering a block

  lemma {:induction false} KeptPhisSame(phis: seq<Phi>, e: Break, from: Block, before: map<Name, int>,
                                        before': map<Name, int>,
                                        env: map<Name, int>, env': map<Name, int>)
    requires forall q :: 0 <= q < |phis| && phis[q].dst != e.p.dst ==>
               phis[q].dst != e.r && Incoming(phis[q], from, before)
                 == Incoming(SubstPhi(phis[q], e.p.dst, e.r), from, before')
    requires SameNames(e, env, env') && e.r != e.p.dst
    ensures var a, a' := SetPhis(phis, from, before, env), SetPhis(KeptPhis(phis, e.p.dst, e.r), from, before', env');
            SameNames(e, a, a') && Value(a', Reg(e.r)) == Value(env', Reg(e.r))
    decreases |phis|
  {
    if phis != [] {
      var p, rest := phis[0], phis[1..];
      var env1 := env[p.dst := Incoming(p, from, before)];
      forall q | 0 <= q < |rest| && rest[q].dst != e.p.dst
        ensures rest[q].dst != e.r
                && Incoming(rest[q], from, before) == Incoming(SubstPhi(rest[q], e.p.dst, e.r), from, before')
      {
        assert rest[q] == phis[q + 1];
      }
      if p.dst == e.p.dst {
        assert KeptPhis(phis, e.p.dst, e.r) == KeptPhis(rest, e.p.dst, e.r);
        KeptPhisSame(rest, e, from, before, before', env1, env');
      } else {
        var p' := SubstPhi(p, e.p.dst, e.r);
        var kept := KeptPhis(rest, e.p.dst, e.r);
        assert KeptPhis(phis, e.p.dst, e.r) == [p'] + kept && ([p'] + kept)[1..] == kept;
        KeptPhisSame(rest, e, from, before, before', env1, env'[p.dst := Incoming(p', from, before')]);
      }
    }
  }

  /** What the broken PHI receives in the old kernel. */
  lemma {:induction false} PhiReceives(phis: seq<Phi>, e: Break, from: Block, before: map<Name, int>,
                                       env: map<Name, int>)
    requires forall q :: 0 <= q < |phis| && phis[q].dst == e.p.dst ==> phis[q] == e.p
    ensures var a := SetPhis(phis, from, before, env);
            Value(a, Reg(e.p.dst)) == if e.p in phis then Incoming(e.p, from, before) else Value(env, Reg(e.p.dst))
    decreases |phis|
  {
    if phis != [] {
      var rest, env1 := phis[1..], env[phis[0].dst := Incoming(phis[0], from, before)];
      forall q | 0 <= q < |rest| && rest[q].dst == e.p.dst
        ensures rest[q] == e.p
      {
        assert rest[q] == phis[q + 1];
      }
      PhiReceives(rest, e, from, before, env1);
      assert e.p in phis <==> phis[0] == e.p || e.p in rest;
    }
  }

  lemma PhiOperandSame(k: Kernel, e: Break, p: Phi, from: Block, env: map<Name, int>, env': map<Name, int>)
    requires forall o: Operand :: o != Reg(e.r) ==> SameValue(e, o, env, env')
    requires !UsedByPhi(e.r, p)
    ensures Incoming(p, from, env) == Incoming(SubstPhi(p, e.p.dst, e.r), from, env')
  {
    if from in p.incoming {
      assert SameValue(e, p.incoming[from], env, env');
    }
  }

  lemma OwnPhis(k: Kernel, e: Break, t: Block)
    requires BreakOk(k, e)
    ensures forall q :: 0 <= q < |Phis(k, t)| ==> Phis(k, t)[q].dst != e.r && !UsedByPhi(e.r, Phis(k, t)[q])
    ensures forall q :: 0 <= q < |Phis(k, t)| && Phis(k, t)[q].dst == e.p.dst ==> Phis(k, t)[q] == e.p
    ensures e.p in Phis(k, t) <==> t == e.b
    ensures !UsedByTerm(e.r, Terminator(k, t))
  {
  }

  /** Along an edge all PHIs but the broken one receive the same, and that one's value has been
      stored. */
  lemma EnterStep(k: Kernel, e: Break, id: nat, l: Local, m: Memory, l': Local, m': Memory, t: Block)
    requires BreakOk(k, e) && Lockstep(k, e, id, l, m, l', m') && l'.pc == |NewCode(k, e, l'.at)|
             && MayFollow(k, l.at, t)
    ensures Lockstep(k, e, id, Enter(k, l.at, t, l.env), m, Enter(Broken(k, e), l'.at, t, l'.env), m')
  {
    hide BreakOk, NewCode, Broken, LoadsAhead, SetPhis, KeptPhis, SubstPhi, Incoming, SameMemory, UsedByPhi, MayFollow;
    var b, phis := l.at, Phis(k, t);
    BrokenIs(k, e, t);
    LoadInside(k, e);
    OwnPhis(k, e, t);
    forall o: Operand | o != Reg(e.r)
      ensures SameValue(e, o, l.env, l'.env)
    {
      OperandSame(k, e, id, l, m, l', m', o);
    }
    forall q | 0 <= q < |phis|
      ensures Incoming(phis[q], b, l.env) == Incoming(SubstPhi(phis[q], e.p.dst, e.r), b, l'.env)
    {
      PhiOperandSame(k, e, phis[q], b, l.env, l'.env);
    }
    BreakFacts(k, e);
    KeptPhisSame(phis, e, b, l.env, l'.env, l.env, l'.env);
    PhiReceives(phis, e, b, l.env, l.env);
    EveryBlockStores(k, e, t);
    StoredOnEdge(k, e, b, t);
    if t == e.b {
      IncomingIs(e.p, b, l.env);
    }
  }

  lemma IncomingIs(p: Phi, from: Block, env: map<Name, int>)
    requires from in p.incoming
    ensures Incoming(p, from, env) == Value(env, p.incoming[from])
  {
  }

  lemma EveryBlockStores(k: Kernel, e: Break, t: Block)
    ensures t in e.p.incoming ==> |NewCode(k, e, t)| > 0
    ensures OldPos(k, e, t, 0) == 0
  {
  }

  lemma StoredOnEdge(k: Kernel, e: Break, b: Block, t: Block)
    requires BreakOk(k, e) && MayFollow(k, b, t)
    ensures t == e.b ==> b in e.p.incoming && e.p.incoming[b] != Reg(e.r) && e.r != e.p.dst
  {
    if t == e.b {
      assert UsedByPhi(e.r, e.p) || e.p.incoming[b] != Reg(e.r);
    }
  }

  lemma TermStep(k: Kernel, e: Break, id: nat, l: Local, m: Memory, l': Local, m': Memory)
    requires BreakOk(k, e) && Lockstep(k, e, id, l, m, l', m') && !AtInst(Broken(k, e), l')
    ensures !AtInst(k, l) && (Stopped(Broken(k, e), l') <==> Stopped(k, l))
    ensures var (d, n) := Step(k, id, l, m); var (d', n') := Step(Broken(k, e), id, l', m');
            Lockstep(k, e, id, d, n, d', n')
  {
    hide BreakOk, NewCode, Broken, LoadsAhead, SameNames, SameMemory, Enter, UsedByPhi;
    BrokenIs(k, e, l'.at);
    NewCodeAt(k, e, l'.at, l'.pc);
    LoadInside(k, e);
    OwnPhis(k, e, l.at);
    var t := Terminator(k, l.at);
    if t.Branch? {
      OperandSame(k, e, id, l, m, l', m', t.cond);
    }
    if !t.Return? {
      EnterStep(k, e, id, l, m, l', m', Target(t, l.env));
    }
  }

  /** A step of the new kernel loads, stores, or is the step that the old kernel makes. */
  lemma BreakStep(k: Kernel, e: Break, id: nat, l: Local, m: Memory, l': Local, m': Memory)
    requires BreakOk(k, e) && Lockstep(k, e, id, l, m, l', m')
    ensures var (d, n) := Step(k, id, l, m); var (d', n') := Step(Broken(k, e), id, l', m');
            if AtLoad(k, e, l') || AtStore(k, e, l') then Lockstep(k, e, id, l, m, d', n')
            else Lockstep(k, e, id, d, n, d', n')
    ensures Stopped(Broken(k, e), l') ==> Stopped(k, l)
  {
    hide BreakOk, Broken, Lockstep, Step, AtLoad, AtStore;
    if AtLoad(k, e, l') {
      LoadStep(k, e, id, l, m, l', m');
    } else if AtStore(k, e, l') {
      StoreStep(k, e, id, l, m, l', m');
    } else if AtInst(Broken(k, e), l') {
      OtherInst(k, e, id, l, m, l', m');
    } else {
      TermStep(k, e, id, l, m, l', m');
    }
  }

  // ------------------------------------------------------------------ a group, PHI after PHI

  ghost predicate GroupLockstep(k: Kernel, e: Break, s: State, s': State) {
    && |s.items| == |s'.items| && SameMemory(e, s.mem, s'.mem)
    && forall w :: 0 <= w < |s.items| ==> Lockstep(k, e, w, s.items[w], s.mem, s'.items[w], s'.mem)
  }

  lemma OwnSlotsOnly(k: Kernel, id: nat, l: Local, m: Memory, x: Name, other: nat)
    requires other != id
    ensures Peek(Step(k, id, l, m).1, Slot(x, other)) == Peek(m, Slot(x, other))
  {
  }

  lemma LockstepBeside(k: Kernel, e: Break, id: nat, l: Local, m: Memory, l': Local, m': Memory, n: Memory, n': Memory)
    requires Lockstep(k, e, id, l, m, l', m') && SameMemory(e, n, n')
    requires Peek(n', Slot(e.p.dst, id)) == Peek(m', Slot(e.p.dst, id))
    ensures Lockstep(k, e, id, l, n, l', n')
  {
    hide NewCode, OldPos, LoadsAhead, SameNames;
  }

  function Stepped(k: Kernel, s: State, w: nat): (r: State)
    requires w < |s.items|
    ensures |r.items| == |s.items|
  {
    var x := Step(k, w, s.items[w], s.mem);
    State(s.items[w := x.0], x.1)
  }

  /** Of two groups in lockstep, one step of the new is one or none of the old. */
  lemma GroupBreakStep(k: Kernel, e: Break, s: State, s': State, w: nat)
    requires BreakOk(k, e) && GroupLockstep(k, e, s, s') && w < |s.items|
    ensures var t, t' := Stepped(k, s, w), Stepped(Broken(k, e), s', w);
            GroupLockstep(k, e, s, t') || GroupLockstep(k, e, t, t')
    ensures Stopped(Broken(k, e), s'.items[w]) ==> Stopped(k, s.items[w])
  {
    hide BreakOk, Broken, Lockstep, Step, AtLoad, AtStore, Stopped;
    BreakStep(k, e, w, s.items[w], s.mem, s'.items[w], s'.mem);
    var t' := Stepped(Broken(k, e), s', w);
    var t := if AtLoad(k, e, s'.items[w]) || AtStore(k, e, s'.items[w]) then s else Stepped(k, s, w);
    LockstepMemory(k, e, w, t.items[w], t.mem, t'.items[w], t'.mem);
    forall v | 0 <= v < |s.items|
      ensures Lockstep(k, e, v, t.items[v], t.mem, t'.items[v], t'.mem)
    {
      if v != w {
        OwnSlotsOnly(Broken(k, e), w, s'.items[w], s'.mem, e.p.dst, v);
        LockstepBeside(k, e, v, s.items[v], s.mem, s'.items[v], s'.mem, t.mem, t'.mem);
      }
    }
  }

  lemma LockstepMemory(k: Kernel, e: Break, id: nat, l: Local, m: Memory, l': Local, m': Memory)
    requires Lockstep(k, e, id, l, m, l', m')
    ensures SameMemory(e, m, m')
  {
  }

  ghost function AllBroken(k: Kernel, es: seq<Break>): Kernel {
    if es == [] then k else Broken(AllBroken(k, es[..|es| - 1]), es[|es| - 1])
  }

  ghost predicate BreaksOk(k: Kernel, es: seq<Break>) {
    es != [] ==> BreaksOk(k, es[..|es| - 1]) && BreakOk(AllBroken(k, es[..|es| - 1]), es[|es| - 1])
  }

  /** A group of each kernel on the way, from the original to the last, in lockstep. */
  ghost predicate Linked(k: Kernel, es: seq<Break>, stages: seq<State>)
    decreases |es|
  {
    && |stages| == |es| + 1
    && (es != [] ==>
          && Linked(k, es[..|es| - 1], stages[..|es|])
          && GroupLockstep(AllBroken(k, es[..|es| - 1]), es[|es| - 1], stages[|es| - 1], stages[|es|]))
  }

  lemma SameSize(k: Kernel, es: seq<Break>, stages: seq<State>)
    requires Linked(k, es, stages)
    ensures |stages| == |es| + 1 && |stages[0].items| == |stages[|es|].items|
    decreases |es|
  {
    if es != [] {
      SameSize(k, es[..|es| - 1], stages[..|es|]);
    }
  }

  lemma {:induction false} LinkedStep(k: Kernel, es: seq<Break>, stages: seq<State>, w: nat) returns (next: seq<State>)
    requires BreaksOk(k, es) && Linked(k, es, stages) && |stages| == |es| + 1
    requires w < |stages[0].items| == |stages[|es|].items|
    ensures Linked(k, es, next) && |next| == |es| + 1
    ensures next[|es|] == Stepped(AllBroken(k, es), stages[|es|], w)
    ensures next[0] == stages[0] || next[0] == Stepped(k, stages[0], w)
    ensures Stopped(AllBroken(k, es), stages[|es|].items[w]) ==> Stopped(k, stages[0].items[w])
    decreases |es|
  {
    hide BreakOk, Broken, Stepped, Stopped;
    if es == [] {
      next := [Stepped(k, stages[0], w)];
    } else {
      var init, e := es[..|es| - 1], es[|es| - 1];
      var head, s, s' := stages[..|es|], stages[|es| - 1], stages[|es|];
      var k1 := AllBroken(k, init);
      SameSize(k, init, head);
      GroupBreakStep(k1, e, s, s', w);
      var t' := Stepped(Broken(k1, e), s', w);
      var moved := LinkedStep(k, init, head, w);
      if GroupLockstep(k1, e, s, t') {
        next := head + [t'];
        assert next[..|es|] == head;
      } else {
        next := moved + [t'];
        assert next[..|es|] == moved;
      }
    }
  }

  /** The names that breaking the PHIs has replaced or introduced. */
  ghost function Gone(es: seq<Break>): set<Name> {
    if es == [] then {} else Gone(es[..|es| - 1]) + {es[|es| - 1].p.dst, es[|es| - 1].r}
  }

  ghost predicate SameSurvivors(s: State, s': State, gone: set<Name>) {
    && |s.items| == |s'.items|
    && (forall w :: 0 <= w < |s.items| ==> s.items[w].at == s'.items[w].at)
    && (forall w, n :: 0 <= w < |s.items| && n !in gone ==>
       Value(s.items[w].env, Reg(n)) == Value(s'.items[w].env, Reg(n)))
    && (forall a: Addr ::
       (a.Slot? ==> a.value !in gone) ==> (a in s.mem <==> a in s'.mem) && (a in s.mem ==> s.mem[a] == s'.mem[a]))
  }

  lemma OneLink(k: Kernel, e: Break, s: State, s': State)
    requires GroupLockstep(k, e, s, s')
    ensures SameSurvivors(s, s', {e.p.dst, e.r})
  {
    hide NewCode, OldPos, Held;
  }

  lemma SurvivorsTrans(s: State, s1: State, s2: State, gone: set<Name>, more: set<Name>)
    requires SameSurvivors(s, s1, gone) && SameSurvivors(s1, s2, more)
    ensures SameSurvivors(s, s2, gone + more)
  {
  }

  lemma {:induction false} Survivors(k: Kernel, es: seq<Break>, stages: seq<State>)
    requires Linked(k, es, stages)
    ensures |stages| == |es| + 1 && SameSurvivors(stages[0], stages[|es|], Gone(es))
    decreases |es|
  {
    hide GroupLockstep, SameSurvivors;
    if es == [] {
      SurvivesItself(stages[0]);
    } else {
      var init, e := es[..|es| - 1], es[|es| - 1];
      Survivors(k, init, stages[..|es|]);
      OneLink(AllBroken(k, init), e, stages[|es| - 1], stages[|es|]);
      SurvivorsTrans(stages[0], stages[|es| - 1], stages[|es|], Gone(init), {e.p.dst, e.r});
    }
  }

  lemma SurvivesItself(s: State)
    ensures SameSurvivors(s, s, {})
  {
  }

  /** However the items are interleaved, a run without the PHIs is a run with them: every name
      that is left holds the same values, and so does memory but for the new variables. */
  lemma {:induction false} BrokenRunsAreOriginalRuns(k: Kernel, es: seq<Break>, stages: seq<State>, sched: seq<nat>)
    returns (next: seq<State>, orig: seq<nat>)
    requires BreaksOk(k, es) && Linked(k, es, stages) && |stages| == |es| + 1
    requires Respects(AllBroken(k, es), stages[|es|], sched)
    ensures Linked(k, es, next) && |next| == |es| + 1
    ensures next[|es|] == Run(AllBroken(k, es), stages[|es|], sched)
    ensures next[0] == Run(k, stages[0], orig) && Respects(k, stages[0], orig)
    ensures SameSurvivors(next[0], next[|es|], Gone(es))
    ensures Complete(AllBroken(k, es), next[|es|]) ==> Complete(k, next[0])
    decreases |sched|
  {
    hide BreaksOk, AllBroken, Linked, Step, Stopped, Respects, Run, SameSurvivors, Gone, Complete;
    var k', first, last := AllBroken(k, es), stages[0], stages[|es|];
    if sched == [] {
      next, orig := stages, [];
      NoStepYet(k', last);
      NoStepYet(k, first);
    } else {
      var before, w := sched[..|sched| - 1], sched[|sched| - 1];
      assert sched == before + [w];
      RespectsStep(k', last, before, w);
      var mid, init := BrokenRunsAreOriginalRuns(k, es, stages, before);
      SameSize(k, es, mid);
      next := LinkedStep(k, es, mid, w);
      RunOfStep(k', last, before, w);
      if next[0] == mid[0] {
        orig := init;
      } else {
        StoppedStays(k, w, mid[0]);
        OneMoreStep(k, first, init, w);
        orig := init + [w];
      }
    }
    Survivors(k, es, next);
    CompleteOriginal(k, es, next);
  }

  lemma CompleteOriginal(k: Kernel, es: seq<Break>, stages: seq<State>)
    requires BreaksOk(k, es) && Linked(k, es, stages) && |stages| == |es| + 1
    ensures Complete(AllBroken(k, es), stages[|es|]) ==> Complete(k, stages[0])
  {
    hide BreaksOk, AllBroken, Linked, Stopped;
    SameSize(k, es, stages);
    forall w | 0 <= w < |stages[0].items|
      ensures Stopped(AllBroken(k, es), stages[|es|].items[w]) ==> Stopped(k, stages[0].items[w])
    {
      var next := LinkedStep(k, es, stages, w);
    }
  }

  /** A group that begins is in lockstep with itself in all kernels. */
  ghost predicate Begins(s: State) {
    forall w :: 0 <= w < |s.items| ==> Fresh(s.items[w], s.mem)
  }

  lemma BeginsInLockstep(k: Kernel, e: Break, s: State)
    requires Begins(s)
    ensures GroupLockstep(k, e, s, s)
  {
    hide LoadsAhead;
    forall w | 0 <= w < |s.items|
      ensures Lockstep(k, e, w, s.items[w], s.mem, s.items[w], s.mem)
    {
      assert Fresh(s.items[w], s.mem);
      EveryBlockStores(k, e, s.items[w].at);
    }
  }

  lemma {:induction false} BeginsLinked(k: Kernel, es: seq<Break>, s: State) returns (stages: seq<State>)
    requires Begins(s)
    ensures Linked(k, es, stages) && |stages| == |es| + 1 && stages[0] == stages[|es|] == s
    decreases |es|
  {
    hide GroupLockstep, Begins;
    if es == [] {
      stages := [s];
    } else {
      var init := BeginsLinked(k, es[..|es| - 1], s);
      BeginsInLockstep(AllBroken(k, es[..|es| - 1]), es[|es| - 1], s);
      stages := init + [s];
      assert stages[..|es|] == init;
    }
  }

  // ----------------------------------------------------------------------------- the pass

  /** PHIs are the only definitions of their names and have a value for every predecessor. */
  ghost predicate PhiForm(k: Kernel) {
    && (forall c, q, d, q' ::
       0 <= q < |Phis(k, c)| && 0 <= q' < |Phis(k, d)| && Phis(k, c)[q].dst == Phis(k, d)[q'].dst ==>
          c == d && Phis(k, c)[q] == Phis(k, d)[q'])
    && (forall c, q, b, i :: 0 <= q < |Phis(k, c)| && 0 <= i < |Code(k, b)| ==>
          !Defines(Code(k, b)[i], Phis(k, c)[q].dst) && !UsesSlot(Phis(k, c)[q].dst, Code(k, b)[i]))
    && (forall c, q, f :: 0 <= q < |Phis(k, c)| && MayFollow(k, f, c) ==> f in Phis(k, c)[q].incoming)
  }

  lemma PhiFormBreaks(k: Kernel, b: Block, q: nat, r: Name)
    requires PhiForm(k) && q < |Phis(k, b)| && Unmentioned(k, r)
    ensures BreakOk(k, Break(b, Phis(k, b)[q], r))
  {
  }

  lemma {:induction false} KeptFrom(phis: seq<Phi>, x: Name, r: Name, i: nat) returns (o: nat)
    requires i < |KeptPhis(phis, x, r)|
    ensures o < |phis| && phis[o].dst != x && KeptPhis(phis, x, r)[i] == SubstPhi(phis[o], x, r)
    decreases |phis|
  {
    if phis[0].dst == x {
      assert KeptPhis(phis, x, r) == KeptPhis(phis[1..], x, r);
      o := KeptFrom(phis[1..], x, r, i);
      o := o + 1;
    } else if i == 0 {
      o := 0;
    } else {
      o := KeptFrom(phis[1..], x, r, i - 1);
      o := o + 1;
    }
  }

  /** Every PHI that is left is an old one with its uses of the broken PHI renamed. */
  lemma {:induction false} KeptAs(phis: seq<Phi>, x: Name, r: Name, o: nat) returns (i: nat)
    requires o < |phis| && phis[o].dst != x
    ensures i < |KeptPhis(phis, x, r)| && KeptPhis(phis, x, r)[i] == SubstPhi(phis[o], x, r)
    decreases |phis|
  {
    hide SubstPhi;
    if o == 0 {
      i := 0;
    } else {
      i := KeptAs(phis[1..], x, r, o - 1);
      if phis[0].dst != x {
        i := i + 1;
      }
    }
  }

  lemma PhiFrom(k: Kernel, e: Break, c: Block, i: nat) returns (o: nat)
    requires i < |Phis(Broken(k, e), c)|
    ensures o < |Phis(k, c)| && Phis(k, c)[o].dst != e.p.dst
    ensures Phis(Broken(k, e), c)[i] == SubstPhi(Phis(k, c)[o], e.p.dst, e.r)
  {
    hide Broken, KeptPhis, SubstPhi;
    BrokenIs(k, e, c);
    o := KeptFrom(Phis(k, c), e.p.dst, e.r, i);
  }

  /** Every instruction is the load, a store of the broken PHI, or an old one renamed. */
  lemma InstFrom(k: Kernel, e: Break, b: Block, i: nat) returns (o: nat)
    requires i < |Code(Broken(k, e), b)|
    ensures var x := Code(Broken(k, e), b)[i];
            || x == Reload(e.r, e.p.dst)
            || (b in e.p.incoming && x == Save(e.p.dst, Subst(e.p.incoming[b], e.p.dst, e.r)))
            || (o < |Code(k, b)| && x == SubstInst(Code(k, b)[o], e.p.dst, e.r))
  {
    hide Broken, NewCode, OldPos, LoadsAhead, SubstInst;
    BrokenIs(k, e, b);
    NewCodeAt(k, e, b, i);
    o := OldPos(k, e, b, i);
  }

  lemma FollowsSame(k: Kernel, e: Break, b: Block, t: Block)
    ensures MayFollow(Broken(k, e), b, t) <==> MayFollow(k, b, t)
  {
    hide Broken;
    BrokenIs(k, e, b);
  }

  lemma PhiFormStays(k: Kernel, e: Break)
    requires PhiForm(k) && BreakOk(k, e)
    ensures PhiForm(Broken(k, e))
  {
    hide Broken, BreakOk, MayFollow, SubstInst, Defines, UsesSlot;
    var k' := Broken(k, e);
    forall c, q, d, q' | 0 <= q < |Phis(k', c)| && 0 <= q' < |Phis(k', d)| && Phis(k', c)[q].dst == Phis(k', d)[q'].dst
      ensures c == d && Phis(k', c)[q] == Phis(k', d)[q']
    {
      var o := PhiFrom(k, e, c, q);
      var o' := PhiFrom(k, e, d, q');
    }
    forall c, q, b, i | 0 <= q < |Phis(k', c)| && 0 <= i < |Code(k', b)|
      ensures !Defines(Code(k', b)[i], Phis(k', c)[q].dst) && !UsesSlot(Phis(k', c)[q].dst, Code(k', b)[i])
    {
      OtherName(k, e, c, q, b, i);
    }
    forall c, q, f | 0 <= q < |Phis(k', c)| && MayFollow(k', f, c)
      ensures f in Phis(k', c)[q].incoming
    {
      var o := PhiFrom(k, e, c, q);
      FollowsSame(k, e, f, c);
    }
  }

  lemma OtherName(k: Kernel, e: Break, c: Block, q: nat, b: Block, i: nat)
    requires PhiForm(k) && BreakOk(k, e) && q < |Phis(Broken(k, e), c)| && i < |Code(Broken(k, e), b)|
    ensures var x := Code(Broken(k, e), b)[i]; var n := Phis(Broken(k, e), c)[q].dst;
            !Defines(x, n) && !UsesSlot(n, x)
  {
    hide Broken, BreakOk, MayFollow, SubstInst, PhiForm;
    var o := PhiFrom(k, e, c, q);
    var j := InstFrom(k, e, b, i);
    BreakFacts(k, e);
    UnmentionedPhi(k, e.r, c, o);
    if j < |Code(k, b)| {
      OtherInOld(k, c, o, b, j);
      SubstUses(Code(k, b)[j], e.p.dst, e.r, Phis(k, c)[o].dst);
    }
  }

  lemma OtherInOld(k: Kernel, c: Block, q: nat, b: Block, i: nat)
    requires PhiForm(k) && q < |Phis(k, c)| && i < |Code(k, b)|
    ensures !Defines(Code(k, b)[i], Phis(k, c)[q].dst) && !UsesSlot(Phis(k, c)[q].dst, Code(k, b)[i])
  {
  }

  lemma BelowStays(k: Kernel, e: Break, next: Name)
    requires BreakOk(k, e) && Below(k, next) && e.r == next
    ensures Below(Broken(k, e), next + 1)
  {
    hide Broken, BreakOk, Unmentioned;
    forall n: Name | n >= next + 1
      ensures Unmentioned(Broken(k, e), n)
    {
      StillUnmentioned(k, e, n);
    }
  }

  lemma StillUnmentioned(k: Kernel, e: Break, n: Name)
    requires BreakOk(k, e) && Unmentioned(k, n) && n != e.r
    ensures Unmentioned(Broken(k, e), n)
  {
    hide Broken, SubstInst, Unmentioned, UsedBy, Defines;
    var k' := Broken(k, e);
    var q0 :| 0 <= q0 < |Phis(k, e.b)| && Phis(k, e.b)[q0] == e.p;
    UnmentionedPhiAll(k, n, e.b, q0);
    forall b, i | 0 <= i < |Code(k', b)|
      ensures !Defines(Code(k', b)[i], n) && !UsedBy(n, Code(k', b)[i])
    {
      StillUnmentionedInst(k, e, n, b, i);
    }
    forall b
      ensures !UsedByTerm(n, Terminator(k', b))
    {
      BrokenIs(k, e, b);
      UnmentionedTerm(k, n, b);
    }
    forall b, q | 0 <= q < |Phis(k', b)|
      ensures Phis(k', b)[q].dst != n && !UsedByPhi(n, Phis(k', b)[q])
    {
      var o := PhiFrom(k, e, b, q);
      UnmentionedPhiAll(k, n, b, o);
    }
    MentionsNothing(k', n);
  }

  lemma UnmentionedTerm(k: Kernel, n: Name, b: Block)
    requires Unmentioned(k, n)
    ensures !UsedByTerm(n, Terminator(k, b))
  {
  }

  lemma UnmentionedPhiAll(k: Kernel, n: Name, b: Block, q: nat)
    requires Unmentioned(k, n) && q < |Phis(k, b)|
    ensures Phis(k, b)[q].dst != n && !UsedByPhi(n, Phis(k, b)[q])
  {
  }

  lemma MentionsNothing(k: Kernel, n: Name)
    requires forall b, i :: 0 <= i < |Code(k, b)| ==> !Defines(Code(k, b)[i], n) && !UsedBy(n, Code(k, b)[i])
    requires forall b :: !UsedByTerm(n, Terminator(k, b))
    requires forall b, q :: 0 <= q < |Phis(k, b)| ==> Phis(k, b)[q].dst != n && !UsedByPhi(n, Phis(k, b)[q])
    ensures Unmentioned(k, n)
  {
  }

  lemma StillUnmentionedInst(k: Kernel, e: Break, n: Name, b: Block, i: nat)
    requires BreakOk(k, e) && Unmentioned(k, n) && n != e.r && n != e.p.dst && !UsedByPhi(n, e.p)
    requires i < |Code(Broken(k, e), b)|
    ensures !Defines(Code(Broken(k, e), b)[i], n) && !UsedBy(n, Code(Broken(k, e), b)[i])
  {
    hide Broken, BreakOk, SubstInst, Unmentioned;
    var x := Code(Broken(k, e), b)[i];
    var j := InstFrom(k, e, b, i);
    BreakFacts(k, e);
    if j < |Code(k, b)| {
      UnmentionedAt(k, n, b, j);
      SubstUses(Code(k, b)[j], e.p.dst, e.r, n);
    }
    if x.Reload? {
      assert Operands(x) == [];
    } else if b in e.p.incoming {
      assert e.p.incoming[b] != Reg(n);
    }
  }

  ghost predicate Consistent(k0: Kernel, es: seq<Break>, k: Kernel, next: Name) {
    var ok := BreaksOk(k0, es) && k == AllBroken(k0, es) && PhiForm(k) && Below(k, next);
    ok
  }

  lemma OneMoreBreak(k0: Kernel, es: seq<Break>, k: Kernel, next: Name, b: Block, q: nat)
    requires Consistent(k0, es, k, next) && q < |Phis(k, b)|
    ensures var e := Break(b, Phis(k, b)[q], next);
            BreakOk(k, e) && Consistent(k0, es + [e], Broken(k, e), next + 1)
  {
    hide Broken, BreakOk, PhiForm, Unmentioned;
    var e := Break(b, Phis(k, b)[q], next);
    PhiFormBreaks(k, b, q, next);
    PhiFormStays(k, e);
    BelowStays(k, e, next);
    assert (es + [e])[..|es|] == es;
  }

  lemma {:induction false} LoadsAheadOfStore(code: seq<Inst>, x: Inst)
    requires !x.Reload?
    ensures LoadsAhead(code + [x]) == LoadsAhead(code)
    decreases |code|
  {
    if code != [] && code[0].Reload? {
      assert (code + [x])[1..] == code[1..] + [x];
      LoadsAheadOfStore(code[1..], x);
    }
  }

  // ----------------------------------------------------- what context buffering finds after it

  /** The slots in use are private variables: no instruction defines a register of that name. */
  ghost predicate VariablesOnly(k: Kernel, next: Name) {
    forall n: Name :: SlotUsed(k, n) ==> n < next && forall b :: !DefIn(k, n, b)
  }

  /** Which definition of the old kernel a definition is; the load alone is new. */
  lemma DefinesFrom(k: Kernel, e: Break, x: Name, b: Block, i: nat)
    requires BreakOk(k, e) && i < |Code(Broken(k, e), b)| && Defines(Code(Broken(k, e), b)[i], x)
    ensures if x == e.r then b == e.b && i == LoadPos(k, e)
            else OldPos(k, e, b, i) < |Code(k, b)| && Defines(Code(k, b)[OldPos(k, e, b, i)], x)
                 && !AtLoad(k, e, Local(b, i, map[])) && !AtStore(k, e, Local(b, i, map[]))
  {
    hide Broken, BreakOk, NewCode, OldPos, LoadsAhead, Unmentioned, UsedBy;
    BrokenIs(k, e, b);
    NewCodeAt(k, e, b, i);
    BreakFacts(k, e);
    var o := OldPos(k, e, b, i);
    if o < |Code(k, b)| {
      UnmentionedAt(k, e.r, b, o);
    }
  }

  lemma OldPosOneToOne(k: Kernel, e: Break, b: Block, i: nat, j: nat)
    requires i < |NewCode(k, e, b)| && j < |NewCode(k, e, b)| && OldPos(k, e, b, i) == OldPos(k, e, b, j)
    requires !AtLoad(k, e, Local(b, i, map[])) && !AtStore(k, e, Local(b, i, map[]))
    requires !AtLoad(k, e, Local(b, j, map[])) && !AtStore(k, e, Local(b, j, map[]))
    ensures i == j
  {
    hide LoadsAhead, SubstInst;
  }

  lemma DefinedOnceStill(k: Kernel, e: Break, x: Name, b: Block, i: nat, c: Block, j: nat)
    requires BreakOk(k, e) && OneDefinition(k)
    requires i < |Code(Broken(k, e), b)| && Defines(Code(Broken(k, e), b)[i], x)
    requires j < |Code(Broken(k, e), c)| && Defines(Code(Broken(k, e), c)[j], x)
    ensures b == c && i == j
  {
    hide Broken, BreakOk, NewCode, OldPos, LoadPos, AtLoad, AtStore, OneDefinition, Defines;
    DefinesFrom(k, e, x, b, i);
    DefinesFrom(k, e, x, c, j);
    if x != e.r {
      OneDefinitionAt(k, x, b, OldPos(k, e, b, i), c, OldPos(k, e, c, j));
      BrokenIs(k, e, b);
      OldPosOneToOne(k, e, b, i, j);
    }
  }

  lemma NotByPhiStill(k: Kernel, e: Break, x: Name, b: Block, i: nat, c: Block, q: nat)
    requires BreakOk(k, e) && OneDefinition(k)
    requires i < |Code(Broken(k, e), b)| && Defines(Code(Broken(k, e), b)[i], x) && q < |Phis(Broken(k, e), c)|
    ensures Phis(Broken(k, e), c)[q].dst != x
  {
    hide Broken, BreakOk, OldPos, LoadPos, AtLoad, AtStore, OneDefinition, Defines, Unmentioned;
    var o := PhiFrom(k, e, c, q);
    DefinesFrom(k, e, x, b, i);
    BreakFacts(k, e);
    UnmentionedPhi(k, e.r, c, o);
    if x != e.r {
      NoPhiOf(k, x, b, OldPos(k, e, b, i), c, o);
    }
  }

  /** SSA form outlasts the breaking of a PHI. */
  lemma BrokenKeepsSsa(k: Kernel, e: Break)
    requires BreakOk(k, e) && OneDefinition(k)
    ensures OneDefinition(Broken(k, e))
  {
    hide Broken, BreakOk, OneDefinition, Defines;
    var k' := Broken(k, e);
    forall x, b, i, c, j | 0 <= i < |Code(k', b)| && 0 <= j < |Code(k', c)|
                           && Defines(Code(k', b)[i], x) && Defines(Code(k', c)[j], x)
      ensures b == c && i == j
    {
      DefinedOnceStill(k, e, x, b, i, c, j);
    }
    forall x, b, i, c, q | 0 <= i < |Code(k', b)| && Defines(Code(k', b)[i], x) && 0 <= q < |Phis(k', c)|
      ensures Phis(k', c)[q].dst != x
    {
      NotByPhiStill(k, e, x, b, i, c, q);
    }
    OneDefinitionIntro(k');
  }

  lemma SlotFrom(k: Kernel, e: Break, n: Name)
    requires SlotUsed(Broken(k, e), n)
    ensures n == e.p.dst || SlotUsed(k, n)
  {
    hide Broken, SubstAll;
    var b, i :| 0 <= i < |Code(Broken(k, e), b)| && UsesSlot(n, Code(Broken(k, e), b)[i]);
    var o := InstFrom(k, e, b, i);
    assert n == e.p.dst || UsesSlot(n, Code(k, b)[o]);
  }

  lemma NameBelow(k: Kernel, e: Break, next: Name)
    requires BreakOk(k, e) && Below(k, next)
    ensures e.p.dst < next && forall b :: !DefIn(k, e.p.dst, b)
  {
    hide Defines, UsedBy, UsedByTerm, UsedByPhi, Operands;
    var q :| 0 <= q < |Phis(k, e.b)| && Phis(k, e.b)[q] == e.p;
    assert e.p.dst >= next ==> Unmentioned(k, e.p.dst);
  }

  /** The variable of a broken PHI is the name of no register. */
  lemma VariablesStay(k: Kernel, e: Break, next: Name)
    requires BreakOk(k, e) && Below(k, next) && e.r == next && VariablesOnly(k, next)
    ensures VariablesOnly(Broken(k, e), next + 1)
  {
    hide Broken, BreakOk, Below, SlotUsed, Defines, OldPos, LoadPos, AtLoad, AtStore;
    NameBelow(k, e, next);
    forall n: Name | SlotUsed(Broken(k, e), n)
      ensures n < next + 1 && forall b :: !DefIn(Broken(k, e), n, b)
    {
      SlotFrom(k, e, n);
      forall b
        ensures !DefIn(Broken(k, e), n, b)
      {
        assert n < next && !DefIn(k, n, b);
        if i :| 0 <= i < |Code(Broken(k, e), b)| && Defines(Code(Broken(k, e), b)[i], n) {
          DefinesFrom(k, e, n, b, i);
        }
      }
    }
  }

  /** Whatever the looped regions are, no variable is read across them. */
  lemma VariablesApart(k: Kernel, next: Name, pr: seq<ParallelRegion>)
    requires VariablesOnly(k, next)
    ensures SlotsApart(k, pr)
  {
    hide SlotUsed, DefIn, ReadIn;
  }

  lemma FormStays(k: Kernel, e: Break)
    requires BreakOk(k, e) && Below(k, e.r)
    ensures OneDefinition(k) ==> OneDefinition(Broken(k, e))
    ensures VariablesOnly(k, e.r) ==> VariablesOnly(Broken(k, e), e.r + 1)
  {
    hide Broken, BreakOk, OneDefinition, VariablesOnly, Below;
    if OneDefinition(k) {
      BrokenKeepsSsa(k, e);
    }
    if VariablesOnly(k, e.r) {
      VariablesStay(k, e, e.r);
    }
  }

  lemma FormFacts(k0: Kernel, es: seq<Break>, k: Kernel, next: Name)
    requires Consistent(k0, es, k, next)
    ensures Below(k, next)
  {
  }

  class BreakPhi {
    var kernel: Kernel
    var next: Name                    // names of new registers start here
    const unbreakable: set<Name>      // the PHIs that a barrier's control depends on
    ghost var breaks: seq<Break>
    ghost const original: Kernel

    ghost predicate Valid()
      reads this
    {
      Consistent(original, breaks, kernel, next)
    }

    constructor (f: Kernel, keep: set<Name>, firstFree: Name)
      requires PhiForm(f) && Below(f, firstFree)
      ensures Valid() && kernel == original == f && unbreakable == keep && breaks == [] && next == firstFree
    {
      kernel, original, unbreakable, next, breaks := f, f, keep, firstFree, [];
    }

    /** Stores each incoming value in front of the terminator of its block. */
    method StoreIncoming(code0: map<Block, seq<Inst>>, p: Phi) returns (code: map<Block, seq<Inst>>)
      ensures code.Keys == code0.Keys + p.incoming.Keys
      ensures forall b :: b in code ==>
                code[b] == (if b in code0 then code0[b] else []) + if b in p.incoming then [Save(p.dst, p.incoming[b])]
                  else []
    {
      code := code0;
      var todo := p.incoming.Keys;
      while todo != {}
        invariant todo <= p.incoming.Keys && code.Keys == code0.Keys + (p.incoming.Keys - todo)
        invariant forall b :: b in code ==>
                    code[b] == (if b in code0 then code0[b] else [])
                             + if b in p.incoming && b !in todo then [Save(p.dst, p.incoming[b])] else []
        decreases todo
      {
        var f :| f in todo;
        var old0 := if f in code then code[f] else [];
        code := code[f := old0 + [Save(p.dst, p.incoming[f])]];
        todo := todo - {f};
      }
    }

    /** Stores in the predecessors, a load at the PHI's place, its uses renamed, itself erased. */
    method Rewrite(e: Break) returns (k: Kernel)
      ensures k == Broken(kernel, e)
    {
      hide Broken, LoadsAhead, KeptPhis, Insert;
      var x, r := e.p.dst, e.r;
      var stored := StoreIncoming(kernel.code, e.p);
      var at := if e.b in stored then stored[e.b] else [];
      var loaded := stored[e.b := Insert(at, LoadsAhead(at), Reload(r, x))];
      var code := map c | c in loaded :: SubstCode(loaded[c], x, r);
      IsBroken(kernel, e, stored, loaded, code);
      k := kernel.(phis := map c | c in kernel.phis :: KeptPhis(kernel.phis[c], x, r), code := code,
                   term := map c | c in kernel.term :: SubstTerm(kernel.term[c], x, r));
    }

    /** Breaks one PHI. */
    method BreakOne(b: Block, q: nat)
      requires Valid() && q < |Phis(kernel, b)|
      modifies this
      ensures Valid() && next == old(next) + 1
      ensures kernel == Broken(old(kernel), Break(b, Phis(old(kernel), b)[q], old(next)))
      ensures breaks == old(breaks) + [Break(b, Phis(old(kernel), b)[q], old(next))]
      ensures old(OneDefinition(kernel)) ==> OneDefinition(kernel)
      ensures old(VariablesOnly(kernel, next)) ==> VariablesOnly(kernel, next)
    {
      hide Consistent, Broken, OneDefinition, VariablesOnly, BreakOk, Below;
      var e := Break(b, Phis(kernel, b)[q], next);
      OneMoreBreak(original, breaks, kernel, next, b, q);
      FormFacts(original, breaks, kernel, next);
      FormStays(kernel, e);
      kernel := Rewrite(e);
      next, breaks := next + 1, breaks + [e];
    }

    /** Breaks all PHIs but the unbreakable ones, which stay PHIs where they are. What is left is
        fit for context buffering, whatever regions get loops. */
    method BreakPhi2Alloca()
      requires Valid()
      modifies this
      ensures Valid()
      ensures forall c, n :: PhiAt(kernel, c, n) <==> PhiAt(old(kernel), c, n) && n in unbreakable
      ensures old(breaks) <= breaks
      ensures forall i :: |old(breaks)| <= i < |breaks| ==> breaks[i].p.dst !in unbreakable
      ensures Below(kernel, next)
      ensures old(OneDefinition(kernel)) ==> OneDefinition(kernel)
      ensures old(VariablesOnly(kernel, next)) ==> forall pr :: SlotsApart(kernel, pr)
    {
      hide Consistent, Broken, OneDefinition, VariablesOnly, Below, SlotsApart;
      var names := set c, q | c in kernel.phis && 0 <= q < |kernel.phis[c]| && kernel.phis[c][q].dst !in unbreakable ::
                       kernel.phis[c][q].dst;
      while names != {}
        invariant Valid()
        invariant old(OneDefinition(kernel)) ==> OneDefinition(kernel)
        invariant old(VariablesOnly(kernel, next)) ==> VariablesOnly(kernel, next)
        invariant names !! unbreakable
        invariant forall c, n :: PhiAt(kernel, c, n) ==> PhiAt(old(kernel), c, n) && (n in unbreakable || n in names)
        invariant forall c, n :: PhiAt(old(kernel), c, n) && n in unbreakable ==> PhiAt(kernel, c, n)
        invariant old(breaks) <= breaks
        invariant forall i :: |old(breaks)| <= i < |breaks| ==> breaks[i].p.dst !in unbreakable
        decreases names
      {
        var n :| n in names;
        if c, q :| c in kernel.phis && 0 <= q < |kernel.phis[c]| && kernel.phis[c][q].dst == n {
          ghost var k1, e := kernel, Break(c, Phis(kernel, c)[q], next);
          BreakOne(c, q);
          PhisLeft(k1, e);
        }
        names := names - {n};
      }
      FormFacts(original, breaks, kernel, next);
      if old(VariablesOnly(kernel, next)) {
        forall pr
          ensures SlotsApart(kernel, pr)
        {
          VariablesApart(kernel, next, pr);
        }
      }
    }
  }

  /** Block c has a PHI named n. */
  ghost predicate PhiAt(k: Kernel, c: Block, n: Name) {
    exists q :: 0 <= q < |Phis(k, c)| && Phis(k, c)[q].dst == n
  }

  /** Breaking a PHI takes that PHI away and no other. */
  lemma PhisLeft(k: Kernel, e: Break)
    ensures forall c, n :: PhiAt(Broken(k, e), c, n) <==> PhiAt(k, c, n) && n != e.p.dst
  {
    hide Broken, KeptPhis;
    forall c, n | PhiAt(Broken(k, e), c, n)
      ensures PhiAt(k, c, n) && n != e.p.dst
    {
      var q :| 0 <= q < |Phis(Broken(k, e), c)| && Phis(Broken(k, e), c)[q].dst == n;
      var o := PhiFrom(k, e, c, q);
    }
    forall c, n | PhiAt(k, c, n) && n != e.p.dst
      ensures PhiAt(Broken(k, e), c, n)
    {
      var o :| 0 <= o < |Phis(k, c)| && Phis(k, c)[o].dst == n;
      BrokenIs(k, e, c);
      var q := KeptAs(Phis(k, c), e.p.dst, e.r, o);
    }
  }

  lemma SubstOfInserted(code: seq<Inst>, i: nat, e: Break, tail: seq<Inst>)
    requires i <= |code|
    ensures SubstCode(Insert(code + tail, i, Reload(e.r, e.p.dst)), e.p.dst, e.r)
         == Insert(SubstCode(code, e.p.dst, e.r), i, Reload(e.r, e.p.dst)) + SubstCode(tail, e.p.dst, e.r)
  {
  }

  lemma IsBroken(k: Kernel, e: Break, stored: map<Block, seq<Inst>>, loaded: map<Block, seq<Inst>>,
                 code: map<Block, seq<Inst>>)
    requires stored.Keys == k.code.Keys + e.p.incoming.Keys
    requires forall b :: b in stored ==>
               stored[b] == Code(k, b) + if b in e.p.incoming then [Save(e.p.dst, e.p.incoming[b])] else []
    requires var at := if e.b in stored then stored[e.b] else [];
             loaded == stored[e.b := Insert(at, LoadsAhead(at), Reload(e.r, e.p.dst))]
    requires code == map c | c in loaded :: SubstCode(loaded[c], e.p.dst, e.r)
    ensures Broken(k, e) == k.(phis := map b | b in k.phis :: KeptPhis(k.phis[b], e.p.dst, e.r), code := code,
                               term := map b | b in k.term :: SubstTerm(k.term[b], e.p.dst, e.r))
  {
    hide LoadsAhead, KeptPhis;
    forall b | b in code
      ensures code[b] == NewCode(k, e, b)
    {
      IsNewCode(k, e, b, stored, loaded);
    }
    assert code.Keys == k.code.Keys + {e.b} + e.p.incoming.Keys;
  }

  lemma IsNewCode(k: Kernel, e: Break, b: Block, stored: map<Block, seq<Inst>>, loaded: map<Block, seq<Inst>>)
    requires stored.Keys == k.code.Keys + e.p.incoming.Keys
    requires forall b :: b in stored ==>
               stored[b] == Code(k, b) + if b in e.p.incoming then [Save(e.p.dst, e.p.incoming[b])] else []
    requires var at := if e.b in stored then stored[e.b] else [];
             loaded == stored[e.b := Insert(at, LoadsAhead(at), Reload(e.r, e.p.dst))]
    requires b in loaded
    ensures SubstCode(loaded[b], e.p.dst, e.r) == NewCode(k, e, b)
  {
    hide LoadsAhead;
    var x, r, c := e.p.dst, e.r, Code(k, b);
    if b in e.p.incoming {
      var s := Save(x, e.p.incoming[b]);
      LoadsAheadOfStore(c, s);
      assert SubstCode([s], x, r) == [Save(x, Subst(e.p.incoming[b], x, r))];
      SubstOfInserted(c, LoadsAhead(c), e, [s]);
      assert SubstCode(c + [s], x, r) == SubstCode(c, x, r) + SubstCode([s], x, r);
    } else {
      SubstOfInserted(c, LoadsAhead(c), e, []);
      assert c + [] == c && SubstCode([], x, r) == [];
    }
  }
}
