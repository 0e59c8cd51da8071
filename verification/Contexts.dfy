/** Context buffering: the values that one region computes and another reads go through arrays
    with a slot per item.

    Each rewriting inserts one instruction: a store to the slot right behind a definition, or a
    reload in front of a user, which then reads what was reloaded. A run of the rewritten kernel
    maps back, step by step, to a run of the original, by forgetting the inserted instruction,
    the reloaded register and the slots; and at every moment the slot of an item holds the item's
    private register. */
module Contexts {
  import opened Graphs
  import opened WorkItems

  // ------------------------------------------------------------------ uses and definitions

  function Operands(x: Inst): seq<Operand> {
    match x
    case Compute(_, _, args) => args
    case LocalId(_, _) => []
    case Load(_, a) => [a]
    case Store(a, v) => [a, v]
    case Save(_, v) => [v]
    case Reload(_, _) => []
    case Barrier => []
  }

  predicate Defines(x: Inst, n: Name) {
    match x
    case Compute(d, _, _) => d == n
    case LocalId(d, _) => d == n
    case Load(d, _) => d == n
    case Reload(d, _) => d == n
    case _ => false
  }

  predicate UsedBy(n: Name, x: Inst) {
    Reg(n) in Operands(x)
  }

  predicate UsedByTerm(n: Name, t: Term) {
    t.Branch? && t.cond == Reg(n)
  }

  predicate UsedByPhi(n: Name, p: Phi) {
    exists f :: f in p.incoming && p.incoming[f] == Reg(n)
  }

  predicate UsesSlot(n: Name, x: Inst) {
    (x.Save? || x.Reload?) && x.slot == n
  }

  /** Replacing the uses of n by r in a user. */
  function Subst(o: Operand, n: Name, r: Name): Operand {
    if o == Reg(n) then Reg(r) else o
  }

  function SubstAll(os: seq<Operand>, n: Name, r: Name): seq<Operand> {
    seq(|os|, i requires 0 <= i < |os| => Subst(os[i], n, r))
  }

  function SubstInst(x: Inst, n: Name, r: Name): Inst {
    match x
    case Compute(d, op, args) => Compute(d, op, SubstAll(args, n, r))
    case Load(d, a) => Load(d, Subst(a, n, r))
    case Store(a, v) => Store(Subst(a, n, r), Subst(v, n, r))
    case Save(s, v) => Save(s, Subst(v, n, r))
    case _ => x
  }

  function SubstTerm(t: Term, n: Name, r: Name): Term {
    match t
    case Branch(c, yes, no) => Branch(Subst(c, n, r), yes, no)
    case _ => t
  }

  function SubstPhi(p: Phi, n: Name, r: Name): Phi {
    Phi(p.dst, map f | f in p.incoming :: Subst(p.incoming[f], n, r))
  }

  // ----------------------------------------------------------------------------- rewriting

  /** A user of a value: an instruction, a terminator, or a PHI together with the one
      predecessor along which the value comes in. */
  datatype User = ByInst(at: Block, pos: nat) | ByTerm(at: Block) | ByPhi(at: Block, pos: nat, from: Block)

  datatype Edit =
    | SaveAfter(value: Name, at: Block, pos: nat)
    | ReloadFor(value: Name, user: User, reg: Name)

  function EditedBlock(e: Edit): Block {
    match e
    case SaveAfter(_, b, _) => b
    case ReloadFor(_, u, _) => if u.ByPhi? then u.from else u.at
  }

  /** The position at which the new instruction goes: behind a definition, before a user; for a
      PHI, before the terminator of the predecessor. */
  function EditedPos(k: Kernel, e: Edit): nat {
    match e
    case SaveAfter(_, _, j) => j + 1
    case ReloadFor(_, u, _) => if u.ByInst? then u.pos else |Code(k, EditedBlock(e))|
  }

  function Added(e: Edit): Inst {
    match e
    case SaveAfter(n, _, _) => Save(n, Reg(n))
    case ReloadFor(n, _, r) => Reload(r, n)
  }

  function Insert<T>(s: seq<T>, i: nat, x: T): seq<T>
    requires i <= |s|
  {
    s[..i] + [x] + s[i..]
  }

  predicate InRange(k: Kernel, e: Edit) {
    match e
    case SaveAfter(_, b, j) => j < |Code(k, b)|
    case ReloadFor(_, ByInst(b, i), _) => i < |Code(k, b)|
    case ReloadFor(_, ByTerm(_), _) => true
    case ReloadFor(_, ByPhi(c, q, _), _) => q < |Phis(k, c)|
  }

  /** The instructions of the edited block once the user among them has been changed. */
  function Rewritten(k: Kernel, e: Edit): seq<Inst>
    requires InRange(k, e)
  {
    var code := Code(k, EditedBlock(e));
    match e
    case ReloadFor(n, ByInst(b, i), r) => code[i := SubstInst(code[i], n, r)]
    case _ => code
  }

  function Applied(k: Kernel, e: Edit): Kernel
    requires InRange(k, e)
  {
    var b := EditedBlock(e);
    var k' := k.(code := k.code[b := Insert(Rewritten(k, e), EditedPos(k, e), Added(e))]);
    match e
    case SaveAfter(_, _, _) => k'
    case ReloadFor(n, ByInst(_, _), r) => k'
    case ReloadFor(n, ByTerm(_), r) => k'.(term := k.term[b := SubstTerm(Terminator(k, b), n, r)])
    case ReloadFor(n, ByPhi(c, q, _), r) => k'.(phis := k.phis[c := Phis(k, c)[q := SubstPhi(Phis(k, c)[q], n, r)]])
  }

  // --------------------------------------------------------------- when an edit is in order

  /** Every definition of n is followed by the store that saves it, and nothing else goes to
      the slots of n. */
  predicate SavedAt(code: seq<Inst>, i: nat, n: Name)
    requires i < |code|
  {
    && (Defines(code[i], n) ==> i + 1 < |code| && code[i + 1] == Save(n, Reg(n)))
    && (code[i].Save? && code[i].slot == n ==> code[i] == Save(n, Reg(n)) && i > 0 && Defines(code[i - 1], n))
  }

  ghost predicate Saved(k: Kernel, n: Name) {
    && (forall b, i :: 0 <= i < |Code(k, b)| ==> SavedAt(Code(k, b), i, n))
    && (forall b, q :: 0 <= q < |Phis(k, b)| ==> Phis(k, b)[q].dst != n)
  }

  ghost predicate Unmentioned(k: Kernel, r: Name) {
    && (forall b, i :: 0 <= i < |Code(k, b)| ==> !Defines(Code(k, b)[i], r) && !UsedBy(r, Code(k, b)[i]))
    && (forall b :: !UsedByTerm(r, Terminator(k, b)))
    && (forall b, q :: 0 <= q < |Phis(k, b)| ==> Phis(k, b)[q].dst != r && !UsedByPhi(r, Phis(k, b)[q]))
  }

  ghost predicate SaveOk(k: Kernel, n: Name, b: Block, j: nat) {
    && j < |Code(k, b)| && Defines(Code(k, b)[j], n)
    && (forall c, i :: 0 <= i < |Code(k, c)| ==>
          !UsesSlot(n, Code(k, c)[i]) && (Defines(Code(k, c)[i], n) ==> c == b && i == j))
    && (forall c, q :: 0 <= q < |Phis(k, c)| ==> Phis(k, c)[q].dst != n)
  }

  ghost predicate UserOk(k: Kernel, n: Name, u: User) {
    match u
    case ByInst(b, i) => i < |Code(k, b)| && UsedBy(n, Code(k, b)[i]) && Code(k, b)[i] != Save(n, Reg(n))
    case ByTerm(b) => UsedByTerm(n, Terminator(k, b))
    case ByPhi(c, q, f) =>
      && q < |Phis(k, c)| && f in Phis(k, c)[q].incoming && Phis(k, c)[q].incoming[f] == Reg(n)
      && forall f' :: f' in Phis(k, c)[q].incoming && f' != f ==> Phis(k, c)[q].incoming[f'] != Reg(n)
  }

  ghost predicate EditOk(k: Kernel, e: Edit) {
    match e
    case SaveAfter(n, b, j) => SaveOk(k, n, b, j)
    case ReloadFor(n, u, r) => Saved(k, n) && Unmentioned(k, r) && UserOk(k, n, u)
  }

  // ----------------------------------------------------------- from the new run to the old

  function BackEnv(e: Edit, env: map<Name, int>): map<Name, int> {
    if e.ReloadFor? then env - {e.reg} else env
  }

  function Back(k: Kernel, e: Edit, l: Local): Local {
    Local(l.at, if l.at == EditedBlock(e) && l.pc > EditedPos(k, e) then l.pc - 1 else l.pc, BackEnv(e, l.env))
  }

  function BackMem(e: Edit, m: Memory): Memory {
    if e.SaveAfter? then map a | a in m && !(a.Slot? && a.value == e.value) :: m[a] else m
  }

  /** The slot of the item holds its register, except while the item stands before the store. */
  predicate Holds(k: Kernel, n: Name, id: nat, l: Local, m: Memory) {
    || (AtInst(k, l) && Code(k, l.at)[l.pc] == Save(n, Reg(n)))
    || Peek(m, Slot(n, id)) == Value(l.env, Reg(n))
  }

  /** Registers `env` hold in r what they hold in n. */
  predicate Same(env: map<Name, int>, n: Name, r: Name) {
    Value(env, Reg(r)) == Value(env, Reg(n))
  }

  /** Of item `id` at `l`, running what edit e has made of kernel k. */
  predicate Inv(k: Kernel, e: Edit, id: nat, l: Local, m: Memory)
    requires InRange(k, e)
  {
    e.ReloadFor? ==>
      && Holds(Applied(k, e), e.value, id, l, m)
      && l.pc <= |Code(Applied(k, e), l.at)|
      && (l.at == EditedBlock(e) && l.pc == EditedPos(k, e) + 1 ==>
            Same(l.env, e.value, e.reg))
  }

  // ------------------------------------------------------ the rewritten user does the same

  lemma DropUpdate(env: map<Name, int>, d: Name, v: int, r: Name)
    requires d != r
    ensures env[d := v] - {r} == (env - {r})[d := v]
  {
  }

  lemma ExecSubst(k: Kernel, id: nat, x: Inst, n: Name, r: Name, env: map<Name, int>, m: Memory)
    requires !UsedBy(r, x) && !Defines(x, r) && n != r && Same(env, n, r)
    ensures var (env', m') := Exec(k, id, SubstInst(x, n, r), env, m);
            Exec(k, id, x, env - {r}, m) == (env' - {r}, m')
  {
    forall o | o in Operands(x)
      ensures Value(env, Subst(o, n, r)) == Value(env - {r}, o)
    {
    }
    match x {
      case Compute(d, op, args) =>
        assert Values(env, SubstAll(args, n, r)) == Values(env - {r}, args);
        DropUpdate(env, d, k.alu(op, Values(env - {r}, args)), r);
      case LocalId(d, dim) => DropUpdate(env, d, k.ids(id, dim), r);
      case Load(d, a) =>
        assert a in Operands(x);
        DropUpdate(env, d, Peek(m, Global(Value(env - {r}, a))), r);
      case Store(a, v) => assert a in Operands(x) && v in Operands(x);
      case Save(_, v) => assert v in Operands(x);
      case Reload(d, s) => DropUpdate(env, d, Peek(m, Slot(s, id)), r);
      case Barrier =>
    }
  }

  lemma ExecUnmentioned(k: Kernel, id: nat, x: Inst, r: Name, env: map<Name, int>, m: Memory)
    requires !UsedBy(r, x) && !Defines(x, r)
    ensures var (env', m') := Exec(k, id, x, env, m);
            Exec(k, id, x, env - {r}, m) == (env' - {r}, m')
  {
    forall o | o in Operands(x)
      ensures Value(env, o) == Value(env - {r}, o)
    {
    }
    match x {
      case Compute(d, op, args) =>
        assert Values(env, args) == Values(env - {r}, args);
        DropUpdate(env, d, k.alu(op, Values(env - {r}, args)), r);
      case LocalId(d, dim) => DropUpdate(env, d, k.ids(id, dim), r);
      case Load(d, a) =>
        assert a in Operands(x);
        DropUpdate(env, d, Peek(m, Global(Value(env - {r}, a))), r);
      case Store(a, v) => assert a in Operands(x) && v in Operands(x);
      case Save(_, v) => assert v in Operands(x);
      case Reload(d, s) => DropUpdate(env, d, Peek(m, Slot(s, id)), r);
      case Barrier =>
    }
  }

  /** An instruction that leaves the slots of n alone does the same whatever they hold. */
  lemma ExecWithoutSlots(k: Kernel, id: nat, x: Inst, e: Edit, env: map<Name, int>, m: Memory)
    requires e.SaveAfter? && !UsesSlot(e.value, x)
    ensures var (env', m') := Exec(k, id, x, env, m);
            Exec(k, id, x, env, BackMem(e, m)) == (env', BackMem(e, m'))
  {
    var b := BackMem(e, m);
    match x {
      case Store(a, v) =>
        assert BackMem(e, m[Global(Value(env, a)) := Value(env, v)]) == b[Global(Value(env, a)) := Value(env, v)];
      case Save(s, v) =>
        assert BackMem(e, m[Slot(s, id) := Value(env, v)]) == b[Slot(s, id) := Value(env, v)];
      case _ =>
    }
  }

  lemma {:induction false} SetPhisUnmentioned(phis: seq<Phi>, phis': seq<Phi>, from: Block, n: Name, r: Name,
                                              before: map<Name, int>, env: map<Name, int>)
    requires |phis'| == |phis|
    requires forall q :: 0 <= q < |phis| ==>
               phis[q].dst == phis'[q].dst != r
                 && Incoming(phis'[q], from, before) == Incoming(phis[q], from, before - {r})
    ensures SetPhis(phis', from, before, env) - {r} == SetPhis(phis, from, before - {r}, env - {r})
    decreases |phis|
  {
    if phis != [] {
      var env' := env[phis[0].dst := Incoming(phis'[0], from, before)];
      assert env' - {r} == (env - {r})[phis[0].dst := Incoming(phis[0], from, before - {r})];
      SetPhisUnmentioned(phis[1..], phis'[1..], from, n, r, before, env');
    }
  }

  // ---------------------------------------------------------------- one edit, one step

  lemma EditInRange(k: Kernel, e: Edit)
    requires EditOk(k, e)
    ensures InRange(k, e) && EditedPos(k, e) <= |Code(k, EditedBlock(e))|
  {
  }

  /** Where the instructions of the edited block have gone. */
  lemma CodeAt(k: Kernel, e: Edit, b: Block, i: nat)
    requires InRange(k, e)
    ensures var k', p := Applied(k, e), EditedPos(k, e);
            if b != EditedBlock(e) then Code(k', b) == Code(k, b)
            else
              && |Code(k', b)| == |Code(k, b)| + 1
              && Code(k', b)[p] == Added(e)
              && (i < p ==> Code(k', b)[i] == Rewritten(k, e)[i])
              && (p < i < |Code(k', b)| ==> Code(k', b)[i] == Rewritten(k, e)[i - 1])
  {
  }

  lemma SameElsewhere(k: Kernel, e: Edit, b: Block)
    requires InRange(k, e)
    ensures var k' := Applied(k, e);
            && k'.alu == k.alu && k'.ids == k.ids && k'.entry == k.entry
            && (Terminator(k', b).Return? <==> Terminator(k, b).Return?)
            && (e.SaveAfter? || !e.user.ByTerm? || e.user.at != b ==> Terminator(k', b) == Terminator(k, b))
            && (e.SaveAfter? || !e.user.ByPhi? || e.user.at != b ==> Phis(k', b) == Phis(k, b))
  {
  }

  predicate AtAdded(k: Kernel, e: Edit, l: Local) {
    l.at == EditedBlock(e) && l.pc == EditedPos(k, e)
  }

  /** The inserted instruction goes unnoticed. */
  lemma AddedStutters(k: Kernel, e: Edit, id: nat, l: Local, m: Memory)
    requires EditOk(k, e) && AtAdded(k, e, l)
    ensures InRange(k, e) && !Stopped(Applied(k, e), l)
    ensures var (l', m') := Step(Applied(k, e), id, l, m);
            Back(k, e, l') == Back(k, e, l) && BackMem(e, m') == BackMem(e, m)
  {
    hide SaveOk, UserOk, Saved, Unmentioned, Applied;
    EditInRange(k, e);
    CodeAt(k, e, l.at, l.pc);
    match e {
      case SaveAfter(n, _, _) =>
        assert BackMem(e, m[Slot(n, id) := Value(l.env, Reg(n))]) == BackMem(e, m);
      case ReloadFor(n, _, r) =>
        assert l.env[r := Peek(m, Slot(n, id))] - {r} == l.env - {r};
    }
  }

  /** The instruction that runs at l, in the new code and in the old. */
  lemma SameInst(k: Kernel, e: Edit, l: Local)
    requires EditOk(k, e) && InRange(k, e) && !AtAdded(k, e, l)
    ensures var k', o := Applied(k, e), Back(k, e, l);
            && (AtInst(k', l) <==> AtInst(k, o))
            && (AtInst(k', l) ==>
                  var x, x' := Code(k, o.at)[o.pc], Code(k', l.at)[l.pc];
                  x' == x || (e.ReloadFor? && e.user.ByInst? && l.at == EditedBlock(e) && l.pc == EditedPos(k, e) + 1
                              && x' == SubstInst(x, e.value, e.reg)))
  {
    hide SaveOk, UserOk, Saved, Unmentioned, Applied;
    EditInRange(k, e);
    CodeAt(k, e, l.at, l.pc);
  }

  lemma UnmentionedAt(k: Kernel, r: Name, b: Block, i: nat)
    requires Unmentioned(k, r) && i < |Code(k, b)|
    ensures !Defines(Code(k, b)[i], r) && !UsedBy(r, Code(k, b)[i])
  {
  }

  lemma NoSlotAt(k: Kernel, n: Name, b: Block, j: nat, c: Block, i: nat)
    requires SaveOk(k, n, b, j) && i < |Code(k, c)|
    ensures !UsesSlot(n, Code(k, c)[i])
  {
  }

  lemma RegIsNew(k: Kernel, e: Edit)
    requires EditOk(k, e) && e.ReloadFor?
    ensures e.reg != e.value && Unmentioned(k, e.reg) && Saved(k, e.value) && UserOk(k, e.value, e.user)
  {
  }

  /** Any other instruction does to the old registers and memory what it does to the new. */
  lemma InstBack(k: Kernel, e: Edit, id: nat, l: Local, m: Memory)
    requires EditOk(k, e) && InRange(k, e) && !AtAdded(k, e, l) && AtInst(Applied(k, e), l)
    requires Inv(k, e, id, l, m)
    ensures var k', o := Applied(k, e), Back(k, e, l);
            && AtInst(k, o)
            && (Code(k', l.at)[l.pc].Barrier? <==> Code(k, o.at)[o.pc].Barrier?)
            && var (env, m') := Exec(k', id, Code(k', l.at)[l.pc], l.env, m);
               Exec(k, id, Code(k, o.at)[o.pc], o.env, BackMem(e, m)) == (BackEnv(e, env), BackMem(e, m'))
  {
    hide SaveOk, UserOk, Saved, Unmentioned, Applied, EditOk, Holds;
    var k', o := Applied(k, e), Back(k, e, l);
    SameInst(k, e, l);
    SameElsewhere(k, e, l.at);
    var x, x' := Code(k, o.at)[o.pc], Code(k', l.at)[l.pc];
    ExecSameMeaning(k, k', id, x', l.env, m);
    if e.SaveAfter? {
      SaveOkOf(k, e);
      NoSlotAt(k, e.value, e.at, e.pos, o.at, o.pc);
      ExecWithoutSlots(k, id, x, e, l.env, m);
    } else {
      RegIsNew(k, e);
      UnmentionedAt(k, e.reg, o.at, o.pc);
      if x' == x {
        ExecUnmentioned(k, id, x, e.reg, l.env, m);
      } else {
        ExecSubst(k, id, x, e.value, e.reg, l.env, m);
      }
    }
  }

  lemma SaveOkOf(k: Kernel, e: Edit)
    requires EditOk(k, e) && e.SaveAfter?
    ensures SaveOk(k, e.value, e.at, e.pos)
  {
  }

  lemma ExecSameMeaning(k: Kernel, k': Kernel, id: nat, x: Inst, env: map<Name, int>, m: Memory)
    requires k.alu == k'.alu && k.ids == k'.ids
    ensures Exec(k, id, x, env, m) == Exec(k', id, x, env, m)
  {
  }

  /** A terminator leads to the same block, and the PHIs there receive the same values. */
  lemma TermBack(k: Kernel, e: Edit, id: nat, l: Local, m: Memory)
    requires EditOk(k, e) && InRange(k, e) && !AtInst(Applied(k, e), l)
    requires Inv(k, e, id, l, m)
    ensures var k', o := Applied(k, e), Back(k, e, l);
            && !AtInst(k, o)
            && (Terminator(k', l.at).Return? <==> Terminator(k, l.at).Return?)
            && (!Terminator(k, l.at).Return? ==>
                  var t := Target(Terminator(k', l.at), l.env);
                  && t == Target(Terminator(k, l.at), o.env)
                  && Back(k, e, Enter(k', l.at, t, l.env)) == Enter(k, l.at, t, o.env))
  {
    hide SaveOk, UserOk, Saved, Unmentioned, Applied, EditOk, Holds, SetPhis;
    var k', o := Applied(k, e), Back(k, e, l);
    AtAddedIsInst(k, e, l);
    SameInst(k, e, l);
    SameElsewhere(k, e, l.at);
    if !Terminator(k, l.at).Return? {
      TargetBack(k, e, id, l, m);
      var t := Target(Terminator(k', l.at), l.env);
      PhisBack(k, e, id, l, m, t);
    }
  }

  lemma AtAddedIsInst(k: Kernel, e: Edit, l: Local)
    requires EditOk(k, e) && InRange(k, e) && !AtInst(Applied(k, e), l)
    ensures !AtAdded(k, e, l)
  {
    hide SaveOk, UserOk, Saved, Unmentioned, Applied;
    EditInRange(k, e);
    CodeAt(k, e, l.at, l.pc);
  }

  /** At a terminator that stands for the user, the register is the value. */
  lemma SameAtTerm(k: Kernel, e: Edit, id: nat, l: Local, m: Memory)
    requires EditOk(k, e) && InRange(k, e) && !AtInst(Applied(k, e), l) && Inv(k, e, id, l, m)
    requires e.ReloadFor? && !e.user.ByInst? && l.at == EditedBlock(e)
    ensures Same(l.env, e.value, e.reg)
  {
    hide SaveOk, UserOk, Saved, Unmentioned, Applied, EditOk, Holds;
    CodeAt(k, e, l.at, l.pc);
  }

  lemma TargetBack(k: Kernel, e: Edit, id: nat, l: Local, m: Memory)
    requires EditOk(k, e) && InRange(k, e) && !AtInst(Applied(k, e), l) && Inv(k, e, id, l, m)
    requires !Terminator(k, l.at).Return? && !Terminator(Applied(k, e), l.at).Return?
    ensures Target(Terminator(Applied(k, e), l.at), l.env) == Target(Terminator(k, l.at), BackEnv(e, l.env))
  {
    hide SaveOk, UserOk, Saved, Holds, Inv;
    SameElsewhere(k, e, l.at);
    if e.ReloadFor? {
      assert !UsedByTerm(e.reg, Terminator(k, l.at));
      if e.user.ByTerm? && e.user.at == l.at {
        SameAtTerm(k, e, id, l, m);
        assert Terminator(Applied(k, e), l.at) == SubstTerm(Terminator(k, l.at), e.value, e.reg);
      }
    }
  }

  lemma PhisBack(k: Kernel, e: Edit, id: nat, l: Local, m: Memory, t: Block)
    requires EditOk(k, e) && InRange(k, e) && !AtInst(Applied(k, e), l) && Inv(k, e, id, l, m)
    ensures BackEnv(e, SetPhis(Phis(Applied(k, e), t), l.at, l.env, l.env))
         == SetPhis(Phis(k, t), l.at, BackEnv(e, l.env), BackEnv(e, l.env))
  {
    hide SaveOk, Saved, Holds, Inv;
    SameElsewhere(k, e, t);
    if e.ReloadFor? {
      RegIsNew(k, e);
      var phis, phis' := Phis(k, t), Phis(Applied(k, e), t);
      forall q | 0 <= q < |phis|
        ensures phis[q].dst == phis'[q].dst != e.reg
        ensures Incoming(phis'[q], l.at, l.env) == Incoming(phis[q], l.at, l.env - {e.reg})
      {
        PhiBack(k, e, id, l, m, t, q);
      }
      SetPhisUnmentioned(phis, phis', l.at, e.value, e.reg, l.env, l.env);
    }
  }

  lemma PhiBack(k: Kernel, e: Edit, id: nat, l: Local, m: Memory, t: Block, q: nat)
    requires EditOk(k, e) && InRange(k, e) && !AtInst(Applied(k, e), l) && Inv(k, e, id, l, m)
    requires e.ReloadFor? && q < |Phis(k, t)|
    ensures |Phis(Applied(k, e), t)| == |Phis(k, t)|
    ensures var p, p' := Phis(k, t)[q], Phis(Applied(k, e), t)[q];
            p.dst == p'.dst != e.reg && Incoming(p', l.at, l.env) == Incoming(p, l.at, l.env - {e.reg})
  {
    hide SaveOk, Saved, Holds, Inv;
    SameElsewhere(k, e, t);
    var p, p' := Phis(k, t)[q], Phis(Applied(k, e), t)[q];
    assert !UsedByPhi(e.reg, p);
    assert l.at in p.incoming ==> p.incoming[l.at] != Reg(e.reg);
    if p' != p {
      assert p' == SubstPhi(p, e.value, e.reg);
      if l.at in p.incoming && p.incoming[l.at] == Reg(e.value) {
        assert l.at == EditedBlock(e);
        SameAtTerm(k, e, id, l, m);
      }
    }
  }

  /** A step of the rewritten kernel is, seen from the original, no step if it runs the inserted
      instruction and else the step that the original makes. */
  lemma StepBack(k: Kernel, e: Edit, id: nat, l: Local, m: Memory)
    requires EditOk(k, e) && InRange(k, e) && Inv(k, e, id, l, m)
    ensures var (l', m') := Step(Applied(k, e), id, l, m);
            if AtAdded(k, e, l) then Back(k, e, l') == Back(k, e, l) && BackMem(e, m') == BackMem(e, m)
            else (Back(k, e, l'), BackMem(e, m')) == Step(k, id, Back(k, e, l), BackMem(e, m))
    ensures Stopped(Applied(k, e), l) ==> Stopped(k, Back(k, e, l))
  {
    hide EditOk, Applied, Exec, Enter, Inv, BackMem, BackEnv;
    if AtAdded(k, e, l) {
      AddedStutters(k, e, id, l, m);
    } else if AtInst(Applied(k, e), l) {
      InstBack(k, e, id, l, m);
    } else {
      TermBack(k, e, id, l, m);
    }
  }

  // ------------------------------------------------------ slots hold the private registers

  lemma {:induction false} SetPhisKeep(phis: seq<Phi>, from: Block, n: Name, before: map<Name, int>,
                                       env: map<Name, int>)
    requires forall q :: 0 <= q < |phis| ==> phis[q].dst != n
    ensures Value(SetPhis(phis, from, before, env), Reg(n)) == Value(env, Reg(n))
    decreases |phis|
  {
    if phis != [] {
      SetPhisKeep(phis[1..], from, n, before, env[phis[0].dst := Incoming(phis[0], from, before)]);
    }
  }

  lemma NextIsSave(k: Kernel, n: Name, b: Block, i: nat)
    requires Saved(k, n) && i < |Code(k, b)| && Defines(Code(k, b)[i], n)
    ensures i + 1 < |Code(k, b)| && Code(k, b)[i + 1] == Save(n, Reg(n))
  {
    assert SavedAt(Code(k, b), i, n);
  }

  lemma SavesItself(k: Kernel, n: Name, b: Block, i: nat)
    requires Saved(k, n) && i < |Code(k, b)| && Code(k, b)[i].Save? && Code(k, b)[i].slot == n
    ensures Code(k, b)[i] == Save(n, Reg(n)) && i > 0 && Defines(Code(k, b)[i - 1], n)
  {
    assert SavedAt(Code(k, b), i, n);
  }

  lemma NoPhiDefines(k: Kernel, n: Name, b: Block)
    requires Saved(k, n)
    ensures forall q :: 0 <= q < |Phis(k, b)| ==> Phis(k, b)[q].dst != n
  {
  }

  /** When every definition of n is saved, the slot keeps up with the register. */
  lemma HoldsAfterStep(k: Kernel, n: Name, id: nat, l: Local, m: Memory)
    requires Saved(k, n) && Holds(k, n, id, l, m)
    ensures var (l', m') := Step(k, id, l, m); Holds(k, n, id, l', m')
  {
    hide Saved, SetPhis;
    if AtInst(k, l) {
      var x := Code(k, l.at)[l.pc];
      if Defines(x, n) {
        NextIsSave(k, n, l.at, l.pc);
      } else if x.Save? && x.slot == n {
        SavesItself(k, n, l.at, l.pc);
      }
    } else if !Terminator(k, l.at).Return? {
      var t := Target(Terminator(k, l.at), l.env);
      NoPhiDefines(k, n, t);
      SetPhisKeep(Phis(k, t), l.at, n, l.env, l.env);
    }
  }

  lemma HoldsBesideStep(k: Kernel, n: Name, id: nat, l: Local, m: Memory, id': nat, l': Local)
    requires id != id' && Holds(k, n, id', l', m)
    ensures Holds(k, n, id', l', Step(k, id, l, m).1)
  {
  }

  lemma SaveMakesSaved(k: Kernel, e: Edit)
    requires EditOk(k, e) && InRange(k, e) && e.SaveAfter?
    ensures Saved(Applied(k, e), e.value)
  {
    hide Applied;
    var k', n, p := Applied(k, e), e.value, EditedPos(k, e);
    forall b, i | 0 <= i < |Code(k', b)|
      ensures SavedAt(Code(k', b), i, n)
    {
      CodeAt(k, e, b, i);
      if i > 0 {
        CodeAt(k, e, b, i - 1);
      }
      if b == EditedBlock(e) {
        if i != p {
          var o := if i < p then i else i - 1;
          assert Code(k', b)[i] == Code(k, b)[o];
        }
      } else {
        assert Code(k', b)[i] == Code(k, b)[i];
      }
    }
    forall b, q | 0 <= q < |Phis(k', b)|
      ensures Phis(k', b)[q].dst != n
    {
      SameElsewhere(k, e, b);
    }
  }

  /** Later edits leave what is saved so. */
  lemma SavedStays(k: Kernel, e: Edit, n: Name)
    requires EditOk(k, e) && InRange(k, e) && Saved(k, n) && (e.ReloadFor? ==> e.reg != n)
    ensures Saved(Applied(k, e), n)
  {
    hide Applied, Saved, Unmentioned;
    var k', p := Applied(k, e), EditedPos(k, e);
    forall b, i | 0 <= i < |Code(k', b)|
      ensures SavedAt(Code(k', b), i, n)
    {
      InstStaysSaved(k, e, n, b, i);
    }
    forall b, q | 0 <= q < |Phis(k', b)|
      ensures Phis(k', b)[q].dst != n
    {
      SameElsewhere(k, e, b);
      NoPhiDefines(k, n, b);
      PhiDstKept(k, e, b, q);
    }
    assert Saved(k', n) by { SavedIntro(k', n); }
  }

  lemma SavedIntro(k: Kernel, n: Name)
    requires forall b, i :: 0 <= i < |Code(k, b)| ==> SavedAt(Code(k, b), i, n)
    requires forall b, q :: 0 <= q < |Phis(k, b)| ==> Phis(k, b)[q].dst != n
    ensures Saved(k, n)
  {
  }

  lemma PhiDstKept(k: Kernel, e: Edit, b: Block, q: nat)
    requires InRange(k, e) && q < |Phis(Applied(k, e), b)|
    ensures q < |Phis(k, b)| && Phis(Applied(k, e), b)[q].dst == Phis(k, b)[q].dst
  {
  }

  lemma SubstKeepsShape(x: Inst, n: Name, r: Name, d: Name)
    ensures Defines(SubstInst(x, n, r), d) <==> Defines(x, d)
    ensures !x.Save? ==> !SubstInst(x, n, r).Save?
    ensures x.Save? && SubstInst(x, n, r).Save? ==> SubstInst(x, n, r).slot == x.slot
  {
  }

  lemma InstStaysSaved(k: Kernel, e: Edit, n: Name, b: Block, i: nat)
    requires EditOk(k, e) && InRange(k, e) && Saved(k, n) && (e.ReloadFor? ==> e.reg != n)
    requires i < |Code(Applied(k, e), b)|
    ensures SavedAt(Code(Applied(k, e), b), i, n)
  {
    hide Applied, Saved, Unmentioned;
    var code, p := Code(Applied(k, e), b), EditedPos(k, e);
    CodeAt(k, e, b, i);
    CodeAt(k, e, b, i + 1);
    if i > 0 {
      CodeAt(k, e, b, i - 1);
    }
    if b != EditedBlock(e) || i != p {
      var o := if b != EditedBlock(e) || i < p then i else i - 1;
      if e.ReloadFor? {
        SubstKeepsShape(Code(k, b)[o], e.value, e.reg, n);
      }
      if Defines(Code(k, b)[o], n) {
        NextIsSave(k, n, b, o);
      }
      if Code(k, b)[o].Save? && Code(k, b)[o].slot == n {
        SavesItself(k, n, b, o);
        if e.ReloadFor? {
          SubstKeepsShape(Code(k, b)[o - 1], e.value, e.reg, n);
        }
      }
    }
  }

  lemma HoldsOf(k: Kernel, e: Edit, id: nat, l: Local, m: Memory)
    requires InRange(k, e) && Inv(k, e, id, l, m) && e.ReloadFor?
    ensures Holds(Applied(k, e), e.value, id, l, m) && l.pc <= |Code(Applied(k, e), l.at)|
  {
  }

  /** The invariant of an edit is kept by the item that makes the step ... */
  lemma InvAfterStep(k: Kernel, e: Edit, id: nat, l: Local, m: Memory)
    requires EditOk(k, e) && InRange(k, e) && Inv(k, e, id, l, m)
    ensures var (l', m') := Step(Applied(k, e), id, l, m); Inv(k, e, id, l', m')
  {
    hide Applied, Saved, Unmentioned, UserOk, SaveOk, SetPhis, Holds;
    if e.ReloadFor? {
      var k', n := Applied(k, e), e.value;
      var (l', m') := Step(k', id, l, m);
      RegIsNew(k, e);
      SavedStays(k, e, n);
      HoldsOf(k, e, id, l, m);
      HoldsAfterStep(k', n, id, l, m);
      CodeAt(k, e, l.at, l.pc);
      EditInRange(k, e);
      if AtAdded(k, e, l) {
        HoldsAtReload(k', n, id, l, m, e.reg);
      }
    }
  }

  lemma HoldsAtReload(k: Kernel, n: Name, id: nat, l: Local, m: Memory, r: Name)
    requires Holds(k, n, id, l, m) && AtInst(k, l) && Code(k, l.at)[l.pc] == Reload(r, n) && r != n
    ensures Same(Step(k, id, l, m).0.env, n, r)
  {
  }

  /** ... and for all others. */
  lemma InvBesideStep(k: Kernel, e: Edit, id: nat, l: Local, m: Memory, id': nat, l': Local)
    requires InRange(k, e) && id != id' && Inv(k, e, id', l', m)
    ensures Inv(k, e, id', l', Step(Applied(k, e), id, l, m).1)
  {
    hide Applied, Step;
    if e.ReloadFor? {
      HoldsOf(k, e, id', l', m);
      HoldsBesideStep(Applied(k, e), e.value, id, l, m, id', l');
    }
  }
}
