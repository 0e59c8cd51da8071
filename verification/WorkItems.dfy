/** Work-items: each runs the kernel's code on private registers and the memory all share, one
    instruction at a time, until it stands at a barrier or has returned. */
module WorkItems {
  import opened Graphs

  type Name = nat

  /** Memory that all items share, and the context buffers: an array per buffered value, with a
      slot per item. */
  datatype Addr = Global(at: int) | Slot(value: Name, item: nat)
  type Memory = map<Addr, int>

  datatype Operand = Imm(value: int) | Reg(name: Name)

  datatype Inst =
    | Compute(dst: Name, op: nat, args: seq<Operand>)
    | LocalId(dst: Name, dim: nat)
    | Load(dst: Name, addr: Operand)
    | Store(addr: Operand, val: Operand)
    | Save(slot: Name, val: Operand)
    | Reload(dst: Name, slot: Name)
    | Barrier

  /** Evaluated, all those of a block at once, on the edge that enters the block. */
  datatype Phi = Phi(dst: Name, incoming: map<Block, Operand>)

  datatype Term = Goto(to: Block) | Branch(cond: Operand, yes: Block, no: Block) | Return

  /** `alu` gives the arithmetic its meaning and `ids` the local id of an item per dimension. */
  datatype Kernel = Kernel(entry: Block, phis: map<Block, seq<Phi>>, code: map<Block, seq<Inst>>,
    term: map<Block, Term>,
                           alu: (nat, seq<int>) -> int, ids: (nat, nat) -> int)

  datatype Local = Local(at: Block, pc: nat, env: map<Name, int>)

  function Phis(k: Kernel, b: Block): seq<Phi> {
    if b in k.phis then k.phis[b] else []
  }

  function Code(k: Kernel, b: Block): seq<Inst> {
    if b in k.code then k.code[b] else []
  }

  function Terminator(k: Kernel, b: Block): Term {
    if b in k.term then k.term[b] else Return
  }

  function Value(env: map<Name, int>, o: Operand): int {
    match o
    case Imm(v) => v
    case Reg(n) => if n in env then env[n] else 0
  }

  function Values(env: map<Name, int>, os: seq<Operand>): seq<int> {
    seq(|os|, i requires 0 <= i < |os| => Value(env, os[i]))
  }

  function Peek(m: Memory, a: Addr): int {
    if a in m then m[a] else 0
  }

  function Incoming(p: Phi, from: Block, env: map<Name, int>): int {
    if from in p.incoming then Value(env, p.incoming[from]) else 0
  }

  /** The registers `env` after the PHIs, whose operands are read in `before`, have been set. */
  function SetPhis(phis: seq<Phi>, from: Block, before: map<Name, int>, env: map<Name, int>): map<Name, int> {
    if phis == [] then env
    else SetPhis(phis[1..], from, before, env[phis[0].dst := Incoming(phis[0], from, before)])
  }

  function Enter(k: Kernel, from: Block, to: Block, env: map<Name, int>): Local {
    Local(to, 0, SetPhis(Phis(k, to), from, env, env))
  }

  predicate AtInst(k: Kernel, l: Local) {
    l.pc < |Code(k, l.at)|
  }

  predicate Waiting(k: Kernel, l: Local) {
    AtInst(k, l) && Code(k, l.at)[l.pc].Barrier?
  }

  predicate Finished(k: Kernel, l: Local) {
    !AtInst(k, l) && Terminator(k, l.at).Return?
  }

  predicate Stopped(k: Kernel, l: Local) {
    Waiting(k, l) || Finished(k, l)
  }

  /** What an instruction of item `id` does to registers and memory. */
  function Exec(k: Kernel, id: nat, x: Inst, env: map<Name, int>, m: Memory): (map<Name, int>, Memory) {
    match x
    case Compute(d, op, args) => (env[d := k.alu(op, Values(env, args))], m)
    case LocalId(d, dim) => (env[d := k.ids(id, dim)], m)
    case Load(d, a) => (env[d := Peek(m, Global(Value(env, a)))], m)
    case Store(a, v) => (env, m[Global(Value(env, a)) := Value(env, v)])
    case Save(n, v) => (env, m[Slot(n, id) := Value(env, v)])
    case Reload(d, n) => (env[d := Peek(m, Slot(n, id))], m)
    case Barrier => (env, m)
  }

  function Target(t: Term, env: map<Name, int>): Block
    requires !t.Return?
  {
    match t
    case Goto(b) => b
    case Branch(c, yes, no) => if Value(env, c) != 0 then yes else no
  }

  /** One instruction or branch of item `id`; nothing when it is stopped. */
  function Step(k: Kernel, id: nat, l: Local, m: Memory): (Local, Memory) {
    if Stopped(k, l) then (l, m)
    else if AtInst(k, l) then
      var (env, m') := Exec(k, id, Code(k, l.at)[l.pc], l.env, m);
      (Local(l.at, l.pc + 1, env), m')
    else (Enter(k, l.at, Target(Terminator(k, l.at), l.env), l.env), m)
  }

  /** The addresses that the next step reads and writes. */
  function ReadsAt(k: Kernel, id: nat, l: Local): set<Addr> {
    if !AtInst(k, l) then {}
    else
      match Code(k, l.at)[l.pc]
      case Load(_, a) => {Global(Value(l.env, a))}
      case Reload(_, n) => {Slot(n, id)}
      case _ => {}
  }

  function WritesAt(k: Kernel, id: nat, l: Local): set<Addr> {
    if !AtInst(k, l) then {}
    else
      match Code(k, l.at)[l.pc]
      case Store(a, _) => {Global(Value(l.env, a))}
      case Save(n, _) => {Slot(n, id)}
      case _ => {}
  }

  /** A step changes memory where it writes, and what it does depends on memory where it reads. */
  lemma StepFootprint(k: Kernel, id: nat, l: Local, m: Memory, m': Memory)
    requires forall a :: a in ReadsAt(k, id, l) ==> Peek(m, a) == Peek(m', a)
    ensures Step(k, id, l, m).0 == Step(k, id, l, m').0
    ensures Step(k, id, l, m).1.Keys == m.Keys + WritesAt(k, id, l)
    ensures forall a :: a in m && a !in WritesAt(k, id, l) ==> Step(k, id, l, m).1[a] == m[a]
    ensures forall a :: a in WritesAt(k, id, l) ==>
              a in Step(k, id, l, m').1 && Step(k, id, l, m).1[a] == Step(k, id, l, m').1[a]
  {
    if AtInst(k, l) && Code(k, l.at)[l.pc].Load? {
      assert Global(Value(l.env, Code(k, l.at)[l.pc].addr)) in ReadsAt(k, id, l);
    }
    if AtInst(k, l) && Code(k, l.at)[l.pc].Reload? {
      assert Slot(Code(k, l.at)[l.pc].slot, id) in ReadsAt(k, id, l);
    }
  }
}
