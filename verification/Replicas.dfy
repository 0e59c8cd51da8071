/** What tail replication makes of the instructions: copied blocks define new names, operands
    and PHI entries follow, and PHIs that the copies lead to outside get entries for them.

    A name then has two versions, the old one and the copy's. Which of them holds the current
    value changes as control goes through originals and copies; in SSA form every read finds the
    right one, because no dominator of a block is ever seen across the border of the copies. So
    the kernel with copies runs in lockstep with the one before, on the registers it has. */
module Replicas {
  import opened Graphs
  import opened Cloning
  import opened WorkItems
  import opened Interleaving
  import opened Contexts
  import opened ContextPass
  import opened SharedRegisters

  type Names = map<Name, Name>

  // ------------------------------------------------------------------------- the new kernel

  function Ren(nm: Names, x: Name): Name {
    if x in nm then nm[x] else x
  }

  function RenOp(nm: Names, o: Operand): Operand {
    match o
    case Imm(_) => o
    case Reg(x) => Reg(Ren(nm, x))
  }

  function RenOps(nm: Names, os: seq<Operand>): (r: seq<Operand>)
    ensures |r| == |os| && forall i :: 0 <= i < |os| ==> r[i] == RenOp(nm, os[i])
  {
    seq(|os|, i requires 0 <= i < |os| => RenOp(nm, os[i]))
  }

  function RenInst(nm: Names, x: Inst): Inst {
    match x
    case Compute(d, op, args) => Compute(Ren(nm, d), op, RenOps(nm, args))
    case LocalId(d, dim) => LocalId(Ren(nm, d), dim)
    case Load(d, a) => Load(Ren(nm, d), RenOp(nm, a))
    case Store(a, v) => Store(RenOp(nm, a), RenOp(nm, v))
    case Save(s, v) => Save(s, RenOp(nm, v))
    case Reload(d, s) => Reload(Ren(nm, d), s)
    case Barrier => Barrier
  }

  function RenCode(nm: Names, code: seq<Inst>): (r: seq<Inst>)
    ensures |r| == |code| && forall i :: 0 <= i < |code| ==> r[i] == RenInst(nm, code[i])
  {
    seq(|code|, i requires 0 <= i < |code| => RenInst(nm, code[i]))
  }

  function RenTerm(copies: map<Block, Block>, nm: Names, t: Term): Term {
    match t
    case Goto(b) => Goto(Renamed(copies, b))
    case Branch(c, yes, no) => Branch(RenOp(nm, c), Renamed(copies, yes), Renamed(copies, no))
    case Return => Return
  }

  function Turned(t: Term, i: nat, c: Block): Term {
    match t
    case Goto(b) => Goto(if i == 0 then c else b)
    case Branch(o, yes, no) => Branch(o, if i == 0 then c else yes, if i == 1 then c else no)
    case Return => Return
  }

  /** A copied PHI: entries for copied blocks become entries for the copies. */
  function RenPhi(r: Round, nm: Names, p: Phi): Phi {
    var froms := set f | f in p.incoming :: Renamed(r.copies, f);
    Phi(Ren(nm, p.dst), map f | f in froms && r.Orig(f) in p.incoming :: RenOp(nm, p.incoming[r.Orig(f)]))
  }

  /** A PHI outside gets an entry for every copy that leads to its block. */
  function MorePhi(k: Kernel, r: Round, nm: Names, b: Block, p: Phi): Phi {
    Phi(p.dst, p.incoming + map n | n in r.original && r.original[n] in p.incoming
                                    && b in Successors(Terminator(k, r.original[n])) ::
                                       RenOp(nm, p.incoming[r.original[n]]))
  }

  function NewPhi(k: Kernel, r: Round, nm: Names, b: Block, p: Phi): Phi {
    if b in r.original then RenPhi(r, nm, p) else if b in r.copies then p else MorePhi(k, r, nm, b, p)
  }

  function NewPhis(k: Kernel, r: Round, nm: Names, b: Block): (ps: seq<Phi>)
    ensures |ps| == |Phis(k, r.Orig(b))| && forall q ::
            0 <= q < |ps| ==> ps[q] == NewPhi(k, r, nm, b, Phis(k, r.Orig(b))[q])
  {
    var old0 := Phis(k, r.Orig(b));
    seq(|old0|, q requires 0 <= q < |old0| => NewPhi(k, r, nm, b, old0[q]))
  }

  function NewCode(k: Kernel, r: Round, nm: Names, b: Block): seq<Inst> {
    if b in r.original then RenCode(nm, Code(k, r.original[b])) else Code(k, b)
  }

  function NewTerm(k: Kernel, r: Round, nm: Names, b: Block): Term
    requires r.Ok()
  {
    r.Basics();
    if b in r.original then RenTerm(r.copies, nm, Terminator(k, r.original[b]))
    else if b == r.e then Turned(Terminator(k, b), r.i, r.copies[r.Target()])
    else Terminator(k, b)
  }

  function Replicated(k: Kernel, r: Round, nm: Names): Kernel
    requires r.Ok()
  {
    k.(phis := map b | b in k.phis.Keys + r.original.Keys :: NewPhis(k, r, nm, b),
       code := map b | b in k.code.Keys + r.original.Keys :: NewCode(k, r, nm, b),
       term := map b | b in k.term.Keys + r.original.Keys :: NewTerm(k, r, nm, b))
  }

  lemma ReplicatedIs(k: Kernel, r: Round, nm: Names, b: Block)
    requires r.Ok() && r.before == Cfg(k)
    ensures var k' := Replicated(k, r, nm);
            && Phis(k', b) == NewPhis(k, r, nm, b) && Code(k', b) == NewCode(k, r, nm, b)
            && Terminator(k', b) == NewTerm(k, r, nm, b)
  {
    hide Round.Ok, NewPhi, RenCode, NewTerm;
    if b !in k.term && b !in r.original {
      LastIsReturn(k, r, b);
      NewTermOf(k, r, nm, b);
    }
  }

  lemma NewTermOf(k: Kernel, r: Round, nm: Names, b: Block)
    requires r.Ok() && b != r.e && b !in r.original
    ensures NewTerm(k, r, nm, b) == Terminator(k, b)
  {
    hide Round.Ok;
  }

  lemma SameMachine(k: Kernel, r: Round, nm: Names)
    requires r.Ok()
    ensures var k' := Replicated(k, r, nm);
            && k'.entry == k.entry && k'.alu == k.alu && k'.ids == k.ids && Blocks(k') == Blocks(k) + r.original.Keys
  {
    hide Round.Ok, NewPhis, NewCode, NewTerm;
  }

  lemma LastIsReturn(k: Kernel, r: Round, b: Block)
    requires r.Ok() && r.before == Cfg(k) && b !in k.term && b !in r.original
    ensures b != r.e
  {
    hide Round.Ok;
    RoundFacts(r);
    assert r.before.succ[r.e] == Successors(Terminator(k, r.e));
  }

  /** The graph of the new kernel is that of the round. */
  lemma CfgReplicated(k: Kernel, r: Round, nm: Names)
    requires r.Ok() && r.before == Cfg(k)
    ensures Cfg(Replicated(k, r, nm)) == r.after
  {
    hide Round.Ok, NewTerm, NewPhis, NewCode, Replicated, Blocks, Inverse, RenamedSeq, Successors;
    var k' := Replicated(k, r, nm);
    RoundFacts(r);
    SameMachine(k, r, nm);
    forall b | b in Blocks(k')
      ensures b in r.after.succ && r.after.succ[b] == Successors(Terminator(k', b))
    {
      ReplicatedIs(k, r, nm, b);
      SuccessorsAre(k, r, nm, b);
    }
    assert Cfg(k').succ == r.after.succ;
  }

  lemma SuccessorsAre(k: Kernel, r: Round, nm: Names, b: Block)
    requires r.Ok() && r.before == Cfg(k) && (b in Blocks(k) || b in r.original)
    ensures b in r.after.succ && r.after.succ[b] == Successors(NewTerm(k, r, nm, b))
  {
    hide Round.Ok, Inverse, RenTerm, Turned, Blocks, Successors;
    RoundFacts(r);
    if b in r.original {
      SuccessorsRenamed(r.copies, nm, Terminator(k, r.original[b]));
    } else {
      assert r.before.succ[b] == Successors(Terminator(k, b));
      if b == r.e {
        SuccessorsTurned(Terminator(k, b), r.i, r.copies[r.Target()]);
      }
    }
  }

  lemma SuccessorsRenamed(copies: map<Block, Block>, nm: Names, t: Term)
    ensures Successors(RenTerm(copies, nm, t)) == RenamedSeq(copies, Successors(t))
  {
  }

  lemma SuccessorsTurned(t: Term, i: nat, c: Block)
    requires i < |Successors(t)|
    ensures Successors(Turned(t, i, c)) == Successors(t)[i := c]
  {
  }

  // ------------------------------------------------------------------- versions of registers

  /** The names that the copied blocks define have copies of their own, new to the kernel as the
      copies are. */
  ghost predicate NamesOk(k: Kernel, r: Round, nm: Names) {
    && (forall x :: x in nm <==> exists d :: d in r.copies && DefBlock(k, x, d))
    && (forall x :: x in nm ==> Unmentioned(k, nm[x]))
    && (forall x, y :: x in nm && y in nm && nm[x] == nm[y] ==> x == y)
    && (forall b, q :: 0 <= q < |Phis(k, b)| ==> Phis(k, b)[q].incoming.Keys !! r.original.Keys)
  }

  /** The names that the copied blocks define, each with one beyond `next`. */
  function NewNames(k: Kernel, r: Round, next: Name): Names {
    var insts := set b, i | b in r.copies && 0 <= i < |Code(k, b)| && HasDst(Code(k, b)[i]) :: Dst(Code(k, b)[i]);
    var phis := set b, q | b in r.copies && 0 <= q < |Phis(k, b)| :: Phis(k, b)[q].dst;
    map x: Name | x in insts + phis :: next + x
  }

  /** There are always names to take. */
  lemma NewNamesOk(k: Kernel, r: Round, next: Name)
    requires Below(k, next) && forall b, q :: 0 <= q < |Phis(k, b)| ==> Phis(k, b)[q].incoming.Keys !! r.original.Keys
    ensures NamesOk(k, r, NewNames(k, r, next))
  {
    hide Unmentioned;
    var nm := NewNames(k, r, next);
    forall x: Name
      ensures x in nm <==> exists d :: d in r.copies && DefBlock(k, x, d)
    {
      if d :| d in r.copies && DefBlock(k, x, d) {
        if i :| 0 <= i < |Code(k, d)| && Defines(Code(k, d)[i], x) {
          assert HasDst(Code(k, d)[i]) && Dst(Code(k, d)[i]) == x;
        } else {
          assert PhiDefines(k, x, d);
        }
      }
      if x in nm {
        NameDefined(k, r, next, x);
      }
    }
  }

  lemma NameDefined(k: Kernel, r: Round, next: Name, x: Name)
    requires x in NewNames(k, r, next)
    ensures exists d :: d in r.copies && DefBlock(k, x, d)
  {
    if b, i :| b in r.copies && 0 <= i < |Code(k, b)| && HasDst(Code(k, b)[i]) && Dst(Code(k, b)[i]) == x {
      assert Defines(Code(k, b)[i], x);
      assert DefBlock(k, x, b);
    } else {
      var b, q :| b in r.copies && 0 <= q < |Phis(k, b)| && Phis(k, b)[q].dst == x;
      assert PhiDefines(k, x, b);
      assert DefBlock(k, x, b);
    }
  }

  /** For the names in `moved` the copy's version is the current one. */
  function VersionOf(nm: Names, moved: set<Name>, x: Name): Name {
    if x in moved && x in nm then nm[x] else x
  }

  ghost predicate Versions(nm: Names, moved: set<Name>, env: map<Name, int>, env': map<Name, int>) {
    forall x :: x !in nm.Values ==> Value(env, Reg(x)) == Value(env', Reg(VersionOf(nm, moved, x)))
  }

  /** What has been defined on every way to the place has its version on the same side. */
  ghost predicate Current(k: Kernel, r: Round, nm: Names, moved: set<Name>, at: Block, pc: nat) {
    forall x :: x in nm && DefinedBefore(k, x, r.Orig(at), pc) ==> (x in moved <==> at in r.original)
  }

  /** Old item l and new item l'. */
  ghost predicate Mirrors(k: Kernel, r: Round, nm: Names, l: Local, l': Local, moved: set<Name>) {
    && l.at == r.Orig(l'.at) && l.pc == l'.pc && Reachable(r.before, l.at)
    && Versions(nm, moved, l.env, l'.env) && Current(k, r, nm, moved, l'.at, l.pc)
  }

  function Redefined(moved: set<Name>, x: Name, copy: bool): set<Name> {
    if copy then moved + {x} else moved - {x}
  }

  lemma NotNew(k: Kernel, r: Round, nm: Names, x: Name)
    requires NamesOk(k, r, nm) && (exists b :: DefBlock(k, x, b) || ReadIn(k, x, b))
    ensures x !in nm.Values
  {
    hide UsedBy, UsedByTerm, UsedByPhi, Defines;
    assert x in nm.Values ==> Unmentioned(k, x);
  }

  lemma DefineMirrors(nm: Names, moved: set<Name>, env: map<Name, int>, env': map<Name, int>, x: Name, v: int,
                      copy: bool)
    requires Versions(nm, moved, env, env') && x !in nm.Values && (copy ==> x in nm)
    requires forall y, z :: y in nm && z in nm && nm[y] == nm[z] ==> y == z
    ensures Versions(nm, Redefined(moved, x, copy), env[x := v], env'[if copy then nm[x] else x := v])
  {
  }

  /** Every read finds the version that is current. */
  lemma ReadMirrors(k: Kernel, r: Round, nm: Names, l: Local, l': Local, moved: set<Name>, x: Name)
    requires NamesOk(k, r, nm) && Mirrors(k, r, nm, l, l', moved) && x !in nm.Values
    requires DefinedBefore(k, x, l.at, l.pc)
    ensures Value(l.env, Reg(x)) == Value(l'.env, Reg(if l'.at in r.original then Ren(nm, x) else x))
  {
    hide DefinedBefore, NamesOk, Reachable;
  }

  // ---------------------------------------------------------------------- one instruction

  function Version(nm: Names, copy: bool, o: Operand): Operand {
    if copy then RenOp(nm, o) else o
  }

  lemma ExecMirrors(k: Kernel, k': Kernel, nm: Names, moved: set<Name>, id: nat, x: Inst, copy: bool,
                    env: map<Name, int>, env': map<Name, int>, m: Memory)
    requires k.alu == k'.alu && k.ids == k'.ids
    requires Versions(nm, moved, env, env') && forall y, z :: y in nm && z in nm && nm[y] == nm[z] ==> y == z
    requires forall o :: o in Operands(x) ==> Value(env, o) == Value(env', Version(nm, copy, o))
    requires HasDst(x) ==> Dst(x) !in nm.Values && (copy ==> Dst(x) in nm)
    ensures var (a, n), (a', n') := Exec(k, id, x, env, m), Exec(k', id, if copy then RenInst(nm, x) else x, env', m);
            n == n' && Versions(nm, if HasDst(x) then Redefined(moved, Dst(x), copy) else moved, a, a')
  {
    hide Versions;
    if HasDst(x) {
      DefineMirrors(nm, moved, env, env', Dst(x), Value(Exec(k, id, x, env, m).0, Reg(Dst(x))), copy);
    }
    match x {
      case Compute(_, _, args) =>
        assert Values(env, args) == Values(env', if copy then RenOps(nm, args) else args) by {
          forall i | 0 <= i < |args|
            ensures Value(env, args[i]) == Value(env', if copy then RenOp(nm, args[i]) else args[i])
          {
            assert args[i] in Operands(x);
          }
        }
      case Load(_, a) => assert a in Operands(x);
      case Store(a, v) => assert a in Operands(x) && v in Operands(x);
      case Save(_, v) => assert v in Operands(x);
      case _ =>
    }
  }

  lemma DefinedNext(k: Kernel, x: Name, b: Block, pc: nat)
    requires pc < |Code(k, b)| && DefinedBefore(k, x, b, pc + 1)
    ensures DefinedBefore(k, x, b, pc) || (HasDst(Code(k, b)[pc]) && Dst(Code(k, b)[pc]) == x)
  {
    hide DefBlock, PhiDefines, Dominates;
  }

  lemma InstReads(k: Kernel, b: Block, i: nat, x: Name)
    requires Ssa(k) && i < |Code(k, b)| && UsedBy(x, Code(k, b)[i])
    ensures DefinedBefore(k, x, b, i) && ReadIn(k, x, b)
  {
    hide DefinedBefore, UsedBy;
  }

  lemma InstDefines(k: Kernel, b: Block, i: nat)
    requires i < |Code(k, b)| && HasDst(Code(k, b)[i])
    ensures DefBlock(k, Dst(Code(k, b)[i]), b)
  {
  }

  lemma OneToOne(k: Kernel, r: Round, nm: Names)
    requires NamesOk(k, r, nm)
    ensures forall y, z :: y in nm && z in nm && nm[y] == nm[z] ==> y == z
  {
    hide DefBlock, Unmentioned;
  }

  lemma CopiedDefines(k: Kernel, r: Round, nm: Names, x: Name, at: Block)
    requires r.Ok() && NamesOk(k, r, nm) && at in r.original && DefBlock(k, x, r.Orig(at))
    ensures x in nm
  {
    hide Round.Ok, Unmentioned, DefBlock;
    RoundFacts(r);
  }

  /** One instruction, of the original or of a copy. */
  lemma InstMirrors(k: Kernel, r: Round, nm: Names, id: nat, l: Local, l': Local, m: Memory, moved: set<Name>)
    returns (moved': set<Name>)
    requires Ssa(k) && r.Ok() && r.before == Cfg(k) && NamesOk(k, r, nm) && Mirrors(k, r, nm, l, l', moved)
    requires AtInst(k, l)
    ensures var k' := Replicated(k, r, nm); AtInst(k', l') && (Waiting(k', l') <==> Waiting(k, l))
    ensures var k' := Replicated(k, r, nm);
            var x, x' := Code(k, l.at)[l.pc], Code(k', l'.at)[l'.pc];
            var (a, n), (a', n') := Exec(k, id, x, l.env, m), Exec(k', id, x', l'.env, m);
            n == n' && Mirrors(k, r, nm, Local(l.at, l.pc + 1, a), Local(l'.at, l'.pc + 1, a'), moved')
  {
    hide Round.Ok, Ssa, NamesOk, Replicated, Versions, DefinedBefore, ReadIn, Reachable, Exec, DefBlock;
    var copy := l'.at in r.original;
    var x := Code(k, l.at)[l.pc];
    ReplicatedIs(k, r, nm, l'.at);
    SameMachine(k, r, nm);
    OneToOne(k, r, nm);
    forall o | o in Operands(x)
      ensures Value(l.env, o) == Value(l'.env, Version(nm, copy, o))
    {
      if o.Reg? {
        InstReads(k, l.at, l.pc, o.name);
        NotNew(k, r, nm, o.name);
        ReadMirrors(k, r, nm, l, l', moved, o.name);
      }
    }
    moved' := moved;
    if HasDst(x) {
      InstDefines(k, l.at, l.pc);
      NotNew(k, r, nm, Dst(x));
      if copy {
        CopiedDefines(k, r, nm, Dst(x), l'.at);
      }
      moved' := Redefined(moved, Dst(x), copy);
    }
    ExecMirrors(k, Replicated(k, r, nm), nm, moved, id, x, copy, l.env, l'.env, m);
    forall y | y in nm && DefinedBefore(k, y, l.at, l.pc + 1)
      ensures y in moved' <==> copy
    {
      DefinedNext(k, y, l.at, l.pc);
    }
  }

  // ---------------------------------------------------------------------- entering a block

  function AllRedefined(moved: set<Name>, phis: seq<Phi>, copy: bool): set<Name>
    decreases |phis|
  {
    if phis == [] then moved else AllRedefined(Redefined(moved, phis[0].dst, copy), phis[1..], copy)
  }

  lemma {:induction false} AllRedefinedIs(moved: set<Name>, phis: seq<Phi>, copy: bool, x: Name)
    ensures x in AllRedefined(moved, phis, copy)
       <==> if exists q :: 0 <= q < |phis| && phis[q].dst == x then copy else x in moved
    decreases |phis|
  {
    if phis != [] {
      AllRedefinedIs(Redefined(moved, phis[0].dst, copy), phis[1..], copy, x);
      if q :| 0 <= q < |phis| && phis[q].dst == x {
        assert q == 0 || phis[1..][q - 1].dst == x;
      }
      if q :| 0 <= q < |phis[1..]| && phis[1..][q].dst == x {
        assert phis[q + 1].dst == x;
      }
    }
  }

  lemma {:induction false} PhisMirror(nm: Names, moved: set<Name>, phis: seq<Phi>, phis': seq<Phi>, copy: bool,
                                      from: Block,
                                      from': Block, before: map<Name, int>, before': map<Name, int>,
                                      env: map<Name, int>, env': map<Name, int>)
    requires |phis'| == |phis| && Versions(nm, moved, env, env')
    requires forall y, z :: y in nm && z in nm && nm[y] == nm[z] ==> y == z
    requires forall q :: 0 <= q < |phis| ==>
               && phis[q].dst !in nm.Values && (copy ==> phis[q].dst in nm)
               && phis'[q].dst == (if copy then Ren(nm, phis[q].dst) else phis[q].dst)
               && Incoming(phis'[q], from', before') == Incoming(phis[q], from, before)
    ensures Versions(nm, AllRedefined(moved, phis, copy), SetPhis(phis, from, before, env),
            SetPhis(phis', from', before', env'))
    decreases |phis|
  {
    hide Versions, Incoming;
    if phis != [] {
      var v := Incoming(phis[0], from, before);
      DefineMirrors(nm, moved, env, env', phis[0].dst, v, copy);
      PhisMirror(nm, Redefined(moved, phis[0].dst, copy), phis[1..], phis'[1..], copy, from, from', before, before',
                 env[phis[0].dst := v], env'[phis'[0].dst := v]);
    }
  }

  lemma EdgeUncopied(r: Round)
    requires r.Ok()
    ensures r.e !in r.copies
  {
    hide Round.Ok;
    DominatesSelf(r.before, r.e);
    r.DominatorUncopied(r.e);
  }

  /** The entry of a PHI for the edge by which its block is entered: in a copy ... */
  lemma EntryInCopy(r: Round, nm: Names, w: Block, p: Phi)
    requires Inverse(r.copies, r.original) && (w !in r.original ==> w !in r.copies)
    ensures var p' := RenPhi(r, nm, p);
            && (w in p'.incoming <==> r.Orig(w) in p.incoming)
            && (w in p'.incoming ==> p'.incoming[w] == RenOp(nm, p.incoming[r.Orig(w)]))
  {
    var froms := set f | f in p.incoming :: Renamed(r.copies, f);
    if r.Orig(w) in p.incoming {
      assert w == Renamed(r.copies, r.Orig(w));
      assert w in froms;
    }
  }

  /** ... outside the copied blocks ... */
  lemma EntryOutside(k: Kernel, r: Round, nm: Names, w: Block, t: Block, p: Phi)
    requires p.incoming.Keys !! r.original.Keys && t in Successors(Terminator(k, r.Orig(w)))
    ensures var p' := MorePhi(k, r, nm, t, p);
            && (w in p'.incoming <==> r.Orig(w) in p.incoming)
            && (w in p'.incoming ==> p'.incoming[w] == Version(nm, w in r.original, p.incoming[r.Orig(w)]))
  {
  }

  /** ... or in what was copied. */
  lemma EntryFor(k: Kernel, r: Round, nm: Names, w: Block, t: Block, q: nat)
    requires r.Ok() && r.before == Cfg(k) && NamesOk(k, r, nm) && (w, t) in Edges(r.after) && q < |Phis(k, r.Orig(t))|
    ensures var p := Phis(k, r.Orig(t))[q]; var p' := NewPhi(k, r, nm, t, p);
            && (w in p'.incoming <==> r.Orig(w) in p.incoming)
            && (w in p'.incoming ==>
                  p'.incoming[w] == Version(nm, w in r.original || t in r.original, p.incoming[r.Orig(w)]))
  {
    hide Round.Ok, Edges, Unmentioned, DefBlock, RenPhi, MorePhi, Successors;
    var p := Phis(k, r.Orig(t))[q];
    RoundFacts(r);
    EdgeUncopied(r);
    r.EdgeProjects(w, t);
    EdgeIsTarget(k, r, r.Orig(w), r.Orig(t));
    if t in r.original {
      EntryInCopy(r, nm, w, p);
    } else if t !in r.copies {
      EntryOutside(k, r, nm, w, t, p);
    }
  }

  lemma EdgeIsTarget(k: Kernel, r: Round, u: Block, v: Block)
    requires r.before == Cfg(k) && (u, v) in Edges(r.before)
    ensures v in Successors(Terminator(k, u))
  {
  }

  /** Nothing that the turned edge's block can read is copied. */
  lemma NotCopiedAtEdge(k: Kernel, r: Round, nm: Names, x: Name, i: nat)
    requires Ssa(k) && r.Ok() && r.before == Cfg(k) && NamesOk(k, r, nm) && DefinedBefore(k, x, r.e, i)
    ensures x !in nm
  {
    hide Round.Ok, Unmentioned, Dominates, DefBlock;
    EdgeUncopied(r);
    if x in nm {
      var d :| d in r.copies && DefBlock(k, x, d);
      DefinedIn(k, x, r.e, i);
      if c :| DefBlock(k, x, c) && (c == r.e || Dominates(r.before, c, r.e)) {
        InOneBlock(k, x, c, d);
        if c != r.e {
          r.DominatorUncopied(c);
        }
      }
    }
  }

  lemma DefinedIn(k: Kernel, x: Name, b: Block, i: nat)
    requires DefinedBefore(k, x, b, i)
    ensures (exists c :: DefBlock(k, x, c) && (c == b || Dominates(Cfg(k), c, b))) || (forall d :: !DefBlock(k, x, d))
  {
    hide Dominates;
    if DefinedAbove(Code(k, b), x, i) || PhiDefines(k, x, b) {
      assert DefBlock(k, x, b);
    }
  }

  lemma PhiReadAt(k: Kernel, x: Name, b: Block, q: nat, f: Block)
    requires Ssa(k) && PhiReads(k, x, b, q, f)
    ensures DefinedBefore(k, x, f, |Code(k, f)|) && ReadIn(k, x, b)
  {
    hide DefinedBefore;
  }

  /** A PHI receives the same along the edge. */
  lemma IncomingMirrors(k: Kernel, r: Round, nm: Names, l: Local, l': Local, moved: set<Name>, t: Block, q: nat)
    requires Ssa(k) && r.Ok() && r.before == Cfg(k) && NamesOk(k, r, nm) && Mirrors(k, r, nm, l, l', moved)
    requires (l'.at, t) in Edges(r.after) && q < |Phis(k, r.Orig(t))| && l.pc == |Code(k, l.at)|
    ensures var p := Phis(k, r.Orig(t))[q];
            Incoming(NewPhi(k, r, nm, t, p), l'.at, l'.env) == Incoming(p, l.at, l.env)
  {
    hide Round.Ok, Edges, Ssa, NamesOk, NewPhi, DefinedBefore, ReadIn, Versions, Current, Reachable;
    var p := Phis(k, r.Orig(t))[q];
    EntryFor(k, r, nm, l'.at, t, q);
    if l.at in p.incoming && p.incoming[l.at].Reg? {
      var x := p.incoming[l.at].name;
      assert PhiReads(k, x, r.Orig(t), q, l.at);
      PhiReadAt(k, x, r.Orig(t), q, l.at);
      NotNew(k, r, nm, x);
      ReadMirrors(k, r, nm, l, l', moved, x);
      r.EdgeProjects(l'.at, t);
      if l'.at !in r.original && t in r.original {
        NotCopiedAtEdge(k, r, nm, x, |Code(k, l.at)|);
      }
    }
  }

  lemma OneCopiedBlock(k: Kernel, r: Round, nm: Names, x: Name, d: Block)
    requires Ssa(k) && NamesOk(k, r, nm) && x in nm && DefBlock(k, x, d)
    ensures d in r.copies
  {
    hide Unmentioned, DefBlock;
    var c :| c in r.copies && DefBlock(k, x, c);
    InOneBlock(k, x, c, d);
  }

  lemma AtBlockEntry(k: Kernel, x: Name, b: Block) returns (d: Block)
    requires DefinedBefore(k, x, b, 0) && !PhiDefines(k, x, b) && exists c :: DefBlock(k, x, c)
    ensures d != b && DefBlock(k, x, d) && Dominates(Cfg(k), d, b)
  {
    hide DefBlock, Dominates;
    d :| d != b && DefBlock(k, x, d) && Dominates(Cfg(k), d, b);
  }

  lemma AtBlockEnd(k: Kernel, x: Name, b: Block, d: Block)
    requires DefBlock(k, x, d) && (d == b || Dominates(Cfg(k), d, b))
    ensures DefinedBefore(k, x, b, |Code(k, b)|)
  {
    hide Dominates;
  }

  /** Where control comes to a block, no dominator's version has changed sides. */
  lemma CurrentEnters(k: Kernel, r: Round, nm: Names, l: Local, l': Local, moved: set<Name>, t: Block, x: Name)
    requires Ssa(k) && r.Ok() && r.before == Cfg(k) && NamesOk(k, r, nm) && Mirrors(k, r, nm, l, l', moved)
    requires (l'.at, t) in Edges(r.after) && l.pc == |Code(k, l.at)|
    requires x in nm && DefinedBefore(k, x, r.Orig(t), 0) && !PhiDefines(k, x, r.Orig(t))
    ensures x in moved <==> t in r.original
  {
    hide Round.Ok, Edges, Ssa, Versions, DefBlock, Dominates, Reachable, DefinedBefore, Unmentioned;
    var d := AtBlockEntry(k, x, r.Orig(t));
    OneCopiedBlock(k, r, nm, x, d);
    r.EdgeProjects(l'.at, t);
    StrictDominatorOfPredecessor(r.before, d, l.at, r.Orig(t));
    AtBlockEnd(k, x, l.at, d);
    ReachesNext(r.before, l.at, r.Orig(t));
    if (l'.at in r.original) != (t in r.original) {
      r.BorderSeesUncopied(l'.at, t, d);
    }
  }

  lemma ReachesNext(g: Graph, b: Block, t: Block)
    requires Reachable(g, b) && (b, t) in Edges(g)
    ensures Reachable(g, t)
  {
    ReachStep(Edges(g), g.entry, b, t);
  }

  lemma EnterMirrors(k: Kernel, r: Round, nm: Names, l: Local, l': Local, moved: set<Name>, t: Block)
    returns (moved': set<Name>)
    requires Ssa(k) && r.Ok() && r.before == Cfg(k) && NamesOk(k, r, nm) && Mirrors(k, r, nm, l, l', moved)
    requires (l'.at, t) in Edges(r.after) && l.pc == |Code(k, l.at)|
    ensures Mirrors(k, r, nm, Enter(k, l.at, r.Orig(t), l.env), Enter(Replicated(k, r, nm), l'.at, t, l'.env), moved')
  {
    hide Round.Ok, Edges, Ssa, NamesOk, Versions, DefBlock, DefinedBefore, Reachable, NewPhi, SetPhis, Incoming;
    hide Replicated;
    var copy, phis := t in r.original, Phis(k, r.Orig(t));
    ReplicatedIs(k, r, nm, t);
    OneToOne(k, r, nm);
    r.EdgeProjects(l'.at, t);
    ReachesNext(r.before, l.at, r.Orig(t));
    forall q | 0 <= q < |phis|
      ensures phis[q].dst !in nm.Values && (copy ==> phis[q].dst in nm)
      ensures NewPhi(k, r, nm, t, phis[q]).dst == if copy then Ren(nm, phis[q].dst) else phis[q].dst
      ensures Incoming(NewPhi(k, r, nm, t, phis[q]), l'.at, l'.env) == Incoming(phis[q], l.at, l.env)
    {
      PhiDefinition(k, r, nm, t, q);
      IncomingMirrors(k, r, nm, l, l', moved, t, q);
    }
    moved' := AllRedefined(moved, phis, copy);
    PhisMirror(nm, moved, phis, NewPhis(k, r, nm, t), copy, l.at, l'.at, l.env, l'.env, l.env, l'.env);
    forall x | x in nm && DefinedBefore(k, x, r.Orig(t), 0)
      ensures x in moved' <==> copy
    {
      AllRedefinedIs(moved, phis, copy, x);
      if !PhiDefines(k, x, r.Orig(t)) {
        CurrentEnters(k, r, nm, l, l', moved, t, x);
      }
    }
  }

  lemma PhiDefinition(k: Kernel, r: Round, nm: Names, t: Block, q: nat)
    requires r.Ok() && NamesOk(k, r, nm) && q < |Phis(k, r.Orig(t))|
    ensures var p := Phis(k, r.Orig(t))[q];
            && p.dst !in nm.Values && (t in r.original ==> p.dst in nm)
            && NewPhi(k, r, nm, t, p).dst == if t in r.original then Ren(nm, p.dst) else p.dst
  {
    hide Round.Ok, NamesOk;
    var p := Phis(k, r.Orig(t))[q];
    assert PhiDefines(k, p.dst, r.Orig(t));
    assert DefBlock(k, p.dst, r.Orig(t));
    NotNew(k, r, nm, p.dst);
    if t in r.original {
      CopiedDefines(k, r, nm, p.dst, t);
    }
  }

  // ------------------------------------------------------------------- one step, all steps

  lemma ReachableInside(k: Kernel, r: Round, b: Block)
    requires r.Ok() && r.before == Cfg(k) && Reachable(r.before, b)
    ensures b in Blocks(k)
  {
    hide Reducible, Forward, Dominates;
    var p :| WalkFromTo(Edges(r.before), p, r.before.entry, b);
    ReachableStaysInside(r.before, p);
  }

  lemma TermReads(k: Kernel, b: Block)
    requires Ssa(k) && Terminator(k, b).Branch? && Terminator(k, b).cond.Reg?
    ensures var x := Terminator(k, b).cond.name; DefinedBefore(k, x, b, |Code(k, b)|) && ReadIn(k, x, b)
  {
    hide DefinedBefore;
    assert UsedByTerm(Terminator(k, b).cond.name, Terminator(k, b));
  }

  /** The successor that control takes: 0, or 1 for the second of a branch. */
  function SlotOf(t: Term, env: map<Name, int>): nat {
    if t.Branch? && Value(env, t.cond) == 0 then 1 else 0
  }

  /** Whether an item that goes from one block to another of the old kernel has, by then, last
      come into the copied blocks by the edge that is turned; `copy` says so of where it was. */
  predicate CameByTurn(r: Round, from: Block, slot: nat, to: Block, copy: bool) {
    to in r.copies && if from == r.e then slot == r.i else from in r.copies && copy
  }

  function SideAfter(k: Kernel, r: Round, l: Local, copy: bool): bool {
    if Stopped(k, l) || AtInst(k, l) then copy
    else
      var t := Terminator(k, l.at);
      CameByTurn(r, l.at, SlotOf(t, l.env), Target(t, l.env), copy)
  }

  lemma TargetRenamed(r: Round, nm: Names, t: Term, env: map<Name, int>, env': map<Name, int>)
    requires !t.Return? && (t.Branch? ==> Value(env, t.cond) == Value(env', RenOp(nm, t.cond)))
    ensures Target(RenTerm(r.copies, nm, t), env') == Renamed(r.copies, Target(t, env))
    ensures Target(RenTerm(r.copies, nm, t), env') in Successors(RenTerm(r.copies, nm, t))
  {
  }

  lemma TargetTurned(t: Term, i: nat, c: Block, env: map<Name, int>, env': map<Name, int>)
    requires !t.Return? && (t.Branch? ==> Value(env, t.cond) == Value(env', t.cond)) && i < |Successors(t)|
    ensures Target(Turned(t, i, c), env') == Target(t, env)
         || (Target(Turned(t, i, c), env') == c && Target(t, env) == Successors(t)[i])
    ensures SlotOf(t, env) == i ==> Target(Turned(t, i, c), env') == c
    ensures SlotOf(t, env) != i ==> Target(Turned(t, i, c), env') == Target(t, env)
    ensures Target(Turned(t, i, c), env') in Successors(Turned(t, i, c))
  {
  }

  lemma SameTerm(t: Term, env: map<Name, int>, env': map<Name, int>)
    requires !t.Return? && (t.Branch? ==> Value(env, t.cond) == Value(env', t.cond))
    ensures Target(t, env') == Target(t, env) && Target(t, env') in Successors(t)
  {
  }

  /** Old and new item leave their blocks for the same block, or a copy of it. */
  lemma TargetMirrors(k: Kernel, r: Round, nm: Names, l: Local, l': Local, moved: set<Name>)
    requires Ssa(k) && r.Ok() && r.before == Cfg(k) && NamesOk(k, r, nm) && Mirrors(k, r, nm, l, l', moved)
    requires l.pc == |Code(k, l.at)|
    ensures var t, t' := Terminator(k, l.at), NewTerm(k, r, nm, l'.at);
            && (t'.Return? <==> t.Return?)
            && (!t.Return? ==>
                  && r.Orig(Target(t', l'.env)) == Target(t, l.env) && (l'.at, Target(t', l'.env)) in Edges(r.after)
                  && (Target(t', l'.env) in r.original <==>
                        CameByTurn(r, l.at, SlotOf(t, l.env), Target(t, l.env), l'.at in r.original)))
  {
    hide Round.Ok, Ssa, NamesOk, DefinedBefore, ReadIn, Versions, Current, Reachable, RenTerm, Turned, Target;
    hide Successors, Blocks;
    RoundFacts(r);
    EdgeUncopied(r);
    ReachableInside(k, r, l.at);
    var t := Terminator(k, l.at);
    SuccessorsAre(k, r, nm, l'.at);
    TermShape(r, nm, t);
    InGraph(k, r, l.at);
    if t.Branch? && t.cond.Reg? {
      TermReads(k, l.at);
      NotNew(k, r, nm, t.cond.name);
      ReadMirrors(k, r, nm, l, l', moved, t.cond.name);
    }
    if !t.Return? {
      if l'.at in r.original {
        TargetRenamed(r, nm, t, l.env, l'.env);
        SameTerm(t, l.env, l.env);
      } else if l'.at == r.e {
        TargetTurned(t, r.i, r.copies[r.Target()], l.env, l'.env);
        SameTerm(t, l.env, l.env);
      } else {
        SameTerm(t, l.env, l'.env);
      }
    }
  }

  lemma TermShape(r: Round, nm: Names, t: Term)
    ensures RenTerm(r.copies, nm, t).Return? <==> t.Return?
    ensures forall i, c :: Turned(t, i, c).Return? <==> t.Return?
  {
  }

  /** Where the block leads in the old graph is in the old graph. */
  lemma InGraph(k: Kernel, r: Round, b: Block)
    requires r.Ok() && r.before == Cfg(k) && b in Blocks(k)
    ensures forall s :: s in Successors(Terminator(k, b)) ==> s !in r.original
    ensures r.before.succ[b] == Successors(Terminator(k, b))
  {
    hide Reducible, Forward, Dominates, Reach;
    assert Valid(r.before) && b in r.before.succ;
    var to := Successors(Terminator(k, b));
    assert r.before.succ[b] == to;
    forall i | 0 <= i < |to|
      ensures to[i] !in r.original
    {
      assert r.before.succ[b][i] in r.before.succ;
      r.CopyOf(to[i]);
    }
  }

  /** A step of the new kernel is the step of the old one. */
  lemma StepMirrors(k: Kernel, r: Round, nm: Names, id: nat, l: Local, l': Local, m: Memory, moved: set<Name>)
    returns (moved': set<Name>)
    requires Ssa(k) && r.Ok() && r.before == Cfg(k) && NamesOk(k, r, nm) && Mirrors(k, r, nm, l, l', moved)
    requires l.pc <= |Code(k, l.at)|
    ensures var k' := Replicated(k, r, nm);
            && (Waiting(k', l') <==> Waiting(k, l)) && (Finished(k', l') <==> Finished(k, l))
            && var (d, n) := Step(k, id, l, m); var (d', n') := Step(k', id, l', m);
               && n == n' && Mirrors(k, r, nm, d, d', moved') && d.pc <= |Code(k, d.at)|
               && (d'.at in r.original <==> SideAfter(k, r, l, l'.at in r.original))
  {
    hide Round.Ok, Ssa, NamesOk, Replicated, Mirrors, Exec, NewTerm, NewCode, Enter, CameByTurn;
    var k' := Replicated(k, r, nm);
    SamePlace(k, r, nm, l, l', moved);
    EntersAtZero(k);
    EntersAtZero(k');
    if AtInst(k, l) {
      moved' := InstMirrors(k, r, nm, id, l, l', m, moved);
      if Waiting(k, l) {
        moved' := moved;
      }
    } else {
      TargetMirrors(k, r, nm, l, l', moved);
      moved' := moved;
      if !Terminator(k, l.at).Return? {
        moved' := EnterMirrors(k, r, nm, l, l', moved, Target(Terminator(k', l'.at), l'.env));
      }
    }
  }

  lemma EntersAtZero(k: Kernel)
    ensures forall b, t, env :: Enter(k, b, t, env).pc == 0 && Enter(k, b, t, env).at == t
  {
  }

  lemma SamePlace(k: Kernel, r: Round, nm: Names, l: Local, l': Local, moved: set<Name>)
    requires r.Ok() && r.before == Cfg(k) && Mirrors(k, r, nm, l, l', moved)
    ensures var k' := Replicated(k, r, nm);
            && (AtInst(k', l') <==> AtInst(k, l)) && Terminator(k', l'.at) == NewTerm(k, r, nm, l'.at)
            && l.pc == l'.pc && l.at == r.Orig(l'.at)
  {
    hide Round.Ok, Versions, Current, Reachable, Replicated, NewTerm;
    ReplicatedIs(k, r, nm, l'.at);
  }

  ghost predicate Mirrored(k: Kernel, r: Round, nm: Names, l: Local, l': Local) {
    l.pc <= |Code(k, l.at)| && exists moved :: Mirrors(k, r, nm, l, l', moved)
  }

  /** Old group s and new group s'. */
  ghost predicate GroupMirrors(k: Kernel, r: Round, nm: Names, s: State, s': State) {
    && |s.items| == |s'.items| && s.mem == s'.mem
    && forall w :: 0 <= w < |s.items| ==> Mirrored(k, r, nm, s.items[w], s'.items[w])
  }

  /** Whatever the schedule, the groups stay together. */
  lemma {:induction false} RunMirrors(k: Kernel, r: Round, nm: Names, s: State, s': State, sched: seq<nat>)
    requires Ssa(k) && r.Ok() && r.before == Cfg(k) && NamesOk(k, r, nm) && GroupMirrors(k, r, nm, s, s')
    ensures var k' := Replicated(k, r, nm);
            GroupMirrors(k, r, nm, Run(k, s, sched), Run(k', s', sched))
              && (Respects(k', s', sched) <==> Respects(k, s, sched))
    decreases |sched|
  {
    hide Round.Ok, Ssa, NamesOk, Replicated, Mirrors, Step, Waiting, Finished;
    if sched != [] {
      var before, w := sched[..|sched| - 1], sched[|sched| - 1];
      RunMirrors(k, r, nm, s, s', before);
      var k' := Replicated(k, r, nm);
      var a, a' := Run(k, s, before), Run(k', s', before);
      if w < |s.items| {
        var moved :| Mirrors(k, r, nm, a.items[w], a'.items[w], moved);
        var moved' := StepMirrors(k, r, nm, w, a.items[w], a'.items[w], a.mem, moved);
      }
    }
  }

  /** All items are among the copies, or none is. */
  ghost predicate OneSide(r: Round, s': State) {
    forall v, w :: 0 <= v < |s'.items| && 0 <= w < |s'.items| ==>
      (s'.items[v].at in r.original <==> s'.items[w].at in r.original)
  }

  lemma SameBlockIff(r: Round, b: Block, c: Block)
    requires r.Ok() && r.Orig(b) == r.Orig(c) && r.Orig(b) in r.before.succ
    ensures b == c <==> (b in r.original <==> c in r.original)
  {
    hide Round.Ok;
    RoundFacts(r);
  }

  lemma WaitingMirrors(k: Kernel, r: Round, nm: Names, w: nat, l: Local, l': Local, m: Memory)
    requires Ssa(k) && r.Ok() && r.before == Cfg(k) && NamesOk(k, r, nm) && Mirrored(k, r, nm, l, l')
    ensures Waiting(Replicated(k, r, nm), l') <==> Waiting(k, l)
    ensures l.at == r.Orig(l'.at) && l.pc == l'.pc && l.at in r.before.succ
    ensures Waiting(k, l) ==> Mirrored(k, r, nm, l.(pc := l.pc + 1), l'.(pc := l'.pc + 1))
  {
    hide Round.Ok, Ssa, NamesOk, Replicated, Mirrors, Step, Waiting, Finished;
    var moved :| Mirrors(k, r, nm, l, l', moved);
    var moved' := StepMirrors(k, r, nm, w, l, l', m, moved);
    SamePlace(k, r, nm, l, l', moved);
    StandsReachable(k, r, nm, l, l', moved);
    if Waiting(k, l) {
      PastBarrier(k, r, nm, l, l', m, moved);
    }
  }

  lemma StandsReachable(k: Kernel, r: Round, nm: Names, l: Local, l': Local, moved: set<Name>)
    requires r.Ok() && r.before == Cfg(k) && Mirrors(k, r, nm, l, l', moved)
    ensures l.at in r.before.succ
  {
    hide Round.Ok, Versions, Current, Reachable;
    ReachableInside(k, r, l.at);
  }

  /** The new group is at a barrier exactly if the old one is and all items are on one side. */
  lemma ReleaseMirrors(k: Kernel, r: Round, nm: Names, s: State, s': State)
    requires Ssa(k) && r.Ok() && r.before == Cfg(k) && NamesOk(k, r, nm) && GroupMirrors(k, r, nm, s, s')
    ensures AtBarrier(Replicated(k, r, nm), s') <==> AtBarrier(k, s) && OneSide(r, s')
    ensures AtBarrier(k, s) ==> GroupMirrors(k, r, nm, Release(s), Release(s'))
  {
    hide Round.Ok, Ssa, NamesOk, Replicated, Mirrored, Waiting;
    var k' := Replicated(k, r, nm);
    forall w | 0 <= w < |s.items|
      ensures Waiting(k', s'.items[w]) <==> Waiting(k, s.items[w])
      ensures s.items[w].at == r.Orig(s'.items[w].at) && s.items[w].pc == s'.items[w].pc
      ensures Waiting(k, s.items[w]) ==> Mirrored(k, r, nm, Release(s).items[w], Release(s').items[w])
      ensures s.items[w].at == s.items[0].at ==>
                (s'.items[w].at == s'.items[0].at <==> (s'.items[w].at in r.original <==> s'.items[0].at in r.original))
    {
      WaitingMirrors(k, r, nm, w, s.items[w], s'.items[w], s.mem);
      WaitingMirrors(k, r, nm, 0, s.items[0], s'.items[0], s.mem);
      if s.items[w].at == s.items[0].at {
        SameBlockIff(r, s'.items[w].at, s'.items[0].at);
      }
    }
  }

  lemma PastBarrier(k: Kernel, r: Round, nm: Names, l: Local, l': Local, m: Memory, moved: set<Name>)
    requires Ssa(k) && r.Ok() && r.before == Cfg(k) && NamesOk(k, r, nm) && Mirrors(k, r, nm, l, l', moved)
             && Waiting(k, l)
    ensures Mirrored(k, r, nm, l.(pc := l.pc + 1), l'.(pc := l'.pc + 1))
  {
    hide Round.Ok, Ssa, NamesOk, Replicated, Mirrors;
    SamePlace(k, r, nm, l, l', moved);
    var moved' := InstMirrors(k, r, nm, 0, l, l', m, moved);
  }

  /** For each item, whether it has last come into the copied blocks by the turned edge, after a
      run of the old kernel. */
  function SidesAfter(k: Kernel, r: Round, s: State, sides: seq<bool>, sched: seq<nat>): (a: seq<bool>)
    requires |sides| == |s.items|
    ensures |a| == |sides|
    decreases |sched|
  {
    if sched == [] then sides
    else
      var before, w := sched[..|sched| - 1], sched[|sched| - 1];
      var b := SidesAfter(k, r, s, sides, before);
      if w < |s.items| then b[w := SideAfter(k, r, Run(k, s, before).items[w], b[w])] else b
  }

  predicate AllOrNone(sides: seq<bool>) {
    forall v, w :: 0 <= v < |sides| && 0 <= w < |sides| ==> sides[v] == sides[w]
  }

  ghost predicate Sided(r: Round, s': State, sides: seq<bool>) {
    |sides| == |s'.items| && forall w :: 0 <= w < |sides| ==> (sides[w] <==> s'.items[w].at in r.original)
  }

  /** The walks of the old items tell where the new ones are. */
  lemma {:induction false} SidesFollow(k: Kernel, r: Round, nm: Names, s: State, s': State, sides: seq<bool>,
                                       sched: seq<nat>)
    requires Ssa(k) && r.Ok() && r.before == Cfg(k) && NamesOk(k, r, nm) && GroupMirrors(k, r, nm, s, s')
    requires Sided(r, s', sides)
    ensures |s.items| == |sides| && Sided(r, Run(Replicated(k, r, nm), s', sched), SidesAfter(k, r, s, sides, sched))
    decreases |sched|
  {
    hide Round.Ok, Ssa, NamesOk, Replicated, Mirrors, Step, Waiting, Finished, SideAfter;
    if sched != [] {
      var before, w := sched[..|sched| - 1], sched[|sched| - 1];
      SidesFollow(k, r, nm, s, s', sides, before);
      RunMirrors(k, r, nm, s, s', before);
      var a, a' := Run(k, s, before), Run(Replicated(k, r, nm), s', before);
      if w < |s.items| {
        var moved :| Mirrors(k, r, nm, a.items[w], a'.items[w], moved);
        var moved' := StepMirrors(k, r, nm, w, a.items[w], a'.items[w], a.mem, moved);
      }
    }
  }

  lemma OneSideIff(r: Round, s': State, sides: seq<bool>)
    requires Sided(r, s', sides)
    ensures OneSide(r, s') <==> AllOrNone(sides)
  {
  }

  lemma SidedReleased(r: Round, s': State, sides: seq<bool>)
    requires Sided(r, s', sides)
    ensures Sided(r, Release(s'), sides)
  {
  }

  /** At every barrier that the execution of the old kernel passes, either all items have last
      come into the copied blocks by the turned edge, or none has. */
  ghost predicate SameTurns(k: Kernel, r: Round, s: State, sides: seq<bool>, rounds: seq<seq<nat>>)
    requires |sides| == |s.items|
    decreases |rounds|
  {
    |rounds| > 1 ==>
      var a := SidesAfter(k, r, s, sides, rounds[0]);
      AllOrNone(a) && SameTurns(k, r, Release(Run(k, s, rounds[0])), a, rounds[1..])
  }

  /** Items interleaved at will between barriers: an execution of the old kernel is one of the new
      exactly if, at every barrier, all items have come by the turned edge or none has; and the
      new kernel has no others. */
  lemma {:induction false} ExecutionMirrors(k: Kernel, r: Round, nm: Names, s: State, s': State, sides: seq<bool>,
                                            rounds: seq<seq<nat>>)
    requires Ssa(k) && r.Ok() && r.before == Cfg(k) && NamesOk(k, r, nm) && GroupMirrors(k, r, nm, s, s')
    requires Sided(r, s', sides) && |sides| == |s.items|
    ensures var k' := Replicated(k, r, nm);
            && (Allowed(k', s', rounds) <==> Allowed(k, s, rounds) && SameTurns(k, r, s, sides, rounds))
            && (Allowed(k, s, rounds) ==> GroupMirrors(k, r, nm, After(k, s, rounds), After(k', s', rounds)))
    decreases |rounds|
  {
    hide Round.Ok, Ssa, NamesOk, Replicated, Mirrored, AtBarrier, Respects, Release, OneSide, Run, Sided, SidesAfter;
    hide AllOrNone;
    if rounds != [] {
      var k' := Replicated(k, r, nm);
      RunMirrors(k, r, nm, s, s', rounds[0]);
      if |rounds| > 1 {
        var a, a', sides' := Run(k, s, rounds[0]), Run(k', s', rounds[0]), SidesAfter(k, r, s, sides, rounds[0]);
        ReleaseMirrors(k, r, nm, a, a');
        SidesFollow(k, r, nm, s, s', sides, rounds[0]);
        OneSideIff(r, a', sides');
        if AtBarrier(k, a) {
          SidedReleased(r, a', sides');
          ExecutionMirrors(k, r, nm, Release(a), Release(a'), sides', rounds[1..]);
        }
      }
    }
  }

  lemma BeginsMirrored(k: Kernel, r: Round, nm: Names)
    requires r.Ok() && r.before == Cfg(k)
    ensures Mirrored(k, r, nm, Local(k.entry, 0, map[]), Local(k.entry, 0, map[]))
  {
    hide Round.Ok, DefinedBefore;
    r.Basics();
    ReachSelf(Edges(r.before), k.entry);
    assert Mirrors(k, r, nm, Local(k.entry, 0, map[]), Local(k.entry, 0, map[]), {});
  }

  // ------------------------------------------------------------------ SSA form is kept

  /** What block b calls x. */
  function Called(r: Round, nm: Names, x: Name, b: Block): Name {
    if b in r.original then Ren(nm, x) else x
  }

  lemma DefBlockTo(k: Kernel, r: Round, nm: Names, x: Name, b: Block)
    requires r.Ok() && r.before == Cfg(k) && DefBlock(k, x, r.Orig(b))
    ensures DefBlock(Replicated(k, r, nm), Called(r, nm, x, b), b)
  {
    hide Round.Ok, Replicated;
    var k', o := Replicated(k, r, nm), r.Orig(b);
    ReplicatedIs(k, r, nm, b);
    if i :| 0 <= i < |Code(k, o)| && Defines(Code(k, o)[i], x) {
      assert Defines(Code(k', b)[i], Called(r, nm, x, b));
    } else {
      var q :| 0 <= q < |Phis(k, o)| && Phis(k, o)[q].dst == x;
      assert Phis(k', b)[q].dst == Called(r, nm, x, b);
    }
  }

  lemma DefBlockFrom(k: Kernel, r: Round, nm: Names, x': Name, b: Block) returns (x: Name)
    requires r.Ok() && r.before == Cfg(k) && DefBlock(Replicated(k, r, nm), x', b)
    ensures DefBlock(k, x, r.Orig(b)) && x' == Called(r, nm, x, b)
  {
    hide Round.Ok, Replicated;
    var k', o := Replicated(k, r, nm), r.Orig(b);
    ReplicatedIs(k, r, nm, b);
    if i :| 0 <= i < |Code(k', b)| && Defines(Code(k', b)[i], x') {
      x := Dst(Code(k, o)[i]);
      assert Defines(Code(k, o)[i], x);
    } else {
      var q :| 0 <= q < |Phis(k', b)| && Phis(k', b)[q].dst == x';
      x := Phis(k, o)[q].dst;
      assert PhiDefines(k, x, o);
    }
  }

  lemma DefinesInside(k: Kernel, x: Name, b: Block)
    requires DefBlock(k, x, b)
    ensures b in Blocks(k)
  {
  }

  /** Two blocks that define what they call alike are one. */
  lemma OneBlockStill(k: Kernel, r: Round, nm: Names, x': Name, b: Block, c: Block)
    requires Ssa(k) && r.Ok() && r.before == Cfg(k) && NamesOk(k, r, nm)
    requires DefBlock(Replicated(k, r, nm), x', b) && DefBlock(Replicated(k, r, nm), x', c)
    ensures b == c
  {
    hide Round.Ok, Replicated, Ssa, NamesOk, DefBlock;
    var x := DefBlockFrom(k, r, nm, x', b);
    var y := DefBlockFrom(k, r, nm, x', c);
    NotNew(k, r, nm, x);
    NotNew(k, r, nm, y);
    OneToOne(k, r, nm);
    if b in r.original {
      CopiedDefines(k, r, nm, x, b);
    }
    if c in r.original {
      CopiedDefines(k, r, nm, y, c);
    }
    InOneBlock(k, x, r.Orig(b), r.Orig(c));
    DefinesInside(k, x, r.Orig(b));
    SameBlockIff(r, b, c);
  }

  /** What was defined on every way is defined on every way there still. */
  lemma DefinedLifts(k: Kernel, r: Round, nm: Names, x: Name, b: Block, i: nat)
    requires Ssa(k) && r.Ok() && r.before == Cfg(k) && NamesOk(k, r, nm) && x !in nm.Values
    requires DefinedBefore(k, x, r.Orig(b), i)
    ensures DefinedBefore(Replicated(k, r, nm), Called(r, nm, x, b), b, i)
  {
    hide Round.Ok, Replicated, Ssa, NamesOk, DefBlock, Dominates, PhiDefines;
    var k', o, x' := Replicated(k, r, nm), r.Orig(b), Called(r, nm, x, b);
    if DefinedAbove(Code(k, o), x, i) {
      AboveLifts(k, r, nm, x, b, i);
    } else if PhiDefines(k, x, o) {
      PhiLifts(k, r, nm, x, b);
    } else if d :| d != o && DefBlock(k, x, d) && Dominates(Cfg(k), d, o) {
      SeenDefines(k, r, nm, x, d, b);
      r.DominatesLifts(d, b);
      CfgReplicated(k, r, nm);
    } else {
      NeverDefined(k, r, nm, x, b);
    }
  }

  lemma AboveLifts(k: Kernel, r: Round, nm: Names, x: Name, b: Block, i: nat)
    requires r.Ok() && r.before == Cfg(k) && DefinedAbove(Code(k, r.Orig(b)), x, i)
    ensures DefinedAbove(Code(Replicated(k, r, nm), b), Called(r, nm, x, b), i)
  {
    hide Round.Ok, Replicated;
    ReplicatedIs(k, r, nm, b);
    var j :| 0 <= j < i && j < |Code(k, r.Orig(b))| && Defines(Code(k, r.Orig(b))[j], x);
    assert Defines(Code(Replicated(k, r, nm), b)[j], Called(r, nm, x, b));
  }

  lemma PhiLifts(k: Kernel, r: Round, nm: Names, x: Name, b: Block)
    requires r.Ok() && r.before == Cfg(k) && PhiDefines(k, x, r.Orig(b))
    ensures PhiDefines(Replicated(k, r, nm), Called(r, nm, x, b), b)
  {
    hide Round.Ok, Replicated;
    ReplicatedIs(k, r, nm, b);
    var q :| 0 <= q < |Phis(k, r.Orig(b))| && Phis(k, r.Orig(b))[q].dst == x;
    assert Phis(Replicated(k, r, nm), b)[q].dst == Called(r, nm, x, b);
  }

  /** The version of a definition's block that b sees calls the name as b does. */
  lemma SeenDefines(k: Kernel, r: Round, nm: Names, x: Name, d: Block, b: Block)
    requires Ssa(k) && r.Ok() && r.before == Cfg(k) && NamesOk(k, r, nm) && DefBlock(k, x, d) && d != r.Orig(b)
    ensures DefBlock(Replicated(k, r, nm), Called(r, nm, x, b), r.Seen(d, b)) && r.Seen(d, b) != b
  {
    hide Round.Ok, Replicated, Ssa, NamesOk, DefBlock;
    RoundFacts(r);
    DefinesInside(k, x, d);
    var v := r.Seen(d, b);
    DefBlockTo(k, r, nm, x, v);
    if x in nm {
      OneCopiedBlock(k, r, nm, x, d);
    }
  }

  lemma NeverDefined(k: Kernel, r: Round, nm: Names, x: Name, b: Block)
    requires r.Ok() && r.before == Cfg(k) && NamesOk(k, r, nm) && x !in nm.Values && forall d :: !DefBlock(k, x, d)
    ensures DefinedBefore(Replicated(k, r, nm), Called(r, nm, x, b), b, 0) && Called(r, nm, x, b) == x
    ensures forall d :: !DefBlock(Replicated(k, r, nm), x, d)
  {
    hide Round.Ok, Replicated, DefBlock, Unmentioned;
    forall d
      ensures !DefBlock(Replicated(k, r, nm), x, d)
    {
      if DefBlock(Replicated(k, r, nm), x, d) {
        var y := DefBlockFrom(k, r, nm, x, d);
      }
    }
  }

  /** A copied PHI's entry for a block that is no copy: what is renamed there never gets there. */
  lemma DefinedBeside(k: Kernel, r: Round, nm: Names, x: Name, f: Block, i: nat)
    requires Ssa(k) && r.Ok() && r.before == Cfg(k) && NamesOk(k, r, nm) && x !in nm.Values
    requires f !in r.original && f !in r.copies && DefinedBefore(k, x, f, i)
    ensures DefinedBefore(Replicated(k, r, nm), Ren(nm, x), f, i)
  {
    hide Round.Ok, Replicated, Ssa, DefBlock, Unmentioned, Reach, Reachable;
    if x !in nm {
      hide Dominates, DefinedBefore;
      DefinedLifts(k, r, nm, x, f, i);
    } else {
      var d :| d in r.copies && DefBlock(k, x, d);
      DominatesFromCopies(k, r, nm, x, d, f, i);
      r.CopyOf(d);
      var c := r.copies[d];
      DefBlockTo(k, r, nm, x, c);
      CfgReplicated(k, r, nm);
      DominatesUnreached(r, c, f);
    }
  }

  lemma DominatesFromCopies(k: Kernel, r: Round, nm: Names, x: Name, d: Block, f: Block, i: nat)
    requires Ssa(k) && r.Ok() && r.before == Cfg(k) && d in r.copies && DefBlock(k, x, d)
    requires f !in r.original && f !in r.copies && DefinedBefore(k, x, f, i)
    ensures !Reachable(r.before, f)
  {
    hide Round.Ok, Ssa, DefBlock, Dominates, Reach;
    DefinedIn(k, x, f, i);
    var c :| DefBlock(k, x, c) && (c == f || Dominates(r.before, c, f));
    InOneBlock(k, x, c, d);
    if Reachable(r.before, f) {
      RoundFacts(r);
      DominatorReachesForward(r.before, d, f);
      r.CopyOf(d);
      ReachTrans(Forward(r.before), r.Target(), d, f);
      r.CopyOf(f);
    }
  }

  lemma DominatesUnreached(r: Round, c: Block, f: Block)
    requires r.Ok() && f !in r.original && !Reachable(r.before, f)
    ensures Dominates(r.after, c, f)
  {
    hide Round.Ok, Edges, WalkFromTo;
    if Reachable(r.after, f) {
      r.ReachableProjects(f);
    }
  }

  lemma UsedFrom(nm: Names, x: Inst, n': Name) returns (n: Name)
    requires UsedBy(n', RenInst(nm, x))
    ensures UsedBy(n, x) && n' == Ren(nm, n)
  {
    var os, os' := Operands(x), Operands(RenInst(nm, x));
    var i :| 0 <= i < |os'| && os'[i] == Reg(n');
    assert os'[i] == RenOp(nm, os[i]);
    n := os[i].name;
    assert os[i] in os;
  }

  lemma InstReadStill(k: Kernel, r: Round, nm: Names, b: Block, i: nat, x': Name)
    requires Ssa(k) && r.Ok() && r.before == Cfg(k) && NamesOk(k, r, nm)
    requires i < |Code(Replicated(k, r, nm), b)| && UsedBy(x', Code(Replicated(k, r, nm), b)[i])
    ensures DefinedBefore(Replicated(k, r, nm), x', b, i)
  {
    hide Round.Ok, Replicated, Ssa, NamesOk, DefinedBefore, UsedBy, ReadIn;
    ReplicatedIs(k, r, nm, b);
    var o, x := r.Orig(b), x';
    if b in r.original {
      x := UsedFrom(nm, Code(k, o)[i], x');
    }
    InstReads(k, o, i, x);
    NotNew(k, r, nm, x);
    DefinedLifts(k, r, nm, x, b, i);
  }

  lemma SameLength(k: Kernel, r: Round, nm: Names, b: Block)
    requires r.Ok() && r.before == Cfg(k)
    ensures |Code(Replicated(k, r, nm), b)| == |Code(k, r.Orig(b))|
  {
    hide Round.Ok, Replicated;
    ReplicatedIs(k, r, nm, b);
  }

  lemma CondFrom(r: Round, nm: Names, t: Term, x': Name, i: nat, c: Block)
    ensures UsedByTerm(x', RenTerm(r.copies, nm, t)) ==>
              t.Branch? && t.cond.Reg? && UsedByTerm(t.cond.name, t) && x' == Ren(nm, t.cond.name)
    ensures UsedByTerm(x', Turned(t, i, c)) <==> UsedByTerm(x', t)
    ensures UsedByTerm(x', t) ==> t.Branch? && t.cond.Reg? && t.cond.name == x'
  {
  }

  lemma TermReadStill(k: Kernel, r: Round, nm: Names, b: Block, x': Name)
    requires Ssa(k) && r.Ok() && r.before == Cfg(k) && NamesOk(k, r, nm)
    requires UsedByTerm(x', Terminator(Replicated(k, r, nm), b))
    ensures DefinedBefore(Replicated(k, r, nm), x', b, |Code(Replicated(k, r, nm), b)|)
  {
    hide Round.Ok, Replicated, Ssa, NamesOk, DefinedBefore, ReadIn, NewTerm;
    ReplicatedIs(k, r, nm, b);
    SameLength(k, r, nm, b);
    var o := r.Orig(b);
    var x := NewTermCases(k, r, nm, b, x');
    TermReads(k, o);
    NotNew(k, r, nm, x);
    DefinedLifts(k, r, nm, x, b, |Code(k, o)|);
  }

  lemma NewTermCases(k: Kernel, r: Round, nm: Names, b: Block, x': Name) returns (x: Name)
    requires r.Ok() && UsedByTerm(x', NewTerm(k, r, nm, b))
    ensures var t := Terminator(k, r.Orig(b)); UsedByTerm(x, t) && t.cond == Reg(x) && x' == Called(r, nm, x, b)
  {
    hide Round.Ok, RenTerm, Turned;
    RoundFacts(r);
    var t := Terminator(k, r.Orig(b));
    CondFrom(r, nm, t, x', r.i, r.copies[r.Target()]);
    x := t.cond.name;
  }

  /** Where an entry of a new PHI comes from. */
  lemma EntryFrom(k: Kernel, r: Round, nm: Names, b: Block, p: Phi, f': Block)
    requires Inverse(r.copies, r.original) && p.incoming.Keys !! r.original.Keys
             && f' in NewPhi(k, r, nm, b, p).incoming
    ensures var f := r.Orig(f');
            && f in p.incoming
            && NewPhi(k, r, nm, b, p).incoming[f'] == Version(nm, b in r.original || f' in r.original, p.incoming[f])
            && (b in r.original && f' !in r.original ==> f !in r.copies)
  {
    if b in r.original {
      var f :| f in p.incoming && f' == Renamed(r.copies, f);
    }
  }

  lemma PhiReadStill(k: Kernel, r: Round, nm: Names, b: Block, q: nat, f: Block, x': Name)
    requires Ssa(k) && r.Ok() && r.before == Cfg(k) && NamesOk(k, r, nm)
    requires PhiReads(Replicated(k, r, nm), x', b, q, f)
    ensures DefinedBefore(Replicated(k, r, nm), x', f, |Code(Replicated(k, r, nm), f)|)
  {
    hide Round.Ok, Replicated, Ssa, DefinedBefore, ReadIn, NewPhi, DefBlock, Unmentioned;
    RoundFacts(r);
    ReplicatedIs(k, r, nm, b);
    SameLength(k, r, nm, f);
    var o, g := r.Orig(b), r.Orig(f);
    var p := Phis(k, o)[q];
    EntryFrom(k, r, nm, b, p, f);
    assert p.incoming[g].Reg?;
    var x := p.incoming[g].name;
    assert PhiReads(k, x, o, q, g);
    PhiReadAt(k, x, o, q, g);
    NotNew(k, r, nm, x);
    if b in r.original && f !in r.original {
      DefinedBeside(k, r, nm, x, f, |Code(k, f)|);
    } else {
      DefinedLifts(k, r, nm, x, f, |Code(k, g)|);
    }
  }

  /** The new kernel is in SSA form. */
  lemma SsaReplicated(k: Kernel, r: Round, nm: Names)
    requires Ssa(k) && r.Ok() && r.before == Cfg(k) && NamesOk(k, r, nm)
    ensures Ssa(Replicated(k, r, nm))
  {
    hide Round.Ok, Replicated, NamesOk, DefinedBefore, DefBlock, UsedBy, UsedByTerm;
    var k' := Replicated(k, r, nm);
    assert OneBlock(k') by {
      forall x, b, c | DefBlock(k', x, b) && DefBlock(k', x, c)
        ensures b == c
      {
        OneBlockStill(k, r, nm, x, b, c);
      }
    }
    assert InstReadsOk(k') by {
      forall b, i, x | 0 <= i < |Code(k', b)| && UsedBy(x, Code(k', b)[i])
        ensures DefinedBefore(k', x, b, i)
      {
        InstReadStill(k, r, nm, b, i, x);
      }
    }
    assert TermReadsOk(k') by {
      forall b, x | UsedByTerm(x, Terminator(k', b))
        ensures DefinedBefore(k', x, b, |Code(k', b)|)
      {
        TermReadStill(k, r, nm, b, x);
      }
    }
    assert PhiReadsOk(k') by {
      forall b, q, f, x | PhiReads(k', x, b, q, f)
        ensures DefinedBefore(k', x, f, |Code(k', f)|)
      {
        PhiReadStill(k, r, nm, b, q, f, x);
      }
    }
  }

  // ----------------------------------------------------------------- round after round

  /** A round, and the names of its copies. */
  datatype Copying = Copying(r: Round, nm: Names)

  ghost predicate AllRounds(cs: seq<Copying>) {
    forall i :: 0 <= i < |cs| ==> cs[i].r.Ok()
  }

  function RoundsOf(cs: seq<Copying>): (rs: seq<Round>)
    ensures |rs| == |cs| && forall i :: 0 <= i < |cs| ==> rs[i] == cs[i].r
  {
    seq(|cs|, i requires 0 <= i < |cs| => cs[i].r)
  }

  function AllReplicated(k: Kernel, cs: seq<Copying>): Kernel
    requires AllRounds(cs)
    decreases |cs|
  {
    if cs == [] then k
    else Replicated(AllReplicated(k, cs[..|cs| - 1]), cs[|cs| - 1].r, cs[|cs| - 1].nm)
  }

  function OrigAll(cs: seq<Copying>, b: Block): Block {
    if cs == [] then b else OrigAll(cs[..|cs| - 1], cs[|cs| - 1].r.Orig(b))
  }

  /** Every round takes names and blocks that are new. */
  ghost predicate AllNamesOk(k: Kernel, cs: seq<Copying>)
    requires AllRounds(cs)
    decreases |cs|
  {
    cs != [] ==>
      var init, c := cs[..|cs| - 1], cs[|cs| - 1];
      AllNamesOk(k, init) && NamesOk(AllReplicated(k, init), c.r, c.nm)
  }

  /** The rounds of the pass, made on the instructions too. */
  lemma {:induction false} AllRoundsFollow(k: Kernel, cs: seq<Copying>, g: Graph)
    requires AllRounds(cs) && AllNamesOk(k, cs) && Chain(Cfg(k), RoundsOf(cs), g) && Ssa(k)
    ensures Cfg(AllReplicated(k, cs)) == g && Ssa(AllReplicated(k, cs))
    decreases |cs|
  {
    hide Round.Ok, Replicated, NamesOk, Ssa, Cfg;
    if cs != [] {
      var init, c := cs[..|cs| - 1], cs[|cs| - 1];
      assert RoundsOf(cs)[..|cs| - 1] == RoundsOf(init);
      AllRoundsFollow(k, init, c.r.before);
      CfgReplicated(AllReplicated(k, init), c.r, c.nm);
      SsaReplicated(AllReplicated(k, init), c.r, c.nm);
    }
  }

  /** Items stand at the same instructions, up to copies, and the memory is the same. */
  ghost predicate SamePlaces(cs: seq<Copying>, s: State, s': State) {
    && s.mem == s'.mem && |s.items| == |s'.items|
    && forall w :: 0 <= w < |s.items| ==>
       s.items[w].at == OrigAll(cs, s'.items[w].at) && s.items[w].pc == s'.items[w].pc
  }

  lemma LaunchMirrors(k: Kernel, r: Round, nm: Names, n: nat, m: Memory)
    requires r.Ok() && r.before == Cfg(k)
    ensures GroupMirrors(k, r, nm, Launched(k, n, m), Launched(Replicated(k, r, nm), n, m))
  {
    hide Round.Ok, Mirrored, Replicated;
    BeginsMirrored(k, r, nm);
    SameMachine(k, r, nm);
  }

  /** When the items begin none has come by the turned edge. */
  lemma LaunchSided(k: Kernel, r: Round, n: nat, m: Memory)
    requires r.Ok() && r.before == Cfg(k)
    ensures forall k': Kernel :: k'.entry == k.entry ==> Sided(r, Launched(k', n, m), seq(n, _ => false))
  {
    hide Round.Ok;
    r.Basics();
  }

  lemma PlacesThrough(k: Kernel, cs: seq<Copying>, s: State, s1: State, s': State)
    requires cs != [] && SamePlaces(cs[..|cs| - 1], s, s1)
    requires var c := cs[|cs| - 1]; c.r.Ok() && c.r.before == Cfg(k) && GroupMirrors(k, c.r, c.nm, s1, s')
    ensures SamePlaces(cs, s, s')
  {
    hide Round.Ok, Versions, Current, Reachable;
  }

  /** Replication preserves what the items do. Whatever the schedule, n items on the kernel with
      all its copies make the memory that they make on the source's, and stand where they stand
      there. Every execution with barriers of the one is an execution of the other. */
  lemma {:induction false} ReplicationPreservesRuns(k: Kernel, cs: seq<Copying>, g: Graph, n: nat, m: Memory,
                                                    sched: seq<nat>)
    requires Ssa(k) && AllRounds(cs) && AllNamesOk(k, cs) && Chain(Cfg(k), RoundsOf(cs), g)
    ensures var k' := AllReplicated(k, cs);
            && Cfg(k') == g && (Respects(k', Launched(k', n, m), sched) <==> Respects(k, Launched(k, n, m), sched))
            && SamePlaces(cs, Run(k, Launched(k, n, m), sched), Run(k', Launched(k', n, m), sched))
    decreases |cs|
  {
    hide Round.Ok, Replicated, NamesOk, Ssa, Cfg, GroupMirrors, Launched, Run, Respects;
    AllRoundsFollow(k, cs, g);
    if cs != [] {
      var init, c := cs[..|cs| - 1], cs[|cs| - 1];
      assert RoundsOf(cs)[..|cs| - 1] == RoundsOf(init);
      var k1 := AllReplicated(k, init);
      AllRoundsFollow(k, init, c.r.before);
      ReplicationPreservesRuns(k, init, c.r.before, n, m, sched);
      LaunchMirrors(k1, c.r, c.nm, n, m);
      RunMirrors(k1, c.r, c.nm, Launched(k1, n, m), Launched(AllReplicated(k, cs), n, m), sched);
      PlacesThrough(k1, cs, Run(k, Launched(k, n, m), sched), Run(k1, Launched(k1, n, m), sched),
                    Run(AllReplicated(k, cs), Launched(AllReplicated(k, cs), n, m), sched));
    }
  }

  lemma {:induction false} ReplicationPreservesExecutions(k: Kernel, cs: seq<Copying>, g: Graph, n: nat, m: Memory,
                                                          rounds: seq<seq<nat>>)
    requires Ssa(k) && AllRounds(cs) && AllNamesOk(k, cs) && Chain(Cfg(k), RoundsOf(cs), g)
    requires var k' := AllReplicated(k, cs); Allowed(k', Launched(k', n, m), rounds)
    ensures Allowed(k, Launched(k, n, m), rounds)
    ensures var k' := AllReplicated(k, cs);
            SamePlaces(cs, After(k, Launched(k, n, m), rounds), After(k', Launched(k', n, m), rounds))
    decreases |cs|
  {
    hide Round.Ok, Replicated, NamesOk, Ssa, Cfg, GroupMirrors, Launched, Run, Allowed, After, SameTurns, Sided;
    if cs != [] {
      var init, c := cs[..|cs| - 1], cs[|cs| - 1];
      assert RoundsOf(cs)[..|cs| - 1] == RoundsOf(init);
      var k1 := AllReplicated(k, init);
      AllRoundsFollow(k, init, c.r.before);
      LaunchMirrors(k1, c.r, c.nm, n, m);
      LaunchSided(k1, c.r, n, m);
      SameMachine(k1, c.r, c.nm);
      ExecutionMirrors(k1, c.r, c.nm, Launched(k1, n, m), Launched(AllReplicated(k, cs), n, m), seq(n, _ => false),
        rounds);
      ReplicationPreservesExecutions(k, init, c.r.before, n, m, rounds);
      PlacesThrough(k1, cs, After(k, Launched(k, n, m), rounds), After(k1, Launched(k1, n, m), rounds),
                    After(AllReplicated(k, cs), Launched(AllReplicated(k, cs), n, m), rounds));
    }
  }

  // -------------------------------------------------------------------- cleaning up after it

  /** k' is k with PHI entries removed that are for no predecessor, and PHIs without any. */
  ghost predicate CleanedUp(k: Kernel, k': Kernel) {
    && k'.code == k.code && k'.term == k.term && k'.entry == k.entry && k'.alu == k.alu && k'.ids == k.ids
    && forall f, b :: b in Successors(Terminator(k, f)) ==>
         && |Phis(k', b)| == |Phis(k, b)|
         && forall q :: 0 <= q < |Phis(k, b)| ==>
              Phis(k', b)[q].dst == Phis(k, b)[q].dst && IncomingOf(Phis(k', b)[q], f) == IncomingOf(Phis(k, b)[q], f)
  }

  lemma {:induction false} SameArriving(phis: seq<Phi>, phis': seq<Phi>, from: Block, before: map<Name, int>,
                                        env: map<Name, int>)
    requires |phis'| == |phis|
    requires forall q :: 0 <= q < |phis| ==>
               phis'[q].dst == phis[q].dst && IncomingOf(phis'[q], from) == IncomingOf(phis[q], from)
    ensures SetPhis(phis', from, before, env) == SetPhis(phis, from, before, env)
    decreases |phis|
  {
    if phis != [] {
      assert Incoming(phis'[0], from, before) == Value(before, IncomingOf(phis'[0], from));
      assert Incoming(phis[0], from, before) == Value(before, IncomingOf(phis[0], from));
      SameArriving(phis[1..], phis'[1..], from, before, env[phis[0].dst := Incoming(phis[0], from, before)]);
    }
  }

  lemma CleanedStep(k: Kernel, k': Kernel, id: nat, l: Local, m: Memory)
    requires CleanedUp(k, k')
    ensures Step(k', id, l, m) == Step(k, id, l, m) && (Stopped(k', l) <==> Stopped(k, l))
  {
    if !Stopped(k, l) && !AtInst(k, l) {
      var t := Terminator(k, l.at);
      SameTerm(t, l.env, l.env);
      SameArriving(Phis(k, Target(t, l.env)), Phis(k', Target(t, l.env)), l.at, l.env, l.env);
    }
  }

  /** Entries for blocks that are no predecessors are never looked at. */
  lemma {:induction false} CleanedRuns(k: Kernel, k': Kernel, s: State, sched: seq<nat>)
    requires CleanedUp(k, k')
    ensures Run(k', s, sched) == Run(k, s, sched) && (Respects(k', s, sched) <==> Respects(k, s, sched))
    decreases |sched|
  {
    hide CleanedUp, Step, Stopped;
    if sched != [] {
      var before, w := sched[..|sched| - 1], sched[|sched| - 1];
      CleanedRuns(k, k', s, before);
      if w < |s.items| {
        CleanedStep(k, k', w, Run(k, s, before).items[w], Run(k, s, before).mem);
      }
    }
  }

  // ------------------------------------------------------------- a join that is copied twice

  /** Two edges to one block, turned in two rounds, lead to different copies. */
  lemma TurnedApart(r: Round, r2: Round)
    requires r.Ok() && r2.Ok() && r2.before == r.after && r.e != r2.e && r2.e in r.before.succ
             && r.Target() == r2.Target()
    ensures r.after.succ.Keys <= r2.after.succ.Keys && r.e in r2.after.succ && r.i < |r2.after.succ[r.e]|
    ensures r2.i < |r2.after.succ[r2.e]| && r2.after.succ[r.e][r.i] != r2.after.succ[r2.e][r2.i]
  {
    hide Round.Ok, RenamedSeq;
    RoundFacts(r);
    RoundFacts(r2);
  }

  /** At the ends of two blocks that lead to b. */
  predicate AtJoin(k: Kernel, s: State, e: Block, e2: Block, b: Block) {
    && |s.items| == 2 && s.items[0].at == e && s.items[1].at == e2
    && s.items[0].pc == |Code(k, e)| && s.items[1].pc == |Code(k, e2)|
    && Terminator(k, e) == Goto(b) && Terminator(k, e2) == Goto(b)
    && |Code(k, b)| > 0 && Code(k, b)[0].Barrier?
  }

  /** What was no copy ends as before, leading where the round lets it lead. */
  lemma EndStays(k: Kernel, r: Round, nm: Names, e: Block)
    requires r.Ok() && r.before == Cfg(k) && e in r.before.succ && Terminator(k, e).Goto?
    ensures var k' := Replicated(k, r, nm);
            Code(k', e) == Code(k, e) && Terminator(k', e).Goto? && r.after.succ[e] == [Terminator(k', e).to]
  {
    hide Round.Ok, Replicated;
    RoundFacts(r);
    ReplicatedIs(k, r, nm, e);
    SuccessorsAre(k, r, nm, e);
  }

  lemma BothGo(k: Kernel, s: State)
    requires |s.items| == 2 && forall w :: 0 <= w < 2 ==>
               s.items[w].pc == |Code(k, s.items[w].at)| && Terminator(k, s.items[w].at).Goto?
    ensures var s' := Run(k, s, [0, 1]);
            forall w :: 0 <= w < 2 ==> s'.items[w].at == Terminator(k, s.items[w].at).to && s'.items[w].pc == 0
  {
    hide SetPhis;
    RunOfStep(k, s, [], 0);
    RunOfStep(k, s, [0], 1);
    assert [] + [0] == [0] && [0] + [1] == [0, 1] && Run(k, s, []) == s;
  }

  /** Two items come to the barrier of a join by two edges. On the kernel as it was they stand at
      one barrier; once both edges have been turned they stand at two. */
  lemma BarrierIsParted(k: Kernel, c: Copying, c2: Copying, s: State)
    requires c.r.Ok() && c2.r.Ok() && c.r.before == Cfg(k) && c2.r.before == c.r.after
    requires c.r.e != c2.r.e && c2.r.e in c.r.before.succ && c.r.Target() == c2.r.Target()
    requires AtJoin(k, s, c.r.e, c2.r.e, c.r.Target())
    ensures AtBarrier(k, Run(k, s, [0, 1]))
    ensures var k' := Replicated(Replicated(k, c.r, c.nm), c2.r, c2.nm); !AtBarrier(k', Run(k', s, [0, 1]))
  {
    hide Round.Ok, Replicated, Cfg, Run;
    var k1 := Replicated(k, c.r, c.nm);
    var k' := Replicated(k1, c2.r, c2.nm);
    BothGo(k, s);
    CfgReplicated(k, c.r, c.nm);
    RoundFacts(c.r);
    TurnedApart(c.r, c2.r);
    EndStays(k, c.r, c.nm, c.r.e);
    EndStays(k, c.r, c.nm, c2.r.e);
    EndStays(k1, c2.r, c2.nm, c.r.e);
    EndStays(k1, c2.r, c2.nm, c2.r.e);
    BothGo(k', s);
  }
}
