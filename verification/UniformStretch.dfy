/** Code outside the looped regions, which the one thread runs once for all items. */
module UniformStretch {
  import opened Graphs
  import opened WorkItems
  import opened Contexts
  import opened ContextPass
  import opened SharedRegisters

  /** Uniform code asks for no local id and keeps no private variable. It may load, and store. */
  ghost predicate UniformCode(k: Kernel, pr: seq<ParallelRegion>) {
    forall b, i :: !InRegion(pr, b) && 0 <= i < |Code(k, b)| ==> ForAllItems(Code(k, b)[i])
  }

  predicate ForAllItems(x: Inst) {
    x.Compute? || x.Load? || x.Store? || x.Barrier?
  }

  /** Two register files that hold the same in the uniform registers. */
  ghost predicate Alongside(k: Kernel, pr: seq<ParallelRegion>, env: map<Name, int>, sh: map<Name, int>) {
    forall x :: Uniform(k, pr, x) ==> Value(env, Reg(x)) == Value(sh, Reg(x))
  }

  /** What uniform code reads is uniform. */
  lemma UniformRead(k: Kernel, pr: seq<ParallelRegion>, x: Name, b: Block)
    requires !InRegion(pr, b) && ReadIn(k, x, b)
    ensures Uniform(k, pr, x)
  {
    hide ReadIn, DefIn, DefBlock;
    forall d | InRegion(pr, d) && DefBlock(k, x, d)
      ensures ReadDirectly(k, pr, x, d)
    {
      assert !SameRegion(pr, b, d);
    }
  }

  lemma TargetUniform(k: Kernel, pr: seq<ParallelRegion>, b: Block, env: map<Name, int>, sh: map<Name, int>)
    requires !InRegion(pr, b) && Alongside(k, pr, env, sh) && !Terminator(k, b).Return?
    ensures Target(Terminator(k, b), env) == Target(Terminator(k, b), sh)
  {
    hide Uniform, InRegion;
    var t := Terminator(k, b);
    if t.Branch? && t.cond.Reg? {
      assert UsedByTerm(t.cond.name, t);
      UniformRead(k, pr, t.cond.name, b);
    }
  }

  lemma ExecUniform(k: Kernel, pr: seq<ParallelRegion>, b: Block, i: nat, v: nat, w: nat, env: map<Name, int>,
                    sh: map<Name, int>, m: Memory)
    requires UniformCode(k, pr) && !InRegion(pr, b) && i < |Code(k, b)| && Alongside(k, pr, env, sh)
    ensures var x := Code(k, b)[i]; var (env', m') := Exec(k, v, x, env, m); var (sh', n') := Exec(k, w, x, sh, m);
            m' == n' && Alongside(k, pr, env', sh')
  {
    hide Uniform, InRegion, Exec;
    var x := Code(k, b)[i];
    forall n | UsedBy(n, x)
      ensures Value(env, Reg(n)) == Value(sh, Reg(n))
    {
      assert ReadIn(k, n, b);
      UniformRead(k, pr, n, b);
    }
    ExecAlike(k, v, x, env, sh, m);
    SameForAll(k, v, w, x, sh, m);
  }

  lemma SameForAll(k: Kernel, v: nat, w: nat, x: Inst, env: map<Name, int>, m: Memory)
    requires ForAllItems(x)
    ensures Exec(k, v, x, env, m) == Exec(k, w, x, env, m)
  {
  }

  lemma EnterUniform(k: Kernel, pr: seq<ParallelRegion>, b: Block, t: Block, env: map<Name, int>, sh: map<Name, int>)
    requires !InRegion(pr, t) && Alongside(k, pr, env, sh)
    ensures Alongside(k, pr, Enter(k, b, t, env).env, Enter(k, b, t, sh).env)
  {
    hide Uniform, InRegion, SetPhis, ReadIn;
    var phis := Phis(k, t);
    forall q | 0 <= q < |phis|
      ensures Incoming(phis[q], b, env) == Incoming(phis[q], b, sh)
    {
      if b in phis[q].incoming && phis[q].incoming[b].Reg? {
        var x := phis[q].incoming[b].name;
        PhiReadsRead(k, x, t, q, b);
        UniformRead(k, pr, x, t);
      }
    }
    forall x | Uniform(k, pr, x)
      ensures Value(Enter(k, b, t, env).env, Reg(x)) == Value(Enter(k, b, t, sh).env, Reg(x))
    {
      SetPhisAgree(phis, b, x, env, sh, env, sh);
    }
  }

  /** At the same place, with the same in the uniform registers and in memory. */
  ghost predicate Together(k: Kernel, pr: seq<ParallelRegion>, a: (Local, Memory), b: (Local, Memory)) {
    a.0.at == b.0.at && a.0.pc == b.0.pc && a.1 == b.1 && Alongside(k, pr, a.0.env, b.0.env)
  }

  /** A step of uniform code is the same for all items. */
  lemma StepTogether(k: Kernel, pr: seq<ParallelRegion>, v: nat, w: nat, a: (Local, Memory), b: (Local, Memory))
    requires UniformCode(k, pr) && Together(k, pr, a, b) && !InRegion(pr, a.0.at)
             && !InRegion(pr, Step(k, v, a.0, a.1).0.at)
    ensures Together(k, pr, Step(k, v, a.0, a.1), Step(k, w, b.0, b.1))
  {
    hide UniformCode, Alongside, InRegion, Exec, Enter, ForAllItems;
    SameStop(k, a.0, b.0);
    if Stopped(k, a.0) {
    } else if AtInst(k, a.0) {
      ExecUniform(k, pr, a.0.at, a.0.pc, v, w, a.0.env, b.0.env, a.1);
    } else {
      TargetUniform(k, pr, a.0.at, a.0.env, b.0.env);
      EnterIs(k, a.0.at, Target(Terminator(k, a.0.at), a.0.env), a.0.env);
      EnterIs(k, a.0.at, Target(Terminator(k, a.0.at), a.0.env), b.0.env);
      EnterUniform(k, pr, a.0.at, Target(Terminator(k, a.0.at), a.0.env), a.0.env, b.0.env);
    }
  }

  lemma EnterIs(k: Kernel, from: Block, to: Block, env: map<Name, int>)
    ensures Enter(k, from, to, env).at == to && Enter(k, from, to, env).pc == 0
  {
  }

  /** n steps of an item through uniform code, from where it stands. */
  ghost predicate Goes(k: Kernel, pr: seq<ParallelRegion>, id: nat, l: Local, m: Memory, n: nat) {
    && n > 0 && !InRegion(pr, Alone(k, id, l, m, n).0.at)
    && forall i :: 0 <= i < n ==> !InRegion(pr, Alone(k, id, l, m, i).0.at) && !Stopped(k, Alone(k, id, l, m, i).0)
  }

  lemma GoesAt(k: Kernel, pr: seq<ParallelRegion>, id: nat, l: Local, m: Memory, n: nat, i: nat)
    requires Goes(k, pr, id, l, m, n) && i <= n
    ensures !InRegion(pr, Alone(k, id, l, m, i).0.at) && (i < n ==> !Stopped(k, Alone(k, id, l, m, i).0))
  {
    hide Alone, InRegion, Stopped;
  }

  lemma {:induction false} RunTogether(k: Kernel, pr: seq<ParallelRegion>, v: nat, w: nat, a: (Local, Memory),
                                       b: (Local, Memory), n: nat, i: nat)
    requires UniformCode(k, pr) && Together(k, pr, a, b) && Goes(k, pr, v, a.0, a.1, n) && i <= n
    ensures Together(k, pr, Alone(k, v, a.0, a.1, i), Alone(k, w, b.0, b.1, i))
    decreases i
  {
    hide UniformCode, Together, InRegion, Goes, Step;
    if i > 0 {
      RunTogether(k, pr, v, w, a, b, n, i - 1);
      GoesAt(k, pr, v, a.0, a.1, n, i - 1);
      GoesAt(k, pr, v, a.0, a.1, n, i);
      StepTogether(k, pr, v, w, Alone(k, v, a.0, a.1, i - 1), Alone(k, w, b.0, b.1, i - 1));
    } else {
      assert Alone(k, v, a.0, a.1, 0) == a && Alone(k, w, b.0, b.1, 0) == b;
    }
  }

  /** Where one item goes, all that stand together with it go. */
  lemma GoTogether(k: Kernel, pr: seq<ParallelRegion>, v: nat, w: nat, a: (Local, Memory), b: (Local, Memory), n: nat)
    requires UniformCode(k, pr) && Together(k, pr, a, b) && Goes(k, pr, v, a.0, a.1, n)
    ensures Goes(k, pr, w, b.0, b.1, n) && Together(k, pr, Alone(k, v, a.0, a.1, n), Alone(k, w, b.0, b.1, n))
  {
    hide UniformCode, InRegion, Alone, Alongside, Stopped;
    forall i | 0 <= i <= n
      ensures !InRegion(pr, Alone(k, w, b.0, b.1, i).0.at) && (i < n ==> !Stopped(k, Alone(k, w, b.0, b.1, i).0))
    {
      RunTogether(k, pr, v, w, a, b, n, i);
      SameStop(k, Alone(k, v, a.0, a.1, i).0, Alone(k, w, b.0, b.1, i).0);
    }
    RunTogether(k, pr, v, w, a, b, n, n);
  }

  // ------------------------------------------------------------------------------ stores

  /** The next step stores to the shared memory or to a private variable. */
  predicate StoresNext(k: Kernel, l: Local) {
    AtInst(k, l) && (Code(k, l.at)[l.pc].Store? || Code(k, l.at)[l.pc].Save?)
  }

  ghost predicate StoresNothing(k: Kernel, id: nat, l: Local, m: Memory, n: nat) {
    forall i :: 0 <= i < n ==> !StoresNext(k, Alone(k, id, l, m, i).0)
  }

  lemma {:induction false} MemoryStays(k: Kernel, id: nat, l: Local, m: Memory, n: nat)
    requires StoresNothing(k, id, l, m, n)
    ensures Alone(k, id, l, m, n).1 == m
    decreases n
  {
    hide Enter;
    if n > 0 {
      MemoryStays(k, id, l, m, n - 1);
      assert !StoresNext(k, Alone(k, id, l, m, n - 1).0);
    }
  }

  /** No store on the way, or one item only. */
  ghost predicate Quiet(k: Kernel, items: seq<Local>, m: Memory, n: nat) {
    |items| == 1 || forall w :: 0 <= w < |items| ==> StoresNothing(k, w, items[w], m, n)
  }

  /** All items run the stretch one after the other: each finds the memory as it was. */
  lemma {:induction false} StretchLoop(k: Kernel, items: seq<Local>, m: Memory, n: nat, ns: seq<nat>, w: nat)
    requires w <= |items| == |ns| && (forall v :: 0 <= v < |ns| ==> ns[v] == n) && Quiet(k, items, m, n)
    ensures var (done, m') := PrivateLoop(k, items, m, ns, w);
            && (forall v :: 0 <= v < w ==> done[v] == Alone(k, v, items[v], m, n).0)
            && m' == if w == 0 then m else Alone(k, 0, items[0], m, n).1
    decreases w
  {
    hide Alone, StoresNothing;
    if w > 1 {
      StretchLoop(k, items, m, n, ns, w - 1);
      MemoryStays(k, 0, items[0], m, n);
      MemoryStays(k, w - 1, items[w - 1], m, n);
    } else if w == 1 {
      StretchLoop(k, items, m, n, ns, 0);
    }
  }

  /** The one thread runs the stretch once, as item 0 does. */
  lemma StretchShared(k: Kernel, pr: seq<ParallelRegion>, items: seq<Local>, sh: map<Name, int>, b: Block, m: Memory,
                      n: nat,
                      ns: seq<nat>)
    requires UniformCode(k, pr) && |items| == |ns| > 0 && (forall v :: 0 <= v < |ns| ==> ns[v] == n)
    requires Agree(k, pr, items, sh) && Quiet(k, items, m, n)
    requires forall w :: 0 <= w < |items| ==> items[w].at == b && items[w].pc == 1 && Goes(k, pr, w, items[w], m, n)
    ensures var (done, m1) := PrivateLoop(k, items, m, ns, |items|); var (l, m2) := Alone(k, 0, Local(b, 1, sh), m, n);
            && m1 == m2 && Agree(k, pr, done, l.env) && Goes(k, pr, 0, Local(b, 1, sh), m, n)
            && forall w :: 0 <= w < |items| ==> done[w].at == l.at && done[w].pc == l.pc
  {
    hide UniformCode, Quiet, Goes, Alone, Uniform, PrivateLoop;
    StretchLoop(k, items, m, n, ns, |items|);
    forall w | 0 <= w < |items|
      ensures Together(k, pr, Alone(k, w, items[w], m, n), Alone(k, 0, Local(b, 1, sh), m, n))
      ensures Goes(k, pr, 0, Local(b, 1, sh), m, n)
    {
      GoTogether(k, pr, w, 0, (items[w], m), (Local(b, 1, sh), m), n);
    }
    assert 0 < |items|;
  }
}
