/** What the invariance analysis is right about: runs of two work-items.

    Two items whose local ids differ on one axis only run the code of a kernel. As long as the
    branches they come to are invariant on that axis, they go the same way and have the same in
    every register that is. */
module InvarianceRuns {
  import opened Graphs
  import opened Invariance

  /** A work-item: its local ids. */
  datatype Item = Item(local: seq<int>)

  ghost predicate DifferIn(i: Item, j: Item, k: nat) {
    |i.local| == |j.local| == 3 && forall d :: 0 <= d < 3 && d != k ==> i.local[d] == j.local[d]
  }

  type Env = map<nat, int>

  /** `ops` computes from operands, at a time, as what memory holds changes; `own` is what an
      instruction yields that the analysis takes as it is, such as an id; `chosen` is the operand
      that a PHI takes on entering from a block, and `target` is where a block goes on by the
      value of its last instruction. */
  datatype Meaning = Meaning(ops: (nat, nat, seq<int>) -> int, own: (nat, nat, Item) -> int,
                             argument: (nat, Item) -> int, constant: (nat, nat) -> int,
                             chosen: (nat, Block) -> nat, target: (Block, int) -> Block)

  function Lookup(env: Env, id: nat): int {
    if id in env then env[id] else 0
  }

  /** Operand number n of instruction `user`. */
  function OperandValue(c: Code, m: Meaning, it: Item, env: Env, user: nat, n: nat, o: Value): int {
    match o
    case Result(id) => Lookup(env, id)
    case Argument(a) => if a < |c.arguments| then m.argument(a, it) else 0
    case Constant => m.constant(user, n)
  }

  function OperandValues(c: Code, m: Meaning, it: Item, env: Env, user: nat, os: seq<Value>): seq<int> {
    seq(|os|, n requires 0 <= n < |os| => OperandValue(c, m, it, env, user, n, os[n]))
  }

  /** PHIs see the registers as they were on entering the block. */
  function Computed(c: Code, m: Meaning, it: Item, time: nat, from: Block, entering: Env, env: Env, x: Inst): int {
    match x.rule
    case Fixed(_) => m.own(x.id, time, it)
    case Standard(os) =>
      if x.phi then
        var n := m.chosen(x.id, from);
        if n < |os| then OperandValue(c, m, it, entering, x.id, n, os[n]) else 0
      else
        m.ops(x.id, time, OperandValues(c, m, it, env, x.id, os))
    case Branch(os) => if os == [] then 0 else OperandValue(c, m, it, env, x.id, 0, os[0])
  }

  /** The first n instructions of a block. */
  function ExecTo(c: Code, m: Meaning, it: Item, time: nat, from: Block, entering: Env, code: seq<Inst>, n: nat): Env
    requires n <= |code|
  {
    if n == 0 then entering
    else
      var env := ExecTo(c, m, it, time, from, entering, code, n - 1);
      env[code[n - 1].id := Computed(c, m, it, time, from, entering, env, code[n - 1])]
  }

  datatype State = State(at: Block, from: Block, env: Env)

  function CodeOf(c: Code, b: Block): seq<Inst> {
    if b in c.blocks then c.blocks[b] else []
  }

  /** What decides where a block goes on. */
  function Decision(c: Code, b: Block, env: Env): int {
    var code := CodeOf(c, b);
    if code == [] then 0 else Lookup(env, code[|code| - 1].id)
  }

  function Step(c: Code, m: Meaning, it: Item, time: nat, s: State): State {
    var env := ExecTo(c, m, it, time, s.from, s.env, CodeOf(c, s.at), |CodeOf(c, s.at)|);
    State(m.target(s.at, Decision(c, s.at, env)), s.at, env)
  }

  /** After n blocks from the start. */
  function Run(c: Code, m: Meaning, it: Item, start: Block, n: nat): State {
    if n == 0 then State(start, start, map[]) else Step(c, m, it, n - 1, Run(c, m, it, start, n - 1))
  }

  // ------------------------------------------------------------------------------ agreement

  function OnAxis(info: Info, k: nat): Kind {
    if k == 0 then info.l0 else if k == 1 then info.l1 else info.l2
  }

  /** Nothing non-invariant has been found; what is unknown has no origin at all. */
  predicate NoVariance(info: Info, k: nat) {
    OnAxis(info, k) == Invariant || OnAxis(info, k) == Unknown
  }

  /** What the analysis takes as given, of arguments and of instructions such as ids, is so. */
  ghost predicate GivenIsRight(c: Code, m: Meaning) {
    forall i, j, k :: DifferIn(i, j, k) && k < 3 ==> OwnIsRight(c, m, i, j, k) && ArgumentsAreRight(c, m, i, j, k)
  }

  ghost predicate OwnIsRight(c: Code, m: Meaning, i: Item, j: Item, k: nat) {
    forall b, n, time ::
      Place(c, b, n) && c.blocks[b][n].rule.Fixed? && NoVariance(c.blocks[b][n].rule.info, k) ==>
        m.own(c.blocks[b][n].id, time, i) == m.own(c.blocks[b][n].id, time, j)
  }

  ghost predicate ArgumentsAreRight(c: Code, m: Meaning, i: Item, j: Item, k: nat) {
    forall a :: 0 <= a < |c.arguments| && NoVariance(c.arguments[a], k) ==> m.argument(a, i) == m.argument(a, j)
  }

  /** What is said of a call for the local id of an axis. */
  function IdInfo(axis: nat): Info {
    var i, n := Invariant, NonInvariant;
    if axis == 0 then Info(n, i, i, i, i, i) else if axis == 1 then Info(i, n, i, i, i, i) else Info(i, i, n, i, i, i)
  }

  /** Instructions in `axes` yield the local id of that axis, and the others that have it fixed and
      the arguments are common to all items. */
  ghost predicate YieldsIds(c: Code, m: Meaning, axes: map<nat, nat>) {
    && (forall b, n :: Place(c, b, n) && c.blocks[b][n].rule.Fixed? && c.blocks[b][n].id in axes ==>
          axes[c.blocks[b][n].id] < 3 && c.blocks[b][n].rule.info == IdInfo(axes[c.blocks[b][n].id]))
    && (forall id, time, it: Item :: id in axes && axes[id] < |it.local| ==> m.own(id, time, it) == it.local[axes[id]])
    && (forall id, time, i: Item, j: Item :: id !in axes ==> m.own(id, time, i) == m.own(id, time, j))
    && (forall a, i: Item, j: Item :: m.argument(a, i) == m.argument(a, j))
  }

  /** What the analysis takes as given of ids is right. */
  lemma IdsAreRight(c: Code, m: Meaning, axes: map<nat, nat>)
    requires YieldsIds(c, m, axes)
    ensures GivenIsRight(c, m)
  {
    forall i: Item, j: Item, k: nat | DifferIn(i, j, k) && k < 3
      ensures OwnIsRight(c, m, i, j, k)
    {
      forall b, n, time: nat | Place(c, b, n) && c.blocks[b][n].rule.Fixed? && NoVariance(c.blocks[b][n].rule.info, k)
        ensures m.own(c.blocks[b][n].id, time, i) == m.own(c.blocks[b][n].id, time, j)
      {
        var id := c.blocks[b][n].id;
        if id in axes {
          assert m.own(id, time, i) == i.local[axes[id]] && m.own(id, time, j) == j.local[axes[id]];
        }
      }
    }
  }

  ghost predicate Agree(c: Code, v: Variances, k: nat, env: Env, env': Env) {
    forall id: nat :: NoVariance(InfoOf(c, v, Result(id)), k) ==> Lookup(env, id) == Lookup(env', id)
  }

  lemma VarianceFollows(a: Info, b: Info, k: nat)
    requires Leq(a, b) && NoVariance(a, k)
    ensures NoVariance(b, k)
  {
  }

  lemma SameOperand(c: Code, v: Variances, m: Meaning, i: Item, j: Item, k: nat, env: Env, env': Env, user: nat,
                    n: nat, o: Value)
    requires GivenIsRight(c, m) && k < 3 && DifferIn(i, j, k) && Agree(c, v, k, env, env')
    requires NoVariance(InfoOf(c, v, o), k)
    ensures OperandValue(c, m, i, env, user, n, o) == OperandValue(c, m, j, env', user, n, o)
  {
    hide NoVariance, DifferIn;
  }

  /** An instruction without variance computes the same from registers that agree. */
  lemma SameComputed(c: Code, v: Variances, m: Meaning, i: Item, j: Item, k: nat, time: nat, from: Block,
                     entering: Env, entering': Env, env: Env, env': Env, b: Block, n: nat)
    requires Solves(c, v) && GivenIsRight(c, m) && k < 3 && DifferIn(i, j, k) && Place(c, b, n)
    requires Agree(c, v, k, entering, entering') && Agree(c, v, k, env, env')
    requires NoVariance(InfoOf(c, v, Result(c.blocks[b][n].id)), k)
    ensures Computed(c, m, i, time, from, entering, env, c.blocks[b][n])
         == Computed(c, m, j, time, from, entering', env', c.blocks[b][n])
  {
    hide NoVariance, DifferIn, Agree, InfoOf, Leq, OperandValue;
    var x := c.blocks[b][n];
    var info := InfoOf(c, v, Result(x.id));
    assert ByOperands(c, v, x, info);
    match x.rule {
      case Fixed(_) =>
      case Standard(os) =>
        LeqFacts(info, info);
        forall q | 0 <= q < |os|
          ensures OperandValue(c, m, i, env, x.id, q, os[q]) == OperandValue(c, m, j, env', x.id, q, os[q])
          ensures OperandValue(c, m, i, entering, x.id, q, os[q]) == OperandValue(c, m, j, entering', x.id, q, os[q])
        {
          assert os[q] in os;
          VarianceFollows(info, InfoOf(c, v, os[q]), k);
          SameOperand(c, v, m, i, j, k, env, env', x.id, q, os[q]);
          SameOperand(c, v, m, i, j, k, entering, entering', x.id, q, os[q]);
        }
        assert OperandValues(c, m, i, env, x.id, os) == OperandValues(c, m, j, env', x.id, os);
      case Branch(os) =>
        if os != [] {
          SameOperand(c, v, m, i, j, k, env, env', x.id, 0, os[0]);
        }
    }
  }

  lemma {:induction false} BlockAgrees(c: Code, v: Variances, m: Meaning, i: Item, j: Item, k: nat, time: nat,
                                       from: Block, entering: Env, entering': Env, b: Block, n: nat)
    requires Solves(c, v) && GivenIsRight(c, m) && k < 3 && DifferIn(i, j, k) && n <= |CodeOf(c, b)|
    requires Agree(c, v, k, entering, entering')
    ensures Agree(c, v, k, ExecTo(c, m, i, time, from, entering, CodeOf(c, b), n),
                  ExecTo(c, m, j, time, from, entering', CodeOf(c, b), n))
    decreases n
  {
    hide NoVariance, DifferIn, InfoOf, Solves, GivenIsRight, Computed;
    if n > 0 {
      BlockAgrees(c, v, m, i, j, k, time, from, entering, entering', b, n - 1);
      var env := ExecTo(c, m, i, time, from, entering, CodeOf(c, b), n - 1);
      var env' := ExecTo(c, m, j, time, from, entering', CodeOf(c, b), n - 1);
      if NoVariance(InfoOf(c, v, Result(CodeOf(c, b)[n - 1].id)), k) {
        SameComputed(c, v, m, i, j, k, time, from, entering, entering', env, env', b, n - 1);
      }
    }
  }

  /** The branch at the end of block b is invariant on axis k. */
  ghost predicate DecidedAlike(c: Code, v: Variances, k: nat, b: Block) {
    var code := CodeOf(c, b);
    code != [] ==> NoVariance(InfoOf(c, v, Result(code[|code| - 1].id)), k)
  }

  /** What the analysis finds invariant on a local axis is the same in items that differ on that
      axis only, as long as such branches have led them; and then they have gone the same way. */
  lemma {:induction false} InvariantMeansEqual(c: Code, v: Variances, m: Meaning, i: Item, j: Item, k: nat,
                                               start: Block, n: nat)
    requires Solves(c, v) && GivenIsRight(c, m) && k < 3 && DifferIn(i, j, k)
    requires forall t :: 0 <= t < n ==> DecidedAlike(c, v, k, Run(c, m, i, start, t).at)
    ensures var s, s' := Run(c, m, i, start, n), Run(c, m, j, start, n);
            && s.at == s'.at && s.from == s'.from
            && forall id: nat | OnAxis(InfoOf(c, v, Result(id)), k) in {Invariant, Unknown} ::
                 Lookup(s.env, id) == Lookup(s'.env, id)
    decreases n
  {
    hide OnAxis, DifferIn, InfoOf, Solves, GivenIsRight, ExecTo, CodeOf;
    if n > 0 {
      InvariantMeansEqual(c, v, m, i, j, k, start, n - 1);
      var s, s' := Run(c, m, i, start, n - 1), Run(c, m, j, start, n - 1);
      BlockAgrees(c, v, m, i, j, k, n - 1, s.from, s.env, s'.env, s.at, |CodeOf(c, s.at)|);
      assert DecidedAlike(c, v, k, s.at);
    }
  }
}
