/** Backward slices of a block's terminator, and sinking what is outside the slice.

    The slice is found by scanning the block until nothing is added. What is not in it moves to
    the block below, in front of the branch; a PHI moves as the load of a variable that the
    predecessors store to. The move looks at data dependence only. */
module Slices {
  import opened Graphs
  import ControlDependence

  /** How an instruction touches memory. */
  datatype Access = Pure | Reads | Writes

  /** A PHI, the load that has taken the place of a PHI, or any other instruction. */
  datatype Role = Phi | Loaded | Plain

  datatype Inst = Inst(id: nat, role: Role, access: Access, args: seq<nat>)

  ghost predicate BlockOk(code: seq<Inst>) {
    && (forall i, j :: 0 <= i < j < |code| ==> code[i].id != code[j].id)
    && (forall i, j :: 0 <= i <= j < |code| && code[i].role.Plain? ==> code[j].id !in code[i].args)
    && (forall i :: 0 <= i < |code| && !code[i].role.Plain? ==> code[i].access.Pure?)
  }

  /** The result `id` has a user in the slice s, or the terminator uses it. */
  predicate NeededBy(code: seq<Inst>, term: seq<nat>, s: set<nat>, id: nat) {
    id in term || exists j :: 0 <= j < |code| && code[j].id in s && id in code[j].args
  }

  function Ids(code: seq<Inst>): set<nat> {
    set i | 0 <= i < |code| :: code[i].id
  }

  /** The instruction of the block that computes x has y as an operand. */
  ghost predicate HasOperand(code: seq<Inst>, x: nat, y: nat) {
    exists j :: 0 <= j < |code| && code[j].id == x && y in code[j].args
  }

  /** What the block computes of the terminator's operands is in s, and with each member the
      member's operands that the block computes. */
  ghost predicate ClosedSlice(code: seq<Inst>, term: seq<nat>, s: set<nat>) {
    && (forall id :: id in Ids(code) && id in term ==> id in s)
    && (forall x, y :: x in s && y in Ids(code) && HasOperand(code, x, y) ==> y in s)
  }

  /** From an operand of the terminator along operands, all of them computed in the block. */
  ghost predicate Chain(code: seq<Inst>, term: seq<nat>, ids: seq<nat>) {
    && ids != [] && ids[0] in term && (forall i :: 0 <= i < |ids| ==> ids[i] in Ids(code))
    && forall i :: 0 <= i < |ids| - 1 ==> HasOperand(code, ids[i], ids[i + 1])
  }

  /** The terminator depends on `id` in the block. */
  ghost predicate InSlice(code: seq<Inst>, term: seq<nat>, id: nat) {
    exists ids :: Chain(code, term, ids) && ids[|ids| - 1] == id
  }

  lemma {:induction false} ChainInClosed(code: seq<Inst>, term: seq<nat>, s: set<nat>, ids: seq<nat>)
    requires ClosedSlice(code, term, s) && Chain(code, term, ids)
    ensures ids[|ids| - 1] in s
    decreases |ids|
  {
    hide Ids, HasOperand;
    var n := |ids| - 1;
    if n > 0 {
      assert Chain(code, term, ids[..n]);
      ChainInClosed(code, term, s, ids[..n]);
      assert HasOperand(code, ids[n - 1], ids[n - 1 + 1]);
    }
  }

  lemma ChainGrows(code: seq<Inst>, term: seq<nat>, ids: seq<nat>, y: nat)
    requires Chain(code, term, ids) && y in Ids(code) && HasOperand(code, ids[|ids| - 1], y)
    ensures InSlice(code, term, y)
  {
    hide Ids, HasOperand;
    var longer := ids + [y];
    forall i | 0 <= i < |longer| - 1
      ensures HasOperand(code, longer[i], longer[i + 1])
    {
      if i < |ids| - 1 {
        assert HasOperand(code, ids[i], ids[i + 1]);
      }
    }
    assert Chain(code, term, longer);
  }

  lemma ChainsAreClosed(code: seq<Inst>, term: seq<nat>)
    ensures ClosedSlice(code, term, set id | id in Ids(code) && InSlice(code, term, id))
  {
    hide Ids, HasOperand;
    forall id | id in Ids(code) && id in term
      ensures InSlice(code, term, id)
    {
      assert Chain(code, term, [id]);
    }
    forall x, y | InSlice(code, term, x) && y in Ids(code) && HasOperand(code, x, y)
      ensures InSlice(code, term, y)
    {
      var ids :| Chain(code, term, ids) && ids[|ids| - 1] == x;
      ChainGrows(code, term, ids, y);
    }
  }

  /** The least closed set holds what chains of operands lead to. */
  lemma LeastIsByChains(code: seq<Inst>, term: seq<nat>, s: set<nat>)
    requires ClosedSlice(code, term, s) && forall u :: ClosedSlice(code, term, u) ==> s <= u
    ensures forall id :: id in s <==> InSlice(code, term, id)
  {
    hide ClosedSlice, HasOperand, Ids;
    ChainsAreClosed(code, term);
    forall id | InSlice(code, term, id)
      ensures id in s
    {
      var ids :| Chain(code, term, ids) && ids[|ids| - 1] == id;
      ChainInClosed(code, term, s, ids);
    }
  }

  /** A pass that finds nothing has found all. */
  lemma NoneNeeded(code: seq<Inst>, term: seq<nat>, s: set<nat>)
    requires forall q :: 0 <= q < |code| && NeededBy(code, term, s, code[q].id) ==> code[q].id in s
    ensures ClosedSlice(code, term, s)
  {
    forall id | id in Ids(code) && NeededBy(code, term, s, id)
      ensures id in s
    {
    }
    forall x, y | x in s && HasOperand(code, x, y)
      ensures NeededBy(code, term, s, y)
    {
    }
  }

  lemma NeededIsClosed(code: seq<Inst>, term: seq<nat>, s: set<nat>, u: set<nat>, id: nat)
    requires s <= u && ClosedSlice(code, term, u) && id in Ids(code) && NeededBy(code, term, s, id)
    ensures id in u
  {
    if id !in term {
      var j :| 0 <= j < |code| && code[j].id in s && id in code[j].args;
      assert HasOperand(code, code[j].id, id);
    }
  }

  /** One pass over the block. */
  method Scan(code: seq<Inst>, term: seq<nat>, s: set<nat>) returns (t: set<nat>, found: nat)
    requires s <= Ids(code)
    ensures s <= t <= Ids(code) && (found == 0 ==> t == s && ClosedSlice(code, term, s)) && (found > 0 ==> s < t)
    ensures forall u :: ClosedSlice(code, term, u) && s <= u ==> t <= u
  {
    hide ClosedSlice;
    t, found := s, 0;
    var i := 0;
    while i < |code|
      invariant 0 <= i <= |code| && s <= t <= Ids(code)
      invariant found == 0 ==> t == s
      invariant found > 0 ==> s < t
      invariant found == 0 ==> forall q :: 0 <= q < i && NeededBy(code, term, s, code[q].id) ==> code[q].id in s
      invariant forall u :: ClosedSlice(code, term, u) && s <= u ==> t <= u
    {
      if NeededBy(code, term, t, code[i].id) && code[i].id !in t {
        forall u | ClosedSlice(code, term, u) && s <= u
          ensures code[i].id in u
        {
          NeededIsClosed(code, term, t, u, code[i].id);
        }
        t := t + {code[i].id};
        found := found + 1;
      }
      i := i + 1;
    }
    if found == 0 {
      NoneNeeded(code, term, s);
    }
  }

  /** The slice has what the block computes of the terminator's operands and is closed under
      operands computed in the block; nothing is in it but for a chain that leads there. */
  method FindSlice(code: seq<Inst>, term: seq<nat>) returns (s: set<nat>)
    ensures forall i :: 0 <= i < |code| && code[i].id in term ==> code[i].id in s
    ensures forall i, j :: 0 <= i < |code| && 0 <= j < |code| && code[j].id in s && code[i].id in code[j].args ==>
                             code[i].id in s
    ensures forall id :: id in s <==> InSlice(code, term, id)
    ensures s <= Ids(code) && ClosedSlice(code, term, s)
  {
    hide Ids, ClosedSlice, InSlice;
    s := {};
    var complete := false;
    while !complete
      invariant s <= Ids(code) && (complete ==> ClosedSlice(code, term, s))
      invariant forall u :: ClosedSlice(code, term, u) ==> s <= u
      decreases !complete, Ids(code) - s
    {
      var t, found := Scan(code, term, s);
      if found == 0 {
        complete := true;
      }
      s := t;
    }
    LeastIsByChains(code, term, s);
    ClosedFacts(code, term, s);
  }

  lemma ClosedFacts(code: seq<Inst>, term: seq<nat>, s: set<nat>)
    requires ClosedSlice(code, term, s)
    ensures forall i :: 0 <= i < |code| && code[i].id in term ==> code[i].id in s
    ensures forall i, j :: 0 <= i < |code| && 0 <= j < |code| && code[j].id in s && code[i].id in code[j].args ==>
                             code[i].id in s
  {
    forall i, j | 0 <= i < |code| && 0 <= j < |code| && code[j].id in s && code[i].id in code[j].args
      ensures code[i].id in s
    {
      assert HasOperand(code, code[j].id, code[i].id);
    }
  }

  /** Block y is control dependent on x, in one step or more, as the search for post-dominance
      frontiers finds it. */
  ghost predicate Controls(g: Graph, x: Block, y: Block) {
    x in g.succ && Reach(ControlDependence.Dependences(g), x, y)
  }

  /** The analysis has been run on the function. */
  ghost predicate Analysed(g: Graph, cd: ControlDependence.ControlDep)
    reads cd, cd.closure
  {
    forall x, y :: cd.IsIterativelyCtrlDep(x, y) <==> Controls(g, x, y)
  }

  /** Blocks that the control of some barrier depends on, in one step or more. */
  method ControllingBlocks(g: Graph, blocks: set<Block>, barriers: set<Block>, cd: ControlDependence.ControlDep)
    returns (ctrl: set<Block>)
    requires Analysed(g, cd)
    ensures forall x :: x in ctrl <==> x in blocks && exists y :: y in barriers && Controls(g, x, y) && x != y
  {
    hide Controls;
    ctrl := {};
    var todo := barriers;
    while todo != {}
      invariant todo <= barriers
      invariant forall x :: x in ctrl <==> x in blocks && exists y ::
                y in barriers - todo && Controls(g, x, y) && x != y
      decreases todo
    {
      var y :| y in todo;
      ctrl := ctrl + set x | x in blocks && cd.IsIterativelyCtrlDep(x, y) && x != y;
      todo := todo - {y};
    }
  }

  ghost predicate PhiInSlice(code: seq<Inst>, term: seq<nat>, id: nat) {
    InSlice(code, term, id) && exists i :: 0 <= i < |code| && code[i].role.Phi? && code[i].id == id
  }

  method PhisInSlice(code: seq<Inst>, term: seq<nat>) returns (phis: set<nat>)
    ensures forall id :: id in phis <==> PhiInSlice(code, term, id)
  {
    hide InSlice;
    var s := FindSlice(code, term);
    phis := set i | 0 <= i < |code| && code[i].role.Phi? && code[i].id in s :: code[i].id;
  }

  /** A branch that the control of a barrier depends on is decided by way of the PHI. */
  ghost predicate Unbreakable(g: Graph, code: map<Block, seq<Inst>>, term: map<Block, seq<nat>>, barriers: set<Block>,
                              id: nat)
    requires code.Keys == term.Keys
  {
    exists x, y :: x in code && y in barriers && Controls(g, x, y) && x != y && PhiInSlice(code[x], term[x], id)
  }

  /** The PHIs on which such branches depend stay PHIs. */
  method CollectUnbreakablePHIs(g: Graph, code: map<Block, seq<Inst>>, term: map<Block, seq<nat>>, barriers: set<Block>,
                                cd: ControlDependence.ControlDep) returns (phis: set<nat>)
    requires code.Keys == term.Keys && Analysed(g, cd)
    ensures forall id :: id in phis <==> Unbreakable(g, code, term, barriers, id)
  {
    hide PhiInSlice, Controls;
    var ctrl := ControllingBlocks(g, code.Keys, barriers, cd);
    phis := {};
    var todo := ctrl;
    while todo != {}
      invariant todo <= ctrl
      invariant forall id :: id in phis <==> exists x :: x in ctrl - todo && PhiInSlice(code[x], term[x], id)
      decreases todo
    {
      var x :| x in todo;
      var more := PhisInSlice(code[x], term[x]);
      phis, todo := phis + more, todo - {x};
    }
  }

  /** The analysis and then the collection, as on a whole function. */
  method CollectOnFunction(g: Graph, root: ControlDependence.Tree, code: map<Block, seq<Inst>>,
                           term: map<Block, seq<nat>>,
                           barriers: set<Block>) returns (phis: set<nat>)
    requires Valid(g) && ControlDependence.IsPostDominatorTree(g, root) && code.Keys == term.Keys
    ensures forall id :: id in phis <==> Unbreakable(g, code, term, barriers, id)
  {
    hide Unbreakable, Valid, ControlDependence.IsPostDominatorTree, Reach;
    var cd := new ControlDependence.ControlDep();
    cd.RunOnFunction(g, root);
    phis := CollectUnbreakablePHIs(g, code, term, barriers, cd);
  }

  // ---------------------------------------------------------------------------------- sinking

  function Left(code: seq<Inst>, s: set<nat>): seq<Inst> {
    if code == [] then []
    else Left(code[..|code| - 1], s) + if code[|code| - 1].id in s then [code[|code| - 1]] else []
  }

  function Moved(code: seq<Inst>, s: set<nat>): seq<Inst> {
    if code == [] then []
    else Moved(code[..|code| - 1], s) + if code[|code| - 1].id in s then [] else [code[|code| - 1]]
  }

  /** What has moved comes to the lower block as it is, or as the load of what was a PHI. */
  function AsMoved(x: Inst): Inst {
    if x.role.Phi? then x.(role := Loaded) else x
  }

  function Sunk(code: seq<Inst>, s: set<nat>): (r: seq<Inst>)
    ensures |r| == |Moved(code, s)|
  {
    seq(|Moved(code, s)|, i requires 0 <= i < |Moved(code, s)| => AsMoved(Moved(code, s)[i]))
  }

  lemma OneMore(code: seq<Inst>, s: set<nat>, i: nat)
    requires i < |code|
    ensures Left(code[..i + 1], s) == Left(code[..i], s) + if code[i].id in s then [code[i]] else []
    ensures Sunk(code[..i + 1], s) == Sunk(code[..i], s) + if code[i].id in s then [] else [AsMoved(code[i])]
  {
    assert code[..i + 1][..i] == code[..i];
  }

  lemma {:induction false} PartsOf(code: seq<Inst>, s: set<nat>, x: Inst)
    ensures x in Left(code, s) <==> x in code && x.id in s
    ensures x in Moved(code, s) <==> x in code && x.id !in s
    decreases |code|
  {
    if code != [] {
      PartsOf(code[..|code| - 1], s, x);
      assert code == code[..|code| - 1] + [code[|code| - 1]];
    }
  }

  /** No instruction that stays uses one that has moved below it. */
  lemma NothingLeftUsesMoved(code: seq<Inst>, term: seq<nat>, s: set<nat>, x: Inst, y: Inst)
    requires ClosedSlice(code, term, s) && x in Left(code, s) && y in Moved(code, s)
    ensures y.id !in x.args
  {
    PartsOf(code, s, x);
    PartsOf(code, s, y);
    var i :| 0 <= i < |code| && code[i] == y;
    var j :| 0 <= j < |code| && code[j] == x;
    assert y.id in x.args ==> HasOperand(code, x.id, y.id);
  }

  // ------------------------------------------------------------------------- what code does

  /** Memory is seen as the history that its instructions make of it. */
  type Mem = seq<int>
  type Env = map<nat, int>

  /** `arriving` is what the PHIs receive along the edge by which the block has been entered. */
  datatype Meaning = Meaning(value: (nat, seq<int>) -> int, read: (nat, seq<int>, Mem) -> int,
                             write: (nat, seq<int>, Mem) -> Mem, arriving: nat -> int)

  function Arg(env: Env, n: nat): int {
    if n in env then env[n] else 0
  }

  function ArgsOf(env: Env, x: Inst): seq<int> {
    seq(|x.args|, i requires 0 <= i < |x.args| => Arg(env, x.args[i]))
  }

  /** `vars` are the variables of PHIs. */
  datatype State = State(env: Env, mem: Mem, vars: Env)

  predicate Counts(x: Inst) {
    x.role.Plain? && x.access.Writes?
  }

  function ResultOf(m: Meaning, x: Inst, s: State): int {
    match x.role
    case Phi => m.arriving(x.id)
    case Loaded => Arg(s.vars, x.id)
    case Plain => if x.access.Pure? then m.value(x.id, ArgsOf(s.env, x)) else m.read(x.id, ArgsOf(s.env, x), s.mem)
  }

  function MemAfter(m: Meaning, x: Inst, s: State): Mem {
    if Counts(x) then m.write(x.id, ArgsOf(s.env, x), s.mem) else s.mem
  }

  function Do(m: Meaning, x: Inst, s: State): State {
    State(s.env[x.id := ResultOf(m, x, s)], MemAfter(m, x, s), s.vars)
  }

  function Exec(m: Meaning, code: seq<Inst>, s: State): State {
    if code == [] then s else Do(m, code[|code| - 1], Exec(m, code[..|code| - 1], s))
  }

  /** Two accesses of which one writes may not change places. */
  predicate Conflict(x: Inst, y: Inst) {
    (x.access == Writes && y.access != Pure) || (y.access == Writes && x.access != Pure)
  }

  ghost predicate Independent(x: Inst, y: Inst) {
    && x.id != y.id && !Conflict(x, y)
    && (y.role.Plain? ==> x.id !in y.args) && (x.role.Plain? ==> y.id !in x.args)
  }

  lemma ArgsUnaffected(env: Env, x: Inst, n: nat, v: int)
    requires n !in x.args
    ensures ArgsOf(env[n := v], x) == ArgsOf(env, x)
  {
    forall i | 0 <= i < |x.args|
      ensures Arg(env[n := v], x.args[i]) == Arg(env, x.args[i])
    {
      assert x.args[i] in x.args;
    }
  }

  lemma Unaffected(m: Meaning, x: Inst, y: Inst, s: State)
    requires Independent(x, y)
    ensures ResultOf(m, y, Do(m, x, s)) == ResultOf(m, y, s)
    ensures Counts(y) ==> MemAfter(m, y, Do(m, x, s)) == MemAfter(m, y, s)
    ensures Counts(x) ==> !Counts(y)
  {
    if y.role.Plain? {
      ArgsUnaffected(s.env, y, x.id, ResultOf(m, x, s));
    }
  }

  lemma Swap(m: Meaning, x: Inst, y: Inst, s: State)
    requires Independent(x, y)
    ensures Do(m, y, Do(m, x, s)) == Do(m, x, Do(m, y, s))
  {
    hide ResultOf;
    Unaffected(m, x, y, s);
    Unaffected(m, y, x, s);
    var a, b := Do(m, y, Do(m, x, s)), Do(m, x, Do(m, y, s));
    assert a.env == b.env;
  }

  lemma ExecSnoc(m: Meaning, code: seq<Inst>, x: Inst, s: State)
    ensures Exec(m, code + [x], s) == Do(m, x, Exec(m, code, s))
  {
    assert (code + [x])[..|code|] == code;
  }

  lemma {:induction false} ExecBoth(m: Meaning, a: seq<Inst>, b: seq<Inst>, s: State)
    ensures Exec(m, a + b, s) == Exec(m, b, Exec(m, a, s))
    decreases |b|
  {
    if b == [] {
      assert a + b == a;
    } else {
      assert a + b == (a + b[..|b| - 1]) + [b[|b| - 1]];
      ExecSnoc(m, a + b[..|b| - 1], b[|b| - 1], s);
      ExecBoth(m, a, b[..|b| - 1], s);
    }
  }

  lemma {:induction false} SwapPast(m: Meaning, ys: seq<Inst>, x: Inst, s: State)
    requires forall i :: 0 <= i < |ys| ==> Independent(ys[i], x)
    ensures Do(m, x, Exec(m, ys, s)) == Exec(m, ys, Do(m, x, s))
    decreases |ys|
  {
    if ys != [] {
      var init, y := ys[..|ys| - 1], ys[|ys| - 1];
      Swap(m, y, x, Exec(m, init, s));
      SwapPast(m, init, x, s);
    }
  }

  /** No conflicting accesses change places: whatever moves has no conflict with what follows it
      and stays. */
  ghost predicate KeepsOrder(code: seq<Inst>, s: set<nat>) {
    forall i, j :: 0 <= i < j < |code| && code[i].id !in s && code[j].id in s ==> !Conflict(code[i], code[j])
  }

  /** The block in two parts, grown by one instruction. */
  lemma PartsGrow(code: seq<Inst>, s: set<nat>)
    requires code != []
    ensures var init, x := code[..|code| - 1], code[|code| - 1];
            && Left(code, s) == Left(init, s) + (if x.id in s then [x] else [])
            && Moved(code, s) == Moved(init, s) + if x.id in s then [] else [x]
  {
  }

  /** What has moved so far can stay behind an instruction that stays. */
  lemma MovedIndependent(code: seq<Inst>, s: set<nat>, d: Inst)
    requires BlockOk(code) && KeepsOrder(code, s) && code != [] && code[|code| - 1].id in s
    requires forall i, j ::
             0 <= i < |code| && 0 <= j < |code| && code[i].id in s && code[j].id !in s ==> code[j].id !in code[i].args
    requires d in Moved(code[..|code| - 1], s)
    ensures Independent(d, code[|code| - 1])
  {
    var init := code[..|code| - 1];
    PartsOf(init, s, d);
    var j :| 0 <= j < |init| && init[j] == d;
    assert code[j] == d;
  }

  lemma {:induction false} SinkPreserves(m: Meaning, code: seq<Inst>, s: set<nat>, start: State)
    requires BlockOk(code) && KeepsOrder(code, s)
    requires forall i, j ::
             0 <= i < |code| && 0 <= j < |code| && code[i].id in s && code[j].id !in s ==> code[j].id !in code[i].args
    ensures Exec(m, Left(code, s) + Moved(code, s), start) == Exec(m, code, start)
    decreases |code|
  {
    hide Left, Moved, Do, Independent, Exec;
    if code == [] {
      assert Left(code, s) + Moved(code, s) == code by {
        EmptyParts(s);
      }
    } else {
      var init, x := code[..|code| - 1], code[|code| - 1];
      var l, d := Left(init, s), Moved(init, s);
      SinkPreserves(m, init, s, start);
      PartsGrow(code, s);
      assert code == init + [x];
      ExecSnoc(m, init, x, start);
      if x.id in s {
        forall i | 0 <= i < |d|
          ensures Independent(d[i], x)
        {
          MovedIndependent(code, s, d[i]);
        }
        ExecBoth(m, l + [x], d, start);
        ExecSnoc(m, l, x, start);
        ExecBoth(m, l, d, start);
        SwapPast(m, d, x, Exec(m, l, start));
        assert d + [] == d;
      } else {
        assert l + [] == l && l + (d + [x]) == (l + d) + [x];
        ExecSnoc(m, l + d, x, start);
      }
    }
  }

  lemma EmptyParts(s: set<nat>)
    ensures Left([], s) == [] && Moved([], s) == []
  {
  }

  // ------------------------------------------------------------- when the order matters

  /** A memory that records who has written: a read yields how many writes there have been. */
  const HISTORY := Meaning((_, _) => 0, (_, _, mem: Mem) => |mem|, (id, _, mem: Mem) => mem + [id], _ => 0)

  function WritesIn(code: seq<Inst>): nat {
    if code == [] then 0 else WritesIn(code[..|code| - 1]) + if Counts(code[|code| - 1]) then 1 else 0
  }

  lemma {:induction false} WritesInBoth(a: seq<Inst>, b: seq<Inst>)
    ensures WritesIn(a + b) == WritesIn(a) + WritesIn(b)
    decreases |b|
  {
    if b == [] {
      assert a + b == a;
    } else {
      assert (a + b)[..|a + b| - 1] == a + b[..|b| - 1];
      WritesInBoth(a, b[..|b| - 1]);
    }
  }

  lemma {:induction false} PartsOfBoth(a: seq<Inst>, b: seq<Inst>, s: set<nat>)
    ensures Left(a + b, s) == Left(a, s) + Left(b, s) && Moved(a + b, s) == Moved(a, s) + Moved(b, s)
    decreases |b|
  {
    if b == [] {
      assert a + b == a;
    } else {
      assert (a + b)[..|a + b| - 1] == a + b[..|b| - 1];
      PartsOfBoth(a, b[..|b| - 1], s);
    }
  }

  lemma {:induction false} WritesOfParts(code: seq<Inst>, s: set<nat>)
    ensures WritesIn(Left(code, s)) + WritesIn(Moved(code, s)) == WritesIn(code)
    decreases |code|
  {
    if code != [] {
      var init, x := code[..|code| - 1], code[|code| - 1];
      WritesOfParts(init, s);
      WritesInBoth(Left(init, s), if x.id in s then [x] else []);
      WritesInBoth(Moved(init, s), if x.id in s then [] else [x]);
      assert [x][..0] == [] && WritesIn([x]) == if Counts(x) then 1 else 0;
    }
  }

  lemma {:induction false} WriterCounts(code: seq<Inst>, i: nat)
    requires i < |code| && Counts(code[i])
    ensures WritesIn(code) > 0
    decreases |code|
  {
    if i < |code| - 1 {
      WriterCounts(code[..|code| - 1], i);
    }
  }

  lemma {:induction false} HistoryGrows(code: seq<Inst>, start: State)
    ensures |Exec(HISTORY, code, start).mem| == |start.mem| + WritesIn(code)
    decreases |code|
  {
    if code != [] {
      HistoryGrows(code[..|code| - 1], start);
    }
  }

  ghost predicate NoneNamed(code: seq<Inst>, id: nat) {
    forall k :: 0 <= k < |code| ==> code[k].id != id
  }

  /** An access between a and b gets how often a has written, if b does not define it again. */
  lemma {:induction false} HistoryAt(a: seq<Inst>, x: Inst, b: seq<Inst>, start: State)
    requires x.role.Plain? && x.access != Pure && start.mem == [] && NoneNamed(b, x.id)
    ensures Arg(Exec(HISTORY, a + [x] + b, start).env, x.id) == WritesIn(a)
    decreases |b|
  {
    if b == [] {
      assert a + [x] + b == a + [x];
      ExecSnoc(HISTORY, a, x, start);
      HistoryGrows(a, start);
    } else {
      var init := b[..|b| - 1];
      assert a + [x] + b == (a + [x] + init) + [b[|b| - 1]];
      ExecSnoc(HISTORY, a + [x] + init, b[|b| - 1], start);
      HistoryAt(a, x, init, start);
    }
  }

  lemma PartsNotNamed(code: seq<Inst>, s: set<nat>, id: nat)
    ensures NoneNamed(code, id) ==> NoneNamed(Left(code, s), id) && NoneNamed(Moved(code, s), id)
    ensures id in s ==> NoneNamed(Moved(code, s), id)
  {
    forall k | 0 <= k < |Left(code, s)|
      ensures NoneNamed(code, id) ==> Left(code, s)[k].id != id
    {
      PartsOf(code, s, Left(code, s)[k]);
    }
    forall k | 0 <= k < |Moved(code, s)|
      ensures NoneNamed(code, id) || id in s ==> Moved(code, s)[k].id != id
    {
      PartsOf(code, s, Moved(code, s)[k]);
    }
  }

  lemma RestNotNamed(code: seq<Inst>, i: nat)
    requires BlockOk(code) && i < |code|
    ensures NoneNamed(code[i + 1..], code[i].id)
  {
    var b := code[i + 1..];
    forall k | 0 <= k < |b|
      ensures b[k].id != code[i].id
    {
      assert b[k] == code[i + 1 + k];
    }
  }

  lemma BothNotNamed(a: seq<Inst>, b: seq<Inst>, id: nat)
    requires NoneNamed(a, id) && NoneNamed(b, id)
    ensures NoneNamed(a + b, id)
  {
  }

  lemma SplitParts(code: seq<Inst>, s: set<nat>, i: nat)
    requires i < |code|
    ensures code == code[..i] + [code[i]] + code[i + 1..]
    ensures code[i].id in s ==> Left(code, s) == Left(code[..i], s) + [code[i]] + Left(code[i + 1..], s)
    ensures code[i].id !in s ==> Moved(code, s) == Moved(code[..i], s) + [code[i]] + Moved(code[i + 1..], s)
    ensures WritesIn(Left(code, s)) == WritesIn(Left(code[..i], s)) + WritesIn(Left([code[i]], s))
            + WritesIn(Left(code[i + 1..], s))
  {
    var a, x, b := code[..i], code[i], code[i + 1..];
    assert code == a + [x] + b;
    PartsOfBoth(a + [x], b, s);
    PartsOfBoth(a, [x], s);
    assert [x][..0] == [];
    assert Left([x], s) == if x.id in s then [x] else [];
    assert Moved([x], s) == if x.id in s then [] else [x];
    WritesInBoth(Left(a, s) + Left([x], s), Left(b, s));
    WritesInBoth(Left(a, s), Left([x], s));
  }

  lemma OnlyPlainAccess(code: seq<Inst>, i: nat)
    requires BlockOk(code) && i < |code| && code[i].access != Pure
    ensures code[i].role.Plain?
  {
  }

  lemma BeforeSinking(code: seq<Inst>, i: nat, start: State)
    requires BlockOk(code) && i < |code| && code[i].access != Pure && start.mem == []
    ensures Arg(Exec(HISTORY, code, start).env, code[i].id) == WritesIn(code[..i])
  {
    hide Exec, WritesIn;
    RestNotNamed(code, i);
    HistoryAt(code[..i], code[i], code[i + 1..], start);
    assert code == code[..i] + [code[i]] + code[i + 1..];
  }

  /** What an access that stays gets after the move: writes that stay above it. */
  lemma StaysSinking(code: seq<Inst>, s: set<nat>, i: nat, start: State)
    requires BlockOk(code) && i < |code| && code[i].access != Pure && start.mem == [] && code[i].id in s
    ensures Arg(Exec(HISTORY, Left(code, s) + Moved(code, s), start).env, code[i].id) == WritesIn(Left(code[..i], s))
  {
    hide Exec, WritesIn, Left, Moved;
    var a, x, b := code[..i], code[i], code[i + 1..];
    SplitParts(code, s, i);
    RestNotNamed(code, i);
    PartsNotNamed(b, s, x.id);
    PartsNotNamed(code, s, x.id);
    BothNotNamed(Left(b, s), Moved(code, s), x.id);
    HistoryAt(Left(a, s), x, Left(b, s) + Moved(code, s), start);
    assert Left(a, s) + [x] + (Left(b, s) + Moved(code, s)) == Left(code, s) + Moved(code, s);
  }

  /** And one that moves: all writes that stay, and those that have moved ahead of it. */
  lemma MovesSinking(code: seq<Inst>, s: set<nat>, i: nat, start: State)
    requires BlockOk(code) && i < |code| && code[i].access != Pure && start.mem == [] && code[i].id !in s
    ensures Arg(Exec(HISTORY, Left(code, s) + Moved(code, s), start).env, code[i].id)
         == WritesIn(Left(code, s)) + WritesIn(Moved(code[..i], s))
  {
    hide Exec, WritesIn, Left, Moved;
    var a, x, b := code[..i], code[i], code[i + 1..];
    SplitParts(code, s, i);
    RestNotNamed(code, i);
    PartsNotNamed(b, s, x.id);
    WritesInBoth(Left(code, s), Moved(a, s));
    HistoryAt(Left(code, s) + Moved(a, s), x, Moved(b, s), start);
    assert (Left(code, s) + Moved(a, s)) + [x] + Moved(b, s) == Left(code, s) + Moved(code, s);
  }

  lemma MovedWriter(code: seq<Inst>, s: set<nat>, i: nat)
    requires i < |code| && Counts(code[i])
    ensures if code[i].id in s then WritesIn(Left(code, s)) > 0 else WritesIn(Moved(code, s)) > 0
  {
    PartsOf(code, s, code[i]);
    if code[i].id in s {
      var k :| 0 <= k < |Left(code, s)| && Left(code, s)[k] == code[i];
      WriterCounts(Left(code, s), k);
    } else {
      var k :| 0 <= k < |Moved(code, s)| && Moved(code, s)[k] == code[i];
      WriterCounts(Moved(code, s), k);
    }
  }

  /** The writer moves below an access that counts it ... */
  lemma WriterMovesAway(code: seq<Inst>, s: set<nat>, i: nat, j: nat, start: State)
    requires BlockOk(code) && i < j < |code| && code[i].id !in s && code[j].id in s && start.mem == []
    requires code[i].access == Writes && code[j].access != Pure
    ensures Exec(HISTORY, Left(code, s) + Moved(code, s), start) != Exec(HISTORY, code, start)
  {
    hide Exec, WritesIn, Left, Moved, BlockOk;
    OnlyPlainAccess(code, i);
    BeforeSinking(code, j, start);
    StaysSinking(code, s, j, start);
    WritesOfParts(code[..j], s);
    MovedWriter(code[..j], s, i);
  }

  /** ... or an access moves below a writer that it did not count. */
  lemma WriterGetsAhead(code: seq<Inst>, s: set<nat>, i: nat, j: nat, start: State)
    requires BlockOk(code) && i < j < |code| && code[i].id !in s && code[j].id in s && start.mem == []
    requires code[i].access != Pure && code[j].access == Writes
    ensures Exec(HISTORY, Left(code, s) + Moved(code, s), start) != Exec(HISTORY, code, start)
  {
    hide Exec, WritesIn, Left, Moved, BlockOk;
    OnlyPlainAccess(code, j);
    BeforeSinking(code, i, start);
    MovesSinking(code, s, i, start);
    WritesOfParts(code[..i], s);
    SplitParts(code, s, i);
    MovedWriter(code[i + 1..], s, j - i - 1);
  }

  /** Conflicting accesses that change places can be told from their results. */
  lemma ConflictShows(code: seq<Inst>, s: set<nat>, i: nat, j: nat, start: State)
    requires BlockOk(code) && i < j < |code| && code[i].id !in s && code[j].id in s && Conflict(code[i], code[j])
    requires start.mem == []
    ensures Exec(HISTORY, Left(code, s) + Moved(code, s), start) != Exec(HISTORY, code, start)
  {
    hide Exec, Left, Moved, BlockOk;
    if code[i].access == Writes {
      WriterMovesAway(code, s, i, j, start);
    } else {
      WriterGetsAhead(code, s, i, j, start);
    }
  }

  /** The predecessors have stored what arrives at the PHIs. */
  ghost predicate Stored(m: Meaning, start: State) {
    forall id :: Arg(start.vars, id) == m.arriving(id)
  }

  lemma LoadForPhi(m: Meaning, x: Inst, s: State)
    requires Stored(m, s)
    ensures Do(m, AsMoved(x), s) == Do(m, x, s)
  {
  }

  lemma {:induction false} LoadsForPhis(m: Meaning, a: seq<Inst>, code: seq<Inst>, loads: seq<Inst>, start: State)
    requires Stored(m, start) && |loads| == |code| && forall i :: 0 <= i < |code| ==> loads[i] == AsMoved(code[i])
    ensures Exec(m, a + loads, start) == Exec(m, a + code, start)
    ensures Exec(m, a + loads, start).vars == start.vars
    decreases |code|
  {
    hide ResultOf, MemAfter;
    if code == [] {
      assert a + loads == a == a + code;
      VarsStay(m, a, start);
    } else {
      var n := |code| - 1;
      LoadsForPhis(m, a, code[..n], loads[..n], start);
      LoadForPhi(m, code[n], Exec(m, a + code[..n], start));
      assert a + code == (a + code[..n]) + [code[n]] && a + loads == (a + loads[..n]) + [loads[n]];
      ExecSnoc(m, a + code[..n], code[n], start);
      ExecSnoc(m, a + loads[..n], loads[n], start);
    }
  }

  lemma {:induction false} VarsStay(m: Meaning, code: seq<Inst>, start: State)
    ensures Exec(m, code, start).vars == start.vars
    decreases |code|
  {
    if code != [] {
      VarsStay(m, code[..|code| - 1], start);
    }
  }

  /** Whatever instructions mean and whatever arrives at the PHIs, both blocks together do what
      the one block did. */
  ghost predicate SinkingPreserves(code: seq<Inst>, s: set<nat>) {
    forall m, start :: Stored(m, start) ==> Exec(m, Left(code, s) + Sunk(code, s), start) == Exec(m, code, start)
  }

  /** Sinking what is outside the slice preserves what the block does exactly when no conflicting
      accesses change places; in particular when nothing in the block touches memory. */
  lemma SinkPreservesIff(code: seq<Inst>, term: seq<nat>, s: set<nat>)
    requires BlockOk(code) && ClosedSlice(code, term, s)
    ensures SinkingPreserves(code, s) <==> KeepsOrder(code, s)
    ensures (forall i :: 0 <= i < |code| ==> code[i].access == Pure) ==> KeepsOrder(code, s)
  {
    hide Exec, Left, Moved;
    ClosedFacts(code, term, s);
    forall m, start | Stored(m, start)
      ensures Exec(m, Left(code, s) + Sunk(code, s), start) == Exec(m, Left(code, s) + Moved(code, s), start)
    {
      LoadsForPhis(m, Left(code, s), Moved(code, s), Sunk(code, s), start);
    }
    if KeepsOrder(code, s) {
      forall m, start | Stored(m, start)
        ensures Exec(m, Left(code, s) + Sunk(code, s), start) == Exec(m, code, start)
      {
        SinkPreserves(m, code, s, start);
      }
    } else {
      var i, j :| 0 <= i < j < |code| && code[i].id !in s && code[j].id in s && Conflict(code[i], code[j]);
      var start := State(map[], [], map[]);
      ConflictShows(code, s, i, j, start);
      assert Stored(HISTORY, start);
    }
  }

  /** Two blocks, the upper one above the branch of the lower: what is outside the slice of the
      branch goes down. */
  class Sinking {
    var upper: seq<Inst>
    var lower: seq<Inst>

    constructor (code: seq<Inst>)
      ensures upper == code && lower == []
    {
      upper, lower := code, [];
    }

    method SplitAndSinkFromTo(term: seq<nat>) returns (ghost slice: set<nat>)
      requires lower == []
      modifies this
      ensures forall id :: id in slice <==> InSlice(old(upper), term, id)
      ensures forall x :: x in upper <==> x in old(upper) && InSlice(old(upper), term, x.id)
      ensures forall x :: x in old(upper) && !InSlice(old(upper), term, x.id) ==> AsMoved(x) in lower
      ensures upper == Left(old(upper), slice) && lower == Sunk(old(upper), slice)
      ensures forall x, y :: x in upper && y in lower ==> y.id !in x.args
    {
      hide ClosedSlice, Left, Moved, InSlice;
      var s := FindSlice(upper, term);
      EmptyParts(s);
      slice := s;
      ghost var code := upper;
      var stay, i := [], 0;
      while i < |upper|
        invariant 0 <= i <= |upper| && upper == code
        invariant stay == Left(code[..i], s) && lower == Sunk(code[..i], s)
      {
        OneMore(code, s, i);
        if upper[i].id in s {
          stay := stay + [upper[i]];
        } else {
          lower := lower + [AsMoved(upper[i])];
        }
        i := i + 1;
      }
      assert code[..i] == code;
      upper := stay;
      forall x: Inst
        ensures x in upper <==> x in code && x.id in s
        ensures x in code && x.id !in s ==> AsMoved(x) in lower
      {
        PartsOf(code, s, x);
        if x in code && x.id !in s {
          var k :| 0 <= k < |Moved(code, s)| && Moved(code, s)[k] == x;
          assert lower[k] == AsMoved(x);
        }
      }
      forall x, y | x in upper && y in lower
        ensures y.id !in x.args
      {
        var k :| 0 <= k < |lower| && lower[k] == y;
        NothingLeftUsesMoved(code, term, s, x, Moved(code, s)[k]);
      }
    }
  }
}
