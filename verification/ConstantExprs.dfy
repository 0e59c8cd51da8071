/** Breaking constant expressions: operands that hold an address computation or a bit cast become
    instructions, one level of the tree at a time, in front of the instruction that uses them or,
    for a PHI, at the end of the block that the value comes from. */
module ConstantExprs {
  import opened Graphs
  import opened Options

  datatype Op = Gep | BitCast | Plain(code: nat) | Unhandled(code: nat) | Phi

  /** An operand: the result of an instruction, a literal or a constant expression. */
  datatype Operand = Name(n: nat) | Lit(c: int) | Expr(op: Op, args: seq<Operand>)

  /** Instructions in the order of the function, each with its block. `incoming` is empty but for
      PHIs, where it has the block of each operand. The last of a block is its terminator. */
  datatype Inst = Inst(block: Block, dst: nat, op: Op, args: seq<Operand>, incoming: seq<Block>)

  type Code = seq<Inst>

  /** Constant expressions are built from constants. */
  predicate IsConstant(e: Operand) {
    match e
    case Name(_) => false
    case Lit(_) => true
    case Expr(op, args) => op != Phi && forall i :: 0 <= i < |args| ==> IsConstant(args[i])
  }

  predicate HasConstantGep(e: Operand) {
    e.Expr? && (e.op == Gep || e.op == BitCast || exists i :: 0 <= i < |e.args| && HasConstantGep(e.args[i]))
  }

  /** Every node that is to become an instruction can become one. */
  predicate Convertible(e: Operand) {
    HasConstantGep(e) ==> !e.op.Unhandled? && forall i :: 0 <= i < |e.args| ==> Convertible(e.args[i])
  }

  /** An address computation or a bit cast. */
  predicate IsAddress(e: Operand) {
    e.Expr? && (e.op == Gep || e.op == BitCast)
  }

  /** e is f or stands somewhere below it. */
  ghost predicate Within(e: Operand, f: Operand)
    decreases f
  {
    e == f || (f.Expr? && exists i :: 0 <= i < |f.args| && Within(e, f.args[i]))
  }

  lemma {:induction false} WithinTrans(e: Operand, f: Operand, g: Operand)
    requires Within(e, f) && Within(f, g)
    ensures Within(e, g)
    decreases g
  {
    if f != g {
      var i :| 0 <= i < |g.args| && Within(f, g.args[i]);
      WithinTrans(e, f, g.args[i]);
    }
  }

  /** What the search finds: a constant expression with an address computation or a bit cast at
      any depth. */
  lemma {:induction false} HasConstantGepIff(f: Operand)
    ensures HasConstantGep(f) <==> exists e :: Within(e, f) && IsAddress(e)
    decreases f
  {
    if f.Expr? {
      forall i | 0 <= i < |f.args|
        ensures HasConstantGep(f.args[i]) <==> exists e :: Within(e, f.args[i]) && IsAddress(e)
      {
        HasConstantGepIff(f.args[i]);
      }
    }
    if IsAddress(f) {
      assert Within(f, f);
    }
  }

  /** An expression that has no instruction holds an address computation or a bit cast. */
  ghost predicate Blocked(f: Operand) {
    exists u, e :: Within(u, f) && u.Expr? && u.op.Unhandled? && Within(e, u) && IsAddress(e)
  }

  lemma {:induction false} ConvertibleIff(f: Operand)
    ensures Convertible(f) <==> !Blocked(f)
    decreases f
  {
    HasConstantGepIff(f);
    if !HasConstantGep(f) {
      forall u, e | Within(u, f) && Within(e, u)
        ensures !IsAddress(e)
      {
        WithinTrans(e, u, f);
      }
    } else {
      forall i | 0 <= i < |f.args|
        ensures Convertible(f.args[i]) <==> !Blocked(f.args[i])
      {
        ConvertibleIff(f.args[i]);
      }
      BlockedBelow(f);
    }
  }

  lemma BlockedBelow(f: Operand)
    requires f.Expr? && HasConstantGep(f)
    ensures Blocked(f) <==> f.op.Unhandled? || exists i :: 0 <= i < |f.args| && Blocked(f.args[i])
  {
    HasConstantGepIff(f);
    if f.op.Unhandled? {
      assert Within(f, f);
    }
    if Blocked(f) && !f.op.Unhandled? {
      var u, e :| Within(u, f) && u.Expr? && u.op.Unhandled? && Within(e, u) && IsAddress(e);
      var i :| 0 <= i < |f.args| && Within(u, f.args[i]);
      assert Blocked(f.args[i]);
    }
    forall i | 0 <= i < |f.args| && Blocked(f.args[i])
      ensures Blocked(f)
    {
      var u, e :| Within(u, f.args[i]) && u.Expr? && u.op.Unhandled? && Within(e, u) && IsAddress(e);
      assert Within(u, f);
    }
  }

  function Size(e: Operand): nat {
    match e
    case Name(_) => 0
    case Lit(_) => 0
    case Expr(_, args) => 1 + SizeAll(args)
  }

  function SizeAll(es: seq<Operand>): nat {
    if es == [] then 0 else Size(es[0]) + SizeAll(es[1..])
  }

  function Total(code: Code): nat {
    if code == [] then 0 else SizeAll(code[0].args) + Total(code[1..])
  }

  lemma {:induction false} TotalOfBoth(a: Code, b: Code)
    ensures Total(a + b) == Total(a) + Total(b)
    decreases |a|
  {
    if a == [] {
      assert a + b == b;
    } else {
      assert (a + b)[1..] == a[1..] + b;
      TotalOfBoth(a[1..], b);
    }
  }

  lemma TotalOfOne(x: Inst)
    ensures Total([x]) == SizeAll(x.args)
  {
    assert Total([]) == 0;
  }

  // ------------------------------------------------------------------------- what code computes

  type Ops = (Op, seq<int>) -> int
  type Env = map<nat, int>

  function Lookup(env: Env, n: nat): int {
    if n in env then env[n] else 0
  }

  function ValueOf(ops: Ops, env: Env, e: Operand): int {
    match e
    case Name(n) => Lookup(env, n)
    case Lit(c) => c
    case Expr(op, args) => ops(op, ValuesOf(ops, env, args))
  }

  function ValuesOf(ops: Ops, env: Env, es: seq<Operand>): (r: seq<int>)
    ensures |r| == |es|
  {
    if es == [] then [] else [ValueOf(ops, env, es[0])] + ValuesOf(ops, env, es[1..])
  }

  /** What a PHI receives from a block, by its first entry for it. */
  function Received(ops: Ops, env: Env, args: seq<Operand>, incoming: seq<Block>, from: Option<Block>): int {
    if args == [] || incoming == [] || from.None? then 0
    else if incoming[0] == from.value then ValueOf(ops, env, args[0])
    else Received(ops, env, args[1..], incoming[1..], from)
  }

  /** The value of an instruction; a PHI sees the registers as they were on entering the block. */
  function Computed(ops: Ops, x: Inst, from: Option<Block>, entering: Env, env: Env): int {
    if x.op == Phi then Received(ops, entering, x.args, x.incoming, from) else ops(x.op, ValuesOf(ops, env, x.args))
  }

  /** Block b, entered from `from`. */
  function ExecBlock(ops: Ops, code: Code, b: Block, from: Option<Block>, entering: Env, env: Env): Env {
    if code == [] then env
    else
      ExecBlock(ops, code[1..], b, from, entering,
                if code[0].block == b then env[code[0].dst := Computed(ops, code[0], from, entering, env)] else env)
  }

  /** The registers after a path of blocks. */
  function RunPath(ops: Ops, code: Code, path: seq<Block>): Env {
    if path == [] then map[]
    else
      var init := path[..|path| - 1];
      var env := RunPath(ops, code, init);
      ExecBlock(ops, code, path[|path| - 1], if init == [] then None else Some(init[|init| - 1]), env, env)
  }

  lemma {:induction false} ExecBoth(ops: Ops, a: Code, c: Code, b: Block, from: Option<Block>, entering: Env, env: Env)
    ensures ExecBlock(ops, a + c, b, from, entering, env)
         == ExecBlock(ops, c, b, from, entering, ExecBlock(ops, a, b, from, entering, env))
    decreases |a|
  {
    if a == [] {
      assert a + c == c;
    } else {
      assert (a + c)[1..] == a[1..] + c;
      ExecBoth(ops, a[1..], c, b, from, entering,
               if a[0].block == b then env[a[0].dst := Computed(ops, a[0], from, entering, env)] else env);
    }
  }

  predicate Mentions(e: Operand, n: nat) {
    match e
    case Name(m) => m == n
    case Lit(_) => false
    case Expr(_, args) => exists i :: 0 <= i < |args| && Mentions(args[i], n)
  }

  ghost predicate InstFree(x: Inst, n: nat) {
    x.dst != n && forall i :: 0 <= i < |x.args| ==> !Mentions(x.args[i], n)
  }

  ghost predicate Free(code: Code, n: nat) {
    forall i :: 0 <= i < |code| ==> InstFree(code[i], n)
  }

  ghost predicate AgreeBut(env: Env, env': Env, n: nat) {
    forall m :: m != n ==> Lookup(env, m) == Lookup(env', m)
  }

  lemma {:induction false} ValueAgrees(ops: Ops, env: Env, env': Env, n: nat, e: Operand)
    requires AgreeBut(env, env', n) && !Mentions(e, n)
    ensures ValueOf(ops, env, e) == ValueOf(ops, env', e)
    decreases e
  {
    if e.Expr? {
      forall i | 0 <= i < |e.args|
        ensures ValueOf(ops, env, e.args[i]) == ValueOf(ops, env', e.args[i])
      {
        ValueAgrees(ops, env, env', n, e.args[i]);
      }
      SameValues(ops, env, env', e.args, e.args);
    }
  }

  lemma {:induction false} SameValues(ops: Ops, env: Env, env': Env, es: seq<Operand>, es': seq<Operand>)
    requires |es| == |es'| && forall i :: 0 <= i < |es| ==> ValueOf(ops, env, es[i]) == ValueOf(ops, env', es'[i])
    ensures ValuesOf(ops, env, es) == ValuesOf(ops, env', es')
    decreases |es|
  {
    if es != [] {
      assert forall i :: 0 <= i < |es[1..]| ==> es[1..][i] == es[i + 1] && es'[1..][i] == es'[i + 1];
      SameValues(ops, env, env', es[1..], es'[1..]);
    }
  }

  /** A constant has one value, whatever the registers hold. */
  lemma {:induction false} ConstantValue(ops: Ops, env: Env, env': Env, e: Operand)
    requires IsConstant(e)
    ensures ValueOf(ops, env, e) == ValueOf(ops, env', e)
    decreases e
  {
    if e.Expr? {
      forall i | 0 <= i < |e.args|
        ensures ValueOf(ops, env, e.args[i]) == ValueOf(ops, env', e.args[i])
      {
        ConstantValue(ops, env, env', e.args[i]);
      }
      SameValues(ops, env, env', e.args, e.args);
    }
  }

  lemma {:induction false} ReceivedSame(ops: Ops, env: Env, env': Env, args: seq<Operand>, args': seq<Operand>,
                                        incoming: seq<Block>, from: Option<Block>)
    requires |args| == |args'|
    requires forall i :: 0 <= i < |args| && i < |incoming| && Some(incoming[i]) == from ==>
               ValueOf(ops, env, args[i]) == ValueOf(ops, env', args'[i])
    ensures Received(ops, env, args, incoming, from) == Received(ops, env', args', incoming, from)
    decreases |args|
  {
    if args != [] && incoming != [] && from.Some? && incoming[0] != from.value {
      forall i | 0 <= i < |args[1..]| && i < |incoming[1..]| && Some(incoming[1..][i]) == from
        ensures ValueOf(ops, env, args[1..][i]) == ValueOf(ops, env', args'[1..][i])
      {
        assert args[1..][i] == args[i + 1] && args'[1..][i] == args'[i + 1] && incoming[1..][i] == incoming[i + 1];
      }
      ReceivedSame(ops, env, env', args[1..], args'[1..], incoming[1..], from);
    }
  }

  lemma ComputedAgrees(ops: Ops, x: Inst, from: Option<Block>, entering: Env, entering': Env, env: Env, env': Env,
                       n: nat)
    requires InstFree(x, n) && AgreeBut(entering, entering', n) && AgreeBut(env, env', n)
    ensures Computed(ops, x, from, entering, env) == Computed(ops, x, from, entering', env')
  {
    forall i | 0 <= i < |x.args|
      ensures ValueOf(ops, env, x.args[i]) == ValueOf(ops, env', x.args[i])
      ensures ValueOf(ops, entering, x.args[i]) == ValueOf(ops, entering', x.args[i])
    {
      ValueAgrees(ops, env, env', n, x.args[i]);
      ValueAgrees(ops, entering, entering', n, x.args[i]);
    }
    SameValues(ops, env, env', x.args, x.args);
    ReceivedSame(ops, entering, entering', x.args, x.args, x.incoming, from);
  }

  lemma AgreeUpdate(env: Env, env': Env, n: nat, d: nat, v: int)
    requires AgreeBut(env, env', n)
    ensures AgreeBut(env[d := v], env'[d := v], n)
  {
    var a, a' := env[d := v], env'[d := v];
    forall m | m != n
      ensures Lookup(a, m) == Lookup(a', m)
    {
      assert Lookup(env, m) == Lookup(env', m);
    }
  }

  /** Code that does not mention n does the same whatever n holds, and leaves it. */
  lemma {:induction false} ExecAgrees(ops: Ops, code: Code, b: Block, from: Option<Block>, entering: Env,
                                      entering': Env,
                                      env: Env, env': Env, n: nat)
    requires Free(code, n) && AgreeBut(entering, entering', n) && AgreeBut(env, env', n)
    ensures AgreeBut(ExecBlock(ops, code, b, from, entering, env), ExecBlock(ops, code, b, from, entering', env'), n)
    ensures Lookup(ExecBlock(ops, code, b, from, entering', env'), n) == Lookup(env', n)
    decreases |code|
  {
    if code != [] {
      var x := code[0];
      ComputedAgrees(ops, x, from, entering, entering', env, env', n);
      var v := Computed(ops, x, from, entering, env);
      assert InstFree(x, n);
      var a, a' := if x.block == b then env[x.dst := v] else env, if x.block == b then env'[x.dst := v] else env';
      AgreeUpdate(env, env', n, x.dst, v);
      assert Free(code[1..], n) by {
        assert forall i :: 0 <= i < |code[1..]| ==> code[1..][i] == code[i + 1];
      }
      ExecAgrees(ops, code[1..], b, from, entering, entering', a, a', n);
    }
  }

  // ---------------------------------------------------------------- inserting an instruction

  function Insert(code: Code, j: nat, x: Inst): Code
    requires j <= |code|
  {
    code[..j] + [x] + code[j..]
  }

  function ConstantOf(ops: Ops, x: Inst): int {
    ops(x.op, ValuesOf(ops, map[], x.args))
  }

  ghost predicate MakesConstant(x: Inst) {
    x.op != Phi && forall i :: 0 <= i < |x.args| ==> IsConstant(x.args[i])
  }

  lemma ComputesConstant(ops: Ops, x: Inst, from: Option<Block>, entering: Env, env: Env)
    requires MakesConstant(x)
    ensures Computed(ops, x, from, entering, env) == ConstantOf(ops, x)
  {
    forall i | 0 <= i < |x.args|
      ensures ValueOf(ops, env, x.args[i]) == ValueOf(ops, map[], x.args[i])
    {
      ConstantValue(ops, env, map[], x.args[i]);
    }
    SameValues(ops, env, map[], x.args, x.args);
  }

  lemma ExecOne(ops: Ops, x: Inst, b: Block, from: Option<Block>, entering: Env, env: Env)
    ensures ExecBlock(ops, [x], b, from, entering, env)
         == if x.block == b then env[x.dst := Computed(ops, x, from, entering, env)] else env
  {
    var env' := if x.block == b then env[x.dst := Computed(ops, x, from, entering, env)] else env;
    assert [x][1..] == [];
    assert ExecBlock(ops, [], b, from, entering, env') == env';
  }

  /** What an inserted instruction with a new result changes of a block: that result. */
  lemma ExecInserted(ops: Ops, code: Code, j: nat, x: Inst, b: Block, from: Option<Block>, entering: Env,
                     entering': Env,
                     env: Env, env': Env)
    requires j <= |code| && Free(code, x.dst) && MakesConstant(x)
    requires AgreeBut(entering, entering', x.dst) && AgreeBut(env, env', x.dst)
    ensures var r, r' := ExecBlock(ops, code, b, from, entering, env),
            ExecBlock(ops, Insert(code, j, x), b, from, entering', env');
            AgreeBut(r, r', x.dst) && (x.block == b ==> Lookup(r', x.dst) == ConstantOf(ops, x))
  {
    var pre, post, n := code[..j], code[j..], x.dst;
    assert code == pre + post && Free(pre, n) && Free(post, n);
    ExecBoth(ops, pre, post, b, from, entering, env);
    ExecBoth(ops, pre + [x], post, b, from, entering', env');
    ExecBoth(ops, pre, [x], b, from, entering', env');
    ExecAgrees(ops, pre, b, from, entering, entering', env, env', n);
    var a, a' := ExecBlock(ops, pre, b, from, entering, env), ExecBlock(ops, pre, b, from, entering', env');
    ExecOne(ops, x, b, from, entering', a');
    ComputesConstant(ops, x, from, entering', a');
    ExecAgrees(ops, post, b, from, entering, entering', a, ExecBlock(ops, [x], b, from, entering', a'), n);
  }

  lemma {:induction false} PathInserted(ops: Ops, code: Code, j: nat, x: Inst, path: seq<Block>)
    requires j <= |code| && Free(code, x.dst) && MakesConstant(x)
    ensures AgreeBut(RunPath(ops, code, path), RunPath(ops, Insert(code, j, x), path), x.dst)
    ensures path != [] && path[|path| - 1] == x.block ==>
              Lookup(RunPath(ops, Insert(code, j, x), path), x.dst) == ConstantOf(ops, x)
    decreases |path|
  {
    if path != [] {
      var init := path[..|path| - 1];
      PathInserted(ops, code, j, x, init);
      var env, env' := RunPath(ops, code, init), RunPath(ops, Insert(code, j, x), init);
      ExecInserted(ops, code, j, x, path[|path| - 1], if init == [] then None else Some(init[|init| - 1]),
                   env, env', env, env');
    }
  }

  // -------------------------------------------------------------- using the new instruction

  /** The instruction that computes the top of a constant expression. */
  function Converted(b: Block, n: nat, ce: Operand): Inst
    requires ce.Expr?
  {
    Inst(b, n, ce.op, ce.args, [])
  }

  function Substitute(args: seq<Operand>, ce: Operand, n: nat): (r: seq<Operand>)
    ensures |r| == |args| && forall i :: 0 <= i < |args| ==> r[i] == if args[i] == ce then Name(n) else args[i]
  {
    seq(|args|, i requires 0 <= i < |args| => if args[i] == ce then Name(n) else args[i])
  }

  /** From position k on, what comes in from block f is replaced. */
  function SubstituteFrom(args: seq<Operand>, incoming: seq<Block>, k: nat, f: Block, n: nat): (r: seq<Operand>)
    requires |args| == |incoming|
    ensures |r| == |args|
    ensures forall i :: 0 <= i < |args| ==> r[i] == if i >= k && incoming[i] == f then Name(n) else args[i]
  {
    seq(|args|, i requires 0 <= i < |args| => if i >= k && incoming[i] == f then Name(n) else args[i])
  }

  lemma ConvertedValue(ops: Ops, b: Block, n: nat, ce: Operand, env: Env)
    requires ce.Expr? && IsConstant(ce)
    ensures MakesConstant(Converted(b, n, ce)) && ConstantOf(ops, Converted(b, n, ce)) == ValueOf(ops, env, ce)
  {
    ConstantValue(ops, env, map[], ce);
  }

  /** An instruction right behind the conversion of its operand may use the result. */
  lemma ExecReplaced(ops: Ops, pre: Code, x: Inst, user: Inst, user': Inst, post: Code, ce: Operand, b: Block,
                     from: Option<Block>, entering: Env, env: Env)
    requires ce.Expr? && IsConstant(ce) && x == Converted(user.block, x.dst, ce)
    requires user.op != Phi && user' == user.(args := Substitute(user.args, ce, x.dst))
    ensures ExecBlock(ops, pre + [x] + [user] + post, b, from, entering, env)
         == ExecBlock(ops, pre + [x] + [user'] + post, b, from, entering, env)
  {
    ExecBoth(ops, pre + [x] + [user], post, b, from, entering, env);
    ExecBoth(ops, pre + [x] + [user'], post, b, from, entering, env);
    ExecBoth(ops, pre + [x], [user], b, from, entering, env);
    ExecBoth(ops, pre + [x], [user'], b, from, entering, env);
    ExecBoth(ops, pre, [x], b, from, entering, env);
    var a := ExecBlock(ops, pre, b, from, entering, env);
    ExecOne(ops, x, b, from, entering, a);
    ComputesConstantOf(ops, x, ce, from, entering, a);
    var a' := ExecBlock(ops, [x], b, from, entering, a);
    ExecOne(ops, user, b, from, entering, a');
    ExecOne(ops, user', b, from, entering, a');
    if user.block == b {
      forall i | 0 <= i < |user.args|
        ensures ValueOf(ops, a', user.args[i]) == ValueOf(ops, a', user'.args[i])
      {
        ConstantValue(ops, a, a', ce);
      }
      SameValues(ops, a', a', user.args, user'.args);
    }
  }

  lemma ComputesConstantOf(ops: Ops, x: Inst, ce: Operand, from: Option<Block>, entering: Env, env: Env)
    requires ce.Expr? && IsConstant(ce) && x == Converted(x.block, x.dst, ce)
    ensures Computed(ops, x, from, entering, env) == ValueOf(ops, env, ce)
  {
  }

  lemma {:induction false} PathReplaced(ops: Ops, pre: Code, x: Inst, user: Inst, user': Inst, post: Code, ce: Operand,
                                        path: seq<Block>)
    requires ce.Expr? && IsConstant(ce) && x == Converted(user.block, x.dst, ce)
    requires user.op != Phi && user' == user.(args := Substitute(user.args, ce, x.dst))
    ensures RunPath(ops, pre + [x] + [user] + post, path) == RunPath(ops, pre + [x] + [user'] + post, path)
    decreases |path|
  {
    if path != [] {
      var init := path[..|path| - 1];
      PathReplaced(ops, pre, x, user, user', post, ce, init);
      var env := RunPath(ops, pre + [x] + [user] + post, init);
      ExecReplaced(ops, pre, x, user, user', post, ce, path[|path| - 1],
                   if init == [] then None else Some(init[|init| - 1]), env, env);
    }
  }

  /** A PHI may use the result of a conversion at the end of the block its operand comes from. */
  lemma ExecPhiReplaced(ops: Ops, code: Code, i: nat, phi': Inst, ce: Operand, k: nat, f: Block, n: nat, b: Block,
                        from: Option<Block>, entering: Env, env: Env)
    requires i < |code| && code[i].op == Phi && |code[i].args| == |code[i].incoming| && IsConstant(ce)
    requires phi' == code[i].(args := SubstituteFrom(code[i].args, code[i].incoming, k, f, n))
    requires forall q :: 0 <= q < |code[i].args| && code[i].incoming[q] == f ==> code[i].args[q] == ce
    requires from == Some(f) ==> Lookup(entering, n) == ValueOf(ops, entering, ce)
    ensures ExecBlock(ops, code, b, from, entering, env) == ExecBlock(ops, code[i := phi'], b, from, entering, env)
  {
    var pre, post, phi := code[..i], code[i + 1..], code[i];
    assert code == pre + [phi] + post && code[i := phi'] == pre + [phi'] + post;
    ExecBoth(ops, pre + [phi], post, b, from, entering, env);
    ExecBoth(ops, pre + [phi'], post, b, from, entering, env);
    ExecBoth(ops, pre, [phi], b, from, entering, env);
    ExecBoth(ops, pre, [phi'], b, from, entering, env);
    var a := ExecBlock(ops, pre, b, from, entering, env);
    ExecOne(ops, phi, b, from, entering, a);
    ExecOne(ops, phi', b, from, entering, a);
    ReceivedSame(ops, entering, entering, phi.args, phi'.args, phi.incoming, from);
  }

  lemma {:induction false} PathPhiReplaced(ops: Ops, code: Code, j: nat, x: Inst, i: nat, phi': Inst, ce: Operand,
                                           k: nat, f: Block,
                                           path: seq<Block>)
    requires j <= |code| && Free(code, x.dst) && ce.Expr? && IsConstant(ce) && x == Converted(f, x.dst, ce)
    requires var c := Insert(code, j, x);
             && i < |c| && c[i].op == Phi && |c[i].args| == |c[i].incoming|
             && phi' == c[i].(args := SubstituteFrom(c[i].args, c[i].incoming, k, f, x.dst))
             && forall q :: 0 <= q < |c[i].args| && c[i].incoming[q] == f ==> c[i].args[q] == ce
    ensures RunPath(ops, Insert(code, j, x), path) == RunPath(ops, Insert(code, j, x)[i := phi'], path)
    decreases |path|
  {
    if path != [] {
      var c, init := Insert(code, j, x), path[..|path| - 1];
      PathPhiReplaced(ops, code, j, x, i, phi', ce, k, f, init);
      ConvertedValue(ops, f, x.dst, ce, RunPath(ops, c, init));
      PathInserted(ops, code, j, x, init);
      var env := RunPath(ops, c, init);
      ExecPhiReplaced(ops, c, i, phi', ce, k, f, x.dst, path[|path| - 1],
                      if init == [] then None else Some(init[|init| - 1]), env, env);
    }
  }

  /** Along every path all names below `lim` hold the same in both. */
  ghost predicate Preserves(code: Code, code': Code, lim: nat) {
    forall ops: Ops, path, m: nat | m < lim ::
           Lookup(RunPath(ops, code, path), m) == Lookup(RunPath(ops, code', path), m)
  }

  lemma PreservesTrans(a: Code, b: Code, c: Code, lim: nat, lim': nat)
    requires Preserves(a, b, lim) && Preserves(b, c, lim') && lim <= lim'
    ensures Preserves(a, c, lim)
  {
    hide RunPath, Lookup;
    forall ops: Ops, path, m: nat | m < lim
      ensures Lookup(RunPath(ops, a, path), m) == Lookup(RunPath(ops, c, path), m)
    {
      assert Lookup(RunPath(ops, a, path), m) == Lookup(RunPath(ops, b, path), m);
    }
  }

  lemma UserPreserved(code: Code, i: nat, ce: Operand, n: nat)
    requires i < |code| && Free(code, n) && ce.Expr? && IsConstant(ce) && code[i].op != Phi
    ensures Preserves(code, WithUser(code, i, ce, n), n)
  {
    hide RunPath;
    var x, user := Converted(code[i].block, n, ce), code[i];
    var user' := user.(args := Substitute(user.args, ce, n));
    assert Insert(code, i, x) == code[..i] + [x] + [user] + code[i + 1..];
    forall ops: Ops, path, m: nat | m < n
      ensures Lookup(RunPath(ops, code, path), m) == Lookup(RunPath(ops, WithUser(code, i, ce, n), path), m)
    {
      ConvertedValue(ops, user.block, n, ce, map[]);
      PathInserted(ops, code, i, x, path);
      PathReplaced(ops, code[..i], x, user, user', code[i + 1..], ce, path);
    }
  }

  /** The operand ce of instruction i converted in front of it. */
  function WithUser(code: Code, i: nat, ce: Operand, n: nat): Code
    requires i < |code| && ce.Expr?
  {
    code[..i] + [Converted(code[i].block, n, ce)] + [code[i].(args := Substitute(code[i].args, ce, n))] + code[i + 1..]
  }

  function Shifted(i: nat, j: nat): nat {
    if j <= i then i + 1 else i
  }

  /** The operand k of PHI i converted at position j, at the end of the block it comes from. */
  function WithPhi(code: Code, i: nat, k: nat, j: nat, n: nat): Code
    requires i < |code| && j <= |code| && |code[i].args| == |code[i].incoming| && k < |code[i].args|
             && code[i].args[k].Expr?
  {
    var f := code[i].incoming[k];
    Insert(code, j, Converted(f, n, code[i].args[k]))
      [Shifted(i, j) := code[i].(args := SubstituteFrom(code[i].args, code[i].incoming, k, f, n))]
  }

  lemma PhiPreserved(code: Code, i: nat, k: nat, j: nat, n: nat)
    requires i < |code| && j <= |code| && Free(code, n) && code[i].op == Phi && |code[i].args| == |code[i].incoming|
    requires k < |code[i].args| && code[i].args[k].Expr? && IsConstant(code[i].args[k])
    requires forall q ::
             0 <= q < |code[i].args| && code[i].incoming[q] == code[i].incoming[k] ==>
               code[i].args[q] == code[i].args[k]
    ensures Preserves(code, WithPhi(code, i, k, j, n), n)
  {
    hide RunPath;
    var ce, f := code[i].args[k], code[i].incoming[k];
    var x := Converted(f, n, ce);
    var phi' := code[i].(args := SubstituteFrom(code[i].args, code[i].incoming, k, f, n));
    assert Insert(code, j, x)[Shifted(i, j)] == code[i];
    forall ops: Ops, path, m: nat | m < n
      ensures Lookup(RunPath(ops, code, path), m) == Lookup(RunPath(ops, WithPhi(code, i, k, j, n), path), m)
    {
      ConvertedValue(ops, f, n, ce, map[]);
      PathInserted(ops, code, j, x, path);
      PathPhiReplaced(ops, code, j, x, Shifted(i, j), phi', ce, k, f, path);
    }
  }

  // ------------------------------------------------------------------ what is left as it was

  /** The instructions with results below lim, in their order. */
  function Named(code: Code, lim: nat): Code {
    if code == [] then []
    else Named(code[..|code| - 1], lim) + if code[|code| - 1].dst < lim then [code[|code| - 1]] else []
  }

  /** y is x but for operands that held an address computation or a bit cast, of which each has
      become the result of a new instruction. */
  ghost predicate Rewritten(x: Inst, y: Inst, lim: nat) {
    && y == x.(args := y.args) && |y.args| == |x.args|
    && forall k :: 0 <= k < |x.args| ==>
       y.args[k] == x.args[k] || (y.args[k].Name? && y.args[k].n >= lim && HasConstantGep(x.args[k]))
  }

  /** Without the new instructions the code is what it was, one by one. */
  ghost predicate KeepsRest(f0: Code, code: Code, lim: nat) {
    && |Named(code, lim)| == |f0|
    && forall q :: 0 <= q < |f0| ==> Rewritten(f0[q], Named(code, lim)[q], lim)
  }

  lemma {:induction false} NamedBoth(a: Code, b: Code, lim: nat)
    ensures Named(a + b, lim) == Named(a, lim) + Named(b, lim)
    decreases |b|
  {
    if b == [] {
      assert a + b == a;
    } else {
      assert (a + b)[..|a + b| - 1] == a + b[..|b| - 1];
      NamedBoth(a, b[..|b| - 1], lim);
    }
  }

  lemma {:induction false} AllNamed(code: Code, lim: nat)
    requires forall q :: 0 <= q < |code| ==> code[q].dst < lim
    ensures Named(code, lim) == code
    decreases |code|
  {
    if code != [] {
      AllNamed(code[..|code| - 1], lim);
      assert code == code[..|code| - 1] + [code[|code| - 1]];
    }
  }

  lemma NamedOne(x: Inst, lim: nat)
    ensures Named([x], lim) == if x.dst < lim then [x] else []
  {
    assert [x][..0] == [];
  }

  lemma NamedInsert(code: Code, j: nat, x: Inst, lim: nat)
    requires j <= |code| && x.dst >= lim
    ensures Named(Insert(code, j, x), lim) == Named(code, lim)
  {
    hide Named;
    assert code == code[..j] + code[j..];
    NamedBoth(code[..j], code[j..], lim);
    NamedBoth(code[..j] + [x], code[j..], lim);
    NamedBoth(code[..j], [x], lim);
    NamedOne(x, lim);
  }

  lemma NamedUpdate(code: Code, k: nat, y: Inst, lim: nat)
    requires k < |code| && y.dst == code[k].dst
    ensures y.dst >= lim ==> Named(code[k := y], lim) == Named(code, lim)
    ensures y.dst < lim ==>
              var p := |Named(code[..k], lim)|;
              && p < |Named(code, lim)| && Named(code, lim)[p] == code[k]
              && Named(code[k := y], lim) == Named(code, lim)[p := y]
  {
    hide Named;
    var pre, post := code[..k], code[k + 1..];
    assert code == pre + [code[k]] + post && code[k := y] == pre + [y] + post;
    NamedBoth(pre + [code[k]], post, lim);
    NamedBoth(pre, [code[k]], lim);
    NamedOne(code[k], lim);
    NamedBoth(pre + [y], post, lim);
    NamedBoth(pre, [y], lim);
    NamedOne(y, lim);
  }

  // -------------------------------------------------------------------------------- the pass

  ghost predicate ArgOk(e: Operand) {
    e.Expr? ==> IsConstant(e)
  }

  /** What a PHI receives along one edge is the same in all its entries for it. */
  ghost predicate PhiOk(x: Inst) {
    x.op == Phi ==>
      |x.args| == |x.incoming|
      && forall p, q :: 0 <= p < |x.args| && 0 <= q < |x.args| && x.incoming[p] == x.incoming[q] ==>
         x.args[p] == x.args[q]
  }

  ghost predicate InstOk(x: Inst, next: nat) {
    && x.dst < next && PhiOk(x)
    && (forall k :: 0 <= k < |x.args| ==> ArgOk(x.args[k]))
    && (forall n: nat :: n >= next ==> InstFree(x, n))
  }

  /** Results have their own names; those from `next` on are free; blocks that feed PHIs end in a
      terminator. */
  ghost predicate CodeOk(code: Code, next: nat) {
    && (forall i :: 0 <= i < |code| ==> InstOk(code[i], next))
    && (forall i, j :: 0 <= i < |code| && 0 <= j < |code| && code[i].dst == code[j].dst ==> i == j)
    && (forall i, k :: 0 <= i < |code| && code[i].op == Phi && 0 <= k < |code[i].incoming| ==>
       HasBlock(code, code[i].incoming[k]))
  }

  predicate HasBlock(code: Code, b: Block) {
    exists j :: 0 <= j < |code| && code[j].block == b
  }

  predicate Needs(x: Inst) {
    exists k :: 0 <= k < |x.args| && HasConstantGep(x.args[k])
  }

  ghost predicate Covered(code: Code, work: seq<nat>, but: nat) {
    forall i :: 0 <= i < |code| && Needs(code[i]) && code[i].dst != but ==> code[i].dst in work
  }

  ghost predicate AllConvertible(code: Code) {
    forall i, k :: 0 <= i < |code| && 0 <= k < |code[i].args| ==> Convertible(code[i].args[k])
  }

  lemma FreeNext(code: Code, next: nat)
    requires CodeOk(code, next)
    ensures Free(code, next)
  {
    forall i | 0 <= i < |code|
      ensures InstFree(code[i], next)
    {
      assert InstOk(code[i], next);
    }
  }

  lemma {:induction false} ConstantMentionsNothing(e: Operand, n: nat)
    requires IsConstant(e)
    ensures !Mentions(e, n)
    decreases e
  {
    if e.Expr? {
      forall i | 0 <= i < |e.args|
        ensures !Mentions(e.args[i], n)
      {
        ConstantMentionsNothing(e.args[i], n);
      }
    }
  }

  lemma ConvertedOk(b: Block, n: nat, ce: Operand)
    requires ce.Expr? && IsConstant(ce)
    ensures InstOk(Converted(b, n, ce), n + 1)
  {
    forall m: nat, i | m >= n + 1 && 0 <= i < |ce.args|
      ensures !Mentions(ce.args[i], m)
    {
      ConstantMentionsNothing(ce.args[i], m);
    }
  }

  lemma UsesNewName(x: Inst, y: Inst, n: nat)
    requires InstOk(x, n) && y.dst == x.dst && y.op == x.op && y.incoming == x.incoming && |y.args| == |x.args|
    requires forall k :: 0 <= k < |x.args| ==> y.args[k] == x.args[k] || y.args[k] == Name(n)
    requires PhiOk(y)
    ensures InstOk(y, n + 1)
  {
    forall m: nat | m >= n + 1
      ensures InstFree(y, m)
    {
      assert InstFree(x, m);
      forall k | 0 <= k < |y.args|
        ensures !Mentions(y.args[k], m)
      {
        assert !Mentions(x.args[k], m);
      }
    }
    forall k | 0 <= k < |y.args|
      ensures ArgOk(y.args[k])
    {
      assert ArgOk(x.args[k]);
    }
  }

  /** An instruction put in and another changed in place. */
  function Edited(code: Code, j: nat, x: Inst, i: nat, y: Inst): Code
    requires i < |code| && j <= |code|
  {
    Insert(code, j, x)[Shifted(i, j) := y]
  }

  lemma EditedAt(code: Code, j: nat, x: Inst, i: nat, y: Inst, q: nat)
    requires i < |code| && j <= |code| && q < |Edited(code, j, x, i, y)|
    ensures |Edited(code, j, x, i, y)| == |code| + 1
    ensures Edited(code, j, x, i, y)[q] == if q == Shifted(i, j) then y else if q == j then x
                                           else if q < j then code[q] else code[q - 1]
    ensures q != j && q != Shifted(i, j) ==> (if q < j then q else q - 1) != i
    ensures j != Shifted(i, j)
  {
  }

  lemma EditedOk(code: Code, j: nat, x: Inst, i: nat, y: Inst, n: nat)
    requires CodeOk(code, n) && i < |code| && j <= |code| && x.dst == n && x.op != Phi && y.dst == code[i].dst
    requires InstOk(x, n + 1) && InstOk(y, n + 1) && y.op == code[i].op && y.incoming == code[i].incoming
             && y.block == code[i].block
    ensures CodeOk(Edited(code, j, x, i, y), n + 1)
  {
    hide InstOk, Edited, HasBlock;
    var c := Edited(code, j, x, i, y);
    EditedLength(code, j, x, i, y);
    forall q | 0 <= q < |c|
      ensures InstOk(c[q], n + 1)
    {
      EditedAt(code, j, x, i, y, q);
      if q != j && q != Shifted(i, j) {
        InstOkGrows(code[if q < j then q else q - 1], n);
      }
    }
    forall p, q | 0 <= p < |c| && 0 <= q < |c| && c[p].dst == c[q].dst
      ensures p == q
    {
      EditedAt(code, j, x, i, y, p);
      EditedAt(code, j, x, i, y, q);
      NamedBelow(code, n);
    }
    forall q, k | 0 <= q < |c| && c[q].op == Phi && 0 <= k < |c[q].incoming|
      ensures HasBlock(c, c[q].incoming[k])
    {
      EditedAt(code, j, x, i, y, q);
      BlockStays(code, j, x, i, y, c[q].incoming[k]);
    }
  }

  lemma NamedBelow(code: Code, n: nat)
    requires CodeOk(code, n)
    ensures forall q :: 0 <= q < |code| ==> code[q].dst < n
  {
    forall q | 0 <= q < |code|
      ensures code[q].dst < n
    {
      assert InstOk(code[q], n);
    }
  }

  lemma InstOkGrows(x: Inst, n: nat)
    requires InstOk(x, n)
    ensures InstOk(x, n + 1)
  {
    hide ArgOk, PhiOk, InstFree;
  }

  lemma BlockStays(code: Code, j: nat, x: Inst, i: nat, y: Inst, b: Block)
    requires i < |code| && j <= |code| && y.block == code[i].block
    ensures HasBlock(code, b) ==> HasBlock(Edited(code, j, x, i, y), b)
  {
    if HasBlock(code, b) {
      var q :| 0 <= q < |code| && code[q].block == b;
      var q' := Shifted(q, j);
      EditedAt(code, j, x, i, y, q');
      assert Edited(code, j, x, i, y)[q'].block == b;
    }
  }

  lemma EditedLength(code: Code, j: nat, x: Inst, i: nat, y: Inst)
    requires i < |code| && j <= |code|
    ensures |Edited(code, j, x, i, y)| == |code| + 1
  {
  }

  lemma TotalOfInsert(code: Code, j: nat, x: Inst)
    requires j <= |code|
    ensures Total(Insert(code, j, x)) == Total(code) + SizeAll(x.args)
  {
    hide Total;
    assert code == code[..j] + code[j..];
    TotalOfBoth(code[..j], code[j..]);
    TotalOfBoth(code[..j] + [x], code[j..]);
    TotalOfBoth(code[..j], [x]);
    TotalOfOne(x);
  }

  lemma TotalOfUpdate(code: Code, k: nat, y: Inst)
    requires k < |code|
    ensures Total(code[k := y]) + SizeAll(code[k].args) == Total(code) + SizeAll(y.args)
  {
    hide Total;
    var pre, post := code[..k], code[k + 1..];
    assert code == pre + [code[k]] + post && code[k := y] == pre + [y] + post;
    TotalOfBoth(pre + [code[k]], post);
    TotalOfBoth(pre, [code[k]]);
    TotalOfOne(code[k]);
    TotalOfBoth(pre + [y], post);
    TotalOfBoth(pre, [y]);
    TotalOfOne(y);
  }

  lemma TotalOfEdit(code: Code, j: nat, x: Inst, i: nat, y: Inst)
    requires i < |code| && j <= |code|
    ensures Total(Edited(code, j, x, i, y)) + SizeAll(code[i].args) == Total(code) + SizeAll(x.args) + SizeAll(y.args)
  {
    hide Total;
    assert Insert(code, j, x)[Shifted(i, j)] == code[i];
    TotalOfInsert(code, j, x);
    TotalOfUpdate(Insert(code, j, x), Shifted(i, j), y);
  }

  lemma {:induction false} SizeOfReplaced(args: seq<Operand>, args': seq<Operand>, n: nat)
    requires |args| == |args'| && forall k :: 0 <= k < |args| ==> args'[k] == args[k] || args'[k] == Name(n)
    ensures SizeAll(args') <= SizeAll(args)
    ensures forall k :: 0 <= k < |args| && args'[k] == Name(n) ==> SizeAll(args') + Size(args[k]) <= SizeAll(args)
    decreases |args|
  {
    if args != [] {
      assert forall k :: 0 <= k < |args[1..]| ==> args[1..][k] == args[k + 1] && args'[1..][k] == args'[k + 1];
      SizeOfReplaced(args[1..], args'[1..], n);
      forall k | 0 <= k < |args| && args'[k] == Name(n)
        ensures SizeAll(args') + Size(args[k]) <= SizeAll(args)
      {
        if k > 0 {
          assert args'[1..][k - 1] == Name(n) && args[1..][k - 1] == args[k];
        }
      }
    }
  }

  /** The state of the pass: f0 is the function it began with, whose names lie below n0. */
  ghost predicate State(f0: Code, n0: nat, code: Code, next: nat) {
    var ok := CodeOk(code, next) && n0 <= next && Preserves(f0, code, n0)
      && (AllConvertible(f0) <==> AllConvertible(code)) && KeepsRest(f0, code, n0);
    ok
  }

  /** Converting argument k of instruction i, at position j. */
  ghost predicate Conversion(code: Code, i: nat, k: nat, j: nat, n: nat, x: Inst, y: Inst) {
    && i < |code| && j <= |code| && k < |code[i].args| && code[i].args[k].Expr? && HasConstantGep(code[i].args[k])
    && x == Converted(x.block, n, code[i].args[k])
    && y == code[i].(args := y.args) && |y.args| == |code[i].args|
    && y.args[k] == Name(n)
    && (forall q :: 0 <= q < |y.args| ==>
          y.args[q] == code[i].args[q] || (y.args[q] == Name(n) && code[i].args[q] == code[i].args[k]))
  }

  lemma RewrittenAgain(x: Inst, y: Inst, z: Inst, k: nat, n: nat, lim: nat)
    requires Rewritten(x, y, lim) && lim <= n && k < |y.args| && HasConstantGep(y.args[k])
    requires z == y.(args := z.args) && |z.args| == |y.args|
    requires forall q :: 0 <= q < |z.args| ==>
               z.args[q] == y.args[q] || (z.args[q] == Name(n) && y.args[q] == y.args[k])
    ensures Rewritten(x, z, lim)
  {
  }

  /** A conversion changes the operands that it converts, and nothing else. */
  lemma ConversionKeepsRest(f0: Code, n0: nat, code: Code, i: nat, k: nat, j: nat, n: nat, x: Inst, y: Inst)
    requires Conversion(code, i, k, j, n, x, y) && KeepsRest(f0, code, n0) && n0 <= n
    ensures KeepsRest(f0, Edited(code, j, x, i, y), n0)
  {
    hide Named, HasConstantGep, Rewritten;
    var c := Insert(code, j, x);
    assert c[Shifted(i, j)] == code[i];
    NamedInsert(code, j, x, n0);
    NamedUpdate(c, Shifted(i, j), y, n0);
    if y.dst < n0 {
      var p := |Named(c[..Shifted(i, j)], n0)|;
      RewrittenAgain(f0[p], code[i], y, k, n, n0);
    }
  }

  lemma ConversionShrinks(code: Code, i: nat, k: nat, j: nat, n: nat, x: Inst, y: Inst)
    requires Conversion(code, i, k, j, n, x, y)
    ensures Total(Edited(code, j, x, i, y)) < Total(code)
  {
    hide Total, SizeAll, HasConstantGep, Edited;
    TotalOfEdit(code, j, x, i, y);
    SizeOfReplaced(code[i].args, y.args, n);
    assert Size(code[i].args[k]) == 1 + SizeAll(x.args);
  }

  /** A conversion that is possible leaves exactly those conversions possible that were. */
  lemma ConversionConvertible(code: Code, i: nat, k: nat, j: nat, n: nat, x: Inst, y: Inst)
    requires Conversion(code, i, k, j, n, x, y) && !x.op.Unhandled?
    ensures AllConvertible(code) <==> AllConvertible(Edited(code, j, x, i, y))
  {
    hide Edited, Convertible, HasConstantGep;
    var c := Edited(code, j, x, i, y);
    EditedLength(code, j, x, i, y);
    ConvertibleOf(x, code[i].args[k]);
    NameConvertible(n);
    if AllConvertible(code) {
      forall q, a | 0 <= q < |c| && 0 <= a < |c[q].args|
        ensures Convertible(c[q].args[a])
      {
        EditedAt(code, j, x, i, y, q);
      }
    }
    if AllConvertible(c) {
      forall q, a | 0 <= q < |code| && 0 <= a < |code[q].args|
        ensures Convertible(code[q].args[a])
      {
        EditedAt(code, j, x, i, y, Shifted(q, j));
        EditedAt(code, j, x, i, y, j);
        assert forall b :: 0 <= b < |x.args| ==> Convertible(c[j].args[b]);
        if q == i {
          assert Convertible(c[Shifted(i, j)].args[a]);
        } else {
          assert Convertible(c[Shifted(q, j)].args[a]);
        }
      }
    }
  }

  lemma NameConvertible(n: nat)
    ensures Convertible(Name(n))
  {
  }

  lemma ConvertibleOf(x: Inst, ce: Operand)
    requires ce.Expr? && HasConstantGep(ce) && x == Converted(x.block, x.dst, ce) && !x.op.Unhandled?
    ensures Convertible(ce) <==> forall b :: 0 <= b < |x.args| ==> Convertible(x.args[b])
  {
  }

  lemma CoveredAfter(code: Code, i: nat, k: nat, j: nat, n: nat, x: Inst, y: Inst, work: seq<nat>)
    requires Conversion(code, i, k, j, n, x, y) && Covered(code, work, code[i].dst) && x.dst == n
    ensures Covered(Edited(code, j, x, i, y), work + [n], code[i].dst)
  {
    hide Edited, Needs;
    var c := Edited(code, j, x, i, y);
    EditedLength(code, j, x, i, y);
    forall q | 0 <= q < |c| && Needs(c[q]) && c[q].dst != code[i].dst
      ensures c[q].dst in work + [n]
    {
      EditedAt(code, j, x, i, y, q);
    }
  }

  /** The arguments before k hold no constant address computation any more. */
  ghost predicate DoneUpTo(x: Inst, k: nat) {
    forall q :: 0 <= q < k && q < |x.args| ==> !HasConstantGep(x.args[q])
  }

  lemma StateAfter(f0: Code, n0: nat, code: Code, next: nat, i: nat, k: nat, j: nat, x: Inst, y: Inst)
    requires State(f0, n0, code, next) && Conversion(code, i, k, j, next, x, y) && !x.op.Unhandled?
    requires Preserves(code, Edited(code, j, x, i, y), next) && PhiOk(y)
    ensures State(f0, n0, Edited(code, j, x, i, y), next + 1)
  {
    hide Preserves, AllConvertible, Edited, HasConstantGep, InstFree, KeepsRest;
    var ce := code[i].args[k];
    ConversionKeepsRest(f0, n0, code, i, k, j, next, x, y);
    assert InstOk(code[i], next) && ArgOk(ce);
    ConvertedOk(x.block, next, ce);
    UsesNewName(code[i], y, next);
    EditedOk(code, j, x, i, y, next);
    PreservesTrans(f0, code, Edited(code, j, x, i, y), n0, next);
    ConversionConvertible(code, i, k, j, next, x, y);
  }

  lemma NothingConverted(f: Code, free: nat)
    requires CodeOk(f, free)
    ensures State(f, free, f, free)
  {
    NamedBelow(f, free);
    AllNamed(f, free);
  }

  class BreakConstantGEPs {
    var code: Code
    var next: nat           // names of new instructions start here
    var work: seq<nat>      // results of the instructions to look at
    ghost const original: Code
    ghost const firstFree: nat

    ghost predicate Valid()
      reads this
    {
      State(original, firstFree, code, next)
    }

    constructor (f: Code, free: nat)
      requires CodeOk(f, free)
      ensures Valid() && code == original == f && next == firstFree == free
    {
      code, original, next, firstFree, work := f, f, free, free, [];
      NothingConverted(f, free);
    }

    /** All instructions with an operand that needs it, once for each such operand. */
    method CollectWork()
      modifies this`work
      ensures forall i :: 0 <= i < |code| && Needs(code[i]) ==> code[i].dst in work
    {
      work := [];
      var i := 0;
      while i < |code|
        invariant 0 <= i <= |code|
        invariant forall q :: 0 <= q < i && Needs(code[q]) ==> code[q].dst in work
      {
        var k := 0;
        while k < |code[i].args|
          invariant 0 <= k <= |code[i].args|
          invariant forall q :: 0 <= q < i && Needs(code[q]) ==> code[q].dst in work
          invariant forall q :: 0 <= q < k && HasConstantGep(code[i].args[q]) ==> code[i].dst in work
        {
          if HasConstantGep(code[i].args[k]) {
            work := work + [code[i].dst];
          }
          k := k + 1;
        }
        i := i + 1;
      }
    }

    /** Converts operand k of instruction i in front of it. */
    method ConvertOperand(i: nat, k: nat)
      requires Valid() && i < |code| && k < |code[i].args| && code[i].args[k].Expr? && HasConstantGep(code[i].args[k])
      requires code[i].op != Phi && !code[i].args[k].op.Unhandled?
      requires Covered(code, work, code[i].dst) && DoneUpTo(code[i], k)
      modifies this
      ensures Valid() && |code| == old(|code|) + 1 && Total(code) < Total(old(code))
      ensures code[i + 1] == old(code[i]).(args := Substitute(old(code[i].args), old(code[i].args[k]), old(next)))
      ensures Covered(code, work, old(code[i].dst))
      ensures DoneUpTo(code[i + 1], k + 1) && |code[i + 1].args| == old(|code[i].args|)
    {
      hide State, Total, Covered, HasConstantGep;
      var user, ce := code[i], code[i].args[k];
      var x, y := Converted(user.block, next, ce), user.(args := Substitute(user.args, ce, next));
      StateFacts(original, firstFree, code, next, i, k);
      UserPreserved(code, i, ce, next);
      assert WithUser(code, i, ce, next) == Edited(code, i, x, i, y);
      IsConversion(code, i, k, i, next, x, y);
      StateAfter(original, firstFree, code, next, i, k, i, x, y);
      ConversionShrinks(code, i, k, i, next, x, y);
      CoveredAfter(code, i, k, i, next, x, y, work);
      NameHasNone(next);
      code := code[..i] + [x] + [y] + code[i + 1..];
      work, next := work + [next], next + 1;
    }

    /** Where the terminator of the block is. */
    method TerminatorOf(b: Block) returns (j: nat)
      requires HasBlock(code, b)
      ensures j < |code| && code[j].block == b && forall q :: j < q < |code| ==> code[q].block != b
    {
      j := |code| - 1;
      while code[j].block != b
        invariant j < |code| && (exists q :: 0 <= q <= j && code[q].block == b)
        invariant forall q :: j < q < |code| ==> code[q].block != b
        decreases j
      {
        j := j - 1;
      }
    }

    /** Converts incoming value k of PHI i at the end of its block; later entries for that block
        receive the same. */
    method ConvertIncoming(i: nat, k: nat) returns (i': nat)
      requires Valid() && i < |code| && k < |code[i].args| && code[i].args[k].Expr? && HasConstantGep(code[i].args[k])
      requires code[i].op == Phi && !code[i].args[k].op.Unhandled?
      requires Covered(code, work, code[i].dst) && DoneUpTo(code[i], k)
      modifies this
      ensures Valid() && i' < |code| && Total(code) < Total(old(code))
      ensures code[i'].dst == old(code[i].dst) && code[i'].op == Phi && |code[i'].args| == old(|code[i].args|)
      ensures Covered(code, work, old(code[i].dst)) && DoneUpTo(code[i'], k + 1)
    {
      hide State, Total, Covered, HasConstantGep, HasBlock;
      var phi, ce := code[i], code[i].args[k];
      StateFacts(original, firstFree, code, next, i, k);
      var f := phi.incoming[k];
      var j := TerminatorOf(f);
      var x, y := Converted(f, next, ce), phi.(args := SubstituteFrom(phi.args, phi.incoming, k, f, next));
      SameFromBlock(phi, k);
      PhiPreserved(code, i, k, j, next);
      assert WithPhi(code, i, k, j, next) == Edited(code, j, x, i, y);
      IsConversion(code, i, k, j, next, x, y);
      StillPhi(phi, k, f, next, y);
      StateAfter(original, firstFree, code, next, i, k, j, x, y);
      ConversionShrinks(code, i, k, j, next, x, y);
      CoveredAfter(code, i, k, j, next, x, y, work);
      NameHasNone(next);
      EditedLength(code, j, x, i, y);
      i' := Shifted(i, j);
      code := Insert(code, j, x)[i' := y];
      work, next := work + [next], next + 1;
    }

    /** All operands of one instruction; false if one of them cannot become an instruction. */
    method Process(i0: nat) returns (ok: bool)
      requires Valid() && i0 < |code| && Covered(code, work, code[i0].dst)
      modifies this
      ensures Valid()
      ensures !ok ==> !AllConvertible(original)
      ensures ok ==> Covered(code, work, next)
      ensures Total(code) < Total(old(code)) || (code == old(code) && work == old(work))
    {
      hide State, Total, Covered, HasConstantGep, DoneUpTo;
      var i: nat, k, dst, size, isPhi := i0, 0, code[i0].dst, |code[i0].args|, code[i0].op == Phi;
      NothingDone(code[i0]);
      while k < size
        invariant Valid() && i < |code| && code[i].dst == dst && |code[i].args| == size
                  && (code[i].op == Phi <==> isPhi)
        invariant 0 <= k <= size && Covered(code, work, dst) && DoneUpTo(code[i], k)
        invariant Total(code) < Total(old(code)) || (code == old(code) && work == old(work))
        decreases size - k
      {
        if HasConstantGep(code[i].args[k]) {
          IsExpr(code[i].args[k]);
          if code[i].args[k].op.Unhandled? {
            NotConvertible(original, firstFree, code, next, i, k);
            return false;
          }
          if isPhi {
            i := ConvertIncoming(i, k);
          } else {
            ConvertOperand(i, k);
            i := i + 1;
          }
        } else {
          OneMoreDone(code[i], k);
        }
        k := k + 1;
      }
      NothingNeeded(original, firstFree, code, next, work, i);
      return true;
    }

    /** Works the list off. It ends with no address computation or bit cast at any depth of any
        operand, unless it meets an expression that it cannot convert, which is so exactly when
        one that has no instruction holds an address computation or a bit cast. Every value is
        what it was along every path. What was there is still there in its order, with the
        operands that held none as they were and, in the end, new results for the others. */
    method RunOnFunction() returns (ok: bool)
      requires Valid() && code == original
      modifies this
      ensures Preserves(original, code, firstFree)
      ensures ok <==> forall i, k :: 0 <= i < |original| && 0 <= k < |original[i].args| ==>
                                       !Blocked(original[i].args[k])
      ensures ok ==> forall i, k, e :: 0 <= i < |code| && 0 <= k < |code[i].args| && Within(e, code[i].args[k]) ==>
                                         !(e.Expr? && (e.op == Gep || e.op == BitCast))
      ensures LeavesRest(original, code, firstFree)
      ensures ok ==> ReplacesAll(original, code, firstFree)
    {
      hide State, Total, HasConstantGep, Preserves, AllConvertible, Within, Blocked, LeavesRest, ReplacesAll;
      BlockedIff(original);
      CollectWork();
      NextUnused(original, firstFree, code, next, work);
      while work != []
        invariant Valid() && Covered(code, work, next)
        decreases Total(code), |work|
      {
        var dst := work[|work| - 1];
        ghost var work0 := work;
        work := work[..|work| - 1];
        if i :| 0 <= i < |code| && code[i].dst == dst {
          PoppedCovered(original, firstFree, code, next, work0, i);
          ok := Process(i);
          if !ok {
            StateMeans(original, firstFree, code, next);
            return;
          }
        } else {
          PoppedUnknown(code, next, work0);
        }
      }
      StateMeans(original, firstFree, code, next);
      NoneLeft(original, firstFree, code, next);
      NoneWithin(original, firstFree, code, next);
      return true;
    }
  }

  lemma StateFacts(f0: Code, n0: nat, code: Code, next: nat, i: nat, k: nat)
    requires State(f0, n0, code, next) && i < |code| && k < |code[i].args|
    ensures Free(code, next) && ArgOk(code[i].args[k]) && PhiOk(code[i])
    ensures code[i].op == Phi ==> HasBlock(code, code[i].incoming[k])
  {
    hide Preserves, AllConvertible, InstFree, HasBlock;
    FreeNext(code, next);
    assert InstOk(code[i], next);
  }

  /** The instructions that were there are there in their order, and an operand without an address
      computation or a bit cast is what it was. */
  ghost predicate LeavesRest(f0: Code, code: Code, n0: nat) {
    && |Named(code, n0)| == |f0|
    && forall q :: 0 <= q < |f0| ==>
       var x, y := f0[q], Named(code, n0)[q];
       && y.block == x.block && y.dst == x.dst && y.op == x.op && y.incoming == x.incoming && |y.args| == |x.args|
       && forall k :: 0 <= k < |x.args| && (forall e :: Within(e, x.args[k]) ==> !IsAddress(e)) ==>
          y.args[k] == x.args[k]
  }

  /** An operand that held one is a new name. */
  ghost predicate ReplacesAll(f0: Code, code: Code, n0: nat) {
    && |Named(code, n0)| == |f0|
    && forall q :: 0 <= q < |f0| ==>
       var x, y := f0[q], Named(code, n0)[q];
       && |y.args| == |x.args|
       && forall k :: 0 <= k < |x.args| && (exists e :: Within(e, x.args[k]) && IsAddress(e)) ==>
          y.args[k].Name? && y.args[k].n >= n0
  }

  lemma StateMeans(f0: Code, n0: nat, code: Code, next: nat)
    requires State(f0, n0, code, next)
    ensures Preserves(f0, code, n0) && LeavesRest(f0, code, n0)
  {
    hide Preserves, AllConvertible, CodeOk, Within, HasConstantGep, Named;
    forall q, k | 0 <= q < |f0| && 0 <= k < |f0[q].args| && (forall e :: Within(e, f0[q].args[k]) ==> !IsAddress(e))
      ensures Named(code, n0)[q].args[k] == f0[q].args[k]
    {
      HasConstantGepIff(f0[q].args[k]);
    }
  }

  lemma IsExpr(e: Operand)
    requires HasConstantGep(e)
    ensures e.Expr?
  {
  }

  lemma NameHasNone(n: nat)
    ensures !HasConstantGep(Name(n))
  {
  }

  lemma NothingDone(x: Inst)
    ensures DoneUpTo(x, 0)
  {
  }

  lemma OneMoreDone(x: Inst, k: nat)
    requires DoneUpTo(x, k) && (k < |x.args| ==> !HasConstantGep(x.args[k]))
    ensures DoneUpTo(x, k + 1)
  {
    hide HasConstantGep;
  }

  lemma NotConvertible(f0: Code, n0: nat, code: Code, next: nat, i: nat, k: nat)
    requires State(f0, n0, code, next) && i < |code| && k < |code[i].args|
    requires HasConstantGep(code[i].args[k]) && code[i].args[k].Expr? && code[i].args[k].op.Unhandled?
    ensures !AllConvertible(f0)
  {
    hide Preserves, CodeOk;
    assert !Convertible(code[i].args[k]);
  }

  lemma SameFromBlock(phi: Inst, k: nat)
    requires phi.op == Phi && PhiOk(phi) && k < |phi.args| && DoneUpTo(phi, k) && HasConstantGep(phi.args[k])
    ensures |phi.args| == |phi.incoming|
    ensures forall q :: 0 <= q < |phi.args| && phi.incoming[q] == phi.incoming[k] ==>
            phi.args[q] == phi.args[k] && q >= k
  {
    hide HasConstantGep;
  }

  lemma StillPhi(phi: Inst, k: nat, f: Block, n: nat, y: Inst)
    requires phi.op == Phi && PhiOk(phi) && k < |phi.args| && |phi.args| == |phi.incoming| && f == phi.incoming[k]
    requires forall q :: 0 <= q < |phi.args| && phi.incoming[q] == f ==> phi.args[q] == phi.args[k] && q >= k
    requires y == phi.(args := SubstituteFrom(phi.args, phi.incoming, k, f, n))
    ensures PhiOk(y)
  {
  }

  lemma IsConversion(code: Code, i: nat, k: nat, j: nat, n: nat, x: Inst, y: Inst)
    requires i < |code| && j <= |code| && k < |code[i].args| && HasConstantGep(code[i].args[k]) && code[i].args[k].Expr?
    requires x == Converted(x.block, n, code[i].args[k]) && y == code[i].(args := y.args) && |y.args| == |code[i].args|
    requires forall q :: 0 <= q < |y.args| ==>
               y.args[q] == code[i].args[q] || (y.args[q] == Name(n) && code[i].args[q] == code[i].args[k])
    requires y.args[k] == Name(n)
    ensures Conversion(code, i, k, j, n, x, y)
  {
  }

  lemma NothingNeeded(f0: Code, n0: nat, code: Code, next: nat, work: seq<nat>, i: nat)
    requires State(f0, n0, code, next) && i < |code| && Covered(code, work, code[i].dst)
             && DoneUpTo(code[i], |code[i].args|)
    ensures Covered(code, work, next)
  {
    hide HasConstantGep, Preserves, AllConvertible, InstOk, HasBlock;
    forall q | 0 <= q < |code| && Needs(code[q])
      ensures code[q].dst in work
    {
    }
  }

  lemma NextUnused(f0: Code, n0: nat, code: Code, next: nat, work: seq<nat>)
    requires State(f0, n0, code, next) && forall i :: 0 <= i < |code| && Needs(code[i]) ==> code[i].dst in work
    ensures Covered(code, work, next)
  {
  }

  lemma PoppedCovered(f0: Code, n0: nat, code: Code, next: nat, work: seq<nat>, i: nat)
    requires State(f0, n0, code, next) && Covered(code, work, next) && work != []
    requires i < |code| && code[i].dst == work[|work| - 1]
    ensures Covered(code, work[..|work| - 1], code[i].dst)
  {
    hide Needs, Preserves, AllConvertible, HasBlock;
    NamedBelow(code, next);
    assert work == work[..|work| - 1] + [work[|work| - 1]];
  }

  lemma PoppedUnknown(code: Code, next: nat, work: seq<nat>)
    requires Covered(code, work, next) && work != [] && forall i :: 0 <= i < |code| ==> code[i].dst != work[|work| - 1]
    ensures Covered(code, work[..|work| - 1], next)
  {
    hide Needs;
    assert work == work[..|work| - 1] + [work[|work| - 1]];
  }

  lemma {:induction false} NamedIn(code: Code, lim: nat, q: nat)
    requires q < |Named(code, lim)|
    ensures exists d :: 0 <= d < |code| && code[d] == Named(code, lim)[q]
    decreases |code|
  {
    var init := code[..|code| - 1];
    if q < |Named(init, lim)| {
      NamedIn(init, lim, q);
      var d :| 0 <= d < |init| && init[d] == Named(init, lim)[q];
      assert code[d] == Named(code, lim)[q];
    }
  }

  /** No address computation and no bit cast at any depth of any operand. */
  lemma NoneWithin(f0: Code, n0: nat, code: Code, next: nat)
    requires State(f0, n0, code, next)
    requires forall i, k :: 0 <= i < |code| && 0 <= k < |code[i].args| ==> !HasConstantGep(code[i].args[k])
    ensures forall i, k, e :: 0 <= i < |code| && 0 <= k < |code[i].args| && Within(e, code[i].args[k]) ==>
              !(e.Expr? && (e.op == Gep || e.op == BitCast))
    ensures ReplacesAll(f0, code, n0)
  {
    hide Preserves, AllConvertible, CodeOk, Within, HasConstantGep, Named;
    forall i, k, e | 0 <= i < |code| && 0 <= k < |code[i].args| && Within(e, code[i].args[k])
      ensures !(e.Expr? && (e.op == Gep || e.op == BitCast))
    {
      HasConstantGepIff(code[i].args[k]);
      assert !IsAddress(e);
    }
    forall q, k | 0 <= q < |f0| && 0 <= k < |f0[q].args| && (exists e :: Within(e, f0[q].args[k]) && IsAddress(e))
      ensures Named(code, n0)[q].args[k].Name? && Named(code, n0)[q].args[k].n >= n0
    {
      HasConstantGepIff(f0[q].args[k]);
      NamedIn(code, n0, q);
      var x, y := f0[q], Named(code, n0)[q];
      var d :| 0 <= d < |code| && code[d] == y;
      assert Rewritten(x, y, n0);
      assert !HasConstantGep(code[d].args[k]);
    }
  }

  lemma BlockedIff(f0: Code)
    ensures AllConvertible(f0) <==>
            forall i, k :: 0 <= i < |f0| && 0 <= k < |f0[i].args| ==> !Blocked(f0[i].args[k])
  {
    hide Convertible, Blocked;
    forall i, k | 0 <= i < |f0| && 0 <= k < |f0[i].args|
      ensures Convertible(f0[i].args[k]) <==> !Blocked(f0[i].args[k])
    {
      ConvertibleIff(f0[i].args[k]);
    }
  }

  lemma NoneLeft(f0: Code, n0: nat, code: Code, next: nat)
    requires State(f0, n0, code, next) && Covered(code, [], next)
    ensures forall i, k :: 0 <= i < |code| && 0 <= k < |code[i].args| ==> !HasConstantGep(code[i].args[k])
    ensures AllConvertible(f0)
  {
    hide HasConstantGep, Preserves, HasBlock, KeepsRest;
    NamedBelow(code, next);
    forall i, k | 0 <= i < |code| && 0 <= k < |code[i].args|
      ensures !HasConstantGep(code[i].args[k])
    {
      assert !Needs(code[i]);
    }
    forall i, k | 0 <= i < |code| && 0 <= k < |code[i].args|
      ensures Convertible(code[i].args[k])
    {
      PlainConvertible(code[i].args[k]);
    }
  }

  lemma PlainConvertible(e: Operand)
    requires !HasConstantGep(e)
    ensures Convertible(e)
  {
  }
}
