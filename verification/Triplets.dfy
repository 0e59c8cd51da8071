/** Triplets: how a value depends on the three local ids.

    A memoized recursion over the operands. If it finds component k invariant, two work-items that
    differ in local id k only compute the same value. */
module Triplets {

  datatype Color = Invariant | NonInvariant | Unknown | MaybeNonInvariant

  function ColorLUT(a: Color, b: Color): Color {
    if a == NonInvariant || b == NonInvariant then NonInvariant
    else if a == Unknown || b == Unknown then Unknown
    else if a == Invariant && b == Invariant then Invariant
    else Unknown
  }

  datatype Triplet = Triplet(x: Color, y: Color, z: Color)

  const III := Triplet(Invariant, Invariant, Invariant)

  function Component(t: Triplet, k: nat): Color {
    if k == 0 then t.x else if k == 1 then t.y else t.z
  }

  function TripletUnion(a: Triplet, b: Triplet): Triplet {
    Triplet(ColorLUT(a.x, b.x), ColorLUT(a.y, b.y), ColorLUT(a.z, b.z))
  }

  lemma UnionInvariantIff(a: Triplet, b: Triplet, k: nat)
    ensures Component(TripletUnion(a, b), k) == Invariant
            <==> Component(a, k) == Invariant && Component(b, k) == Invariant
  {
  }

  // ---------------------------------------------------------------------------- the code

  /** The dimension that an id function is asked for. */
  datatype Dim = Fixed(d: nat) | Computed(v: nat)

  /** Uniform: arguments, constants, sizes and group ids, which all items of a group share.
      IdCall: get_local_id and get_global_id. Apply: calls and instructions on operands. */
  datatype Def =
    | Uniform(name: nat)
    | IdCall(global: bool, dim: Dim)
    | Phi
    | Apply(op: nat, args: seq<nat>)
    | Gep(pointer: nat, indices: seq<nat>, allConstant: bool)

  type Program = map<nat, Def>

  function OperandsOf(d: Def): seq<nat> {
    match d
    case Uniform(_) => []
    case IdCall(_, dim) => if dim.Computed? then [dim.v] else []
    case Phi => []
    case Apply(_, args) => args
    case Gep(p, ixs, _) => [p] + ixs
  }

  /** Values are numbered so that operands come before their users, PHIs apart. */
  ghost predicate ProgramOk(p: Program) {
    && (forall v, i :: v in p && 0 <= i < |OperandsOf(p[v])| ==> OperandsOf(p[v])[i] in p && OperandsOf(p[v])[i] < v)
    && (forall v, i :: v in p && p[v].Gep? && p[v].allConstant && 0 <= i < |p[v].indices| ==>
          p[v].indices[i] in p && p[p[v].indices[i]].Uniform?)
  }

  function OfDim(d: nat): Triplet {
    if d == 0 then III.(x := NonInvariant)
    else if d == 1 then III.(y := NonInvariant)
    else if d == 2 then III.(z := NonInvariant)
    else III
  }

  /** The triplet of a value, without a cache. */
  ghost function TripletOf(p: Program, v: nat): Triplet
    requires ProgramOk(p) && v in p
    decreases v, 0
  {
    match p[v]
    case Uniform(_) => III
    case IdCall(_, dim) => if dim.Fixed? then OfDim(dim.d) else III
    case Phi => Triplet(NonInvariant, NonInvariant, NonInvariant)
    case Apply(_, args) =>
      assert forall i :: 0 <= i < |args| ==> OperandsOf(p[v])[i] == args[i];
      UnionOf(p, v, args)
    case Gep(ptr, ixs, allConstant) =>
      assert OperandsOf(p[v])[0] == ptr;
      var ofPointer := TripletOf(p, ptr);
      if allConstant then ofPointer
      else
        assert forall i :: 0 <= i < |ixs| ==> OperandsOf(p[v])[i + 1] == ixs[i];
        TripletUnion(ofPointer, UnionOf(p, v, ixs))
  }

  /** The union over operands of v, invariant if there are none. */
  ghost function UnionOf(p: Program, v: nat, os: seq<nat>): Triplet
    requires ProgramOk(p) && forall i :: 0 <= i < |os| ==> os[i] in p && os[i] < v
    decreases v, 0, |os|
  {
    if os == [] then III
    else TripletUnion(UnionOf(p, v, os[..|os| - 1]), TripletOf(p, os[|os| - 1]))
  }

  // ------------------------------------------------------------------------ walks along operands

  /** The operands whose colors v takes over: a Gep with constant indices has the color of its
      pointer, and an id call does not look at the dimension that it is asked for. */
  predicate TakesFrom(p: Program, v: nat, w: nat) {
    && v in p && w in p
    && match p[v]
       case Apply(_, args) => w in args
       case Gep(ptr, ixs, allConstant) => w == ptr || (!allConstant && w in ixs)
       case _ => false
  }

  /** Where local id k comes in: an id call for dimension k, or a PHI. */
  predicate VariesIn(p: Program, v: nat, k: nat) {
    v in p && (p[v].Phi? || (p[v].IdCall? && p[v].dim == Fixed(k)))
  }

  ghost predicate Walk(p: Program, ws: seq<nat>) {
    ws != [] && forall i :: 0 <= i < |ws| - 1 ==> TakesFrom(p, ws[i], ws[i + 1])
  }

  /** A walk along operands leads from v to where local id k comes in. */
  ghost predicate DependsOn(p: Program, v: nat, k: nat) {
    exists ws :: Walk(p, ws) && ws[0] == v && VariesIn(p, ws[|ws| - 1], k)
  }

  lemma DependsIff(p: Program, v: nat, k: nat)
    ensures DependsOn(p, v, k) <==> VariesIn(p, v, k) || exists w :: TakesFrom(p, v, w) && DependsOn(p, w, k)
  {
    if DependsOn(p, v, k) && !VariesIn(p, v, k) {
      var ws :| Walk(p, ws) && ws[0] == v && VariesIn(p, ws[|ws| - 1], k);
      assert Walk(p, ws[1..]);
      assert TakesFrom(p, v, ws[1]);
    }
    if VariesIn(p, v, k) {
      assert Walk(p, [v]);
    }
    forall w | TakesFrom(p, v, w) && DependsOn(p, w, k)
      ensures DependsOn(p, v, k)
    {
      var ws :| Walk(p, ws) && ws[0] == w && VariesIn(p, ws[|ws| - 1], k);
      assert Walk(p, [v] + ws);
    }
  }

  /** A component is invariant if and only if no walk along operands leads to where that local id
      comes in, and non-invariant otherwise. */
  lemma {:induction false} TripletIsByWalks(p: Program, v: nat, k: nat)
    requires ProgramOk(p) && v in p && k < 3
    ensures Component(TripletOf(p, v), k) == if DependsOn(p, v, k) then NonInvariant else Invariant
    decreases v, 0
  {
    hide DependsOn;
    DependsIff(p, v, k);
    match p[v] {
      case Uniform(_) =>
      case IdCall(_, dim) =>
      case Phi =>
      case Apply(_, args) =>
        assert forall n :: 0 <= n < |args| ==> OperandsOf(p[v])[n] == args[n];
        UnionIsByWalks(p, v, args, k);
        assert forall w :: TakesFrom(p, v, w) <==> w in args;
      case Gep(ptr, ixs, allConstant) =>
        assert OperandsOf(p[v])[0] == ptr;
        assert forall n :: 0 <= n < |ixs| ==> OperandsOf(p[v])[n + 1] == ixs[n];
        TripletIsByWalks(p, ptr, k);
        UnionIsByWalks(p, v, ixs, k);
        assert forall w :: TakesFrom(p, v, w) <==> w == ptr || (!allConstant && w in ixs);
    }
  }

  lemma {:induction false} UnionIsByWalks(p: Program, v: nat, os: seq<nat>, k: nat)
    requires ProgramOk(p) && k < 3 && forall i :: 0 <= i < |os| ==> os[i] in p && os[i] < v
    ensures Component(UnionOf(p, v, os), k) ==
            if exists w :: w in os && DependsOn(p, w, k) then NonInvariant else Invariant
    decreases v, 0, |os|
  {
    hide DependsOn;
    if os != [] {
      var init, last := os[..|os| - 1], os[|os| - 1];
      assert forall w :: w in os <==> w in init || w == last;
      UnionIsByWalks(p, v, init, k);
      TripletIsByWalks(p, last, k);
    }
  }

  // -------------------------------------------------------------------------- what it means

  /** One work-item: its local ids and the values its PHIs take. */
  datatype Item = Item(local: seq<int>, phi: nat -> int)

  /** What is common to the group. */
  datatype Meaning = Meaning(uniform: nat -> int, ops: (nat, seq<int>) -> int, base: int -> int)

  function LocalId(it: Item, d: int): int {
    if 0 <= d < |it.local| then it.local[d] else 0
  }

  function IdOf(m: Meaning, it: Item, global: bool, d: int): int {
    if global then m.base(d) + LocalId(it, d) else LocalId(it, d)
  }

  ghost function Eval(p: Program, m: Meaning, it: Item, v: nat): int
    requires ProgramOk(p) && v in p
    decreases v, 0
  {
    match p[v]
    case Uniform(n) => m.uniform(n)
    case IdCall(global, dim) =>
      if dim.Fixed? then IdOf(m, it, global, dim.d)
      else
        assert OperandsOf(p[v])[0] == dim.v;
        IdOf(m, it, global, Eval(p, m, it, dim.v))
    case Phi => it.phi(v)
    case Apply(op, args) =>
      assert forall i :: 0 <= i < |args| ==> OperandsOf(p[v])[i] == args[i];
      m.ops(op, EvalAll(p, m, it, v, args))
    case Gep(ptr, ixs, _) =>
      assert forall i :: 0 <= i < |ixs| ==> OperandsOf(p[v])[i + 1] == ixs[i];
      assert OperandsOf(p[v])[0] == ptr;
      m.ops(|ixs|, [Eval(p, m, it, ptr)] + EvalAll(p, m, it, v, ixs))
  }

  ghost function EvalAll(p: Program, m: Meaning, it: Item, v: nat, os: seq<nat>): seq<int>
    requires ProgramOk(p) && forall i :: 0 <= i < |os| ==> os[i] in p && os[i] < v
    decreases v, 0, |os|
  {
    if os == [] then [] else EvalAll(p, m, it, v, os[..|os| - 1]) + [Eval(p, m, it, os[|os| - 1])]
  }

  /** The items differ in local id k at most; their PHIs may take different ways. */
  ghost predicate DifferIn(i: Item, j: Item, k: nat) {
    |i.local| == |j.local| == 3 && forall d :: 0 <= d < 3 && d != k ==> i.local[d] == j.local[d]
  }

  ghost predicate FixedDims(p: Program) {
    forall v :: v in p && p[v].IdCall? ==> p[v].dim.Fixed?
  }

  lemma {:induction false} InvariantMeansEqual(p: Program, m: Meaning, i: Item, j: Item, k: nat, v: nat)
    requires ProgramOk(p) && FixedDims(p) && v in p && k < 3 && DifferIn(i, j, k)
    requires Component(TripletOf(p, v), k) == Invariant
    ensures Eval(p, m, i, v) == Eval(p, m, j, v)
    decreases v, 0
  {
    match p[v] {
      case Uniform(_) =>
      case IdCall(_, dim) =>
      case Phi =>
      case Apply(_, args) =>
        assert forall n :: 0 <= n < |args| ==> OperandsOf(p[v])[n] == args[n];
        InvariantOperandsEqual(p, m, i, j, k, v, args);
      case Gep(ptr, ixs, allConstant) =>
        assert OperandsOf(p[v])[0] == ptr;
        assert forall n :: 0 <= n < |ixs| ==> OperandsOf(p[v])[n + 1] == ixs[n];
        if allConstant {
          ConstantsInvariant(p, v, ixs);
        } else {
          UnionInvariantIff(TripletOf(p, ptr), UnionOf(p, v, ixs), k);
        }
        InvariantMeansEqual(p, m, i, j, k, ptr);
        InvariantOperandsEqual(p, m, i, j, k, v, ixs);
    }
  }

  lemma {:induction false} ConstantsInvariant(p: Program, v: nat, os: seq<nat>)
    requires ProgramOk(p) && forall i :: 0 <= i < |os| ==> os[i] in p && os[i] < v && p[os[i]].Uniform?
    ensures UnionOf(p, v, os) == III
    decreases |os|
  {
    if os != [] {
      ConstantsInvariant(p, v, os[..|os| - 1]);
    }
  }

  lemma {:induction false} InvariantOperandsEqual(p: Program, m: Meaning, i: Item, j: Item, k: nat, v: nat,
                                                  os: seq<nat>)
    requires ProgramOk(p) && FixedDims(p) && k < 3 && DifferIn(i, j, k)
    requires forall n :: 0 <= n < |os| ==> os[n] in p && os[n] < v
    requires Component(UnionOf(p, v, os), k) == Invariant
    ensures EvalAll(p, m, i, v, os) == EvalAll(p, m, j, v, os)
    decreases v, 0, |os|
  {
    if os != [] {
      var init, last := os[..|os| - 1], os[|os| - 1];
      UnionInvariantIff(UnionOf(p, v, init), TripletOf(p, last), k);
      InvariantOperandsEqual(p, m, i, j, k, v, init);
      InvariantMeansEqual(p, m, i, j, k, last);
    }
  }

  /** A uniform value is the same for all items of the group. */
  lemma UniformMeansEqual(p: Program, m: Meaning, i: Item, j: Item, v: nat)
    requires ProgramOk(p) && FixedDims(p) && v in p && |i.local| == |j.local| == 3 && TripletOf(p, v) == III
    ensures Eval(p, m, i, v) == Eval(p, m, j, v)
  {
    hide Eval, TripletOf, ProgramOk, FixedDims;
    var a := i.(local := [j.local[0], i.local[1], i.local[2]]);
    var b := i.(local := [j.local[0], j.local[1], i.local[2]]);
    InvariantMeansEqual(p, m, i, a, 0, v);
    InvariantMeansEqual(p, m, a, b, 1, v);
    InvariantMeansEqual(p, m, b, j, 2, v);
  }

  // ------------------------------------------------------------------ no value is missed

  function Sum(xs: seq<int>): int {
    if xs == [] then 0 else Sum(xs[..|xs| - 1]) + xs[|xs| - 1]
  }

  /** Operations add. */
  const ADDING := Meaning(_ => 0, (_, xs: seq<int>) => Sum(xs), _ => 0)

  /** Local id k is n, the others 0, and the PHIs have n. */
  function OnAxis(k: nat, n: int): Item {
    Item(seq(3, d => if d == k then n else 0), _ => n)
  }

  /** At zero all values are zero; at one those that depend on axis k are positive. */
  lemma {:induction false} ValuesOnAxis(p: Program, k: nat, n: int, v: nat)
    requires ProgramOk(p) && v in p && k < 3 && 0 <= n
    ensures Eval(p, ADDING, OnAxis(k, n), v) >= 0
    ensures n == 0 ==> Eval(p, ADDING, OnAxis(k, n), v) == 0
    ensures n > 0 && DependsOn(p, v, k) ==> Eval(p, ADDING, OnAxis(k, n), v) > 0
    decreases v, 0
  {
    hide DependsOn;
    DependsIff(p, v, k);
    var it := OnAxis(k, n);
    match p[v] {
      case Uniform(_) =>
      case IdCall(_, dim) =>
        if dim.Computed? {
          assert OperandsOf(p[v])[0] == dim.v;
        }
      case Phi =>
      case Apply(_, args) =>
        assert forall i :: 0 <= i < |args| ==> OperandsOf(p[v])[i] == args[i];
        SumsOnAxis(p, k, n, v, args);
      case Gep(ptr, ixs, _) =>
        assert OperandsOf(p[v])[0] == ptr;
        assert forall i :: 0 <= i < |ixs| ==> OperandsOf(p[v])[i + 1] == ixs[i];
        ValuesOnAxis(p, k, n, ptr);
        SumsOnAxis(p, k, n, v, ixs);
        SumWithFirst(Eval(p, ADDING, it, ptr), EvalAll(p, ADDING, it, v, ixs));
    }
  }

  lemma {:induction false} SumsOnAxis(p: Program, k: nat, n: int, v: nat, os: seq<nat>)
    requires ProgramOk(p) && k < 3 && 0 <= n && forall i :: 0 <= i < |os| ==> os[i] in p && os[i] < v
    ensures var sum := Sum(EvalAll(p, ADDING, OnAxis(k, n), v, os));
            && sum >= 0 && (n == 0 ==> sum == 0)
            && (n > 0 && (exists w :: w in os && DependsOn(p, w, k)) ==> sum > 0)
    decreases v, 0, |os|
  {
    hide DependsOn;
    if os != [] {
      var init, last := os[..|os| - 1], os[|os| - 1];
      assert forall w :: w in os <==> w in init || w == last;
      SumsOnAxis(p, k, n, v, init);
      ValuesOnAxis(p, k, n, last);
      var xs := EvalAll(p, ADDING, OnAxis(k, n), v, init);
      assert (xs + [Eval(p, ADDING, OnAxis(k, n), last)])[..|xs|] == xs;
    }
  }

  lemma {:induction false} SumWithFirst(x: int, xs: seq<int>)
    ensures Sum([x] + xs) == x + Sum(xs)
    decreases |xs|
  {
    if xs == [] {
      assert [x] + xs == [x] && [x][..0] == [];
    } else {
      SumWithFirst(x, xs[..|xs| - 1]);
      assert ([x] + xs)[..|xs|] == [x] + xs[..|xs| - 1];
    }
  }

  /** Whatever the operations mean, items that differ in local id k at most have the same value. */
  ghost predicate SameAlong(p: Program, k: nat, v: nat)
    requires ProgramOk(p) && v in p
  {
    forall m: Meaning, i: Item, j: Item :: DifferIn(i, j, k) ==> Eval(p, m, i, v) == Eval(p, m, j, v)
  }

  /** The analysis finds all there is to be found without knowing the operations. */
  lemma InvariantIffEqual(p: Program, k: nat, v: nat)
    requires ProgramOk(p) && FixedDims(p) && v in p && k < 3
    ensures Component(TripletOf(p, v), k) == Invariant <==> SameAlong(p, k, v)
  {
    hide Eval, TripletOf, DependsOn, ProgramOk, FixedDims;
    TripletIsByWalks(p, v, k);
    if Component(TripletOf(p, v), k) == Invariant {
      forall m: Meaning, i: Item, j: Item | DifferIn(i, j, k)
        ensures Eval(p, m, i, v) == Eval(p, m, j, v)
      {
        InvariantMeansEqual(p, m, i, j, k, v);
      }
    } else {
      ValuesOnAxis(p, k, 0, v);
      ValuesOnAxis(p, k, 1, v);
      assert DifferIn(OnAxis(k, 0), OnAxis(k, 1), k);
    }
  }

  // -------------------------------------------------- ids of a dimension that is computed

  /** The analysis is right about the program whatever its operations mean. */
  ghost predicate Sound(p: Program)
    requires ProgramOk(p)
  {
    forall m: Meaning, i: Item, j: Item, k: nat, v: nat | v in p && k < 3 && DifferIn(i, j, k) ::
      Component(TripletOf(p, v), k) == Invariant ==> Eval(p, m, i, v) == Eval(p, m, j, v)
  }

  const ZERO := Meaning(_ => 0, (_, _) => 0, _ => 0)

  /** Two items that differ in local id k and for which the id of the computed dimension differs. */
  lemma Distinguished(p: Program, v: nat) returns (i: Item, j: Item, k: nat)
    requires ProgramOk(p) && v in p && p[v].IdCall? && p[v].dim.Computed?
    requires forall u :: u in p && u < v && p[u].IdCall? ==> p[u].dim.Fixed?
    ensures k < 3 && DifferIn(i, j, k) && Eval(p, ZERO, i, v) != Eval(p, ZERO, j, v)
  {
    assert OperandsOf(p[v])[0] == p[v].dim.v;
    var d := p[p[v].dim.v];
    if d.IdCall? && d.dim.d == 0 {
      i, j, k := Item([0, 5, 0], _ => 0), Item([1, 5, 0], _ => 0), 0;
    } else if d.IdCall? && d.dim.d == 1 {
      i, j, k := Item([7, 0, 0], _ => 0), Item([7, 1, 0], _ => 0), 1;
    } else if d.IdCall? && d.dim.d == 2 {
      i, j, k := Item([7, 0, 0], _ => 0), Item([7, 0, 1], _ => 0), 2;
    } else {
      i, j, k := Item([0, 0, 0], _ => 0), Item([1, 0, 0], _ => 0), 0;
    }
  }

  lemma FirstComputed(p: Program, v: nat) returns (u: nat)
    requires v in p && p[v].IdCall? && p[v].dim.Computed?
    ensures u in p && p[u].IdCall? && p[u].dim.Computed?
    ensures forall w :: w in p && w < u && p[w].IdCall? ==> p[w].dim.Fixed?
    decreases v
  {
    if w :| w in p && w < v && p[w].IdCall? && p[w].dim.Computed? {
      u := FirstComputed(p, w);
    } else {
      u := v;
    }
  }

  /** The analysis can be relied upon exactly when every id is asked for a constant dimension: it
      takes the id of any other for invariant. */
  lemma SoundIffFixedDims(p: Program)
    requires ProgramOk(p)
    ensures Sound(p) <==> FixedDims(p)
  {
    hide ProgramOk, Eval;
    if FixedDims(p) {
      forall m: Meaning, i: Item, j: Item, k: nat, v: nat | v in p && k < 3 && DifferIn(i, j, k)
        ensures Component(TripletOf(p, v), k) == Invariant ==> Eval(p, m, i, v) == Eval(p, m, j, v)
      {
        if Component(TripletOf(p, v), k) == Invariant {
          InvariantMeansEqual(p, m, i, j, k, v);
        }
      }
    } else {
      var v :| v in p && p[v].IdCall? && p[v].dim.Computed?;
      var u := FirstComputed(p, v);
      var i, j, k := Distinguished(p, u);
    }
  }

  lemma ComponentsByWalks(p: Program, v: nat)
    requires ProgramOk(p) && v in p
    ensures forall k :: 0 <= k < 3 ==>
              Component(TripletOf(p, v), k) == if DependsOn(p, v, k) then NonInvariant else Invariant
  {
    hide DependsOn, TripletOf, ProgramOk;
    forall k | 0 <= k < 3
      ensures Component(TripletOf(p, v), k) == if DependsOn(p, v, k) then NonInvariant else Invariant
    {
      TripletIsByWalks(p, v, k);
    }
  }

  // ----------------------------------------------------------------------------- the cache

  class TripletInvarianceAnalysis {
    const program: Program
    var cache: map<nat, Triplet>

    ghost predicate Valid()
      reads this
    {
      ProgramOk(program) && forall v :: v in cache ==> v in program && cache[v] == TripletOf(program, v)
    }

    constructor (p: Program)
      requires ProgramOk(p)
      ensures Valid() && program == p
    {
      program, cache := p, map[];
    }

    /** Component k is non-invariant if a walk along operands leads to where local id k comes in,
        and invariant otherwise. A cached triplet is returned as it is; a new one is cached, but for
        an id of a computed dimension or of one that does not exist. */
    method GetOrCalculateTriplet(v: nat) returns (t: Triplet)
      requires Valid() && v in program
      modifies this`cache
      ensures forall k :: 0 <= k < 3 ==>
                Component(t, k) == if DependsOn(program, v, k) then NonInvariant else Invariant
      ensures Valid() && t == TripletOf(program, v) && old(cache).Keys <= cache.Keys
      ensures v in old(cache) ==> cache == old(cache)
      ensures v !in old(cache) ==>
                (v in cache <==> (program[v].IdCall? ==> program[v].dim.Fixed? && program[v].dim.d < 3))
      decreases v, 1
    {
      hide DependsOn;
      ComponentsByWalks(program, v);
      if v in cache {
        return cache[v];
      }
      match program[v] {
        case Uniform(_) => t := III;
        case IdCall(_, dim) =>
          t := if dim.Fixed? then OfDim(dim.d) else III;
          if dim.Computed? || dim.d >= 3 {
            return;
          }
        case Phi => t := Triplet(NonInvariant, NonInvariant, NonInvariant);
        case Apply(_, args) =>
          assert forall i :: 0 <= i < |args| ==> OperandsOf(program[v])[i] == args[i];
          t := UnionAll(v, args);
        case Gep(pointer, indices, allConstant) =>
          assert OperandsOf(program[v])[0] == pointer;
          assert forall i :: 0 <= i < |indices| ==> OperandsOf(program[v])[i + 1] == indices[i];
          t := GetOrCalculateTriplet(pointer);
          if !allConstant {
            var u := UnionAll(v, indices);
            t := TripletUnion(t, u);
          }
      }
      cache := cache[v := t];
    }

    method UnionAll(ghost v: nat, os: seq<nat>) returns (t: Triplet)
      requires Valid() && forall i :: 0 <= i < |os| ==> os[i] in program && os[i] < v
      modifies this`cache
      ensures Valid() && t == UnionOf(program, v, os) && old(cache).Keys <= cache.Keys
      decreases v, 0
    {
      t := III;
      var n := 0;
      while n < |os|
        invariant 0 <= n <= |os| && Valid() && t == UnionOf(program, v, os[..n]) && old(cache).Keys <= cache.Keys
      {
        var u := GetOrCalculateTriplet(os[n]);
        assert os[..n + 1][..n] == os[..n];
        t := TripletUnion(t, u);
        n := n + 1;
      }
      assert os[..n] == os;
    }

    /** A value is uniform if and only if no walk along operands leads from it to a PHI or to an
        id call for one of the three dimensions. */
    method IsUniform(v: nat) returns (uniform: bool)
      requires Valid() && v in program
      modifies this`cache
      ensures uniform <==> forall k :: 0 <= k < 3 ==> !DependsOn(program, v, k)
      ensures Valid() && (uniform <==> TripletOf(program, v) == III)
    {
      hide DependsOn, TripletOf;
      var t := GetOrCalculateTriplet(v);
      assert t == III <==> Component(t, 0) == Component(t, 1) == Component(t, 2) == Invariant;
      uniform := t == III;
    }
  }
}
