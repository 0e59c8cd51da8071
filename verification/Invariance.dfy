/** The block worklist of the invariance analysis, on scalar code.

    Each instruction carries, per level and axis, how its value varies with the local and global
    ids. Blocks are analyzed from top to bottom, and a change puts the blocks of the users back
    into the queue, except that users further down in the block under analysis are left to that
    analysis. */
module Invariance {
  import opened Graphs

  datatype Kind = NonInvariant | MaybeNonInvariant | Invariant | Unknown

  function Meet(a: Kind, b: Kind): Kind {
    if a == NonInvariant || b == NonInvariant then NonInvariant
    else if a == MaybeNonInvariant || b == MaybeNonInvariant then MaybeNonInvariant
    else if a == Invariant || b == Invariant then Invariant
    else Unknown
  }

  function Join(a: Kind, b: Kind): Kind {
    if a == Invariant || b == Invariant then Invariant
    else if a == MaybeNonInvariant || b == MaybeNonInvariant then MaybeNonInvariant
    else if a == NonInvariant || b == NonInvariant then NonInvariant
    else Unknown
  }

  function Rank(k: Kind): nat {
    match k
    case NonInvariant => 0
    case MaybeNonInvariant => 1
    case Invariant => 2
    case Unknown => 3
  }

  /** In the order of `Join` what is unknown comes first, not last. */
  function JoinRank(k: Kind): nat {
    if k == Unknown then 0 else Rank(k) + 1
  }

  lemma MeetIsGreatestLowerBound(a: Kind, b: Kind, c: Kind)
    ensures Rank(c) <= Rank(a) && Rank(c) <= Rank(b) <==> Rank(c) <= Rank(Meet(a, b))
  {
  }

  lemma JoinIsLeastUpperBound(a: Kind, b: Kind, c: Kind)
    ensures JoinRank(a) <= JoinRank(c) && JoinRank(b) <= JoinRank(c) <==> JoinRank(Join(a, b)) <= JoinRank(c)
  {
  }

  /** Three axes on the local level and three on the global. */
  datatype Info = Info(l0: Kind, l1: Kind, l2: Kind, g0: Kind, g1: Kind, g2: Kind)

  function All(k: Kind): Info {
    Info(k, k, k, k, k, k)
  }

  function MeetInfo(a: Info, b: Info): Info {
    Info(Meet(a.l0, b.l0), Meet(a.l1, b.l1), Meet(a.l2, b.l2), Meet(a.g0, b.g0), Meet(a.g1, b.g1), Meet(a.g2, b.g2))
  }

  function JoinInfo(a: Info, b: Info): Info {
    Info(Join(a.l0, b.l0), Join(a.l1, b.l1), Join(a.l2, b.l2), Join(a.g0, b.g0), Join(a.g1, b.g1), Join(a.g2, b.g2))
  }

  predicate Leq(a: Info, b: Info) {
    && Rank(a.l0) <= Rank(b.l0) && Rank(a.l1) <= Rank(b.l1) && Rank(a.l2) <= Rank(b.l2)
    && Rank(a.g0) <= Rank(b.g0) && Rank(a.g1) <= Rank(b.g1) && Rank(a.g2) <= Rank(b.g2)
  }

  function Height(a: Info): nat {
    Rank(a.l0) + Rank(a.l1) + Rank(a.l2) + Rank(a.g0) + Rank(a.g1) + Rank(a.g2)
  }

  lemma LeqFacts(a: Info, b: Info)
    ensures Leq(a, b) && a != b ==> Height(a) < Height(b)
    ensures Leq(a, b) && Leq(b, a) ==> a == b
    ensures Leq(a, a) && Leq(a, All(Unknown))
  {
  }

  lemma LeqTrans(a: Info, b: Info, c: Info)
    requires Leq(a, b) && Leq(b, c)
    ensures Leq(a, c)
  {
  }

  lemma KindMonotone(a: Kind, a': Kind, b: Kind, b': Kind)
    requires Rank(a) <= Rank(a') && Rank(b) <= Rank(b')
    ensures Rank(Meet(a, b)) <= Rank(Meet(a', b'))
  {
  }

  lemma MeetMonotone(a: Info, a': Info, b: Info, b': Info)
    requires Leq(a, a') && Leq(b, b')
    ensures Leq(MeetInfo(a, b), MeetInfo(a', b'))
  {
    hide Meet, Rank;
    KindMonotone(a.l0, a'.l0, b.l0, b'.l0);
    KindMonotone(a.l1, a'.l1, b.l1, b'.l1);
    KindMonotone(a.l2, a'.l2, b.l2, b'.l2);
    KindMonotone(a.g0, a'.g0, b.g0, b'.g0);
    KindMonotone(a.g1, a'.g1, b.g1, b'.g1);
    KindMonotone(a.g2, a'.g2, b.g2, b'.g2);
  }

  // ------------------------------------------------------------------------ instructions

  datatype Value = Result(id: nat) | Argument(index: nat) | Constant

  /** Standard: what all operands have in common. Fixed: what the name of the called function or
      the kind of the instruction says. Branch: what the condition has. */
  datatype Rule = Standard(operands: seq<Value>) | Fixed(info: Info) | Branch(conditions: seq<Value>)

  datatype Inst = Inst(id: nat, phi: bool, rule: Rule)

  datatype Code = Code(blocks: map<Block, seq<Inst>>, arguments: seq<Info>)

  function Operands(x: Inst): seq<Value> {
    match x.rule
    case Standard(os) => os
    case Fixed(_) => []
    case Branch(os) => os
  }

  predicate Uses(x: Inst, id: nat) {
    Result(id) in Operands(x)
  }

  predicate Place(c: Code, b: Block, i: int) {
    b in c.blocks && 0 <= i < |c.blocks[b]|
  }

  /** Instructions are named once, and in its block an instruction that is no PHI stands below
      what it uses. */
  ghost predicate CodeOk(c: Code) {
    && (forall b, i, d, j ::
       Place(c, b, i) && Place(c, d, j) && c.blocks[b][i].id == c.blocks[d][j].id ==> b == d && i == j)
    && (forall b, i, j ::
       Place(c, b, i) && Place(c, b, j) && !c.blocks[b][i].phi && Uses(c.blocks[b][i], c.blocks[b][j].id) ==>
          j < i)
  }

  type Variances = map<nat, Info>

  function InfoOf(c: Code, v: Variances, x: Value): Info {
    match x
    case Result(id) => if id in v then v[id] else All(Unknown)
    case Argument(i) => if i < |c.arguments| then c.arguments[i] else All(Unknown)
    case Constant => All(Invariant)
  }

  function MeetAll(c: Code, v: Variances, os: seq<Value>): Info {
    if os == [] then All(Unknown) else MeetInfo(MeetAll(c, v, os[..|os| - 1]), InfoOf(c, v, os[|os| - 1]))
  }

  function JoinAll(c: Code, v: Variances, os: seq<Value>): Info {
    if os == [] then All(Unknown) else JoinInfo(JoinAll(c, v, os[..|os| - 1]), InfoOf(c, v, os[|os| - 1]))
  }

  /** The transfer function of an instruction. */
  function Transfer(c: Code, v: Variances, x: Inst): Info {
    match x.rule
    case Standard(os) => MeetAll(c, v, os)
    case Fixed(info) => info
    case Branch(os) => JoinAll(c, v, os)
  }

  /** A branch has one condition or none. */
  ghost predicate BranchesOk(c: Code) {
    forall b, i :: Place(c, b, i) && c.blocks[b][i].rule.Branch? ==> |c.blocks[b][i].rule.conditions| <= 1
  }

  lemma InfoIsGreatestLowerBound(a: Info, b: Info, w: Info)
    ensures Leq(w, MeetInfo(a, b)) <==> Leq(w, a) && Leq(w, b)
  {
    hide Meet, Rank;
    MeetIsGreatestLowerBound(a.l0, b.l0, w.l0);
    MeetIsGreatestLowerBound(a.l1, b.l1, w.l1);
    MeetIsGreatestLowerBound(a.l2, b.l2, w.l2);
    MeetIsGreatestLowerBound(a.g0, b.g0, w.g0);
    MeetIsGreatestLowerBound(a.g1, b.g1, w.g1);
    MeetIsGreatestLowerBound(a.g2, b.g2, w.g2);
  }

  lemma {:induction false} MeetAllIff(c: Code, v: Variances, os: seq<Value>, w: Info)
    ensures Leq(w, MeetAll(c, v, os)) <==> forall o :: o in os ==> Leq(w, InfoOf(c, v, o))
    decreases |os|
  {
    hide Leq, MeetInfo, InfoOf;
    if os == [] {
      LeqFacts(w, w);
    } else {
      var init, last := os[..|os| - 1], os[|os| - 1];
      assert forall o :: o in os <==> o in init || o == last;
      MeetAllIff(c, v, init, w);
      InfoIsGreatestLowerBound(MeetAll(c, v, init), InfoOf(c, v, last), w);
    }
  }

  /** `info` is what the rule of x asks for, by the order alone: under the standard rule what lies
      below it is what lies below all operands; a branch has what its condition has. */
  ghost predicate ByOperands(c: Code, v: Variances, x: Inst, info: Info) {
    match x.rule
    case Standard(os) => forall w :: Leq(w, info) <==> forall o :: o in os ==> Leq(w, InfoOf(c, v, o))
    case Fixed(own) => info == own
    case Branch(os) => info == if os == [] then All(Unknown) else InfoOf(c, v, os[0])
  }

  lemma TransferByOperands(c: Code, v: Variances, x: Inst, info: Info)
    requires x.rule.Branch? ==> |x.rule.conditions| <= 1
    ensures ByOperands(c, v, x, info) <==> info == Transfer(c, v, x)
  {
    hide Leq, InfoOf, MeetAll;
    match x.rule {
      case Standard(os) =>
        var meet := MeetAll(c, v, os);
        forall w
          ensures Leq(w, meet) <==> forall o :: o in os ==> Leq(w, InfoOf(c, v, o))
        {
          MeetAllIff(c, v, os, w);
        }
        LeqFacts(info, meet);
        LeqFacts(meet, info);
      case Fixed(_) =>
      case Branch(os) =>
        if |os| == 1 {
          JoinOfOne(c, v, os);
        }
    }
  }

  ghost predicate Below(c: Code, v: Variances, v': Variances) {
    forall id :: Leq(InfoOf(c, v, Result(id)), InfoOf(c, v', Result(id)))
  }

  lemma {:induction false} MeetAllMonotone(c: Code, v: Variances, v': Variances, os: seq<Value>)
    requires Below(c, v, v')
    ensures Leq(MeetAll(c, v, os), MeetAll(c, v', os))
    decreases |os|
  {
    hide Leq, MeetInfo, InfoOf, Below;
    if os == [] {
      LeqFacts(All(Unknown), All(Unknown));
    } else {
      MeetAllMonotone(c, v, v', os[..|os| - 1]);
      OperandMonotone(c, v, v', os[|os| - 1]);
      MeetMonotone(MeetAll(c, v, os[..|os| - 1]), MeetAll(c, v', os[..|os| - 1]),
                   InfoOf(c, v, os[|os| - 1]), InfoOf(c, v', os[|os| - 1]));
    }
  }

  lemma OperandMonotone(c: Code, v: Variances, v': Variances, x: Value)
    requires Below(c, v, v')
    ensures Leq(InfoOf(c, v, x), InfoOf(c, v', x))
  {
    LeqFacts(InfoOf(c, v, x), InfoOf(c, v, x));
  }

  lemma JoinOfOne(c: Code, v: Variances, os: seq<Value>)
    requires |os| == 1
    ensures JoinAll(c, v, os) == InfoOf(c, v, os[0])
  {
    assert JoinAll(c, v, os[..0]) == All(Unknown);
  }

  lemma TransferMonotone(c: Code, v: Variances, v': Variances, x: Inst)
    requires Below(c, v, v') && (x.rule.Branch? ==> |x.rule.conditions| <= 1)
    ensures Leq(Transfer(c, v, x), Transfer(c, v', x))
  {
    hide Leq, InfoOf, Below, MeetAll;
    match x.rule {
      case Standard(os) => MeetAllMonotone(c, v, v', os);
      case Fixed(info) => LeqFacts(info, info);
      case Branch(os) =>
        LeqFacts(All(Unknown), All(Unknown));
        if |os| == 1 {
          JoinOfOne(c, v, os);
          JoinOfOne(c, v', os);
          OperandMonotone(c, v, v', os[0]);
        }
    }
  }

  lemma {:induction false} SameOperands(c: Code, v: Variances, id: nat, info: Info, os: seq<Value>)
    requires Result(id) !in os
    ensures MeetAll(c, v[id := info], os) == MeetAll(c, v, os) && JoinAll(c, v[id := info], os) == JoinAll(c, v, os)
    decreases |os|
  {
    if os != [] {
      SameOperands(c, v, id, info, os[..|os| - 1]);
      assert os[|os| - 1] != Result(id);
    }
  }

  /** What does not use the changed value is not affected. */
  lemma TransferSame(c: Code, v: Variances, id: nat, info: Info, x: Inst)
    requires !Uses(x, id)
    ensures Transfer(c, v[id := info], x) == Transfer(c, v, x)
  {
    SameOperands(c, v, id, info, Operands(x));
  }

  // --------------------------------------------------------------------------- the worklist

  ghost predicate Settled(c: Code, v: Variances, b: Block, i: int)
    requires Place(c, b, i)
  {
    InfoOf(c, v, Result(c.blocks[b][i].id)) == Transfer(c, v, c.blocks[b][i])
  }

  /** Nothing lies below its transfer function; all that is not waiting is settled, and of the
      block under analysis the first n instructions, unless it waits again. */
  ghost predicate Analyzing(c: Code, v: Variances, queue: seq<Block>, current: Block, n: nat) {
    && (forall b, i :: Place(c, b, i) ==> Leq(Transfer(c, v, c.blocks[b][i]), InfoOf(c, v, Result(c.blocks[b][i].id))))
    && (forall b, i :: Place(c, b, i) && b !in queue && (b == current ==> i < n) ==> Settled(c, v, b, i))
  }

  ghost predicate BetweenBlocks(c: Code, v: Variances, queue: seq<Block>) {
    && (forall b, i :: Place(c, b, i) ==> Leq(Transfer(c, v, c.blocks[b][i]), InfoOf(c, v, Result(c.blocks[b][i].id))))
    && (forall b, i :: Place(c, b, i) && b !in queue ==> Settled(c, v, b, i))
  }

  /** The blocks that a change of `id`, defined in block b, puts into the queue. */
  function UserBlocks(c: Code, b: Block, id: nat): set<Block> {
    set d, j | d in c.blocks && 0 <= j < |c.blocks[d]| && Uses(c.blocks[d][j], id)
      && (d == b ==> c.blocks[d][j].phi) :: d
  }

  /** Block d uses what b defines, in a PHI if d is b. */
  ghost predicate HasUser(c: Code, b: Block, id: nat, d: Block) {
    d in c.blocks && exists y :: y in c.blocks[d] && (d == b ==> y.phi) && Result(id) in Operands(y)
  }

  lemma StartsUnknown(c: Code, queue: seq<Block>)
    requires forall b :: b in c.blocks ==> b in queue
    ensures BetweenBlocks(c, map[], queue)
  {
    forall b, i | Place(c, b, i)
      ensures Leq(Transfer(c, map[], c.blocks[b][i]), All(Unknown))
    {
      LeqFacts(Transfer(c, map[], c.blocks[b][i]), All(Unknown));
    }
  }

  lemma BlockBegins(c: Code, v: Variances, queue: seq<Block>)
    requires BetweenBlocks(c, v, queue) && queue != []
    ensures Analyzing(c, v, queue[1..], queue[0], 0)
  {
    hide Transfer, Leq;
    assert queue == [queue[0]] + queue[1..];
  }

  lemma BlockEnds(c: Code, v: Variances, queue: seq<Block>, b: Block)
    requires Analyzing(c, v, queue, b, if b in c.blocks then |c.blocks[b]| else 0)
    ensures BetweenBlocks(c, v, queue)
  {
    hide Transfer, Leq;
  }

  lemma Unchanged(c: Code, v: Variances, queue: seq<Block>, b: Block, n: nat)
    requires Analyzing(c, v, queue, b, n) && Place(c, b, n) && Settled(c, v, b, n)
    ensures Analyzing(c, v, queue, b, n + 1)
  {
    hide Transfer, Leq;
  }

  /** An update lowers one value, so that all values stay above their transfer functions. */
  lemma UpdateLowers(c: Code, v: Variances, queue: seq<Block>, b: Block, n: nat)
    requires CodeOk(c) && BranchesOk(c) && Analyzing(c, v, queue, b, n) && Place(c, b, n)
    ensures var x := c.blocks[b][n]; Below(c, v[x.id := Transfer(c, v, x)], v)
    ensures var x := c.blocks[b][n]; var v' := v[x.id := Transfer(c, v, x)];
            forall d, i :: Place(c, d, i) ==>
                   Leq(Transfer(c, v', c.blocks[d][i]), InfoOf(c, v', Result(c.blocks[d][i].id)))
  {
    hide Transfer, Leq, Settled, Uses;
    var x := c.blocks[b][n];
    var v' := v[x.id := Transfer(c, v, x)];
    forall id
      ensures Leq(InfoOf(c, v', Result(id)), InfoOf(c, v, Result(id)))
    {
      LeqFacts(InfoOf(c, v, Result(id)), InfoOf(c, v, Result(id)));
    }
    forall d, i | Place(c, d, i)
      ensures Leq(Transfer(c, v', c.blocks[d][i]), InfoOf(c, v', Result(c.blocks[d][i].id)))
    {
      var y := c.blocks[d][i];
      TransferMonotone(c, v', v, y);
      if y.id == x.id {
        assert d == b && i == n;
      } else {
        LeqTrans(Transfer(c, v', y), Transfer(c, v, y), InfoOf(c, v, Result(y.id)));
      }
    }
  }

  /** The update leaves settled what is not put into the queue: users further down in the block
      come later, and PHIs of the block bring it back. */
  lemma UpdateSettles(c: Code, v: Variances, queue: seq<Block>, b: Block, n: nat, queue': seq<Block>)
    requires CodeOk(c) && BranchesOk(c) && Analyzing(c, v, queue, b, n) && Place(c, b, n)
    requires queue <= queue' && forall d :: d in UserBlocks(c, b, c.blocks[b][n].id) ==> d in queue'
    ensures var x := c.blocks[b][n]; Analyzing(c, v[x.id := Transfer(c, v, x)], queue', b, n + 1)
  {
    hide Transfer, Leq, Uses;
    var x := c.blocks[b][n];
    var v' := v[x.id := Transfer(c, v, x)];
    UpdateLowers(c, v, queue, b, n);
    forall d, i | Place(c, d, i) && d !in queue' && (d == b ==> i < n + 1)
      ensures Settled(c, v', d, i)
    {
      var y := c.blocks[d][i];
      assert Uses(y, x.id) && d == b ==> y.phi;
      assert Uses(y, x.id) ==> d in UserBlocks(c, b, x.id);
      TransferSame(c, v, x.id, Transfer(c, v, x), y);
      if y.id != x.id {
        assert Settled(c, v, d, i);
      }
    }
  }

  function Ids(c: Code): set<nat> {
    set b, i | b in c.blocks && 0 <= i < |c.blocks[b]| :: c.blocks[b][i].id
  }

  /** How far the values may still descend. */
  ghost function Pending(c: Code, v: Variances): set<(nat, nat)> {
    set id, r | id in Ids(c) && 0 <= r < Height(InfoOf(c, v, Result(id))) :: (id, r)
  }

  lemma PendingShrinks(c: Code, v: Variances, v': Variances, id: nat)
    requires Below(c, v', v) && id in Ids(c) && InfoOf(c, v', Result(id)) != InfoOf(c, v, Result(id))
    ensures Pending(c, v') < Pending(c, v)
  {
    hide Ids, Height, Leq, InfoOf;
    forall k | k in Ids(c)
      ensures Height(InfoOf(c, v', Result(k))) <= Height(InfoOf(c, v, Result(k)))
    {
      LeqFacts(InfoOf(c, v', Result(k)), InfoOf(c, v, Result(k)));
    }
    LeqFacts(InfoOf(c, v', Result(id)), InfoOf(c, v, Result(id)));
    var h := Height(InfoOf(c, v', Result(id)));
    assert (id, h) in Pending(c, v) && (id, h) !in Pending(c, v');
  }

  /** No value lies above what its transfer function gives. */
  ghost predicate Supported(c: Code, v: Variances) {
    forall b, i :: Place(c, b, i) ==> Leq(InfoOf(c, v, Result(c.blocks[b][i].id)), Transfer(c, v, c.blocks[b][i]))
  }

  /** Whatever is supported lies below, in particular whatever solves the equations. */
  ghost predicate AboveSolutions(c: Code, v: Variances) {
    forall w :: Supported(c, w) ==> Below(c, w, v)
  }

  lemma UnknownIsAbove(c: Code)
    ensures AboveSolutions(c, map[])
  {
    forall w, id: nat | Supported(c, w)
      ensures Leq(InfoOf(c, w, Result(id)), InfoOf(c, map[], Result(id)))
    {
      LeqFacts(InfoOf(c, w, Result(id)), All(Unknown));
    }
  }

  lemma UpdateStaysAbove(c: Code, v: Variances, b: Block, n: nat)
    requires BranchesOk(c) && AboveSolutions(c, v) && Place(c, b, n)
    ensures var x := c.blocks[b][n]; AboveSolutions(c, v[x.id := Transfer(c, v, x)])
  {
    hide Transfer, Leq;
    var x := c.blocks[b][n];
    var v' := v[x.id := Transfer(c, v, x)];
    forall w | Supported(c, w)
      ensures Below(c, w, v')
    {
      assert Below(c, w, v);
      TransferMonotone(c, w, v, x);
      LeqTrans(InfoOf(c, w, Result(x.id)), Transfer(c, w, x), Transfer(c, v, x));
    }
  }

  /** What an analysis of blocks keeps. */
  ghost predicate Keeps(c: Code, v: Variances, queue: seq<Block>, v': Variances, queue': seq<Block>) {
    && Below(c, v', v) && (AboveSolutions(c, v) ==> AboveSolutions(c, v'))
    && ((v' == v && queue' == queue) || Pending(c, v') < Pending(c, v))
  }

  lemma KeepsSelf(c: Code, v: Variances, queue: seq<Block>)
    ensures Keeps(c, v, queue, v, queue)
  {
    forall id: nat
      ensures Leq(InfoOf(c, v, Result(id)), InfoOf(c, v, Result(id)))
    {
    }
  }

  lemma KeepsTrans(c: Code, v: Variances, q: seq<Block>, v1: Variances, q1: seq<Block>, v2: Variances, q2: seq<Block>)
    requires Keeps(c, v, q, v1, q1) && Keeps(c, v1, q1, v2, q2)
    ensures Keeps(c, v, q, v2, q2)
  {
    hide AboveSolutions, Pending, Leq, InfoOf;
    forall id
      ensures Leq(InfoOf(c, v2, Result(id)), InfoOf(c, v, Result(id)))
    {
      LeqTrans(InfoOf(c, v2, Result(id)), InfoOf(c, v1, Result(id)), InfoOf(c, v, Result(id)));
    }
  }

  lemma UpdateKeeps(c: Code, v: Variances, queue: seq<Block>, b: Block, n: nat, queue': seq<Block>)
    requires CodeOk(c) && BranchesOk(c) && Analyzing(c, v, queue, b, n) && Place(c, b, n) && !Settled(c, v, b, n)
    ensures var x := c.blocks[b][n]; Keeps(c, v, queue, v[x.id := Transfer(c, v, x)], queue')
  {
    hide Transfer, AboveSolutions, Pending, Below, Analyzing;
    var x := c.blocks[b][n];
    UpdateLowers(c, v, queue, b, n);
    assert x.id in Ids(c);
    PendingShrinks(c, v, v[x.id := Transfer(c, v, x)], x.id);
    if AboveSolutions(c, v) {
      UpdateStaysAbove(c, v, b, n);
    }
  }

  // -------------------------------------------------------------- the result, without its making

  /** Every instruction has what its rule asks for. */
  ghost predicate Solves(c: Code, v: Variances) {
    forall b, i :: Place(c, b, i) ==> ByOperands(c, v, c.blocks[b][i], InfoOf(c, v, Result(c.blocks[b][i].id)))
  }

  /** The instruction that computes q has o as an operand. */
  ghost predicate TakesFrom(c: Code, q: Value, o: Value) {
    q.Result? && exists b, i :: Place(c, b, i) && c.blocks[b][i].id == q.id && o in Operands(c.blocks[b][i])
  }

  /** What is known of q without a look at others: of constants, arguments and the results of
      instructions that have it fixed. */
  ghost predicate Known(c: Code, q: Value, info: Info) {
    match q
    case Result(id) => exists b, i :: Place(c, b, i) && c.blocks[b][i].id == id && c.blocks[b][i].rule == Fixed(info)
    case Argument(n) => n < |c.arguments| && info == c.arguments[n]
    case Constant => info == All(Invariant)
  }

  ghost predicate OperandWalk(c: Code, qs: seq<Value>) {
    qs != [] && forall i :: 0 <= i < |qs| - 1 ==> TakesFrom(c, qs[i], qs[i + 1])
  }

  /** A walk along operands leads from q to where `info` is known. */
  ghost predicate LeadsTo(c: Code, q: Value, info: Info) {
    exists qs :: OperandWalk(c, qs) && qs[0] == q && Known(c, qs[|qs| - 1], info)
  }

  /** The value of q is the greatest lower bound of all that walks along operands lead to. */
  ghost predicate MeetsWalks(c: Code, v: Variances, q: Value) {
    forall w :: Leq(w, InfoOf(c, v, q)) <==> forall info :: LeadsTo(c, q, info) ==> Leq(w, info)
  }

  lemma LeadsStep(c: Code, q: Value, o: Value, info: Info)
    requires TakesFrom(c, q, o) && LeadsTo(c, o, info)
    ensures LeadsTo(c, q, info)
  {
    hide TakesFrom, Known;
    var qs :| OperandWalk(c, qs) && qs[0] == o && Known(c, qs[|qs| - 1], info);
    assert OperandWalk(c, [q] + qs);
  }

  lemma LeadsHere(c: Code, q: Value, info: Info)
    requires Known(c, q, info)
    ensures LeadsTo(c, q, info)
  {
    assert OperandWalk(c, [q]);
  }

  /** Nothing lies above what it is computed from. */
  lemma StepLowers(c: Code, v: Variances, q: Value, o: Value)
    requires BranchesOk(c) && Solves(c, v) && TakesFrom(c, q, o)
    ensures Leq(InfoOf(c, v, q), InfoOf(c, v, o))
  {
    hide Leq, InfoOf;
    var b, i :| Place(c, b, i) && c.blocks[b][i].id == q.id && o in Operands(c.blocks[b][i]);
    assert ByOperands(c, v, c.blocks[b][i], InfoOf(c, v, q));
    LeqFacts(InfoOf(c, v, q), InfoOf(c, v, o));
    LeqFacts(InfoOf(c, v, o), InfoOf(c, v, q));
  }

  lemma KnownIsValue(c: Code, v: Variances, q: Value, info: Info)
    requires Solves(c, v) && Known(c, q, info)
    ensures InfoOf(c, v, q) == info
  {
    hide Leq;
    if q.Result? {
      var b, i :| Place(c, b, i) && c.blocks[b][i].id == q.id && c.blocks[b][i].rule == Fixed(info);
      assert ByOperands(c, v, c.blocks[b][i], InfoOf(c, v, q));
    }
  }

  lemma {:induction false} WalkLowers(c: Code, v: Variances, qs: seq<Value>)
    requires BranchesOk(c) && Solves(c, v) && OperandWalk(c, qs)
    ensures Leq(InfoOf(c, v, qs[0]), InfoOf(c, v, qs[|qs| - 1]))
    decreases |qs|
  {
    hide Leq, InfoOf, BranchesOk, Solves, TakesFrom;
    if |qs| == 1 {
      LeqFacts(InfoOf(c, v, qs[0]), InfoOf(c, v, qs[0]));
    } else {
      assert OperandWalk(c, qs[1..]);
      WalkLowers(c, v, qs[1..]);
      assert TakesFrom(c, qs[0], qs[0 + 1]);
      StepLowers(c, v, qs[0], qs[1]);
      LeqTrans(InfoOf(c, v, qs[0]), InfoOf(c, v, qs[1]), InfoOf(c, v, qs[|qs| - 1]));
    }
  }

  /** What lies below all that walks from q lead to. */
  ghost predicate Bounded(c: Code, q: Value, w: Info) {
    forall info :: LeadsTo(c, q, info) ==> Leq(w, info)
  }

  /** The values with w wherever it is a bound of all walks, and the least kind elsewhere. */
  ghost function Guess(c: Code, w: Info): Variances {
    map id | id in Ids(c) :: if Bounded(c, Result(id), w) then w else All(NonInvariant)
  }

  lemma BoundedOperand(c: Code, w: Info, q: Value, o: Value)
    requires Bounded(c, q, w) && TakesFrom(c, q, o)
    ensures Leq(w, InfoOf(c, Guess(c, w), o))
  {
    hide TakesFrom, LeadsTo, Leq, Ids;
    forall info | LeadsTo(c, o, info)
      ensures Leq(w, info)
    {
      LeadsStep(c, q, o, info);
    }
    LeqFacts(w, w);
    match o {
      case Result(_) =>
      case Argument(n) =>
        if n < |c.arguments| {
          LeadsHere(c, o, c.arguments[n]);
        }
      case Constant => LeadsHere(c, o, All(Invariant));
    }
  }

  lemma GuessIsSupported(c: Code, w: Info)
    requires BranchesOk(c) && CodeOk(c)
    ensures Supported(c, Guess(c, w))
  {
    hide Leq, Transfer, LeadsTo, CodeOk, BranchesOk, Guess;
    var v := Guess(c, w);
    forall b, i | Place(c, b, i)
      ensures Leq(InfoOf(c, v, Result(c.blocks[b][i].id)), Transfer(c, v, c.blocks[b][i]))
    {
      GuessAt(c, w, b, i);
    }
  }

  lemma GuessAt(c: Code, w: Info, b: Block, i: nat)
    requires BranchesOk(c) && Place(c, b, i)
    ensures var v := Guess(c, w);
            Leq(InfoOf(c, v, Result(c.blocks[b][i].id)), Transfer(c, v, c.blocks[b][i]))
  {
    hide Leq, Transfer, LeadsTo;
    var v, x := Guess(c, w), c.blocks[b][i];
    assert x.id in Ids(c);
    TransferByOperands(c, v, x, Transfer(c, v, x));
    if Bounded(c, Result(x.id), w) {
      forall o | o in Operands(x)
        ensures Leq(w, InfoOf(c, v, o))
      {
        assert TakesFrom(c, Result(x.id), o);
        BoundedOperand(c, w, Result(x.id), o);
      }
      LeqFacts(w, w);
      if x.rule.Fixed? {
        LeadsHere(c, Result(x.id), x.rule.info);
      }
    } else {
      NothingBelow(Transfer(c, v, x));
    }
  }

  lemma NothingBelow(a: Info)
    ensures Leq(All(NonInvariant), a)
  {
  }

  /** The greatest solution is the meet over all walks along operands. */
  lemma GreatestMeetsWalks(c: Code, v: Variances, q: Value)
    requires CodeOk(c) && BranchesOk(c) && Solves(c, v) && AboveSolutions(c, v)
    ensures MeetsWalks(c, v, q)
  {
    hide Leq, LeadsTo, CodeOk, BranchesOk, Solves, Supported, Guess, InfoOf, Known;
    forall w
      ensures Leq(w, InfoOf(c, v, q)) <==> Bounded(c, q, w)
    {
      if Leq(w, InfoOf(c, v, q)) {
        forall info | LeadsTo(c, q, info)
          ensures Leq(w, info)
        {
          WalkIsAbove(c, v, q, info);
          LeqTrans(w, InfoOf(c, v, q), info);
        }
      }
      if Bounded(c, q, w) {
        GuessIsSupported(c, w);
        BoundIsMet(c, v, q, w);
      }
    }
  }

  lemma WalkIsAbove(c: Code, v: Variances, q: Value, info: Info)
    requires BranchesOk(c) && Solves(c, v) && LeadsTo(c, q, info)
    ensures Leq(InfoOf(c, v, q), info)
  {
    hide Leq, InfoOf, BranchesOk, Solves, Known;
    var qs :| OperandWalk(c, qs) && qs[0] == q && Known(c, qs[|qs| - 1], info);
    WalkLowers(c, v, qs);
    KnownIsValue(c, v, qs[|qs| - 1], info);
  }

  lemma BoundIsMet(c: Code, v: Variances, q: Value, w: Info)
    requires Bounded(c, q, w) && Below(c, Guess(c, w), v)
    ensures Leq(w, InfoOf(c, v, q))
  {
    hide LeadsTo, Leq, Ids;
    LeqFacts(w, w);
    match q {
      case Result(id) =>
        var g := InfoOf(c, Guess(c, w), q);
        assert Leq(g, InfoOf(c, v, Result(id)));
        LeqTrans(w, g, InfoOf(c, v, q));
      case Argument(n) =>
        if n < |c.arguments| {
          LeadsHere(c, q, c.arguments[n]);
        }
      case Constant => LeadsHere(c, q, All(Invariant));
    }
  }

  class ThreadInvarianceImpl {
    const code: Code
    const outDependences: map<Block, set<Block>>   // of the terminators
    var variances: Variances
    var queue: seq<Block>

    constructor (c: Code, dependences: map<Block, set<Block>>)
      requires CodeOk(c) && BranchesOk(c)
      ensures code == c && outDependences == dependences && variances == map[] && queue == []
    {
      code, outDependences, variances, queue := c, dependences, map[], [];
    }

    /** Puts blocks into the queue that are not in it. */
    method Enqueue(blocks: set<Block>)
      modifies this`queue
      ensures old(queue) <= queue && forall d :: d in queue <==> d in old(queue) || d in blocks
    {
      var todo := blocks;
      while todo != {}
        invariant old(queue) <= queue && todo <= blocks
        invariant forall d :: d in queue ==> d in old(queue) || d in blocks
        invariant forall d :: d in blocks && d !in todo ==> d in queue
        decreases todo
      {
        var d :| d in todo;
        if d !in queue {
          queue := queue + [d];
        }
        todo := todo - {d};
      }
    }

    /** Instruction n of block b gets what its transfer function gives. If that is new, the blocks
        with users are put into the queue, b itself only if a PHI uses it, and at the end of b
        those that depend on where it branches to; otherwise nothing is. */
    method Visit(b: Block, n: nat)
      requires CodeOk(code) && BranchesOk(code) && Analyzing(code, variances, queue, b, n) && Place(code, b, n)
      modifies this
      ensures Analyzing(code, variances, queue, b, n + 1)
      ensures Keeps(code, old(variances), old(queue), variances, queue)
      ensures variances == old(variances) ==> queue == old(queue)
      ensures variances != old(variances) ==>
                forall d :: d in queue <==>
                              || d in old(queue)
                              || HasUser(code, b, code.blocks[b][n].id, d)
                              || (n + 1 == |code.blocks[b]| && b in outDependences && d in outDependences[b])
    {
      hide Analyzing, Keeps, Transfer, CodeOk;
      var x := code.blocks[b][n];
      var info := Transfer(code, variances, x);
      KeepsSelf(code, variances, queue);
      if InfoOf(code, variances, Result(x.id)) == info {
        Unchanged(code, variances, queue, b, n);
        return;
      }
      ghost var v, q := variances, queue;
      variances := variances[x.id := info];
      var blocks := UserBlocks(code, b, x.id);
      if n + 1 == |code.blocks[b]| && b in outDependences {
        blocks := blocks + outDependences[b];
      }
      Enqueue(blocks);
      UpdateSettles(code, v, q, b, n, queue);
      UpdateKeeps(code, v, q, b, n, queue);
    }

    method AnalyzeBlock(b: Block)
      requires CodeOk(code) && BranchesOk(code) && Analyzing(code, variances, queue, b, 0)
      modifies this
      ensures BetweenBlocks(code, variances, queue)
      ensures Keeps(code, old(variances), old(queue), variances, queue)
    {
      hide Analyzing, Keeps, BetweenBlocks, CodeOk, BranchesOk;
      KeepsSelf(code, variances, queue);
      var n := 0;
      var size := if b in code.blocks then |code.blocks[b]| else 0;
      while n < size
        invariant 0 <= n <= size && Analyzing(code, variances, queue, b, n)
        invariant Keeps(code, old(variances), old(queue), variances, queue)
      {
        ghost var v, q := variances, queue;
        Visit(b, n);
        KeepsTrans(code, old(variances), old(queue), v, q, variances, queue);
        n := n + 1;
      }
      BlockEnds(code, variances, queue, b);
    }

    /** Runs until no block waits. Then every instruction has what its rule asks for, nothing that
        does lies higher, and each value is the meet of what all walks along operands lead to. */
    method Build()
      requires CodeOk(code) && BranchesOk(code) && variances == map[]
      modifies this
      ensures Solves(code, variances)
      ensures forall w :: Solves(code, w) ==> Below(code, w, variances)
      ensures forall q :: MeetsWalks(code, variances, q)
    {
      hide Keeps, BetweenBlocks, AboveSolutions, Solves, Pending, CodeOk, BranchesOk, Below, MeetsWalks;
      queue := [];
      Enqueue(code.blocks.Keys);
      StartsUnknown(code, queue);
      UnknownIsAbove(code);
      while queue != []
        invariant BetweenBlocks(code, variances, queue) && AboveSolutions(code, variances)
        decreases Pending(code, variances), |queue|
      {
        ghost var v, q := variances, queue;
        var b := queue[0];
        BlockBegins(code, variances, queue);
        queue := queue[1..];
        AnalyzeBlock(b);
        KeepsFacts(code, v, q[1..], variances, queue);
      }
      NothingWaits(code, variances);
      forall q
        ensures MeetsWalks(code, variances, q)
      {
        GreatestMeetsWalks(code, variances, q);
      }
    }
  }

  lemma KeepsFacts(c: Code, v: Variances, q: seq<Block>, v': Variances, q': seq<Block>)
    requires Keeps(c, v, q, v', q')
    ensures AboveSolutions(c, v) ==> AboveSolutions(c, v')
    ensures (v' == v && q' == q) || Pending(c, v') < Pending(c, v)
  {
  }

  lemma NothingWaits(c: Code, v: Variances)
    requires BranchesOk(c) && BetweenBlocks(c, v, []) && AboveSolutions(c, v)
    ensures Solves(c, v) && forall w :: Solves(c, w) ==> Below(c, w, v)
  {
    hide Transfer, Leq, ByOperands, InfoOf, Below;
    forall b, i | Place(c, b, i)
      ensures ByOperands(c, v, c.blocks[b][i], InfoOf(c, v, Result(c.blocks[b][i].id)))
    {
      assert Settled(c, v, b, i);
      TransferByOperands(c, v, c.blocks[b][i], InfoOf(c, v, Result(c.blocks[b][i].id)));
    }
    forall w | Solves(c, w)
      ensures Supported(c, w)
    {
      SolvedIsSupported(c, w);
    }
  }

  lemma SolvedIsSupported(c: Code, w: Variances)
    requires BranchesOk(c) && Solves(c, w)
    ensures Supported(c, w)
  {
    hide Transfer, Leq, ByOperands, InfoOf;
    forall b, i | Place(c, b, i)
      ensures Leq(InfoOf(c, w, Result(c.blocks[b][i].id)), Transfer(c, w, c.blocks[b][i]))
    {
      TransferByOperands(c, w, c.blocks[b][i], InfoOf(c, w, Result(c.blocks[b][i].id)));
      LeqFacts(Transfer(c, w, c.blocks[b][i]), Transfer(c, w, c.blocks[b][i]));
    }
  }
}
