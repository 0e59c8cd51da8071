/** An execution that replication loses. Behind the barrier in block 1 the two items part, to 2
    and 3, and meet again at the barrier in 4, to which there is a way around block 1 as well. The
    pass copies block 4 for each of the two edges. */
module Diverging {
  import opened Graphs
  import opened Cloning
  import opened Meetings
  import opened TailReplication
  import opened WorkItems
  import opened Interleaving
  import opened ContextPass
  import opened SharedRegisters
  import opened Replicas
  import opened Survival

  const FIRST: seq<Inst> := [LocalId(1, 0), Compute(2, 0, [Reg(1)])]

  /** The items' condition is whether their local id is 0. */
  const PARTING := Kernel(0, map[], map[0 := FIRST, 1 := [Barrier], 4 := [Barrier]],
                          map[0 := Branch(Imm(1), 1, 4), 1 := Branch(Reg(2), 2, 3), 2 := Goto(4), 3 := Goto(4),
                            4 := Return],
                          (op: nat, args: seq<int>) => if args == [0] then 1 else 0, (w: nat, _) => w)

  const ONCE := Graph(0, map[0 := [1, 4], 1 := [2, 3], 2 := [5], 3 := [4], 4 := [], 5 := []])
  const TWICE := Graph(0, map[0 := [1, 4], 1 := [2, 3], 2 := [5], 3 := [6], 4 := [], 5 := [], 6 := []])
  const COPY2 := Copying(Round(DIVERGING, ONCE, map[4 := 5], map[5 := 4], 2, 0), map[])
  const COPY3 := Copying(Round(ONCE, TWICE, map[4 := 6], map[6 := 4], 3, 0), map[])

  // ------------------------------------------------------------------------ the two rounds

  lemma GraphOfParting()
    ensures Cfg(PARTING) == DIVERGING
  {
    assert Blocks(PARTING) == {0, 1, 2, 3, 4};
    assert Cfg(PARTING).succ == DIVERGING.succ;
  }

  lemma {:induction false} NoEdgesOn(e: Rel, b: Block, s: Block)
    requires forall v :: (b, v) !in e
    ensures Reach(e, b, s) <==> s == b
  {
    ReachSelf(e, b);
    if p :| WalkFromTo(e, p, b, s) {
      if |p| > 1 {
        FirstStep(e, p);
      }
    }
  }

  lemma FirstRound()
    ensures COPY2.r.Ok() && BelowBarrier(COPY2.r, {1, 4})
  {
    hide Dominates, Reach, Reducible;
    DivergingJoin();
    forall s
      ensures s in COPY2.r.copies <==> Reach(Forward(DIVERGING), 4, s)
    {
      NoEdgesOn(Forward(DIVERGING), 4, s);
    }
    assert COPY2.r.Source() && COPY2.r.Copied() && COPY2.r.Rewired();
  }

  lemma SecondRound()
    ensures COPY3.r.Ok() && BelowBarrier(COPY3.r, {1, 4, 5})
  {
    hide Dominates, Reach, Reducible;
    FirstRound();
    DivergingJoin();
    SecondEdgeTurns(COPY2.r, 1, 3, 0);
    COPY2.r.StaysReducible();
    forall s
      ensures s in COPY3.r.copies <==> Reach(Forward(ONCE), 4, s)
    {
      NoEdgesOn(Forward(ONCE), 4, s);
    }
    assert COPY3.r.Source() && COPY3.r.Copied() && COPY3.r.Rewired();
  }

  /** A barrier defines no names, so that its copies need none. */
  lemma NoNamesNeeded(k: Kernel, r: Round)
    requires (forall b :: Phis(k, b) == []) && (forall d :: d in r.copies ==> Code(k, d) == [Barrier])
    ensures NamesOk(k, r, map[])
  {
  }

  lemma NamesOfRounds()
    ensures NamesOk(PARTING, COPY2.r, map[])
    ensures COPY2.r.Ok() && NamesOk(Replicated(PARTING, COPY2.r, map[]), COPY3.r, map[])
  {
    hide Round.Ok, Replicated, NamesOk;
    FirstRound();
    GraphOfParting();
    NoNamesNeeded(PARTING, COPY2.r);
    NoPhis(PARTING, COPY2.r, map[]);
    Kept(PARTING, COPY2.r, map[], 4);
    NoNamesNeeded(Replicated(PARTING, COPY2.r, map[]), COPY3.r);
  }

  // ------------------------------------------------------------------------- the execution

  /** The kernel, with the items led on from 2 to a and from 3 to b. */
  ghost predicate LeadsTo(h: Kernel, a: Block, b: Block) {
    && h.entry == 0 && h.alu == PARTING.alu && h.ids == PARTING.ids && (forall t :: Phis(h, t) == [])
    && Code(h, 0) == FIRST && Terminator(h, 0) == Branch(Imm(1), 1, 4)
    && Code(h, 1) == [Barrier] && Terminator(h, 1) == Branch(Reg(2), 2, 3)
    && Code(h, 2) == [] && Terminator(h, 2) == Goto(a) && Code(h, 3) == [] && Terminator(h, 3) == Goto(b)
  }

  const NOTHING: map<Name, int> := map[]
  const ENV0: map<Name, int> := map[1 := 0, 2 := 1]
  const ENV1: map<Name, int> := map[1 := 1, 2 := 0]

  /** The steps of an item: up to the barrier, and on from it. */
  lemma ItemSteps(h: Kernel, a: Block, b: Block, w: nat, m: Memory)
    requires LeadsTo(h, a, b) && w < 2
    ensures var env, env1 := if w == 0 then ENV0 else ENV1, NOTHING[1 := w];
            && !Stopped(h, Local(0, 0, NOTHING)) && Step(h, w, Local(0, 0, NOTHING), m) == (Local(0, 1, env1), m)
            && !Stopped(h, Local(0, 1, env1)) && Step(h, w, Local(0, 1, env1), m) == (Local(0, 2, env), m)
            && !Stopped(h, Local(0, 2, env)) && Step(h, w, Local(0, 2, env), m) == (Local(1, 0, env), m)
            && !Stopped(h, Local(1, 1, env))
               && Step(h, w, Local(1, 1, env), m) == (Local(if w == 0 then 2 else 3, 0, env), m)
    ensures !Stopped(h, Local(2, 0, ENV0)) && Step(h, 0, Local(2, 0, ENV0), m) == (Local(a, 0, ENV0), m)
    ensures !Stopped(h, Local(3, 0, ENV1)) && Step(h, 1, Local(3, 0, ENV1), m) == (Local(b, 0, ENV1), m)
  {
    var env1 := NOTHING[1 := w];
    assert Values(env1, [Reg(1)]) == [w];
    assert env1[2 := if w == 0 then 1 else 0] == if w == 0 then ENV0 else ENV1;
  }

  /** The schedule leads the group from s to a. */
  ghost predicate Leads(h: Kernel, s: State, sched: seq<nat>, a: State) {
    Respects(h, s, sched) && Run(h, s, sched) == a
  }

  lemma NoneYet(h: Kernel, s: State)
    ensures Leads(h, s, [], s)
  {
  }

  /** One step more of item w. */
  lemma Then(h: Kernel, s: State, sched: seq<nat>, a: State, w: nat, b: State)
    requires Leads(h, s, sched, a) && w < |s.items| && |a.items| == |s.items| && !Stopped(h, a.items[w])
    requires b == State(a.items[w := Step(h, w, a.items[w], a.mem).0], Step(h, w, a.items[w], a.mem).1)
    ensures Leads(h, s, sched + [w], b)
  {
    assert (sched + [w])[..|sched|] == sched;
    RunOfStep(h, s, sched, w);
  }

  function Both(l: Local, l2: Local, m: Memory): State {
    State([l, l2], m)
  }

  lemma ToTheBarrier(h: Kernel, a: Block, b: Block, m: Memory)
    requires LeadsTo(h, a, b)
    ensures Leads(h, Launched(h, 2, m), [0, 0, 0, 1, 1, 1], Both(Local(1, 0, ENV0), Local(1, 0, ENV1), m))
  {
    hide Leads, Step, Stopped, LeadsTo;
    var s := Launched(h, 2, m);
    var l := Local(0, 0, NOTHING);
    ItemSteps(h, a, b, 0, m);
    ItemSteps(h, a, b, 1, m);
    EntryIs0(h, a, b);
    assert s.items == [l, l];
    NoneYet(h, s);
    Then(h, s, [], Both(l, l, m), 0, Both(Local(0, 1, NOTHING[1 := 0]), l, m));
    Then(h, s, [] + [0], Both(Local(0, 1, NOTHING[1 := 0]), l, m), 0, Both(Local(0, 2, ENV0), l, m));
    Then(h, s, [] + [0] + [0], Both(Local(0, 2, ENV0), l, m), 0, Both(Local(1, 0, ENV0), l, m));
    var s3 := [] + [0] + [0] + [0];
    Then(h, s, s3, Both(Local(1, 0, ENV0), l, m), 1, Both(Local(1, 0, ENV0), Local(0, 1, NOTHING[1 := 1]), m));
    Then(h, s, s3 + [1], Both(Local(1, 0, ENV0), Local(0, 1, NOTHING[1 := 1]), m), 1,
         Both(Local(1, 0, ENV0), Local(0, 2, ENV1), m));
    Then(h, s, s3 + [1] + [1], Both(Local(1, 0, ENV0), Local(0, 2, ENV1), m), 1,
      Both(Local(1, 0, ENV0), Local(1, 0, ENV1), m));
    assert s3 + [1] + [1] + [1] == [0, 0, 0, 1, 1, 1];
  }

  lemma EntryIs0(h: Kernel, a: Block, b: Block)
    requires LeadsTo(h, a, b)
    ensures h.entry == 0
  {
  }

  lemma ToTheJoin(h: Kernel, a: Block, b: Block, m: Memory)
    requires LeadsTo(h, a, b)
    ensures Leads(h, Both(Local(1, 1, ENV0), Local(1, 1, ENV1), m), [0, 1, 0, 1],
            Both(Local(a, 0, ENV0), Local(b, 0, ENV1), m))
  {
    hide Leads, Step, Stopped, LeadsTo;
    var s := Both(Local(1, 1, ENV0), Local(1, 1, ENV1), m);
    ItemSteps(h, a, b, 0, m);
    ItemSteps(h, a, b, 1, m);
    NoneYet(h, s);
    Then(h, s, [], s, 0, Both(Local(2, 0, ENV0), Local(1, 1, ENV1), m));
    Then(h, s, [] + [0], Both(Local(2, 0, ENV0), Local(1, 1, ENV1), m), 1,
      Both(Local(2, 0, ENV0), Local(3, 0, ENV1), m));
    Then(h, s, [] + [0] + [1], Both(Local(2, 0, ENV0), Local(3, 0, ENV1), m), 0,
      Both(Local(a, 0, ENV0), Local(3, 0, ENV1), m));
    Then(h, s, [] + [0] + [1] + [0], Both(Local(a, 0, ENV0), Local(3, 0, ENV1), m), 1,
         Both(Local(a, 0, ENV0), Local(b, 0, ENV1), m));
    assert [] + [0] + [1] + [0] + [1] == [0, 1, 0, 1];
  }

  /** To the first barrier, on to the second, and over it. */
  const INTERVALS: seq<seq<nat>> := [[0, 0, 0, 1, 1, 1], [0, 1, 0, 1], []]

  lemma AllowedIff(h: Kernel, a: Block, b: Block, m: Memory)
    requires LeadsTo(h, a, b) && Code(h, a) == [Barrier] && Code(h, b) == [Barrier]
    ensures Allowed(h, Launched(h, 2, m), INTERVALS) <==> a == b
  {
    hide Respects, Run;
    ToTheBarrier(h, a, b, m);
    ToTheJoin(h, a, b, m);
    var s1, s2 := Both(Local(1, 0, ENV0), Local(1, 0, ENV1), m), Both(Local(a, 0, ENV0), Local(b, 0, ENV1), m);
    AtBarrier1(h, a, b, m);
    assert Release(s1).items == [Local(1, 1, ENV0), Local(1, 1, ENV1)];
    AtBarrierIff(h, a, b, m);
    NoneYet(h, Release(s2));
    var rest := INTERVALS[1..];
    assert rest == [[0, 1, 0, 1], []] && rest[1..] == [[]];
    assert Allowed(h, Release(s2), [[]]);
    assert Allowed(h, Release(s1), rest) <==> a == b;
  }

  lemma AtBarrier1(h: Kernel, a: Block, b: Block, m: Memory)
    requires LeadsTo(h, a, b)
    ensures AtBarrier(h, Both(Local(1, 0, ENV0), Local(1, 0, ENV1), m))
  {
  }

  lemma AtBarrierIff(h: Kernel, a: Block, b: Block, m: Memory)
    requires Code(h, a) == [Barrier] && Code(h, b) == [Barrier]
    ensures AtBarrier(h, Both(Local(a, 0, ENV0), Local(b, 0, ENV1), m)) <==> a == b
  {
    var s := Both(Local(a, 0, ENV0), Local(b, 0, ENV1), m);
    assert s.items[1].at == b && s.items[0].at == a;
  }

  lemma Kept(k: Kernel, r: Round, nm: Names, b: Block)
    requires r.Ok() && r.before == Cfg(k) && b !in r.original
    ensures var k' := Replicated(k, r, nm);
            Code(k', b) == Code(k, b) && (b != r.e ==> Terminator(k', b) == Terminator(k, b))
  {
    hide Round.Ok, Replicated;
    ReplicatedIs(k, r, nm, b);
  }

  lemma NoPhis(k: Kernel, r: Round, nm: Names)
    requires r.Ok() && r.before == Cfg(k) && forall b :: Phis(k, b) == []
    ensures forall b :: Phis(Replicated(k, r, nm), b) == []
  {
    hide Round.Ok, Replicated;
    forall b
      ensures Phis(Replicated(k, r, nm), b) == []
    {
      ReplicatedIs(k, r, nm, b);
    }
  }

  lemma BarrierCopied(k: Kernel, r: Round, nm: Names, b: Block)
    requires r.Ok() && r.before == Cfg(k) && b in r.original && Code(k, r.original[b]) == [Barrier]
    ensures Code(Replicated(k, r, nm), b) == [Barrier]
  {
    hide Round.Ok, Replicated;
    ReplicatedIs(k, r, nm, b);
  }

  /** One of the two rounds. */
  lemma LeadsToCopy(k: Kernel, r: Round, nm: Names, a: Block, b: Block, a': Block, b': Block)
    requires r.Ok() && r.before == Cfg(k) && LeadsTo(k, a, b) && (forall x :: x < 4 ==> x !in r.original)
    requires (r.e == 2 && r.after.succ[2] == [a'] && b' == b) || (r.e == 3 && r.after.succ[3] == [b'] && a' == a)
    ensures LeadsTo(Replicated(k, r, nm), a', b')
  {
    hide Round.Ok, Replicated, Cfg;
    RoundFacts(r);
    SameMachine(k, r, nm);
    NoPhis(k, r, nm);
    Kept(k, r, nm, 0);
    Kept(k, r, nm, 1);
    Kept(k, r, nm, 2);
    Kept(k, r, nm, 3);
    EndStays(k, r, nm, r.e);
  }

  lemma TwoCopyings(k: Kernel, c: Copying, c2: Copying)
    requires c.r.Ok() && c2.r.Ok()
    ensures AllRounds([c, c2])
    ensures AllReplicated(k, [c, c2]) == Replicated(Replicated(k, c.r, c.nm), c2.r, c2.nm)
  {
    hide Round.Ok, Replicated;
    assert [c, c2][..1] == [c] && [c][..0] == [];
    assert AllReplicated(k, [c]) == Replicated(k, c.r, c.nm);
  }

  lemma LeadsApart()
    ensures AllRounds([COPY2, COPY3])
    ensures var k' := AllReplicated(PARTING, [COPY2, COPY3]);
            LeadsTo(k', 5, 6) && Code(k', 5) == [Barrier] && Code(k', 6) == [Barrier]
  {
    hide Round.Ok, Replicated, LeadsTo, Cfg;
    FirstRound();
    SecondRound();
    GraphOfParting();
    LeadsTogether();
    var k1 := Replicated(PARTING, COPY2.r, map[]);
    var k2 := Replicated(k1, COPY3.r, map[]);
    CfgReplicated(PARTING, COPY2.r, map[]);
    TwoCopyings(PARTING, COPY2, COPY3);
    LeadsToCopy(PARTING, COPY2.r, map[], 4, 4, 5, 4);
    LeadsToCopy(k1, COPY3.r, map[], 5, 4, 5, 6);
    BarrierCopied(PARTING, COPY2.r, map[], 5);
    Kept(PARTING, COPY2.r, map[], 4);
    Kept(k1, COPY3.r, map[], 5);
    BarrierCopied(k1, COPY3.r, map[], 6);
  }

  /** The kernel is one that the pass takes, the rounds are rounds of the pass, ways from barrier 1
      meet at 4, which it does not dominate, and an execution of the kernel is none of the
      result. */
  lemma ExecutionIsLost(m: Memory)
    ensures AllRounds([COPY2, COPY3]) && AllNamesOk(PARTING, [COPY2, COPY3])
    ensures Chain(Cfg(PARTING), RoundsOf([COPY2, COPY3]), TWICE)
            && AllBelow(BarrierBlocks(PARTING), RoundsOf([COPY2, COPY3]))
    ensures !MeetBelow(Cfg(PARTING), BarrierBlocks(PARTING))
    ensures var k' := AllReplicated(PARTING, [COPY2, COPY3]);
            Allowed(PARTING, Launched(PARTING, 2, m), INTERVALS) && !Allowed(k', Launched(k', 2, m), INTERVALS)
  {
    hide Round.Ok, Replicated, NamesOk, Allowed, LeadsTo, BelowBarrier;
    FirstRound();
    SecondRound();
    GraphOfParting();
    NamesOfRounds();
    LeadsApart();
    AllowedIff(AllReplicated(PARTING, [COPY2, COPY3]), 5, 6, m);
    LeadsTogether();
    AllowedIff(PARTING, 4, 4, m);
    AreRounds();
    MeetOutside();
  }

  lemma LeadsTogether()
    ensures LeadsTo(PARTING, 4, 4) && Code(PARTING, 4) == [Barrier]
  {
  }

  lemma BarriersOfParting()
    ensures BarrierBlocks(PARTING) == {1, 4}
  {
    assert PARTING.code[1][0].Barrier? && PARTING.code[4][0].Barrier?;
    assert PARTING.code[0] == FIRST;
  }

  lemma AreRounds()
    requires COPY2.r.Ok() && COPY3.r.Ok() && BelowBarrier(COPY2.r, {1, 4}) && BelowBarrier(COPY3.r, {1, 4, 5})
    requires Cfg(PARTING) == DIVERGING && NamesOk(PARTING, COPY2.r, map[])
    requires NamesOk(Replicated(PARTING, COPY2.r, map[]), COPY3.r, map[])
    ensures AllRounds([COPY2, COPY3]) && AllNamesOk(PARTING, [COPY2, COPY3])
    ensures Chain(Cfg(PARTING), RoundsOf([COPY2, COPY3]), TWICE)
            && AllBelow(BarrierBlocks(PARTING), RoundsOf([COPY2, COPY3]))
  {
    hide Round.Ok, Replicated, NamesOk, BelowBarrier;
    BarriersOfParting();
    var rs := RoundsOf([COPY2, COPY3]);
    assert [COPY2, COPY3][..1] == [COPY2] && [COPY2][..0] == [];
    assert rs == [COPY2.r, COPY3.r] && rs[..1] == [COPY2.r] && [COPY2.r][..0] == [];
    assert BarsOf({1, 4}, [COPY2.r]) == {1, 4, 5};
    assert AllReplicated(PARTING, [COPY2]) == Replicated(PARTING, COPY2.r, map[]);
    assert AllNamesOk(PARTING, [COPY2]);
    assert Chain(DIVERGING, [COPY2.r], ONCE) && AllBelow({1, 4}, [COPY2.r]);
  }

  lemma MeetOutside()
    ensures !MeetBelow(Cfg(PARTING), BarrierBlocks(PARTING))
  {
    hide Dominates, Reducible;
    GraphOfParting();
    BarriersOfParting();
    DivergingJoin();
    var e := Edges(DIVERGING);
    WalkSnoc(e, [1], 2);
    WalkSnoc(e, [1] + [2], 4);
    WalkSnoc(e, [1], 3);
    WalkSnoc(e, [1] + [3], 4);
    ReachEdge(e, 0, 1);
    var p, q := [1] + [2] + [4], [1] + [3] + [4];
    assert Meet(DIVERGING, {1, 4}, 1, p, q);
    forall i: nat, j: nat
      ensures !PartAt(DIVERGING, p, q, i, j)
    {
      assert p == [1, 2, 4] && q == [1, 3, 4];
    }
  }

  // ---------------------------------------------------------------- a join that does no harm

  /** A barrier in block 1, which may be passed over, and behind the join 2 a branch to 3 and 4. */
  const OPTIONAL := Graph(0, map[0 := [1, 2], 1 := [2], 2 := [3, 4], 3 := [5], 4 := [5], 5 := []])

  lemma OptionalArcs(u: Block, v: Block)
    ensures (u, v) in Edges(OPTIONAL)
       <==> (u, v) in {(0, 1), (0, 2), (1, 2), (2, 3), (2, 4), (3, 5), (4, 5)}
  {
  }

  lemma JoinDominates(x: Block)
    requires x in {3, 4, 5}
    ensures Dominates(OPTIONAL, 2, x)
  {
    hide Edges;
    forall u: Block, v: Block | u in {0, 1} && (u, v) in Edges(OPTIONAL)
      ensures v in {0, 1, 2}
    {
      OptionalArcs(u, v);
    }
    forall p | WalkFromTo(Edges(OPTIONAL), p, 0, x)
      ensures 2 in p
    {
      NonEmpty(Edges(OPTIONAL), p);
      if 2 !in p {
        ClosedAround(OPTIONAL, 2, {0, 1}, p);
      }
    }
  }

  /** The end of a way from a start: from 3 or 4 it goes back to the join. */
  lemma OverTheJoin(p: seq<Block>)
    requires Walk(Edges(OPTIONAL), p) && |p| > 1 && p[0] in {0, 1, 5} && p[|p| - 1] == 5
    ensures |p| > 2 && p[|p| - 3] == 2 && p[|p| - 2] in {3, 4}
  {
    hide Edges;
    LastStep(Edges(OPTIONAL), p);
    OptionalArcs(p[|p| - 2], 5);
    LastStep(Edges(OPTIONAL), p[..|p| - 1]);
    OptionalArcs(p[|p| - 3], p[|p| - 2]);
  }

  lemma NotToEntry(p: seq<Block>)
    requires Walk(Edges(OPTIONAL), p) && |p| > 1
    ensures p[|p| - 1] != 0
  {
    hide Edges;
    LastStep(Edges(OPTIONAL), p);
    OptionalArcs(p[|p| - 2], p[|p| - 1]);
  }

  /** Ways meet below the join, and the edge from the barrier to the join is one to be turned. */
  lemma MeetBelowTheJoin()
    ensures MeetBelow(OPTIONAL, {0, 1, 5}) && SingleEdges(OPTIONAL)
    ensures (1, 2) in Forward(OPTIONAL) && Dominates(OPTIONAL, 1, 1) && !Dominates(OPTIONAL, 1, 2)
  {
    hide Dominates, Edges;
    var g, e, bars: set<Block> := OPTIONAL, Edges(OPTIONAL), {0, 1, 5};
    forall d, p, q | Starts(g, bars, d) && Meet(g, bars, d, p, q)
      ensures exists i: nat, j: nat :: PartAt(g, p, q, i, j)
    {
      var u, v, x := p[|p| - 2], q[|q| - 2], p[|p| - 1];
      LastStep(e, p);
      LastStep(e, q);
      OptionalArcs(u, x);
      OptionalArcs(v, x);
      if x == 5 {
        OverTheJoin(p);
        OverTheJoin(q);
        JoinDominates(5);
        JoinDominates(u);
        JoinDominates(v);
        assert PartAt(g, p, q, |p| - 3, |q| - 3);
      } else {
        NotFromEntry(d, p, q);
      }
    }
    EdgeTurned();
  }

  lemma NotFromEntry(d: Block, p: seq<Block>, q: seq<Block>)
    requires Meet(OPTIONAL, {0, 1, 5}, d, p, q)
    ensures p[|p| - 1] == 5
  {
    hide Edges;
    var e := Edges(OPTIONAL);
    LastStep(e, p);
    LastStep(e, q);
    OptionalArcs(p[|p| - 2], p[|p| - 1]);
    OptionalArcs(q[|q| - 2], q[|q| - 1]);
    if |p| > 2 {
      NotToEntry(p[..|p| - 1]);
    }
    if |q| > 2 {
      NotToEntry(q[..|q| - 1]);
    }
  }

  lemma EdgeTurned()
    ensures (1, 2) in Forward(OPTIONAL) && Dominates(OPTIONAL, 1, 1) && !Dominates(OPTIONAL, 1, 2)
  {
    var e := Edges(OPTIONAL);
    DominatesSelf(OPTIONAL, 1);
    WalkSnoc(e, [0], 1);
    WalkSnoc(e, [0], 2);
    assert WalkFromTo(e, [0] + [1], 0, 1) && 2 !in [0] + [1];
    assert WalkFromTo(e, [0] + [2], 0, 2) && 1 !in [0] + [2];
  }
}
