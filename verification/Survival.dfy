/** Which executions survive replication: all of them, where ways from a barrier meet below a block
    on both of them. */
module Survival {
  import opened Graphs
  import opened Cloning
  import opened Meetings
  import opened WorkItems
  import opened Interleaving
  import opened Contexts
  import opened ContextPass
  import opened SharedRegisters
  import opened Replicas

  function BarrierBlocks(k: Kernel): set<Block> {
    set b | b in k.code && exists i :: 0 <= i < |k.code[b]| && k.code[b][i].Barrier?
  }

  predicate Clear(code: seq<Inst>, i: nat, j: nat) {
    forall q :: i <= q < j && q < |code| ==> !code[q].Barrier?
  }

  lemma NoBarrierIn(k: Kernel, b: Block)
    ensures b in BarrierBlocks(k) <==> !Clear(Code(k, b), 0, |Code(k, b)|)
  {
  }

  /** An item that stood at d, position pc, has gone by p to where it is, past no barrier. */
  ghost predicate Walked(k: Kernel, d: Block, pc: nat, p: seq<Block>, l: Local) {
    && Way(Cfg(k), BarrierBlocks(k), p) && p[0] == d && p[|p| - 1] == l.at && l.pc <= |Code(k, l.at)|
    && if |p| == 1 then pc <= l.pc && Clear(Code(k, d), pc, l.pc)
       else Clear(Code(k, d), pc, |Code(k, d)|) && Clear(Code(k, l.at), 0, l.pc)
  }

  lemma WalkedStep(k: Kernel, id: nat, l: Local, m: Memory, d: Block, pc: nat, p: seq<Block>) returns (p': seq<Block>)
    requires Walked(k, d, pc, p, l)
    ensures Walked(k, d, pc, p', Step(k, id, l, m).0)
  {
    hide BarrierBlocks, Exec, SetPhis;
    p' := p;
    if !Stopped(k, l) && !AtInst(k, l) {
      var t := Target(Terminator(k, l.at), l.env);
      SameTerm(Terminator(k, l.at), l.env, l.env);
      assert (l.at, t) in Edges(Cfg(k));
      WalkSnoc(Edges(Cfg(k)), p, t);
      NoBarrierIn(k, l.at);
      p' := p + [t];
    }
  }

  ghost predicate HasWalked(k: Kernel, d: Block, pc: nat, l: Local) {
    exists p :: Walked(k, d, pc, p, l)
  }

  ghost predicate AllWalked(k: Kernel, d: Block, pc: nat, s: State) {
    forall w :: 0 <= w < |s.items| ==> HasWalked(k, d, pc, s.items[w])
  }

  lemma {:induction false} RunWalks(k: Kernel, d: Block, pc: nat, s: State, sched: seq<nat>)
    requires AllWalked(k, d, pc, s)
    ensures AllWalked(k, d, pc, Run(k, s, sched))
    decreases |sched|
  {
    hide Walked, Step;
    if sched != [] {
      var before, w := sched[..|sched| - 1], sched[|sched| - 1];
      RunWalks(k, d, pc, s, before);
      var a := Run(k, s, before);
      if w < |s.items| {
        var p :| Walked(k, d, pc, p, a.items[w]);
        var p' := WalkedStep(k, w, a.items[w], a.mem, d, pc, p);
      }
    }
  }

  // ----------------------------------------------------------------------------- one round

  lemma BarriersReplicated(k: Kernel, r: Round, nm: Names)
    requires r.Ok() && r.before == Cfg(k)
    ensures BarrierBlocks(Replicated(k, r, nm)) == BarsAfter(r, BarrierBlocks(k))
  {
    hide Round.Ok, Replicated, BarrierBlocks;
    var k' := Replicated(k, r, nm);
    forall b
      ensures b in BarrierBlocks(k') <==> b in BarsAfter(r, BarrierBlocks(k))
    {
      ReplicatedIs(k, r, nm, b);
      NoBarrierIn(k, r.Orig(b));
      NoBarrierIn(k', b);
      InAfter(k, r, b);
    }
  }

  lemma InAfter(k: Kernel, r: Round, b: Block)
    requires r.Ok() && r.before == Cfg(k)
    ensures r.Orig(b) in BarrierBlocks(k) ==> b in r.after.succ
  {
    hide Round.Ok;
    RoundFacts(r);
  }

  /** Two items that stand at the same barrier, but for copies, stand at the same copy. */
  lemma MeetAgain(k: Kernel, r: Round, bars: set<Block>, k': Kernel, d: Block, pc: nat, l: Local, l2: Local)
    requires r.Ok() && Cfg(k') == r.after && BarrierBlocks(k') == BarsAfter(r, bars)
    requires BelowBarrier(r, bars) && MeetBelow(r.before, bars) && SingleEdges(r.before)
             && Starts(r.after, BarsAfter(r, bars), d)
    requires HasWalked(k', d, pc, l) && HasWalked(k', d, pc, l2) && Waiting(k', l) && Waiting(k', l2)
    requires r.Orig(l.at) == r.Orig(l2.at) && l.pc == l2.pc
    ensures l.at == l2.at
  {
    hide Round.Ok, MeetBelow, SingleEdges, BelowBarrier, Starts, Way, BarrierBlocks, BarsAfter, Cfg;
    var p :| Walked(k', d, pc, p, l);
    var q :| Walked(k', d, pc, q, l2);
    OnWay(r.after, BarsAfter(r, bars), p);
    OnWay(r.after, BarsAfter(r, bars), q);
    if |p| > 1 && |q| > 1 {
      SameVersion(r, bars, p, q);
    }
  }

  lemma OnWay(g: Graph, bars: set<Block>, p: seq<Block>)
    requires Way(g, bars, p)
    ensures |p| > 0
  {
  }

  ghost predicate AllAt(s: State, d: Block, pc: nat) {
    forall w :: 0 <= w < |s.items| ==> s.items[w].at == d && s.items[w].pc == pc
  }

  lemma BeginWalked(k: Kernel, d: Block, pc: nat, s: State)
    requires AllAt(s, d, pc) && pc <= |Code(k, d)|
    ensures AllWalked(k, d, pc, s)
  {
    hide BarrierBlocks;
    forall w | 0 <= w < |s.items|
      ensures HasWalked(k, d, pc, s.items[w])
    {
      assert Walked(k, d, pc, [d], s.items[w]);
    }
  }

  /** Behind the next barrier the group stands where ways start again. */
  lemma NextStart(k: Kernel, d: Block, pc: nat, s: State)
    requires AllWalked(k, d, pc, s) && AtBarrier(k, s) && Reachable(Cfg(k), d)
    ensures |s.items| > 0
    ensures var l := s.items[0];
            AllAt(Release(s), l.at, l.pc + 1) && l.pc + 1 <= |Code(k, l.at)| && Starts(Cfg(k), BarrierBlocks(k), l.at)
  {
    hide BarrierBlocks;
    var l := s.items[0];
    assert HasWalked(k, d, pc, l);
    var p :| Walked(k, d, pc, p, l);
    assert WalkFromTo(Edges(Cfg(k)), p, d, l.at);
    ReachTrans(Edges(Cfg(k)), k.entry, d, l.at);
    NoBarrierIn(k, l.at);
  }

  lemma PairsDecide(r: Round, s': State)
    requires forall v, w :: 0 <= v < |s'.items| && 0 <= w < |s'.items| ==> s'.items[v].at == s'.items[w].at
    ensures OneSide(r, s')
  {
  }

  /** At a barrier of the old kernel, all items are on one side. */
  lemma TogetherAgain(k: Kernel, r: Round, nm: Names, a: State, a': State, d: Block, pc: nat)
    requires Ssa(k) && r.Ok() && r.before == Cfg(k) && NamesOk(k, r, nm) && GroupMirrors(k, r, nm, a, a')
             && AtBarrier(k, a)
    requires BelowBarrier(r, BarrierBlocks(k)) && MeetBelow(r.before, BarrierBlocks(k)) && SingleEdges(r.before)
    requires Starts(r.after, BarsAfter(r, BarrierBlocks(k)), d) && AllWalked(Replicated(k, r, nm), d, pc, a')
    ensures OneSide(r, a')
  {
    hide Round.Ok, Ssa, NamesOk, Replicated, Mirrored, Waiting, BelowBarrier, MeetBelow, SingleEdges, Starts;
    hide BarrierBlocks;
    hide BarsAfter, HasWalked, Cfg, OneSide;
    var k' := Replicated(k, r, nm);
    CfgReplicated(k, r, nm);
    BarriersReplicated(k, r, nm);
    forall v, w | 0 <= v < |a'.items| && 0 <= w < |a'.items|
      ensures a'.items[v].at == a'.items[w].at
    {
      WaitingMirrors(k, r, nm, v, a.items[v], a'.items[v], a.mem);
      WaitingMirrors(k, r, nm, w, a.items[w], a'.items[w], a.mem);
      MeetAgain(k, r, BarrierBlocks(k), k', d, pc, a'.items[v], a'.items[w]);
    }
    PairsDecide(r, a');
  }

  /** One round loses no execution. */
  lemma {:induction false} RoundLosesNone(k: Kernel, r: Round, nm: Names, s: State, s': State, d: Block, pc: nat,
                                          rounds: seq<seq<nat>>)
    requires Ssa(k) && r.Ok() && r.before == Cfg(k) && NamesOk(k, r, nm) && GroupMirrors(k, r, nm, s, s')
    requires BelowBarrier(r, BarrierBlocks(k)) && MeetBelow(r.before, BarrierBlocks(k)) && SingleEdges(r.before)
    requires Starts(r.after, BarsAfter(r, BarrierBlocks(k)), d) && AllAt(s', d, pc)
             && pc <= |Code(Replicated(k, r, nm), d)|
    requires Allowed(k, s, rounds)
    ensures Allowed(Replicated(k, r, nm), s', rounds)
    decreases |rounds|
  {
    hide Round.Ok, Ssa, NamesOk, Replicated, Mirrored, AtBarrier, Respects, Release, OneSide, Run, BelowBarrier;
    hide MeetBelow;
    hide SingleEdges, Starts, BarrierBlocks, BarsAfter, HasWalked, AllAt, Cfg, AllWalked;
    var k' := Replicated(k, r, nm);
    RunMirrors(k, r, nm, s, s', rounds[0]);
    if |rounds| > 1 {
      var a, a' := Run(k, s, rounds[0]), Run(k', s', rounds[0]);
      BeginWalked(k', d, pc, s');
      RunWalks(k', d, pc, s', rounds[0]);
      TogetherAgain(k, r, nm, a, a', d, pc);
      ReleaseMirrors(k, r, nm, a, a');
      CfgReplicated(k, r, nm);
      BarriersReplicated(k, r, nm);
      StartReachable(r.after, BarsAfter(r, BarrierBlocks(k)), d);
      NextStart(k', d, pc, a');
      RoundLosesNone(k, r, nm, Release(a), Release(a'), a'.items[0].at, a'.items[0].pc + 1, rounds[1..]);
    }
  }

  lemma StartReachable(g: Graph, bars: set<Block>, d: Block)
    requires Starts(g, bars, d)
    ensures Reachable(g, d)
  {
  }

  // -------------------------------------------------------------------------- all rounds

  lemma LaunchedAt(k: Kernel, n: nat, m: Memory, bars: set<Block>)
    ensures AllAt(Launched(k, n, m), k.entry, 0) && Starts(Cfg(k), bars, k.entry)
  {
    ReachSelf(Edges(Cfg(k)), k.entry);
  }

  /** The barriers that the rounds leave are those of the kernel with all its copies. */
  lemma {:induction false} BarriersOfAll(k: Kernel, cs: seq<Copying>, g: Graph)
    requires Ssa(k) && AllRounds(cs) && AllNamesOk(k, cs) && Chain(Cfg(k), RoundsOf(cs), g)
    ensures BarrierBlocks(AllReplicated(k, cs)) == BarsOf(BarrierBlocks(k), RoundsOf(cs))
    decreases |cs|
  {
    hide Round.Ok, Replicated, NamesOk, Ssa, Cfg, BarrierBlocks, BarsAfter;
    if cs != [] {
      var init, c := cs[..|cs| - 1], cs[|cs| - 1];
      assert RoundsOf(cs)[..|cs| - 1] == RoundsOf(init);
      BarriersOfAll(k, init, c.r.before);
      AllRoundsFollow(k, init, c.r.before);
      BarriersReplicated(AllReplicated(k, init), c.r, c.nm);
    }
  }

  /** Replication loses no execution of a kernel in which ways from barriers meet below where they
      have parted: whatever rounds the pass makes, the executions before and after are the same. */
  lemma {:induction false} NoExecutionIsLost(k: Kernel, cs: seq<Copying>, g: Graph, n: nat, m: Memory,
                                             rounds: seq<seq<nat>>)
    requires Ssa(k) && AllRounds(cs) && AllNamesOk(k, cs) && Chain(Cfg(k), RoundsOf(cs), g)
    requires AllBelow(BarrierBlocks(k), RoundsOf(cs)) && MeetBelow(Cfg(k), BarrierBlocks(k)) && SingleEdges(Cfg(k))
    ensures var k' := AllReplicated(k, cs);
            Allowed(k', Launched(k', n, m), rounds) <==> Allowed(k, Launched(k, n, m), rounds)
    decreases |cs|
  {
    hide Round.Ok, Replicated, NamesOk, Ssa, Cfg, GroupMirrors, Launched, Allowed, BarrierBlocks, BarsAfter;
    hide BelowBarrier, MeetBelow;
    hide SingleEdges, Starts, AllAt;
    if cs != [] {
      var init, c := cs[..|cs| - 1], cs[|cs| - 1];
      assert RoundsOf(cs)[..|cs| - 1] == RoundsOf(init);
      var k1, k' := AllReplicated(k, init), AllReplicated(k, cs);
      NoExecutionIsLost(k, init, c.r.before, n, m, rounds);
      AllRoundsFollow(k, init, c.r.before);
      BarriersOfAll(k, init, c.r.before);
      RoundsMeetBelow(Cfg(k), BarrierBlocks(k), RoundsOf(init), c.r.before);
      LaunchMirrors(k1, c.r, c.nm, n, m);
      LaunchSided(k1, c.r, n, m);
      SameMachine(k1, c.r, c.nm);
      ExecutionMirrors(k1, c.r, c.nm, Launched(k1, n, m), Launched(k', n, m), seq(n, _ => false), rounds);
      LaunchedAt(k', n, m, BarsAfter(c.r, BarrierBlocks(k1)));
      CfgReplicated(k1, c.r, c.nm);
      if Allowed(k1, Launched(k1, n, m), rounds) {
        RoundLosesNone(k1, c.r, c.nm, Launched(k1, n, m), Launched(k', n, m), k'.entry, 0, rounds);
      }
    }
  }
}
