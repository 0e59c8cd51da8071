/** Work-group execution: what the items of a group compute together does not depend on how
    their steps are interleaved, as long as they do not race between barriers.

    The pass runs the items of a region one after the other, in the order of their flat indices.
    That is one particular schedule. If it is free of races, every schedule that respects the
    barriers ends in the same memory and the same private contexts (OpenCL 1.2, section 6.12.8). */
module Interleaving {
  import opened WorkItems

  /** The items of the group, by flat index, and the memory they share. */
  datatype State = State(items: seq<Local>, mem: Memory)

  /** n items at the entry of the kernel, nothing in their registers. */
  function Launched(k: Kernel, n: nat, m: Memory): (s: State)
    ensures |s.items| == n
  {
    State(seq(n, _ => Local(k.entry, 0, map[])), m)
  }

  // ------------------------------------------------------------ between two barriers

  /** The state after the items named in `sched` have each made a step, in that order. */
  function Run(k: Kernel, s: State, sched: seq<nat>): (r: State)
    ensures |r.items| == |s.items|
  {
    if sched == [] then s
    else
      var s', w := Run(k, s, sched[..|sched| - 1]), sched[|sched| - 1];
      if w < |s.items| then
        var (l, m) := Step(k, w, s'.items[w], s'.mem);
        State(s'.items[w := l], m)
      else s'
  }

  /** Only items that are neither at a barrier nor finished make steps. */
  predicate Respects(k: Kernel, s: State, sched: seq<nat>) {
    sched != [] ==>
      var before, w := sched[..|sched| - 1], sched[|sched| - 1];
      Respects(k, s, before) && w < |s.items| && !Stopped(k, Run(k, s, before).items[w])
  }

  predicate Complete(k: Kernel, s: State) {
    forall w :: 0 <= w < |s.items| ==> Stopped(k, s.items[w])
  }

  function Count(sched: seq<nat>, w: nat): nat {
    if sched == [] then 0
    else Count(sched[..|sched| - 1], w) + if sched[|sched| - 1] == w then 1 else 0
  }

  /** The addresses that item w reads and writes along the schedule. */
  function Reads(k: Kernel, s: State, sched: seq<nat>, w: nat): set<Addr>
    requires w < |s.items|
  {
    if sched == [] then {}
    else
      var before := sched[..|sched| - 1];
      Reads(k, s, before, w)
      + if sched[|sched| - 1] == w then ReadsAt(k, w, Run(k, s, before).items[w]) else {}
  }

  function Writes(k: Kernel, s: State, sched: seq<nat>, w: nat): set<Addr>
    requires w < |s.items|
  {
    if sched == [] then {}
    else
      var before := sched[..|sched| - 1];
      Writes(k, s, before, w)
      + if sched[|sched| - 1] == w then WritesAt(k, w, Run(k, s, before).items[w]) else {}
  }

  /** No item touches what another writes. */
  ghost predicate RaceFree(k: Kernel, s: State, sched: seq<nat>) {
    forall v, w :: 0 <= v < |s.items| && 0 <= w < |s.items| && v != w ==>
      Writes(k, s, sched, v) !! Reads(k, s, sched, w) && Writes(k, s, sched, v) !! Writes(k, s, sched, w)
  }

  // --------------------------------------------------------- an item on its own

  /** Item w after n steps with no other item running. */
  function Solo(k: Kernel, s: State, w: nat, n: nat): (Local, Memory)
    requires w < |s.items|
  {
    if n == 0 then (s.items[w], s.mem)
    else
      var (l, m) := Solo(k, s, w, n - 1);
      Step(k, w, l, m)
  }

  function SoloReads(k: Kernel, s: State, w: nat, n: nat): set<Addr>
    requires w < |s.items|
  {
    if n == 0 then {} else SoloReads(k, s, w, n - 1) + ReadsAt(k, w, Solo(k, s, w, n - 1).0)
  }

  function SoloWrites(k: Kernel, s: State, w: nat, n: nat): set<Addr>
    requires w < |s.items|
  {
    if n == 0 then {} else SoloWrites(k, s, w, n - 1) + WritesAt(k, w, Solo(k, s, w, n - 1).0)
  }

  lemma {:induction false} SoloMemory(k: Kernel, s: State, w: nat, n: nat)
    requires w < |s.items|
    ensures Solo(k, s, w, n).1.Keys == s.mem.Keys + SoloWrites(k, s, w, n)
    ensures forall a :: a in s.mem && a !in SoloWrites(k, s, w, n) ==> Solo(k, s, w, n).1[a] == s.mem[a]
    decreases n
  {
    if n > 0 {
      var (l, m) := Solo(k, s, w, n - 1);
      SoloMemory(k, s, w, n - 1);
      StepFootprint(k, w, l, m, m);
    }
  }

  lemma {:induction false} SoloGrows(k: Kernel, s: State, w: nat, n: nat, n': nat)
    requires w < |s.items| && n <= n'
    ensures SoloReads(k, s, w, n) <= SoloReads(k, s, w, n')
    ensures SoloWrites(k, s, w, n) <= SoloWrites(k, s, w, n')
    decreases n'
  {
    if n < n' {
      SoloGrows(k, s, w, n, n' - 1);
    }
  }

  /** Item w stands, in registers, log and memory, where n steps on its own would have led it. */
  ghost predicate ItemOnTrack(k: Kernel, s: State, sched: seq<nat>, w: nat)
    requires w < |s.items|
  {
    var n := Count(sched, w);
    && Run(k, s, sched).items[w] == Solo(k, s, w, n).0
    && Reads(k, s, sched, w) == SoloReads(k, s, w, n)
    && Writes(k, s, sched, w) == SoloWrites(k, s, w, n)
    && forall a :: a in Writes(k, s, sched, w) ==>
         a in Run(k, s, sched).mem && a in Solo(k, s, w, n).1 && Run(k, s, sched).mem[a] == Solo(k, s, w, n).1[a]
  }

  ghost predicate Written(k: Kernel, s: State, sched: seq<nat>, a: Addr) {
    exists w :: 0 <= w < |s.items| && a in Writes(k, s, sched, w)
  }

  ghost predicate OnTrack(k: Kernel, s: State, sched: seq<nat>) {
    && (forall w :: 0 <= w < |s.items| ==> ItemOnTrack(k, s, sched, w))
    && (forall a :: a in Run(k, s, sched).mem <==> a in s.mem || Written(k, s, sched, a))
    && (forall a :: a in s.mem && !Written(k, s, sched, a) ==> Run(k, s, sched).mem[a] == s.mem[a])
  }

  // ------------------------------------------------------------------ one more step

  /** `sched` is `before` followed by a step of w. */
  lemma LogsOfStep(k: Kernel, s: State, before: seq<nat>, w: nat, v: nat)
    requires w < |s.items| && v < |s.items|
    ensures var sched := before + [w];
            && Reads(k, s, sched, v) == Reads(k, s, before, v)
                 + (if v == w then ReadsAt(k, w, Run(k, s, before).items[w]) else {})
            && Writes(k, s, sched, v) == Writes(k, s, before, v)
                 + (if v == w then WritesAt(k, w, Run(k, s, before).items[w]) else {})
            && Count(sched, v) == Count(before, v) + if v == w then 1 else 0
  {
    assert (before + [w])[..|before|] == before;
  }

  lemma RunOfStep(k: Kernel, s: State, before: seq<nat>, w: nat)
    requires w < |s.items|
    ensures var r := Run(k, s, before); var x := Step(k, w, r.items[w], r.mem);
            Run(k, s, before + [w]) == State(r.items[w := x.0], x.1)
  {
    assert (before + [w])[..|before|] == before;
  }

  lemma RaceFreeBefore(k: Kernel, s: State, before: seq<nat>, w: nat)
    requires w < |s.items| && RaceFree(k, s, before + [w])
    ensures RaceFree(k, s, before)
  {
    forall v, x | 0 <= v < |s.items| && 0 <= x < |s.items| && v != x
      ensures Writes(k, s, before, v) !! Reads(k, s, before, x)
      ensures Writes(k, s, before, v) !! Writes(k, s, before, x)
    {
      LogsOfStep(k, s, before, w, v);
      LogsOfStep(k, s, before, w, x);
    }
  }

  lemma Where(k: Kernel, s: State, sched: seq<nat>, w: nat)
    requires OnTrack(k, s, sched) && w < |s.items|
    ensures ItemOnTrack(k, s, sched, w)
    ensures Run(k, s, sched).items[w] == Solo(k, s, w, Count(sched, w)).0
    ensures Reads(k, s, sched, w) == SoloReads(k, s, w, Count(sched, w))
    ensures Writes(k, s, sched, w) == SoloWrites(k, s, w, Count(sched, w))
  {
  }

  /** The memory a step reads is what the item would find on its own. */
  lemma ReadsAsAlone(k: Kernel, s: State, before: seq<nat>, w: nat, a: Addr)
    requires w < |s.items| && OnTrack(k, s, before) && RaceFree(k, s, before + [w])
    requires a in ReadsAt(k, w, Run(k, s, before).items[w])
    ensures Peek(Run(k, s, before).mem, a) == Peek(Solo(k, s, w, Count(before, w)).1, a)
  {
    assert ItemOnTrack(k, s, before, w);
    SoloMemory(k, s, w, Count(before, w));
    LogsOfStep(k, s, before, w, w);
    if a !in Writes(k, s, before, w) {
      if Written(k, s, before, a) {
        var v :| 0 <= v < |s.items| && a in Writes(k, s, before, v);
        LogsOfStep(k, s, before, w, v);
      }
    }
  }

  lemma StepOnTrack(k: Kernel, s: State, before: seq<nat>, w: nat)
    requires w < |s.items| && OnTrack(k, s, before) && RaceFree(k, s, before + [w])
    ensures ItemOnTrack(k, s, before + [w], w)
  {
    hide OnTrack, RaceFree, Reads, Writes, Run, Count, ReadsAt, WritesAt, Step;
    var n := Count(before, w);
    var r, alone := Run(k, s, before), Solo(k, s, w, n);
    Where(k, s, before, w);
    forall a | a in ReadsAt(k, w, r.items[w])
      ensures Peek(r.mem, a) == Peek(alone.1, a)
    {
      ReadsAsAlone(k, s, before, w, a);
    }
    StepFootprint(k, w, r.items[w], r.mem, alone.1);
    StepFootprint(k, w, alone.0, alone.1, r.mem);
    LogsOfStep(k, s, before, w, w);
    RunOfStep(k, s, before, w);
    assert Solo(k, s, w, n + 1) == Step(k, w, alone.0, alone.1);
  }

  lemma OthersOnTrack(k: Kernel, s: State, before: seq<nat>, w: nat, v: nat)
    requires w < |s.items| && v < |s.items| && v != w
    requires OnTrack(k, s, before) && RaceFree(k, s, before + [w])
    ensures ItemOnTrack(k, s, before + [w], v)
  {
    var r := Run(k, s, before);
    assert ItemOnTrack(k, s, before, v);
    LogsOfStep(k, s, before, w, v);
    LogsOfStep(k, s, before, w, w);
    RunOfStep(k, s, before, w);
    StepFootprint(k, w, r.items[w], r.mem, r.mem);
    assert Writes(k, s, before + [w], v) !! Writes(k, s, before + [w], w);
  }

  lemma MemoryOnTrack(k: Kernel, s: State, before: seq<nat>, w: nat, a: Addr)
    requires w < |s.items| && OnTrack(k, s, before)
    ensures var sched := before + [w];
            && (a in Run(k, s, sched).mem <==> a in s.mem || Written(k, s, sched, a))
            && (a in s.mem && !Written(k, s, sched, a) ==> Run(k, s, sched).mem[a] == s.mem[a])
  {
    var r := Run(k, s, before);
    StepFootprint(k, w, r.items[w], r.mem, r.mem);
    RunOfStep(k, s, before, w);
    if v :| 0 <= v < |s.items| && a in Writes(k, s, before + [w], v) {
      LogsOfStep(k, s, before, w, v);
    }
    if v :| 0 <= v < |s.items| && a in Writes(k, s, before, v) {
      LogsOfStep(k, s, before, w, v);
      assert Written(k, s, before + [w], a);
    }
    LogsOfStep(k, s, before, w, w);
    if a in WritesAt(k, w, r.items[w]) {
      assert a in Writes(k, s, before + [w], w);
    }
  }

  /** Along a race-free schedule every item does what it would do on its own. */
  lemma {:induction false} RaceFreeIsOnTrack(k: Kernel, s: State, sched: seq<nat>)
    requires Respects(k, s, sched) && RaceFree(k, s, sched)
    ensures OnTrack(k, s, sched)
    decreases |sched|
  {
    if sched != [] {
      var before, w := sched[..|sched| - 1], sched[|sched| - 1];
      assert sched == before + [w];
      RaceFreeBefore(k, s, before, w);
      RaceFreeIsOnTrack(k, s, before);
      StepOnTrack(k, s, before, w);
      forall v | 0 <= v < |s.items|
        ensures ItemOnTrack(k, s, sched, v)
      {
        if v != w {
          OthersOnTrack(k, s, before, w, v);
        }
      }
      forall a
        ensures a in Run(k, s, sched).mem <==> a in s.mem || Written(k, s, sched, a)
        ensures a in s.mem && !Written(k, s, sched, a) ==> Run(k, s, sched).mem[a] == s.mem[a]
      {
        MemoryOnTrack(k, s, before, w, a);
      }
    }
  }

  // ------------------------------------------------------------- any other schedule

  lemma RespectsStep(k: Kernel, s: State, before: seq<nat>, w: nat)
    requires Respects(k, s, before + [w])
    ensures Respects(k, s, before) && w < |s.items| && !Stopped(k, Run(k, s, before).items[w])
  {
    assert (before + [w])[..|before|] == before;
  }

  /** Along a race-free schedule an item that still makes a step is not stopped before it. */
  lemma {:induction false} NotStoppedBefore(k: Kernel, s: State, sched: seq<nat>, w: nat, n: nat)
    requires Respects(k, s, sched) && RaceFree(k, s, sched) && w < |s.items| && n < Count(sched, w)
    ensures !Stopped(k, Solo(k, s, w, n).0)
    decreases |sched|
  {
    hide Respects, RaceFree, OnTrack, Stopped, Solo, Run, Reads, Writes;
    var before, x := sched[..|sched| - 1], sched[|sched| - 1];
    assert sched == before + [x];
    RespectsStep(k, s, before, x);
    RaceFreeBefore(k, s, before, x);
    LogsOfStep(k, s, before, x, w);
    if n < Count(before, w) {
      NotStoppedBefore(k, s, before, w, n);
    } else {
      RaceFreeIsOnTrack(k, s, before);
      Where(k, s, before, w);
    }
  }

  /** An item that is to make a step has steps left to make along a complete schedule. */
  lemma StepsLeft(k: Kernel, s: State, sched: seq<nat>, before: seq<nat>, w: nat)
    requires OnTrack(k, s, sched) && Complete(k, Run(k, s, sched)) && w < |s.items|
    requires OnTrack(k, s, before) && !Stopped(k, Run(k, s, before).items[w])
    requires Count(before, w) <= Count(sched, w)
    ensures Count(before, w) < Count(sched, w)
  {
    hide OnTrack, Stopped, Run, Count;
    Where(k, s, sched, w);
    Where(k, s, before, w);
  }

  /** One more step of w stays within what `sched` does. */
  lemma StepWithin(k: Kernel, s: State, sched: seq<nat>, before: seq<nat>, w: nat, v: nat)
    requires OnTrack(k, s, sched) && OnTrack(k, s, before) && w < |s.items| && v < |s.items|
    requires Count(before, v) <= Count(sched, v) && Count(before, w) < Count(sched, w)
    ensures Count(before + [w], v) <= Count(sched, v)
    ensures Reads(k, s, before + [w], v) <= Reads(k, s, sched, v)
    ensures Writes(k, s, before + [w], v) <= Writes(k, s, sched, v)
  {
    hide OnTrack, Run, Count, Reads, Writes, Solo, ReadsAt, WritesAt;
    Where(k, s, sched, v);
    Where(k, s, before, v);
    LogsOfStep(k, s, before, w, v);
    if v == w {
      SoloGrows(k, s, w, Count(before, w) + 1, Count(sched, w));
    } else {
      SoloGrows(k, s, v, Count(before, v), Count(sched, v));
    }
  }

  lemma RaceFreeIfWithin(k: Kernel, s: State, sched: seq<nat>, other: seq<nat>)
    requires RaceFree(k, s, sched)
    requires forall v :: 0 <= v < |s.items| ==>
               Reads(k, s, other, v) <= Reads(k, s, sched, v) && Writes(k, s, other, v) <= Writes(k, s, sched, v)
    ensures RaceFree(k, s, other)
  {
    forall v, w | 0 <= v < |s.items| && 0 <= w < |s.items| && v != w
      ensures Writes(k, s, other, v) !! Reads(k, s, other, w)
      ensures Writes(k, s, other, v) !! Writes(k, s, other, w)
    {
      assert Writes(k, s, sched, v) !! Reads(k, s, sched, w) && Writes(k, s, sched, v) !! Writes(k, s, sched, w);
    }
  }

  /** Every schedule is race-free and makes no more steps of any item than a complete race-free
      one: an item is never led where it would not go on its own. */
  lemma {:induction false} OthersFollow(k: Kernel, s: State, sched: seq<nat>, other: seq<nat>)
    requires Respects(k, s, sched) && RaceFree(k, s, sched) && Complete(k, Run(k, s, sched))
    requires Respects(k, s, other)
    ensures RaceFree(k, s, other) && OnTrack(k, s, other)
    ensures forall v :: 0 <= v < |s.items| ==> Count(other, v) <= Count(sched, v)
    decreases |other|
  {
    hide *;
    RaceFreeIsOnTrack(k, s, sched);
    if other == [] {
      NothingDone(k, s, sched);
    } else {
      var before, w := other[..|other| - 1], other[|other| - 1];
      assert other == before + [w];
      RespectsStep(k, s, before, w);
      OthersFollow(k, s, sched, before);
      StepsLeft(k, s, sched, before, w);
      forall v | 0 <= v < |s.items|
        ensures Count(other, v) <= Count(sched, v)
        ensures Reads(k, s, other, v) <= Reads(k, s, sched, v)
        ensures Writes(k, s, other, v) <= Writes(k, s, sched, v)
      {
        StepWithin(k, s, sched, before, w, v);
      }
      RaceFreeIfWithin(k, s, sched, other);
    }
    RaceFreeIsOnTrack(k, s, other);
  }

  lemma NothingDone(k: Kernel, s: State, sched: seq<nat>)
    ensures RaceFree(k, s, [])
    ensures forall v :: 0 <= v < |s.items| ==> Count([], v) <= Count(sched, v)
  {
  }

  /** Two complete schedules, one of them race-free, end in the same state. */
  lemma CompleteSchedulesAgree(k: Kernel, s: State, sched: seq<nat>, other: seq<nat>)
    requires Respects(k, s, sched) && RaceFree(k, s, sched) && Complete(k, Run(k, s, sched))
    requires Respects(k, s, other) && Complete(k, Run(k, s, other))
    ensures Run(k, s, other) == Run(k, s, sched)
  {
    hide Respects, RaceFree, Run, Solo, Reads, Writes, Count, SoloReads, SoloWrites, Stopped;
    OthersFollow(k, s, sched, other);
    RaceFreeIsOnTrack(k, s, sched);
    var r, r' := Run(k, s, sched), Run(k, s, other);
    forall w | 0 <= w < |s.items|
      ensures r.items[w] == r'.items[w] && Writes(k, s, other, w) == Writes(k, s, sched, w)
      ensures forall a :: a in Writes(k, s, sched, w) ==> a in r.mem && a in r'.mem && r.mem[a] == r'.mem[a]
    {
      Where(k, s, sched, w);
      Where(k, s, other, w);
      if Count(other, w) < Count(sched, w) {
        NotStoppedBefore(k, s, sched, w, Count(other, w));
      }
    }
    forall a
      ensures a in r.mem <==> a in r'.mem
      ensures a in r.mem ==> r.mem[a] == r'.mem[a]
    {
      assert Written(k, s, sched, a) <==> Written(k, s, other, a);
    }
    assert r.items == r'.items;
    assert r.mem == r'.mem;
  }

  // ------------------------------------------------------------- length of a schedule

  function Steps(sched: seq<nat>, n: nat): nat {
    if n == 0 then 0 else Steps(sched, n - 1) + Count(sched, n - 1)
  }

  lemma {:induction false} StepsOfStep(before: seq<nat>, w: nat, n: nat)
    ensures Steps(before + [w], n) == Steps(before, n) + if w < n then 1 else 0
    decreases n
  {
    if n > 0 {
      assert (before + [w])[..|before|] == before;
      StepsOfStep(before, w, n - 1);
    }
  }

  lemma {:induction false} StepsIsLength(k: Kernel, s: State, sched: seq<nat>)
    requires Respects(k, s, sched)
    ensures Steps(sched, |s.items|) == |sched|
    decreases |sched|
  {
    if sched == [] {
      NoSteps(|s.items|);
    } else {
      var before, w := sched[..|sched| - 1], sched[|sched| - 1];
      assert sched == before + [w];
      StepsIsLength(k, s, before);
      StepsOfStep(before, w, |s.items|);
    }
  }

  lemma {:induction false} NoSteps(n: nat)
    ensures Steps([], n) == 0
    decreases n
  {
    if n > 0 {
      NoSteps(n - 1);
    }
  }

  lemma {:induction false} StepsGrow(sched: seq<nat>, other: seq<nat>, n: nat)
    requires forall v :: 0 <= v < n ==> Count(other, v) <= Count(sched, v)
    ensures Steps(other, n) <= Steps(sched, n)
    decreases n
  {
    if n > 0 {
      StepsGrow(sched, other, n - 1);
    }
  }

  /** No schedule is longer than a complete race-free one. */
  lemma NoLongerSchedule(k: Kernel, s: State, sched: seq<nat>, other: seq<nat>)
    requires Respects(k, s, sched) && RaceFree(k, s, sched) && Complete(k, Run(k, s, sched))
    requires Respects(k, s, other)
    ensures |other| <= |sched|
  {
    hide *;
    OthersFollow(k, s, sched, other);
    StepsIsLength(k, s, sched);
    StepsIsLength(k, s, other);
    StepsGrow(sched, other, |s.items|);
  }

  // --------------------------------------------------------------- across the barriers

  /** All items have come to the same barrier, so that the group may pass it. */
  ghost predicate AtBarrier(k: Kernel, s: State) {
    && |s.items| > 0
    && forall w :: 0 <= w < |s.items| ==>
         Waiting(k, s.items[w]) && s.items[w].at == s.items[0].at && s.items[w].pc == s.items[0].pc
  }

  function Release(s: State): (r: State)
    ensures |r.items| == |s.items|
  {
    State(seq(|s.items|, w requires 0 <= w < |s.items| => s.items[w].(pc := s.items[w].pc + 1)), s.mem)
  }

  ghost predicate Ended(k: Kernel, s: State) {
    forall w :: 0 <= w < |s.items| ==> Finished(k, s.items[w])
  }

  /** An execution of the group is a schedule per interval, the barrier being passed in between. */
  ghost predicate Allowed(k: Kernel, s: State, rounds: seq<seq<nat>>)
    decreases |rounds|
  {
    && |rounds| > 0 && Respects(k, s, rounds[0])
    && var r := Run(k, s, rounds[0]);
       (|rounds| > 1 ==> AtBarrier(k, r) && Allowed(k, Release(r), rounds[1..]))
  }

  /** The state in which interval i begins, or which the execution has reached when i == |rounds|. */
  function StateAt(k: Kernel, s: State, rounds: seq<seq<nat>>, i: nat): State
    requires i <= |rounds|
    decreases |rounds|
  {
    if i == 0 then s
    else
      var r := Run(k, s, rounds[0]);
      if |rounds| == 1 then r else StateAt(k, Release(r), rounds[1..], i - 1)
  }

  function After(k: Kernel, s: State, rounds: seq<seq<nat>>): State {
    StateAt(k, s, rounds, |rounds|)
  }

  ghost predicate RaceFreeThroughout(k: Kernel, s: State, rounds: seq<seq<nat>>) {
    forall i :: 0 <= i < |rounds| ==> RaceFree(k, StateAt(k, s, rounds, i), rounds[i])
  }

  function Length(rounds: seq<seq<nat>>): nat {
    if rounds == [] then 0 else |rounds[0]| + Length(rounds[1..])
  }

  /** The items run one after the other, from the lowest flat index on, each as far as it can. */
  predicate InFlatOrder(sched: seq<nat>) {
    forall i, j :: 0 <= i < j < |sched| ==> sched[i] <= sched[j]
  }

  /** What the work-item loops do: the items of each region in flat order until all have come to
      the same barrier or all have returned; no item touches what another writes. */
  ghost predicate Coarsened(k: Kernel, s: State, rounds: seq<seq<nat>>)
    decreases |rounds|
  {
    && |rounds| > 0 && Respects(k, s, rounds[0]) && InFlatOrder(rounds[0]) && RaceFree(k, s, rounds[0])
    && var r := Run(k, s, rounds[0]);
       if |rounds| == 1 then Ended(k, r) else AtBarrier(k, r) && Coarsened(k, Release(r), rounds[1..])
  }

  /** The execution can be continued: an item makes a step or the group passes the barrier. */
  ghost predicate CanGoOn(k: Kernel, s: State) {
    AtBarrier(k, s) || exists w :: 0 <= w < |s.items| && !Stopped(k, s.items[w])
  }

  lemma {:induction false} CoarsenedIsAllowed(k: Kernel, s: State, rounds: seq<seq<nat>>)
    requires Coarsened(k, s, rounds)
    ensures Allowed(k, s, rounds) && Ended(k, After(k, s, rounds))
    decreases |rounds|
  {
    hide RaceFree, Run, AtBarrier, Respects, InFlatOrder, Release, Ended;
    if |rounds| > 1 {
      CoarsenedIsAllowed(k, Release(Run(k, s, rounds[0])), rounds[1..]);
    }
  }

  lemma AtBarrierOrEndedIsComplete(k: Kernel, s: State)
    requires AtBarrier(k, s) || Ended(k, s)
    ensures Complete(k, s)
  {
  }

  lemma NotBoth(k: Kernel, s: State)
    requires AtBarrier(k, s)
    ensures !Ended(k, s)
  {
    assert Waiting(k, s.items[0]);
  }

  /** What the first interval of any execution has in common with that of the loops. */
  lemma FirstInterval(k: Kernel, s: State, rounds: seq<seq<nat>>, other: seq<seq<nat>>)
    requires Coarsened(k, s, rounds) && Allowed(k, s, other)
    ensures RaceFree(k, s, other[0]) && |other[0]| <= |rounds[0]|
    ensures Complete(k, Run(k, s, other[0])) ==> Run(k, s, other[0]) == Run(k, s, rounds[0])
    ensures |other| > 1 ==> |rounds| > 1 && Run(k, s, other[0]) == Run(k, s, rounds[0])
  {
    hide RaceFree, Complete, Run, AtBarrier, Ended, Respects, InFlatOrder, Release;
    AtBarrierOrEndedIsComplete(k, Run(k, s, rounds[0]));
    OthersFollow(k, s, rounds[0], other[0]);
    NoLongerSchedule(k, s, rounds[0], other[0]);
    if Complete(k, Run(k, s, other[0])) {
      CompleteSchedulesAgree(k, s, rounds[0], other[0]);
    }
    if |other| > 1 {
      AtBarrierOrEndedIsComplete(k, Run(k, s, other[0]));
      NotBoth(k, Run(k, s, other[0]));
    }
  }

  /** In its first interval an execution is not stuck, unless it is over, as are the loops. */
  lemma NotStuckInFirst(k: Kernel, s: State, rounds: seq<seq<nat>>, other: seq<seq<nat>>)
    requires Coarsened(k, s, rounds) && Allowed(k, s, other)
    ensures var r := Run(k, s, other[0]);
            if Ended(k, r) then |rounds| == 1 && r == Run(k, s, rounds[0]) else CanGoOn(k, r)
  {
    hide RaceFree, Run, AtBarrier, Respects, InFlatOrder, Release, Stopped, Ended;
    var r := Run(k, s, other[0]);
    FirstInterval(k, s, rounds, other);
    if Ended(k, r) {
      AtBarrierOrEndedIsComplete(k, r);
    }
    if Complete(k, r) && |rounds| > 1 {
      NotBoth(k, r);
    }
  }

  /** The theorem of coarsening. Take a kernel whose items, run by the loops in flat order, come
      to the same barriers, do not race in between, and return. Then however the steps of the items
      are interleaved between the barriers, the items do not race, begin each interval in the same
      state, make no more steps, are never stuck, and once they have all returned leave the
      memory and the private contexts that the loops leave. */
  lemma {:induction false} LoopsRefineInterleavings(k: Kernel, s: State, rounds: seq<seq<nat>>, other: seq<seq<nat>>)
    requires Coarsened(k, s, rounds) && Allowed(k, s, other)
    ensures |other| <= |rounds| && Length(other) <= Length(rounds)
    ensures RaceFreeThroughout(k, s, other)
    ensures forall i :: 0 <= i < |other| ==> StateAt(k, s, other, i) == StateAt(k, s, rounds, i)
    ensures var r := After(k, s, other);
            if Ended(k, r) then r == After(k, s, rounds) else CanGoOn(k, r)
    decreases |other|
  {
    hide RaceFree, Run, AtBarrier, Respects, InFlatOrder, Release, CanGoOn, Ended;
    FirstInterval(k, s, rounds, other);
    var s', t, t' := Release(Run(k, s, rounds[0])), rounds[1..], other[1..];
    if |other| > 1 {
      LoopsRefineInterleavings(k, s', t, t');
      forall i | 0 <= i < |other|
        ensures StateAt(k, s, other, i) == StateAt(k, s, rounds, i) && RaceFree(k, StateAt(k, s, other, i), other[i])
      {
        if i > 0 {
          assert StateAt(k, s', t', i - 1) == StateAt(k, s', t, i - 1);
          assert RaceFree(k, StateAt(k, s', t', i - 1), t'[i - 1]);
        }
      }
    } else {
      NotStuckInFirst(k, s, rounds, other);
      assert Length(other) == |other[0]| + Length([]);
    }
  }
}
