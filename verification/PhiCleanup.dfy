/** The clean-up of PHI nodes after tail replication: entries for blocks that no longer branch to
    the PHI's block are removed, and so is a PHI left without entries.

    The scan goes back to index 1, not 0, after each removal, so an entry that moves into the
    first place is not looked at. */
module PhiCleanup {
  import opened Graphs

  /** An incoming value and the block it comes from. */
  datatype Incoming = Incoming(value: nat, from: Block)

  type Phi = seq<Incoming>

  /** The entry's block still branches to bb. */
  predicate Live(g: Graph, bb: Block, i: Incoming) {
    i.from in g.succ && bb in g.succ[i.from]
  }

  function LiveEntries(g: Graph, bb: Block, p: Phi): Phi {
    if p == [] then []
    else (if Live(g, bb, p[0]) then [p[0]] else []) + LiveEntries(g, bb, p[1..])
  }

  /** What remains of a PHI after one scan: what is in first place, the second entry if the first
      was removed, escapes the check. */
  function Scanned(g: Graph, bb: Block, p: Phi): Phi {
    if p == [] then []
    else if Live(g, bb, p[0]) then [p[0]] + LiveEntries(g, bb, p[1..])
    else if |p| == 1 then []
    else [p[1]] + LiveEntries(g, bb, p[2..])
  }

  ghost predicate AllLive(g: Graph, bb: Block, p: Phi) {
    forall i :: 0 <= i < |p| ==> Live(g, bb, p[i])
  }

  lemma {:induction false} LiveEntriesAreLive(g: Graph, bb: Block, p: Phi)
    ensures AllLive(g, bb, LiveEntries(g, bb, p))
    decreases |p|
  {
    if p != [] {
      LiveEntriesAreLive(g, bb, p[1..]);
    }
  }

  lemma {:induction false} LiveEntriesOfLive(g: Graph, bb: Block, p: Phi)
    requires AllLive(g, bb, p)
    ensures LiveEntries(g, bb, p) == p
    decreases |p|
  {
    if p != [] {
      LiveEntriesOfLive(g, bb, p[1..]);
      assert p == [p[0]] + p[1..];
    }
  }

  lemma {:induction false} LiveEntriesOfParts(g: Graph, bb: Block, a: Phi, b: Phi)
    ensures LiveEntries(g, bb, a + b) == LiveEntries(g, bb, a) + LiveEntries(g, bb, b)
    decreases |a|
  {
    if a == [] {
      assert a + b == b;
    } else {
      LiveEntriesOfParts(g, bb, a[1..], b);
      assert (a + b)[1..] == a[1..] + b;
    }
  }

  /** One scan loses no live entry. */
  lemma ScanKeepsLive(g: Graph, bb: Block, p: Phi)
    ensures LiveEntries(g, bb, Scanned(g, bb, p)) == LiveEntries(g, bb, p)
  {
    var s := Scanned(g, bb, p);
    if p != [] && s != [] {
      LiveEntriesAreLive(g, bb, s[1..]);
      var rest := if Live(g, bb, p[0]) then p[1..] else p[2..];
      LiveEntriesAreLive(g, bb, rest);
      assert s[1..] == LiveEntries(g, bb, rest);
      LiveEntriesOfLive(g, bb, s[1..]);
      if !Live(g, bb, p[0]) {
        assert p[1..][1..] == p[2..];
      }
    }
  }

  /** Exactly when a scan leaves only live entries: unless the first two are both stale. */
  lemma ScanIsCompleteIff(g: Graph, bb: Block, p: Phi)
    ensures AllLive(g, bb, Scanned(g, bb, p))
       <==> !(|p| >= 2 && !Live(g, bb, p[0]) && !Live(g, bb, p[1]))
  {
    var s := Scanned(g, bb, p);
    if p != [] {
      LiveEntriesAreLive(g, bb, p[1..]);
      if |p| >= 2 {
        LiveEntriesAreLive(g, bb, p[2..]);
        assert !Live(g, bb, p[0]) ==> s[0] == p[1];
      }
    }
  }

  /** A PHI that keeps a stale entry: both blocks it names stopped branching here. */
  lemma StaleEntryStays()
    ensures var g := Graph(0, map[0 := [2], 1 := [], 2 := []]);
            Scanned(g, 1, [Incoming(7, 0), Incoming(8, 2)]) == [Incoming(8, 2)]
            && !Live(g, 1, Incoming(8, 2))
  {
    var g := Graph(0, map[0 := [2], 1 := [], 2 := []]);
    var p := [Incoming(7, 0), Incoming(8, 2)];
    assert !Live(g, 1, p[0]);
    assert LiveEntries(g, 1, p[2..]) == [];
  }

  /** The live entries of the PHIs that have any, in order. */
  function LivePhis(g: Graph, bb: Block, phis: seq<Phi>): seq<Phi> {
    if phis == [] then []
    else
      var l := LiveEntries(g, bb, phis[0]);
      (if l == [] then [] else [l]) + LivePhis(g, bb, phis[1..])
  }

  lemma {:induction false} LivePhisOf(g: Graph, bb: Block, a: seq<Phi>, b: seq<Phi>)
    ensures LivePhis(g, bb, a + b) == LivePhis(g, bb, a) + LivePhis(g, bb, b)
    decreases |a|
  {
    if a == [] {
      assert a + b == b;
    } else {
      LivePhisOf(g, bb, a[1..], b);
      assert (a + b)[1..] == a[1..] + b;
    }
  }

  lemma LivePhisAround(g: Graph, bb: Block, phis: seq<Phi>, k: nat)
    requires k < |phis|
    ensures LivePhis(g, bb, phis)
         == LivePhis(g, bb, phis[..k]) + LivePhis(g, bb, [phis[k]]) + LivePhis(g, bb, phis[k + 1..])
  {
    hide *;
    assert phis == (phis[..k] + [phis[k]]) + phis[k + 1..];
    LivePhisOf(g, bb, phis[..k] + [phis[k]], phis[k + 1..]);
    LivePhisOf(g, bb, phis[..k], [phis[k]]);
  }

  lemma LivePhisOfOne(g: Graph, bb: Block, p: Phi)
    ensures LivePhis(g, bb, [p]) == if LiveEntries(g, bb, p) == [] then [] else [LiveEntries(g, bb, p)]
    ensures p == [] ==> LivePhis(g, bb, [p]) == []
  {
    assert [p][1..] == [];
  }

  /** Replacing the k-th PHI by one with the same live entries, or dropping it when it has none,
      changes nothing that is live. */
  lemma LivePhisReplaced(g: Graph, bb: Block, phis: seq<Phi>, k: nat, p: Phi)
    requires k < |phis| && LiveEntries(g, bb, p) == LiveEntries(g, bb, phis[k])
    ensures LivePhis(g, bb, phis[k := p]) == LivePhis(g, bb, phis)
    ensures p == [] ==> LivePhis(g, bb, phis[..k] + phis[k + 1..]) == LivePhis(g, bb, phis)
  {
    hide *;
    var updated := phis[k := p];
    LivePhisAround(g, bb, phis, k);
    LivePhisAround(g, bb, updated, k);
    assert updated[..k] == phis[..k] && updated[k + 1..] == phis[k + 1..];
    LivePhisOfOne(g, bb, p);
    LivePhisOfOne(g, bb, phis[k]);
    if p == [] {
      LivePhisOf(g, bb, phis[..k], phis[k + 1..]);
    }
  }

  ghost predicate TailsLive(g: Graph, bb: Block, p: Phi) {
    p != [] && AllLive(g, bb, p[1..])
  }

  lemma ScanTailsLive(g: Graph, bb: Block, p: Phi)
    ensures Scanned(g, bb, p) == [] || TailsLive(g, bb, Scanned(g, bb, p))
  {
    var s := Scanned(g, bb, p);
    if s != [] {
      LiveEntriesAreLive(g, bb, if Live(g, bb, p[0]) then p[1..] else p[2..]);
      assert s[1..] == LiveEntries(g, bb, if Live(g, bb, p[0]) then p[1..] else p[2..]);
    }
  }

  /** The scan has looked at the entries below i, the first of them perhaps excepted. */
  ghost predicate ScannedTo(g: Graph, bb: Block, p0: Phi, p: Phi, i: nat) {
    && 1 <= i <= |p| && AllLive(g, bb, p[1..i])
    && Scanned(g, bb, p0) == [p[0]] + LiveEntries(g, bb, p[1..])
  }

  lemma StaleRemoved(g: Graph, bb: Block, p0: Phi, p: Phi, i: nat)
    requires i < |p| && !Live(g, bb, p[i]) && if i == 0 then p == p0 else ScannedTo(g, bb, p0, p, i)
    ensures var q := p[..i] + p[i + 1..];
            if q == [] then p0 != [] && Scanned(g, bb, p0) == [] else ScannedTo(g, bb, p0, q, 1)
  {
    var q := p[..i] + p[i + 1..];
    if i == 0 {
      if q != [] {
        assert q[1..] == p0[2..];
      }
    } else {
      assert p[1..] == p[1..i] + ([p[i]] + p[i + 1..]);
      assert q[1..] == p[1..i] + p[i + 1..];
      LiveEntriesOfParts(g, bb, p[1..i], [p[i]] + p[i + 1..]);
      LiveEntriesOfParts(g, bb, [p[i]], p[i + 1..]);
      LiveEntriesOfParts(g, bb, p[1..i], p[i + 1..]);
    }
  }

  lemma LivePassed(g: Graph, bb: Block, p0: Phi, p: Phi, i: nat)
    requires i < |p| && Live(g, bb, p[i]) && if i == 0 then p == p0 else ScannedTo(g, bb, p0, p, i)
    ensures ScannedTo(g, bb, p0, p, i + 1)
  {
    if i > 0 {
      assert p[1..i + 1] == p[1..i] + [p[i]];
    }
  }

  lemma ScanDone(g: Graph, bb: Block, p0: Phi, p: Phi)
    requires if p == [] then Scanned(g, bb, p0) == [] else ScannedTo(g, bb, p0, p, |p|)
    ensures p == Scanned(g, bb, p0)
  {
    if p != [] {
      assert p[1..|p|] == p[1..];
      LiveEntriesOfLive(g, bb, p[1..]);
    }
  }

  /** How many entries there are in all. */
  function Entries(phis: seq<Phi>): nat {
    if phis == [] then 0 else Entries(phis[..|phis| - 1]) + |phis[|phis| - 1]|
  }

  lemma {:induction false} EntriesOf(a: seq<Phi>, b: seq<Phi>)
    ensures Entries(a + b) == Entries(a) + Entries(b)
    decreases |b|
  {
    if b == [] {
      assert a + b == a;
    } else {
      EntriesOf(a, b[..|b| - 1]);
      assert (a + b)[..|a + b| - 1] == a + b[..|b| - 1];
    }
  }

  lemma EntriesReplaced(phis: seq<Phi>, k: nat, p: Phi)
    requires k < |phis|
    ensures Entries(phis[k := p]) + |phis[k]| == Entries(phis) + |p|
  {
    EntriesWithout(phis, k);
    EntriesWithout(phis[k := p], k);
    assert phis[k := p][..k] == phis[..k] && phis[k := p][k + 1..] == phis[k + 1..];
  }

  lemma EntriesWithout(phis: seq<Phi>, k: nat)
    requires k < |phis|
    ensures Entries(phis) == Entries(phis[..k] + phis[k + 1..]) + |phis[k]|
  {
    assert phis == (phis[..k] + [phis[k]]) + phis[k + 1..];
    EntriesOf(phis[..k] + [phis[k]], phis[k + 1..]);
    EntriesOf(phis[..k], [phis[k]]);
    EntriesOf(phis[..k], phis[k + 1..]);
    assert [phis[k]][..0] == [];
  }

  /** No PHI is without entries, as the IR demands. */
  ghost predicate NoneEmpty(phis: seq<Phi>) {
    forall j :: 0 <= j < |phis| ==> phis[j] != []
  }

  /** A stale entry and no other: a scan removes the PHI. */
  predicate Lone(g: Graph, bb: Block, p: Phi) {
    |p| == 1 && !Live(g, bb, p[0])
  }

  function ScannedAll(g: Graph, bb: Block, phis: seq<Phi>): seq<Phi> {
    seq(|phis|, j requires 0 <= j < |phis| => Scanned(g, bb, phis[j]))
  }

  /** PHIs up to the last that one scan removes get all their stale entries removed, those behind it
      have one scan. */
  ghost predicate CleanedAt(g: Graph, bb: Block, phis0: seq<Phi>, phis: seq<Phi>, d: nat) {
    && d <= |phis0| && (d > 0 ==> Lone(g, bb, phis0[d - 1])) && NoLone(g, bb, phis0, d, |phis0|)
    && phis == LivePhis(g, bb, phis0[..d]) + ScannedAll(g, bb, phis0[d..])
  }

  ghost predicate NoLone(g: Graph, bb: Block, phis: seq<Phi>, d: nat, u: nat) {
    u <= |phis| && forall j :: d <= j < u ==> !Lone(g, bb, phis[j])
  }

  /** In the course of the clean-up: the first c are what is left of the d up to the last that was
      removed, then come those scanned since, up to u, and those that wait. Those before k of the
      first c have been scanned again. */
  ghost predicate Cleaning(g: Graph, bb: Block, phis0: seq<Phi>, phis: seq<Phi>, d: nat, u: nat, c: nat, k: nat) {
    && d <= u <= |phis0| && |phis| == c + (|phis0| - d) && NoLone(g, bb, phis0, d, u)
    && (d > 0 ==> Lone(g, bb, phis0[d - 1]))
    && phis[c..] == ScannedAll(g, bb, phis0[d..u]) + phis0[u..]
    && LivePhis(g, bb, phis[..c]) == LivePhis(g, bb, phis0[..d])
    && (forall j :: 0 <= j < c ==> TailsLive(g, bb, phis[j]))
    && (if k < c then u == d else k == c + (u - d))
    && forall j :: 0 <= j < k && j < c ==> AllLive(g, bb, phis[j])
  }

  lemma ScannedIs(g: Graph, bb: Block, p: Phi)
    requires p != []
    ensures Scanned(g, bb, p) == [] <==> Lone(g, bb, p)
    ensures Scanned(g, bb, p) != [] ==> TailsLive(g, bb, Scanned(g, bb, p))
    ensures TailsLive(g, bb, p) ==> AllLive(g, bb, Scanned(g, bb, p))
  {
    ScanTailsLive(g, bb, p);
    ScanIsCompleteIff(g, bb, p);
    if TailsLive(g, bb, p) && |p| >= 2 {
      assert p[1..][0] == p[1];
    }
  }

  lemma TailsNotEmpty(g: Graph, bb: Block, p: Phi)
    requires TailsLive(g, bb, p)
    ensures p != []
  {
  }

  lemma CleaningBegins(g: Graph, bb: Block, phis: seq<Phi>)
    ensures Cleaning(g, bb, phis, phis, 0, 0, 0, 0)
  {
    assert phis[0..] == phis && phis[0..0] == [];
  }

  /** A second scan of one of the first c. */
  lemma CleanedAgain(g: Graph, bb: Block, phis0: seq<Phi>, phis: seq<Phi>, d: nat, c: nat, k: nat)
    requires Cleaning(g, bb, phis0, phis, d, d, c, k) && k < c
    ensures var s := Scanned(g, bb, phis[k]);
            if s == [] then Cleaning(g, bb, phis0, phis[..k] + phis[k + 1..], d, d, c - 1, 0)
            else Cleaning(g, bb, phis0, phis[k := s], d, d, c, k + 1)
  {
    hide LivePhis, Scanned, LiveEntries, TailsLive, AllLive, Lone, NoLone;
    var s, head := Scanned(g, bb, phis[k]), phis[..c];
    TailsNotEmpty(g, bb, phis[k]);
    ScannedIs(g, bb, phis[k]);
    ScanKeepsLive(g, bb, phis[k]);
    LivePhisReplaced(g, bb, head, k, s);
    if s == [] {
      var after := phis[..k] + phis[k + 1..];
      assert after[..c - 1] == head[..k] + head[k + 1..] && after[c - 1..] == phis[c..];
    } else {
      assert phis[k := s][..c] == head[k := s] && phis[k := s][c..] == phis[c..];
    }
  }

  lemma {:induction false} LivePhisOfLive(g: Graph, bb: Block, phis: seq<Phi>)
    requires forall j :: 0 <= j < |phis| ==> phis[j] != [] && AllLive(g, bb, phis[j])
    ensures LivePhis(g, bb, phis) == phis
    decreases |phis|
  {
    if phis != [] {
      LiveEntriesOfLive(g, bb, phis[0]);
      LivePhisOfLive(g, bb, phis[1..]);
      assert phis == [phis[0]] + phis[1..];
    }
  }

  lemma {:induction false} LivePhisOfScanned(g: Graph, bb: Block, phis: seq<Phi>)
    ensures LivePhis(g, bb, ScannedAll(g, bb, phis)) == LivePhis(g, bb, phis)
    decreases |phis|
  {
    if phis != [] {
      ScanKeepsLive(g, bb, phis[0]);
      LivePhisOfScanned(g, bb, phis[1..]);
      assert ScannedAll(g, bb, phis)[1..] == ScannedAll(g, bb, phis[1..]);
    }
  }

  /** The first scan of the next PHI. */
  lemma CleanedNext(g: Graph, bb: Block, phis0: seq<Phi>, phis: seq<Phi>, d: nat, u: nat, c: nat, k: nat)
    requires Cleaning(g, bb, phis0, phis, d, u, c, k) && c <= k < |phis| && NoneEmpty(phis0)
    ensures u < |phis0| && phis[k] == phis0[u]
    ensures var s := Scanned(g, bb, phis[k]);
            if s == [] then Cleaning(g, bb, phis0, phis[..k] + phis[k + 1..], u + 1, u + 1, k, 0)
            else Cleaning(g, bb, phis0, phis[k := s], d, u + 1, c, k + 1)
  {
    hide LivePhis, Scanned, LiveEntries, TailsLive, AllLive, Lone;
    var s := Scanned(g, bb, phis[k]);
    assert phis[k] == phis[c..][u - d] == phis0[u..][0] == phis0[u];
    ScannedIs(g, bb, phis0[u]);
    if s == [] {
      NextRemoved(g, bb, phis0, phis, d, u, c, k);
    } else {
      var after, more := phis[k := s], ScannedAll(g, bb, phis0[d..u + 1]);
      assert after[..c] == phis[..c];
      assert more == ScannedAll(g, bb, phis0[d..u]) + [s];
      assert after[c..] == phis[c..][u - d := s];
      assert phis0[u..] == [phis0[u]] + phis0[u + 1..];
      assert after[c..] == more + phis0[u + 1..];
    }
  }

  lemma CleaningStep(g: Graph, bb: Block, phis0: seq<Phi>, phis: seq<Phi>, d: nat, u: nat, c: nat, k: nat)
    returns (d': nat, u': nat, c': nat)
    requires Cleaning(g, bb, phis0, phis, d, u, c, k) && k < |phis| && NoneEmpty(phis0)
    ensures var s := Scanned(g, bb, phis[k]);
            if s == [] then Cleaning(g, bb, phis0, phis[..k] + phis[k + 1..], d', u', c', 0)
            else Cleaning(g, bb, phis0, phis[k := s], d', u', c', k + 1)
  {
    hide Cleaning, Scanned;
    if k < c {
      SecondScan(g, bb, phis0, phis, d, u, c, k);
      CleanedAgain(g, bb, phis0, phis, d, c, k);
      d', u', c' := d, d, if Scanned(g, bb, phis[k]) == [] then c - 1 else c;
    } else {
      CleanedNext(g, bb, phis0, phis, d, u, c, k);
      if Scanned(g, bb, phis[k]) == [] {
        d', u', c' := u + 1, u + 1, k;
      } else {
        d', u', c' := d, u + 1, c;
      }
    }
  }

  lemma SecondScan(g: Graph, bb: Block, phis0: seq<Phi>, phis: seq<Phi>, d: nat, u: nat, c: nat, k: nat)
    requires Cleaning(g, bb, phis0, phis, d, u, c, k) && k < c
    ensures u == d
  {
  }

  lemma NextRemoved(g: Graph, bb: Block, phis0: seq<Phi>, phis: seq<Phi>, d: nat, u: nat, c: nat, k: nat)
    requires Cleaning(g, bb, phis0, phis, d, u, c, k) && c <= k < |phis| && NoneEmpty(phis0)
    requires u < |phis0| && Lone(g, bb, phis0[u])
    ensures Cleaning(g, bb, phis0, phis[..k] + phis[k + 1..], u + 1, u + 1, k, 0)
  {
    hide LivePhis, Scanned, LiveEntries, TailsLive, AllLive, Lone;
    var after, since := phis[..k] + phis[k + 1..], phis0[d..u];
    var scanned := ScannedAll(g, bb, since);
    assert phis[..k] == phis[..c] + scanned by {
      assert phis[..k] == phis[..c] + phis[c..][..u - d];
    }
    assert phis[k + 1..] == phis[c..][u - d + 1..] == phis0[u + 1..];
    assert after[..k] == phis[..k] && after[k..] == phis0[u + 1..];
    forall j | 0 <= j < k
      ensures TailsLive(g, bb, after[j])
    {
      if j >= c {
        assert after[j] == scanned[j - c] == Scanned(g, bb, phis0[d + (j - c)]);
        ScannedIs(g, bb, phis0[d + (j - c)]);
      }
    }
    assert phis0[..u + 1] == (phis0[..d] + since) + [phis0[u]];
    LivePhisOf(g, bb, phis0[..d] + since, [phis0[u]]);
    LivePhisOf(g, bb, phis0[..d], since);
    LivePhisOf(g, bb, phis[..c], scanned);
    LivePhisOfScanned(g, bb, since);
    LoneHasNoLive(g, bb, phis0[u]);
    assert phis0[u + 1..u + 1] == [];
  }

  lemma LoneHasNoLive(g: Graph, bb: Block, p: Phi)
    requires Lone(g, bb, p)
    ensures LivePhis(g, bb, [p]) == []
  {
    assert p[1..] == [];
    LivePhisOfOne(g, bb, p);
  }

  lemma CleaningEnds(g: Graph, bb: Block, phis0: seq<Phi>, phis: seq<Phi>, d: nat, u: nat, c: nat)
    requires Cleaning(g, bb, phis0, phis, d, u, c, |phis|)
    ensures CleanedAt(g, bb, phis0, phis, d)
  {
    hide LivePhis, Scanned, LiveEntries, AllLive, Lone;
    LivePhisOfLive(g, bb, phis[..c]);
    assert phis0[d..u] == phis0[d..] && phis0[u..] == [];
    assert phis == phis[..c] + phis[c..];
  }

  lemma {:induction false} LivePhisAreLive(g: Graph, bb: Block, phis: seq<Phi>)
    ensures forall j :: 0 <= j < |LivePhis(g, bb, phis)| ==> AllLive(g, bb, LivePhis(g, bb, phis)[j])
    decreases |phis|
  {
    if phis != [] {
      LiveEntriesAreLive(g, bb, phis[0]);
      LivePhisAreLive(g, bb, phis[1..]);
    }
  }

  /** The clean-up leaves only live entries exactly unless, behind the last PHI that had nothing but
      one stale entry, the first two entries of some PHI are both stale. */
  lemma CleanupIsCompleteIff(g: Graph, bb: Block, phis0: seq<Phi>, phis: seq<Phi>, d: nat)
    requires CleanedAt(g, bb, phis0, phis, d)
    ensures (forall j :: 0 <= j < |phis| ==> AllLive(g, bb, phis[j]))
       <==> forall j :: d <= j < |phis0| ==>
              !(|phis0[j]| >= 2 && !Live(g, bb, phis0[j][0]) && !Live(g, bb, phis0[j][1]))
  {
    hide LivePhis, Scanned, AllLive, Live, Lone;
    var head := LivePhis(g, bb, phis0[..d]);
    LivePhisAreLive(g, bb, phis0[..d]);
    forall j | d <= j < |phis0|
      ensures phis[|head| + (j - d)] == Scanned(g, bb, phis0[j])
      ensures AllLive(g, bb, phis[|head| + (j - d)]) <==>
              !(|phis0[j]| >= 2 && !Live(g, bb, phis0[j][0]) && !Live(g, bb, phis0[j][1]))
    {
      ScanIsCompleteIff(g, bb, phis0[j]);
    }
    forall j | 0 <= j < |phis|
      ensures j < |head| ==> AllLive(g, bb, phis[j])
    {
      assert j < |head| ==> phis[j] == head[j];
    }
    forall j | |head| <= j < |phis|
      ensures phis[j] == Scanned(g, bb, phis0[d + (j - |head|)])
    {
    }
  }

  /** The PHI nodes at the head of block bb. */
  class PhiBlock {
    const g: Graph
    const bb: Block
    var phis: seq<Phi>

    constructor (g: Graph, bb: Block, phis: seq<Phi>)
      ensures this.g == g && this.bb == bb && this.phis == phis
    {
      this.g, this.bb, this.phis := g, bb, phis;
    }

    /** One scan over the entries of the k-th PHI; `removed` tells that none was left. */
    method ScanPhi(k: nat) returns (changed: bool, removed: bool)
      requires k < |phis|
      modifies this
      ensures |phis| == |old(phis)| && phis == old(phis)[k := Scanned(g, bb, old(phis[k]))]
      ensures removed <==> old(phis[k]) != [] && phis[k] == []
      ensures changed <==> phis[k] != old(phis[k])
      ensures changed ==> |phis[k]| < |old(phis[k])|
    {
      var p := phis[k];
      ghost var p0 := p;
      var i, e := 0, |p|;
      changed, removed := false, false;
      while i < e && !removed
        invariant phis == old(phis) && e == |p| && i <= e && (i == 0 || p != []) && |p| <= |p0|
        invariant if changed then |p| < |p0| else p == p0
        invariant removed <==> p0 != [] && p == []
        invariant i == 0 && !removed ==> p == p0
        invariant i > 0 ==> ScannedTo(g, bb, p0, p, i)
        invariant removed ==> Scanned(g, bb, p0) == []
        decreases e, e - i
      {
        if !Live(g, bb, p[i]) {
          StaleRemoved(g, bb, p0, p, i);
          p, e := p[..i] + p[i + 1..], e - 1;
          changed := true;
          if e == 0 {
            removed, i := true, 0;
          } else {
            i := 1;
          }
        } else {
          LivePassed(g, bb, p0, p, i);
          i := i + 1;
        }
      }
      ScanDone(g, bb, p0, p);
      phis := phis[k := p];
    }

    /** The whole clean-up. It starts over with the first PHI whenever one is removed. */
    method CleanupPHIs() returns (changed: bool)
      modifies this
      ensures LivePhis(g, bb, phis) == LivePhis(g, bb, old(phis))
      ensures NoneEmpty(old(phis)) ==> forall j :: 0 <= j < |phis| ==> TailsLive(g, bb, phis[j])
      ensures NoneEmpty(old(phis)) ==> exists d :: CleanedAt(g, bb, old(phis), phis, d)
      ensures changed <==> phis != old(phis)
    {
      hide LivePhis, LiveEntries, Scanned, TailsLive, Live, Entries, Cleaning, CleanedAt;
      var k := 0;
      changed := false;
      ghost var given, d, u, c := NoneEmpty(phis), 0, 0, 0;
      CleaningBegins(g, bb, phis);
      while k < |phis|
        invariant k <= |phis| && LivePhis(g, bb, phis) == LivePhis(g, bb, old(phis))
        invariant given ==> NoneEmpty(phis) && forall j :: 0 <= j < k ==> TailsLive(g, bb, phis[j])
        invariant given ==> Cleaning(g, bb, old(phis), phis, d, u, c, k)
        invariant if changed then Entries(phis) < Entries(old(phis)) else phis == old(phis)
        decreases |phis|, |phis| - k
      {
        ghost var before := phis;
        ScanKeepsLive(g, bb, phis[k]);
        ScanTailsLive(g, bb, phis[k]);
        LivePhisReplaced(g, bb, phis, k, Scanned(g, bb, phis[k]));
        if given {
          d, u, c := CleaningStep(g, bb, old(phis), phis, d, u, c, k);
        }
        var scanned, removed := ScanPhi(k);
        changed := changed || scanned;
        EntriesReplaced(before, k, phis[k]);
        if removed {
          EntriesWithout(phis, k);
          assert before[..k] + before[k + 1..] == phis[..k] + phis[k + 1..];
          phis := phis[..k] + phis[k + 1..];
          k := 0;
        } else {
          k := k + 1;
        }
      }
      if given {
        CleaningEnds(g, bb, old(phis), phis, d, u, c);
      }
    }
  }

}
