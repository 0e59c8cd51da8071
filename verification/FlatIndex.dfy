/** Where a work-item keeps its context, and which item of the whole range it is: the flat index
    of a local id within its group, and the global id of an item of a group, in the 32-bit
    arithmetic of the generated code (section 3.2 of OpenCL 1.2). */
module FlatIndex {

  const WORD: nat := 0x1_0000_0000

  function Add(a: nat, b: nat): nat {
    (a + b) % WORD
  }

  function Mul(a: nat, b: nat): nat {
    (a * b) % WORD
  }

  /** Local sizes and local ids, for the dimensions 0, 1 and 2. */
  datatype Triple = Triple(x: nat, y: nat, z: nat)

  predicate InGroup(l: Triple, i: Triple) {
    i.x < l.x && i.y < l.y && i.z < l.z
  }

  function Items(l: Triple): nat {
    l.z * l.y * l.x
  }

  function Flat3DSize(l: Triple): nat {
    Mul(Mul(l.z, l.y), l.x)
  }

  function FlatIdx(l: Triple, i: Triple): nat {
    Add(Add(Mul(Mul(i.z, l.x), l.y), Mul(i.y, l.x)), i.x)
  }

  /** The same with unbounded integers. */
  function Position(l: Triple, i: Triple): nat {
    (i.z * l.y + i.y) * l.x + i.x
  }

  /** The local id at a position. */
  function LocalIdAt(l: Triple, k: nat): Triple
    requires l.x > 0 && l.y > 0
  {
    Triple(k % l.x, (k / l.x) % l.y, k / l.x / l.y)
  }

  lemma MulAtMost(a: nat, b: nat, c: nat)
    requires a <= b
    ensures a * c <= b * c
  {
  }

  lemma SplitAt(a: nat, q: nat, r: nat, n: nat)
    requires n > 0 && r < n && a == q * n + r
    ensures a / n == q && a % n == r
  {
    var q', r' := a / n, a % n;
    assert a == q' * n + r';
    if q' < q {
      MulAtMost(q' + 1, q, n);
    } else if q < q' {
      MulAtMost(q + 1, q', n);
    }
  }

  lemma PositionInRange(l: Triple, i: Triple)
    requires InGroup(l, i)
    ensures Position(l, i) < Items(l)
  {
    MulAtMost(i.z + 1, l.z, l.y);
    assert i.z * l.y + i.y + 1 <= l.z * l.y;
    MulAtMost(i.z * l.y + i.y + 1, l.z * l.y, l.x);
  }

  /** Positions number the local ids from 0 on: each id has one, and each position below the
      number of items has its id. */
  lemma PositionIsBijection(l: Triple, i: Triple, k: nat)
    requires InGroup(l, i) && k < Items(l)
    ensures Position(l, i) < Items(l) && LocalIdAt(l, Position(l, i)) == i
    ensures InGroup(l, LocalIdAt(l, k)) && Position(l, LocalIdAt(l, k)) == k
  {
    PositionInRange(l, i);
    SplitAt(Position(l, i), i.z * l.y + i.y, i.x, l.x);
    SplitAt(i.z * l.y + i.y, i.z, i.y, l.y);
    var j := LocalIdAt(l, k);
    assert k == (k / l.x) * l.x + j.x;
    assert k / l.x == j.z * l.y + j.y;
    if j.z >= l.z {
      MulAtMost(l.z, j.z, l.y);
      MulAtMost(l.z * l.y, k / l.x, l.x);
    }
  }

  /** Positions go through the ids with the dimension 0 innermost and 2 outermost. */
  lemma PositionOrder(l: Triple, i: Triple, j: Triple)
    requires InGroup(l, i) && InGroup(l, j)
    ensures Position(l, i) < Position(l, j) <==>
            i.z < j.z || (i.z == j.z && (i.y < j.y || (i.y == j.y && i.x < j.x)))
  {
    RowsInOrder(l, i, j);
    RowsInOrder(l, j, i);
  }

  lemma RowBefore(a: nat, b: nat, n: nat, i: nat, j: nat)
    requires a < b && i < n
    ensures a * n + i < b * n + j
  {
    MulAtMost(a + 1, b, n);
    assert (a + 1) * n == a * n + n;
  }

  lemma RowsInOrder(l: Triple, i: Triple, j: Triple)
    requires InGroup(l, i) && InGroup(l, j)
    ensures i.z < j.z || (i.z == j.z && (i.y < j.y || (i.y == j.y && i.x < j.x))) ==> Position(l, i) < Position(l, j)
  {
    var a, b := i.z * l.y + i.y, j.z * l.y + j.y;
    if i.z < j.z {
      RowBefore(i.z, j.z, l.y, i.y, j.y);
      RowBefore(a, b, l.x, i.x, j.x);
    } else if i.z == j.z && i.y < j.y {
      RowBefore(a, b, l.x, i.x, j.x);
    }
  }

  lemma NoWrap(a: nat)
    requires a < WORD
    ensures a % WORD == a
  {
  }

  lemma Commuted(z: nat, x: nat, y: nat, j: nat, i: nat)
    ensures (z * x) * y + j * x + i == (z * y + j) * x + i
  {
    assert (z * x) * y == (z * y) * x;
  }

  /** When the items of the group can be counted in 32 bits, no operation of the generated code
      overflows on the way to the index, which is the position of the id. */
  lemma FlatIdxIsPosition(l: Triple, i: Triple)
    requires InGroup(l, i) && Items(l) <= WORD
    ensures i.z * l.x < WORD && (i.z * l.x) * l.y < WORD && i.y * l.x < WORD
    ensures (i.z * l.x) * l.y + i.y * l.x < WORD && (i.z * l.x) * l.y + i.y * l.x + i.x < WORD
    ensures FlatIdx(l, i) == Position(l, i)
  {
    PositionInRange(l, i);
    Commuted(i.z, l.x, l.y, i.y, i.x);
    MulAtMost(1, l.y, i.z * l.x);
    NoWrap(i.z * l.x);
    NoWrap((i.z * l.x) * l.y);
    NoWrap(i.y * l.x);
    NoWrap((i.z * l.x) * l.y + i.y * l.x);
    NoWrap((i.z * l.x) * l.y + i.y * l.x + i.x);
  }

  /** The flat index is a bijection from the local ids onto 0 .. Flat3DSize - 1. */
  lemma FlatIdxIsBijection(l: Triple, i: Triple, k: nat)
    requires InGroup(l, i) && Items(l) < WORD && k < Flat3DSize(l)
    ensures Flat3DSize(l) == Items(l)
    ensures FlatIdx(l, i) < Flat3DSize(l) && LocalIdAt(l, FlatIdx(l, i)) == i
    ensures InGroup(l, LocalIdAt(l, k)) && FlatIdx(l, LocalIdAt(l, k)) == k
  {
    MulAtMost(1, l.x, l.z * l.y);
    NoWrap(l.z * l.y);
    NoWrap(Items(l));
    PositionIsBijection(l, i, k);
    FlatIdxIsPosition(l, i);
    FlatIdxIsPosition(l, LocalIdAt(l, k));
  }

  // --------------------------------------------------------------------------- global ids

  function GlobalId(localSize: nat, group: nat, local: nat, offset: nat): nat {
    Add(Add(Mul(localSize, group), local), offset)
  }

  /** The group and the local id of the item that is the k-th of its dimension. */
  function ItemAt(localSize: nat, k: nat): (nat, nat)
    requires localSize > 0
  {
    (k / localSize, k % localSize)
  }

  lemma ItemAtIs(localSize: nat, groups: nat, k: nat)
    requires localSize > 0 && k < localSize * groups
    ensures var (group, local) := ItemAt(localSize, k);
            group < groups && local < localSize && k == localSize * group + local
  {
    if k / localSize >= groups {
      MulAtMost(groups, k / localSize, localSize);
    }
  }

  /** The expansion of the global id reaches every id from the offset on, up to the global size. */
  lemma GlobalIdIsOnto(localSize: nat, groups: nat, offset: nat, k: nat)
    requires localSize > 0 && k < localSize * groups && offset + localSize * groups <= WORD
    ensures var (group, local) := ItemAt(localSize, k);
            group < groups && local < localSize && GlobalId(localSize, group, local, offset) == offset + k
  {
    hide GlobalId, ItemAt;
    ItemAtIs(localSize, groups, k);
    var (group, local) := ItemAt(localSize, k);
    InRange(localSize, groups, group, local, offset);
  }

  /** Each group and local id has a global id within these bounds, which determines them. */
  lemma GlobalIdIsOneToOne(localSize: nat, groups: nat, group: nat, local: nat, offset: nat)
    requires local < localSize && group < groups && offset + localSize * groups <= WORD
    ensures var id := GlobalId(localSize, group, local, offset);
            offset <= id < offset + localSize * groups && ItemAt(localSize, id - offset) == (group, local)
  {
    hide GlobalId;
    InRange(localSize, groups, group, local, offset);
    SplitAt(localSize * group + local, group, local, localSize);
  }

  lemma InRange(localSize: nat, groups: nat, group: nat, local: nat, offset: nat)
    requires local < localSize && group < groups && offset + localSize * groups <= WORD
    ensures GlobalId(localSize, group, local, offset) == offset + localSize * group + local < offset
            + localSize * groups
  {
    MulAtMost(group + 1, groups, localSize);
    NoWrap(localSize * group);
    NoWrap(localSize * group + local);
    NoWrap(localSize * group + local + offset);
  }
}
