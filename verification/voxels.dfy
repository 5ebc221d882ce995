/**
 * The 5x5x5 age buffer `field[x][y][z]` of the cube: one `uint8_t` age per
 * voxel, 0 meaning unlit.  The buffer is stored flat, x outermost and z
 * innermost, which is also the order the firmware's nested loops visit it.
 */
module Voxels {

  import opened Bits

  /** Voxels along one edge of the cube. */
  const Side := 5

  /** Voxels in the cube. */
  const Cells := 125

  /** A voxel's age; 0 is unlit, larger is more recently drawn. */
  type Age = U8

  /** A voxel coordinate; only `InGrid` positions address the buffer. */
  datatype Pos = Pos(x: int, y: int, z: int)

  predicate InGrid(p: Pos) {
    0 <= p.x < Side && 0 <= p.y < Side && 0 <= p.z < Side
  }

  /** The age buffer. */
  type Field = f: seq<Age> | |f| == Cells witness seq(Cells, _ => 0)

  /**
   * The row-major offset `25 * x + 5 * y + z` of `field[x][y][z]`, written
   * as sums so that the solver sees only linear arithmetic.
   */
  function Offset(x: int, y: int, z: int): int {
    var row := x + x + x + x + x + y;
    row + row + row + row + row + z
  }

  /** Where voxel `p` lives in the flat buffer. */
  function Index(p: Pos): (i: nat)
    requires InGrid(p)
    ensures i < Cells
  {
    Offset(p.x, p.y, p.z)
  }

  /** The voxel stored at flat position `i`. */
  function PosAt(i: nat): (p: Pos)
    requires i < Cells
    ensures InGrid(p) && Index(p) == i
  {
    Pos(i / 25, (i / 5) % 5, i % 5)
  }

  /** Distinct voxels occupy distinct buffer positions. */
  lemma IndexInjective(p: Pos, q: Pos)
    requires InGrid(p) && InGrid(q)
    ensures Index(p) == Index(q) <==> p == q
  {
    if Index(p) == Index(q) {
      assert p.x == q.x;
      assert p.y == q.y;
    }
  }

  /** `field[p.x][p.y][p.z]`. */
  function At(f: Field, p: Pos): Age
    requires InGrid(p)
  {
    f[Index(p)]
  }

  /** Two buffers that agree on every voxel are the same buffer. */
  lemma FieldExt(f: Field, g: Field)
    requires forall p | InGrid(p) :: At(f, p) == At(g, p)
    ensures f == g
  {
    forall i | 0 <= i < Cells
      ensures f[i] == g[i]
    {
      assert At(f, PosAt(i)) == At(g, PosAt(i));
    }
  }

  /** The all-dark buffer the firmware starts from and resets to. */
  function Blank(): (f: Field)
    ensures forall p | InGrid(p) :: At(f, p) == 0
  {
    seq(Cells, _ => 0)
  }

  /** `field[p.x][p.y][p.z] = v`: voxel `p` becomes `v`, every other voxel keeps its age. */
  function Put(f: Field, p: Pos, v: Age): (g: Field)
    requires InGrid(p)
    ensures At(g, p) == v
    ensures forall q | InGrid(q) && q != p :: At(g, q) == At(f, q)
  {
    f[Index(p) := v]
  }

  /** One voxel's ageing step: a positive age drops by one, 0 stays 0. */
  function Dec(a: Age): Age {
    if a > 0 then a - 1 else 0
  }

  /**
   * Ages every voxel once: each positive age becomes exactly one less and
   * each unlit voxel stays unlit.
   */
  function Decay(f: Field): (g: Field)
    ensures forall p | InGrid(p) :: At(f, p) > 0 ==> At(g, p) == At(f, p) - 1
    ensures forall p | InGrid(p) :: At(f, p) == 0 ==> At(g, p) == 0
  {
    seq(Cells, i requires 0 <= i < Cells => Dec(f[i]))
  }

  /** The buffer `g` is `f` with the first `n` entries (in row-major order) aged. */
  predicate AgedBelow(f: Field, g: Field, n: int) {
    forall i | 0 <= i < Cells :: g[i] == (if i < n then Dec(f[i]) else f[i])
  }

  /** The innermost ageing loop: the z-row at `x`, `y`. */
  method DecayRow(f: Field, g0: Field, x: int, y: int) returns (g: Field)
    requires 0 <= x < Side && 0 <= y < Side && AgedBelow(f, g0, Offset(x, y, 0))
    ensures AgedBelow(f, g, Offset(x, y + 1, 0))
  {
    g := g0;
    var z := 0;
    while z < Side
      invariant 0 <= z <= Side
      invariant AgedBelow(f, g, Offset(x, y, z))
    {
      var p := Pos(x, y, z);
      if At(g, p) > 0 {
        g := Put(g, p, At(g, p) - 1);
      }
      z := z + 1;
    }
  }

  /** The middle ageing loop: the plane at `x`. */
  method DecayPlane(f: Field, g0: Field, x: int) returns (g: Field)
    requires 0 <= x < Side && AgedBelow(f, g0, Offset(x, 0, 0))
    ensures AgedBelow(f, g, Offset(x + 1, 0, 0))
  {
    g := g0;
    var y := 0;
    while y < Side
      invariant 0 <= y <= Side
      invariant AgedBelow(f, g, Offset(x, y, 0))
    {
      g := DecayRow(f, g, x, y);
      y := y + 1;
    }
  }

  /**
   * The firmware's ageing pass: three nested loops over x, y and z that
   * decrement every positive entry in place.  It computes `Decay`.
   */
  method DecayLoops(f: Field) returns (g: Field)
    ensures g == Decay(f)
  {
    g := f;
    var x := 0;
    while x < Side
      invariant 0 <= x <= Side
      invariant AgedBelow(f, g, Offset(x, 0, 0))
    {
      g := DecayPlane(f, g, x);
      x := x + 1;
    }
    assert forall i | 0 <= i < Cells :: g[i] == Decay(f)[i];
  }

  /** The first `n` entries (in row-major order) of `g` are 0. */
  predicate ClearBelow(g: Field, n: int) {
    forall i | 0 <= i < n && i < Cells :: g[i] == 0
  }

  /** The innermost reset loop: the z-row at `x`, `y`. */
  method ClearRow(g0: Field, x: int, y: int) returns (g: Field)
    requires 0 <= x < Side && 0 <= y < Side && ClearBelow(g0, Offset(x, y, 0))
    ensures ClearBelow(g, Offset(x, y + 1, 0))
  {
    g := g0;
    var z := 0;
    while z < Side
      invariant 0 <= z <= Side
      invariant ClearBelow(g, Offset(x, y, z))
    {
      g := Put(g, Pos(x, y, z), 0);
      z := z + 1;
    }
  }

  /** The middle reset loop: the plane at `x`. */
  method ClearPlane(g0: Field, x: int) returns (g: Field)
    requires 0 <= x < Side && ClearBelow(g0, Offset(x, 0, 0))
    ensures ClearBelow(g, Offset(x + 1, 0, 0))
  {
    g := g0;
    var y := 0;
    while y < Side
      invariant 0 <= y <= Side
      invariant ClearBelow(g, Offset(x, y, 0))
    {
      g := ClearRow(g, x, y);
      y := y + 1;
    }
  }

  /**
   * The firmware's reset pass: three nested loops over x, y and z that store
   * 0 everywhere.  Whatever the buffer held, it ends blank.
   */
  method ClearLoops(f: Field) returns (g: Field)
    ensures g == Blank()
  {
    g := f;
    var x := 0;
    while x < Side
      invariant 0 <= x <= Side
      invariant ClearBelow(g, Offset(x, 0, 0))
    {
      g := ClearPlane(g, x);
      x := x + 1;
    }
    assert forall i | 0 <= i < Cells :: g[i] == Blank()[i];
  }
}
