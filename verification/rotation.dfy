/** `ROTATION_MATRICES` and `Plan.rotate`: quarter turns about a vertical axis. */
module Rotation {
  import opened Wrappers
  import opened Voxels

  /** A 3x3 integer matrix, row by row. */
  datatype Matrix = Matrix(a: int, b: int, c: int, d: int, e: int, f: int, g: int, h: int, i: int)

  /** The matrices for 0, 90, 180 and 270 degrees, acting on `(dx, dz, 0)`. */
  const RotationMatrices: seq<Matrix> := [
    Matrix(1, 0, 0, 0, 1, 0, 0, 0, 1),
    Matrix(0, -1, 0, 1, 0, 0, 0, 0, 1),
    Matrix(-1, 0, 0, 0, -1, 0, 0, 0, 1),
    Matrix(0, 1, 0, -1, 0, 0, 0, 0, 1)
  ]

  /** numpy's `m.dot(v)` for a 3x3 matrix and a 3-vector. */
  function Dot(m: Matrix, v: (int, int, int)): (int, int, int) {
    (m.a * v.0 + m.b * v.1 + m.c * v.2,
     m.d * v.0 + m.e * v.1 + m.f * v.2,
     m.g * v.0 + m.h * v.1 + m.i * v.2)
  }

  /** `Plan.rotate`: turns `voxel` about `origin` in the horizontal plane by the
      matrix `ROTATION_MATRICES[rotation]`; `None` is the `IndexError` of a
      rotation outside `-4..3` (negative rotations index from the end). */
  function Rotate(rotation: int, voxel: Coord, origin: Coord): (r: Option<Coord>)
    ensures r.Some? <==> -4 <= rotation < 4
    ensures r.Some? ==> r.value.y == voxel.y
  {
    match PyIndex(RotationMatrices, rotation)
    case None => None
    case Some(m) =>
      var v := Dot(m, (voxel.x - origin.x, voxel.z - origin.z, 0));
      Some(Coord(v.0 + origin.x, voxel.y, v.1 + origin.z))
  }

  /** The squared horizontal distance of `c` from `origin`. */
  function Distance2(c: Coord, origin: Coord): int {
    (c.x - origin.x) * (c.x - origin.x) + (c.z - origin.z) * (c.z - origin.z)
  }

  /** One counter-clockwise quarter turn about `origin`, written out directly:
      the horizontal offset `(dx, dz)` becomes `(-dz, dx)`. */
  function QuarterTurn(c: Coord, origin: Coord): Coord {
    Coord(origin.x - (c.z - origin.z), c.y, origin.z + (c.x - origin.x))
  }

  /** `n` quarter turns. */
  function QuarterTurns(n: nat, c: Coord, origin: Coord): Coord
    decreases n
  {
    if n == 0 then c else QuarterTurn(QuarterTurns(n - 1, c, origin), origin)
  }

  /** Rotation `k` is `k mod 4` quarter turns, for every rotation the matrix table accepts. */
  lemma RotateIsQuarterTurns(rotation: int, voxel: Coord, origin: Coord)
    requires -4 <= rotation < 4
    ensures Rotate(rotation, voxel, origin) == Some(QuarterTurns(rotation % 4, voxel, origin))
  {
    var dx, dz := voxel.x - origin.x, voxel.z - origin.z;
    var m := RotationMatrices[rotation % 4];
    assert PyIndex(RotationMatrices, rotation) == Some(m);
    if rotation % 4 == 0 {
      assert m == Matrix(1, 0, 0, 0, 1, 0, 0, 0, 1);
      assert Dot(m, (dx, dz, 0)) == (dx, dz, 0);
    } else if rotation % 4 == 1 {
      assert m == Matrix(0, -1, 0, 1, 0, 0, 0, 0, 1);
      assert Dot(m, (dx, dz, 0)) == (-dz, dx, 0);
    } else if rotation % 4 == 2 {
      assert m == Matrix(-1, 0, 0, 0, -1, 0, 0, 0, 1);
      assert Dot(m, (dx, dz, 0)) == (-dx, -dz, 0);
    } else {
      assert m == Matrix(0, 1, 0, -1, 0, 0, 0, 0, 1);
      assert Dot(m, (dx, dz, 0)) == (dz, -dx, 0);
    }
    assert QuarterTurns(0, voxel, origin) == voxel;
    assert QuarterTurns(1, voxel, origin) == QuarterTurn(voxel, origin);
    assert QuarterTurns(2, voxel, origin) == QuarterTurn(QuarterTurn(voxel, origin), origin);
    assert QuarterTurns(3, voxel, origin)
        == QuarterTurn(QuarterTurn(QuarterTurn(voxel, origin), origin), origin);
  }

  /** Rotation 0 is the identity, rotation 1 sends `(dx, dz)` to `(-dz, dx)`,
      and no rotation moves the origin. */
  lemma RotateZeroOneOrigin(rotation: int, voxel: Coord, origin: Coord)
    requires -4 <= rotation < 4
    ensures Rotate(0, voxel, origin) == Some(voxel)
    ensures Rotate(1, voxel, origin)
         == Some(Coord(origin.x - (voxel.z - origin.z), voxel.y, origin.z + (voxel.x - origin.x)))
    ensures voxel.x == origin.x && voxel.z == origin.z ==> Rotate(rotation, voxel, origin) == Some(voxel)
  {
    RotateIsQuarterTurns(0, voxel, origin);
    RotateIsQuarterTurns(1, voxel, origin);
    RotateIsQuarterTurns(rotation, voxel, origin);
    if voxel.x == origin.x && voxel.z == origin.z {
      QuarterTurnsFixOrigin(rotation % 4, voxel, origin);
    }
  }

  lemma {:induction false} QuarterTurnsFixOrigin(n: nat, c: Coord, origin: Coord)
    requires c.x == origin.x && c.z == origin.z
    ensures QuarterTurns(n, c, origin) == c
    decreases n
  {
    if n > 0 {
      QuarterTurnsFixOrigin(n - 1, c, origin);
    }
  }

  /** Applying rotation 1 four times returns the voxel to where it started. */
  lemma RotateFourTimes(voxel: Coord, origin: Coord)
    ensures Rotate(1, voxel, origin).Some?
    ensures var r1 := Rotate(1, voxel, origin).value;
            var r2 := Rotate(1, r1, origin).value;
            var r3 := Rotate(1, r2, origin).value;
            Rotate(1, r3, origin) == Some(voxel)
  {
    var r1 := Rotate(1, voxel, origin).value;
    var r2 := Rotate(1, r1, origin).value;
    var r3 := Rotate(1, r2, origin).value;
    RotateIsQuarterTurns(1, voxel, origin);
    RotateIsQuarterTurns(1, r1, origin);
    RotateIsQuarterTurns(1, r2, origin);
    RotateIsQuarterTurns(1, r3, origin);
  }

  /** A quarter turn keeps the horizontal distance from the origin. */
  lemma RotateKeepsDistance(rotation: int, voxel: Coord, origin: Coord)
    requires -4 <= rotation < 4
    ensures Distance2(Rotate(rotation, voxel, origin).value, origin) == Distance2(voxel, origin)
  {
    RotateIsQuarterTurns(rotation, voxel, origin);
    QuarterTurnsKeepDistance(rotation % 4, voxel, origin);
  }

  lemma {:induction false} QuarterTurnsKeepDistance(n: nat, c: Coord, origin: Coord)
    ensures Distance2(QuarterTurns(n, c, origin), origin) == Distance2(c, origin)
    decreases n
  {
    if n > 0 {
      QuarterTurnsKeepDistance(n - 1, c, origin);
      var p := QuarterTurns(n - 1, c, origin);
      assert QuarterTurn(p, origin).x - origin.x == -(p.z - origin.z);
      assert QuarterTurn(p, origin).z - origin.z == p.x - origin.x;
    }
  }

  /** Rotating by `a` and then by `b` is rotating by `a + b` quarter turns, for
      every pair of rotations the matrix table accepts. */
  lemma RotateCompose(a: int, b: int, voxel: Coord, origin: Coord)
    requires -4 <= a < 4 && -4 <= b < 4
    ensures Rotate(b, Rotate(a, voxel, origin).value, origin)
         == Rotate((a + b) % 4, voxel, origin)
  {
    var n := (a + b) % 4;
    var ka, kb := a % 4, b % 4;
    assert n % 4 == n;
    assert (ka + kb) % 4 == n;
    RotateIsQuarterTurns(a, voxel, origin);
    var r := QuarterTurns(ka, voxel, origin);
    assert Rotate(a, voxel, origin).value == r;
    RotateIsQuarterTurns(b, r, origin);
    RotateIsQuarterTurns(n, voxel, origin);
    QuarterTurnsAdd(kb, ka, voxel, origin);
    QuarterTurnsPeriod(kb + ka, voxel, origin);
    assert QuarterTurns(kb, r, origin) == QuarterTurns(n, voxel, origin);
  }

  lemma {:induction false} QuarterTurnsAdd(m: nat, n: nat, c: Coord, origin: Coord)
    ensures QuarterTurns(m, QuarterTurns(n, c, origin), origin) == QuarterTurns(m + n, c, origin)
    decreases m
  {
    if m > 0 {
      QuarterTurnsAdd(m - 1, n, c, origin);
    }
  }

  lemma QuarterTurnsPeriod(n: nat, c: Coord, origin: Coord)
    requires n < 8
    ensures QuarterTurns(n, c, origin) == QuarterTurns(n % 4, c, origin)
  {
    if n >= 4 {
      QuarterTurnsAdd(n - 4, 4, c, origin);
      assert QuarterTurns(4, c, origin) == c;
    }
  }
}
