/** Integer coordinates, inclusive boxes and their enumeration (`scan_volume`),
    and the volume a structure block declares (`structure_block_volume`). */
module Voxels {

  /** A voxel position `(x, y, z)`; `y` is the vertical axis. */
  datatype Coord = Coord(x: int, y: int, z: int) {
    function Plus(o: Coord): Coord {
      Coord(x + o.x, y + o.y, z + o.z)
    }

    function Minus(o: Coord): Coord {
      Coord(x - o.x, y - o.y, z - o.z)
    }
  }

  /** One merged box of identical blocks, as the fill merger hands it back:
      its two corners and its block name. */
  datatype Fill<N> = Fill(lo: Coord, hi: Coord, name: N)

  /** The number of integers in the inclusive range `lo..hi`. */
  function Span(lo: int, hi: int): nat {
    if hi < lo then 0 else hi - lo + 1
  }

  predicate InBox(c: Coord, lo: Coord, hi: Coord) {
    lo.x <= c.x <= hi.x && lo.y <= c.y <= hi.y && lo.z <= c.z <= hi.z
  }

  /** Lexicographic order on `(x, y, z)`. */
  predicate LexLess(a: Coord, b: Coord) {
    a.x < b.x || (a.x == b.x && (a.y < b.y || (a.y == b.y && a.z < b.z)))
  }

  ghost predicate StrictlyLexSorted(s: seq<Coord>) {
    forall i, j :: 0 <= i < j < |s| ==> LexLess(s[i], s[j])
  }

  function ScanRow(x: int, y: int, lz: int, hz: int): seq<Coord>
    decreases hz - lz
  {
    if hz < lz then [] else [Coord(x, y, lz)] + ScanRow(x, y, lz + 1, hz)
  }

  function ScanPlane(x: int, ly: int, hy: int, lz: int, hz: int): seq<Coord>
    decreases hy - ly
  {
    if hy < ly then [] else ScanRow(x, ly, lz, hz) + ScanPlane(x, ly + 1, hy, lz, hz)
  }

  function ScanSlabs(lx: int, hx: int, ly: int, hy: int, lz: int, hz: int): seq<Coord>
    decreases hx - lx
  {
    if hx < lx then []
    else ScanPlane(lx, ly, hy, lz, hz) + ScanSlabs(lx + 1, hx, ly, hy, lz, hz)
  }

  /** `scan_volume(lower, upper)`: every coordinate of the inclusive box, x outermost, z innermost. */
  function ScanVolume(lo: Coord, hi: Coord): seq<Coord> {
    ScanSlabs(lo.x, hi.x, lo.y, hi.y, lo.z, hi.z)
  }

  // ---------------------------------------------------------------------------
  // Membership.

  lemma {:induction false} ScanRowMembers(x: int, y: int, lz: int, hz: int)
    ensures forall c :: c in ScanRow(x, y, lz, hz) <==> c.x == x && c.y == y && lz <= c.z <= hz
    decreases hz - lz
  {
    if hz >= lz {
      ScanRowMembers(x, y, lz + 1, hz);
    }
  }

  lemma {:induction false} ScanPlaneMembers(x: int, ly: int, hy: int, lz: int, hz: int)
    ensures forall c :: c in ScanPlane(x, ly, hy, lz, hz)
                    <==> c.x == x && ly <= c.y <= hy && lz <= c.z <= hz
    decreases hy - ly
  {
    if hy >= ly {
      ScanRowMembers(x, ly, lz, hz);
      ScanPlaneMembers(x, ly + 1, hy, lz, hz);
    }
  }

  lemma {:induction false} ScanSlabsMembers(lx: int, hx: int, ly: int, hy: int, lz: int, hz: int)
    ensures forall c :: c in ScanSlabs(lx, hx, ly, hy, lz, hz)
                    <==> lx <= c.x <= hx && ly <= c.y <= hy && lz <= c.z <= hz
    decreases hx - lx
  {
    if hx >= lx {
      ScanPlaneMembers(lx, ly, hy, lz, hz);
      ScanSlabsMembers(lx + 1, hx, ly, hy, lz, hz);
    }
  }

  /** `scan_volume` yields exactly the coordinates of the inclusive box. */
  lemma ScanVolumeMembers(lo: Coord, hi: Coord)
    ensures forall c :: c in ScanVolume(lo, hi) <==> InBox(c, lo, hi)
  {
    ScanSlabsMembers(lo.x, hi.x, lo.y, hi.y, lo.z, hi.z);
  }

  // ---------------------------------------------------------------------------
  // Order.

  lemma SortedConcat(a: seq<Coord>, b: seq<Coord>)
    requires StrictlyLexSorted(a) && StrictlyLexSorted(b)
    requires forall u, v :: u in a && v in b ==> LexLess(u, v)
    ensures StrictlyLexSorted(a + b)
  {
    forall i, j | 0 <= i < j < |a + b| ensures LexLess((a + b)[i], (a + b)[j]) {
      if j < |a| {
        assert (a + b)[i] == a[i] && (a + b)[j] == a[j];
      } else if i < |a| {
        assert (a + b)[i] in a && (a + b)[j] in b;
      } else {
        assert (a + b)[i] == b[i - |a|] && (a + b)[j] == b[j - |a|];
      }
    }
  }

  lemma {:induction false} ScanRowSorted(x: int, y: int, lz: int, hz: int)
    ensures StrictlyLexSorted(ScanRow(x, y, lz, hz))
    decreases hz - lz
  {
    if hz >= lz {
      ScanRowSorted(x, y, lz + 1, hz);
      ScanRowMembers(x, y, lz + 1, hz);
      SortedConcat([Coord(x, y, lz)], ScanRow(x, y, lz + 1, hz));
    }
  }

  lemma {:induction false} ScanPlaneSorted(x: int, ly: int, hy: int, lz: int, hz: int)
    ensures StrictlyLexSorted(ScanPlane(x, ly, hy, lz, hz))
    decreases hy - ly
  {
    if hy >= ly {
      ScanRowSorted(x, ly, lz, hz);
      ScanRowMembers(x, ly, lz, hz);
      ScanPlaneSorted(x, ly + 1, hy, lz, hz);
      ScanPlaneMembers(x, ly + 1, hy, lz, hz);
      SortedConcat(ScanRow(x, ly, lz, hz), ScanPlane(x, ly + 1, hy, lz, hz));
    }
  }

  lemma {:induction false} ScanSlabsSorted(lx: int, hx: int, ly: int, hy: int, lz: int, hz: int)
    ensures StrictlyLexSorted(ScanSlabs(lx, hx, ly, hy, lz, hz))
    decreases hx - lx
  {
    if hx >= lx {
      ScanPlaneSorted(lx, ly, hy, lz, hz);
      ScanPlaneMembers(lx, ly, hy, lz, hz);
      ScanSlabsSorted(lx + 1, hx, ly, hy, lz, hz);
      ScanSlabsMembers(lx + 1, hx, ly, hy, lz, hz);
      SortedConcat(ScanPlane(lx, ly, hy, lz, hz), ScanSlabs(lx + 1, hx, ly, hy, lz, hz));
    }
  }

  /** `scan_volume` visits the box in strictly increasing (x, y, z) order, so it
      yields every coordinate exactly once. */
  lemma ScanVolumeOrder(lo: Coord, hi: Coord)
    ensures StrictlyLexSorted(ScanVolume(lo, hi))
    ensures forall i, j :: 0 <= i < j < |ScanVolume(lo, hi)|
                      ==> ScanVolume(lo, hi)[i] != ScanVolume(lo, hi)[j]
  {
    ScanSlabsSorted(lo.x, hi.x, lo.y, hi.y, lo.z, hi.z);
  }

  // ---------------------------------------------------------------------------
  // Size.

  lemma {:induction false} ScanRowLength(x: int, y: int, lz: int, hz: int)
    ensures |ScanRow(x, y, lz, hz)| == Span(lz, hz)
    decreases hz - lz
  {
    if hz >= lz {
      ScanRowLength(x, y, lz + 1, hz);
    }
  }

  lemma {:induction false} ScanPlaneLength(x: int, ly: int, hy: int, lz: int, hz: int)
    ensures |ScanPlane(x, ly, hy, lz, hz)| == Span(ly, hy) * Span(lz, hz)
    decreases hy - ly
  {
    if hy >= ly {
      ScanRowLength(x, ly, lz, hz);
      ScanPlaneLength(x, ly + 1, hy, lz, hz);
      assert Span(ly, hy) == Span(ly + 1, hy) + 1;
      assert (Span(ly + 1, hy) + 1) * Span(lz, hz)
          == Span(ly + 1, hy) * Span(lz, hz) + Span(lz, hz);
    }
  }

  lemma {:induction false} ScanSlabsLength(lx: int, hx: int, ly: int, hy: int, lz: int, hz: int)
    ensures |ScanSlabs(lx, hx, ly, hy, lz, hz)| == Span(lx, hx) * (Span(ly, hy) * Span(lz, hz))
    decreases hx - lx
  {
    if hx >= lx {
      ScanPlaneLength(lx, ly, hy, lz, hz);
      ScanSlabsLength(lx + 1, hx, ly, hy, lz, hz);
      var area := Span(ly, hy) * Span(lz, hz);
      assert Span(lx, hx) == Span(lx + 1, hx) + 1;
      assert (Span(lx + 1, hx) + 1) * area == Span(lx + 1, hx) * area + area;
    }
  }

  /** `scan_volume` yields the product of the three side lengths, and nothing
      when any upper bound is below its lower bound. */
  lemma ScanVolumeLength(lo: Coord, hi: Coord)
    ensures |ScanVolume(lo, hi)| == Span(lo.x, hi.x) * Span(lo.y, hi.y) * Span(lo.z, hi.z)
    ensures hi.x < lo.x || hi.y < lo.y || hi.z < lo.z ==> ScanVolume(lo, hi) == []
  {
    ScanSlabsLength(lo.x, hi.x, lo.y, hi.y, lo.z, hi.z);
    var sx, sy, sz := Span(lo.x, hi.x), Span(lo.y, hi.y), Span(lo.z, hi.z);
    assert sx * (sy * sz) == sx * sy * sz;
    if sy == 0 || sz == 0 {
      assert sy * sz == 0;
    }
  }

  // ---------------------------------------------------------------------------
  // Structure blocks.

  /** The fields of a structure block that place its volume: the block's own
      position, the `[xyz]StructureOffset` and `[xyz]StructureSize` tags, and
      the `structureName` tag. */
  datatype StructureBlock = StructureBlock(pos: Coord, offset: Coord, size: Coord, structureName: string)

  /** The side lengths `upper + 1 - lower` that the converter hands to the fill merger. */
  function VolumeDims(lo: Coord, hi: Coord): Coord {
    Coord(hi.x + 1 - lo.x, hi.y + 1 - lo.y, hi.z + 1 - lo.z)
  }

  /** `structure_block_volume`: the lower corner sits at the offset from the
      block and the box has exactly the declared size. */
  function StructureBlockVolume(sb: StructureBlock): (v: (Coord, Coord))
    ensures v.0.Minus(sb.pos) == sb.offset
    ensures VolumeDims(v.0, v.1) == sb.size
  {
    var lo := sb.pos.Plus(sb.offset);
    (lo, Coord(lo.x + sb.size.x - 1, lo.y + sb.size.y - 1, lo.z + sb.size.z - 1))
  }

  /** A structure block declares `sx * sy * sz` voxels, where a side of size
      zero or less contributes no voxels: then the volume is empty. */
  lemma StructureBlockVoxelCount(sb: StructureBlock)
    ensures |ScanVolume(StructureBlockVolume(sb).0, StructureBlockVolume(sb).1)|
         == (if sb.size.x > 0 then sb.size.x else 0)
          * (if sb.size.y > 0 then sb.size.y else 0)
          * (if sb.size.z > 0 then sb.size.z else 0)
    ensures sb.size.x >= 0 && sb.size.y >= 0 && sb.size.z >= 0 ==>
              (|ScanVolume(StructureBlockVolume(sb).0, StructureBlockVolume(sb).1)|
               == sb.size.x * sb.size.y * sb.size.z)
    ensures sb.size.x <= 0 || sb.size.y <= 0 || sb.size.z <= 0 ==>
              ScanVolume(StructureBlockVolume(sb).0, StructureBlockVolume(sb).1) == []
  {
    var v := StructureBlockVolume(sb);
    ScanVolumeLength(v.0, v.1);
    assert Span(v.0.x, v.1.x) == if sb.size.x > 0 then sb.size.x else 0;
    assert Span(v.0.y, v.1.y) == if sb.size.y > 0 then sb.size.y else 0;
    assert Span(v.0.z, v.1.z) == if sb.size.z > 0 then sb.size.z else 0;
  }
}
