/**
 Snapping build positions to the 16-elmo build grid, and the two ways of
 computing the footprint of a snapped position.
 */
module BuildSnap {
  import opened Conversions

  const SQUARE_SIZE: int := 8
  const BUILD_SQUARE_SIZE: int := 16

  /** Where and how a unit is to be built; the sizes are those of its definition. */
  datatype BuildInfo = BuildInfo(x: real, z: real, defXSize: nat, defZSize: nat, facing: nat)
  {
    function GetXSize(): nat { if facing % 2 == 0 then defXSize else defZSize }

    function GetZSize(): nat { if facing % 2 == 1 then defXSize else defZSize }
  }

  /** Bit 1 of a size, size & 2: the size counts an odd number of build squares. */
  predicate OddBuildSquares(size: nat) { size / 2 % 2 == 1 }

  /** Pos2BuildPos along one axis. */
  function Snap(coord: real, size: nat): real {
    if OddBuildSquares(size) then
      ((coord / 16.0).Floor * BUILD_SQUARE_SIZE + SQUARE_SIZE) as real
    else
      (((coord + 8.0) / 16.0).Floor * BUILD_SQUARE_SIZE) as real
  }

  function Pos2BuildPos(bi: BuildInfo): BuildInfo {
    bi.(x := Snap(bi.x, bi.GetXSize()), z := Snap(bi.z, bi.GetZSize()))
  }

  /** First square of the footprint along one axis, as the build test computes it. */
  function FirstSquare(coord: real, size: nat): int {
    Truncate(coord / 8.0) - size / 2
  }

  datatype Footprint = Footprint(x1: int, z1: int, x2: int, z2: int)

  /** The ranges of TestUnitBuildSquare. */
  function TestedSquares(bi: BuildInfo): Footprint {
    var x1, z1 := FirstSquare(bi.x, bi.GetXSize()), FirstSquare(bi.z, bi.GetZSize());
    Footprint(x1, z1, x1 + bi.GetXSize(), z1 + bi.GetZSize())
  }

  datatype Rect = Rect(x1: real, z1: real, x2: real, z2: real)

  function BuildPosToRect(x: real, z: real, facing: nat, xsize: nat, zsize: nat): Rect {
    var xs := if facing % 2 == 0 then xsize else zsize;
    var zs := if facing % 2 == 1 then xsize else zsize;
    Rect(x - (xs * 4) as real, z - (zs * 4) as real, x + (xs * 4) as real, z + (zs * 4) as real)
  }

  function SquaresToElmos(f: Footprint): Rect {
    Rect((f.x1 * SQUARE_SIZE) as real, (f.z1 * SQUARE_SIZE) as real,
         (f.x2 * SQUARE_SIZE) as real, (f.z2 * SQUARE_SIZE) as real)
  }

  /** Snapping moves a coordinate by at most half a build square, and from half way between two of them up. */
  lemma SnapMovesLittle(coord: real, size: nat)
    ensures -8.0 < Snap(coord, size) - coord <= 8.0
  {
  }

  /** A snapped coordinate counts whole squares, an odd number of them exactly for odd build squares. */
  lemma SnappedSquares(coord: real, size: nat) returns (squares: int)
    ensures Snap(coord, size) == (squares * SQUARE_SIZE) as real
    ensures squares % 2 == 1 <==> OddBuildSquares(size)
    ensures Truncate(Snap(coord, size) / 8.0) == squares
  {
    squares := if OddBuildSquares(size) then 2 * (coord / 16.0).Floor + 1 else 2 * ((coord + 8.0) / 16.0).Floor;
    assert Snap(coord, size) / 8.0 == squares as real;
  }

  /**
   A coordinate is snapped to the one place within half a build square that is a whole number of squares, odd for
   sizes of an odd number of build squares and even for the others.
   */
  lemma SnapIs(coord: real, size: nat, squares: int)
    ensures Snap(coord, size) == (squares * 8) as real <==>
            squares % 2 == size / 2 % 2 && -8.0 < (squares * 8) as real - coord <= 8.0
  {
    var snapped := SnappedSquares(coord, size);
    SnapMovesLittle(coord, size);
    if squares % 2 == size / 2 % 2 && -8.0 < (squares * 8) as real - coord <= 8.0 {
      assert -16.0 < (squares * 8) as real - (snapped * 8) as real < 16.0;
      assert -2 < squares - snapped < 2;
    }
  }

  lemma GridFloor(k: int)
    ensures ((16 * k + 8) as real / 16.0).Floor == k
  {
    assert (16 * k + 8) as real / 16.0 == k as real + 0.5;
  }

  lemma SnapIdempotent(coord: real, size: nat)
    ensures Snap(Snap(coord, size), size) == Snap(coord, size)
  {
    if OddBuildSquares(size) {
      GridFloor((coord / 16.0).Floor);
    } else {
      GridFloor(((coord + 8.0) / 16.0).Floor);
    }
  }

  /** A position that has been snapped stays where it is. */
  lemma Pos2BuildPosIdempotent(bi: BuildInfo)
    ensures Pos2BuildPos(Pos2BuildPos(bi)) == Pos2BuildPos(bi)
    ensures var p := Pos2BuildPos(bi); -8.0 <= p.x - bi.x <= 8.0 && -8.0 <= p.z - bi.z <= 8.0
  {
    SnapIdempotent(bi.x, bi.GetXSize());
    SnapIdempotent(bi.z, bi.GetZSize());
    SnapMovesLittle(bi.x, bi.GetXSize());
    SnapMovesLittle(bi.z, bi.GetZSize());
  }

  /** A snapped footprint always starts on an even square, half its size away from the middle if the size is even. */
  lemma SnappedStart(coord: real, size: nat) returns (start: int)
    ensures start == FirstSquare(Snap(coord, size), size) && start % 2 == 0
    ensures (start * SQUARE_SIZE) as real == Snap(coord, size) - (size * 4) as real <==> size % 2 == 0
    ensures ((start + size) * SQUARE_SIZE) as real == Snap(coord, size) + (size * 4) as real <==> size % 2 == 0
  {
    var squares := SnappedSquares(coord, size);
    start := squares - size / 2;
  }

  /** The tested squares, by their even first squares. */
  lemma TestedFrom(bi: BuildInfo) returns (x1: int, z1: int)
    ensures TestedSquares(Pos2BuildPos(bi)) == Footprint(x1, z1, x1 + bi.GetXSize(), z1 + bi.GetZSize())
    ensures x1 % 2 == 0 && z1 % 2 == 0
    ensures x1 == FirstSquare(Snap(bi.x, bi.GetXSize()), bi.GetXSize())
    ensures z1 == FirstSquare(Snap(bi.z, bi.GetZSize()), bi.GetZSize())
  {
    x1 := SnappedStart(bi.x, bi.GetXSize());
    z1 := SnappedStart(bi.z, bi.GetZSize());
  }

  /** Facing south or north the footprint is as wide as its definition, facing east or west as wide as that is long. */
  lemma FootprintFaces(bi: BuildInfo)
    ensures
      var f, r := TestedSquares(bi), BuildPosToRect(bi.x, bi.z, bi.facing, bi.defXSize, bi.defZSize);
      var (xsize, zsize) :=
        if bi.facing % 2 == 0 then (bi.defXSize, bi.defZSize) else (bi.defZSize, bi.defXSize);
      && f.x2 - f.x1 == xsize && f.z2 - f.z1 == zsize
      && r == Rect(bi.x - (xsize * 4) as real, bi.z - (zsize * 4) as real,
                   bi.x + (xsize * 4) as real, bi.z + (zsize * 4) as real)
  {
  }

  lemma SizesSwap(bi: BuildInfo)
    ensures bi.GetXSize() % 2 == 0 && bi.GetZSize() % 2 == 0 <==> bi.defXSize % 2 == 0 && bi.defZSize % 2 == 0
  {
  }

  lemma EvenEnds(x1: int, z1: int, xsize: nat, zsize: nat)
    requires x1 % 2 == 0 && z1 % 2 == 0
    ensures (x1 + xsize) % 2 == 0 && (z1 + zsize) % 2 == 0 <==> xsize % 2 == 0 && zsize % 2 == 0
  {
  }

  /** The build test covers whole 2x2 tiles of the building mask, exactly for even sizes. */
  lemma FootprintOnTilesIff(bi: BuildInfo)
    ensures
      var f := TestedSquares(Pos2BuildPos(bi));
      (f.x1 % 2 == 0 && f.z1 % 2 == 0 && f.x2 % 2 == 0 && f.z2 % 2 == 0) <==>
      (bi.defXSize % 2 == 0 && bi.defZSize % 2 == 0)
  {
    var x1, z1 := TestedFrom(bi);
    EvenEnds(x1, z1, bi.GetXSize(), bi.GetZSize());
    SizesSwap(bi);
  }

  /** The squares the build test covers are the rectangle of BuildPosToRect, for any facing, exactly for even sizes. */
  lemma FootprintIsRectIff(bi: BuildInfo)
    ensures
      var p := Pos2BuildPos(bi);
      SquaresToElmos(TestedSquares(p)) == BuildPosToRect(p.x, p.z, bi.facing, bi.defXSize, bi.defZSize) <==>
      (bi.defXSize % 2 == 0 && bi.defZSize % 2 == 0)
  {
    var x1, z1 := TestedFrom(bi);
    var _ := SnappedStart(bi.x, bi.GetXSize());
    var _ := SnappedStart(bi.z, bi.GetZSize());
    SizesSwap(bi);
  }
}
