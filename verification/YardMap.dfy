/**
 The two rotations of a unit's yard map: the AI callback writes the map out as
 it lies in the world for a facing, and the build test maps a world square back
 to an entry of the definition. They were written independently of each other.
 */
module YardMap {
  import opened Sequences

  datatype Facing = South | East | North | West

  datatype Int2 = Int2(x: int, y: int)

  // ---- the definition's entry for a world square: GetYardMapIndex ----

  /** yardPos is a square of the footprint xrange.x <= x < xrange.y, zrange.x <= z < zrange.y. */
  function GetYardMapIndex(facing: Facing, yardPos: Int2, xrange: Int2, zrange: Int2): int {
    var yardX, yardZ := yardPos.x - xrange.x, yardPos.y - zrange.x;
    var yardXR, yardZR := xrange.y - xrange.x, zrange.y - zrange.x;
    match facing
    case South => yardX + yardXR * yardZ
    case North => (yardXR - yardX - 1) + yardXR * (yardZR - yardZ - 1)
    case East => (yardZR - yardZ - 1) + yardZR * yardX
    case West => yardZ + yardZR * (yardXR - yardX - 1)
  }

  // ---- where the callback writes an entry of the definition: getYardMap ----

  /** The width of the map as it lies in the world. */
  function RowWidth(facing: Facing, xsize: int, zsize: int): int {
    if facing.South? || facing.North? then xsize else zsize
  }

  /** The height of the map as it lies in the world. */
  function ColumnHeight(facing: Facing, xsize: int, zsize: int): int {
    RowWidth(facing, zsize, xsize)
  }

  function XDir(facing: Facing): Int2 {
    match facing
    case South => Int2(1, 0)
    case North => Int2(-1, 0)
    case East => Int2(0, 1)
    case West => Int2(0, -1)
  }

  function ZDir(facing: Facing): Int2 {
    match facing
    case South => Int2(0, 1)
    case North => Int2(0, -1)
    case East => Int2(-1, 0)
    case West => Int2(1, 0)
  }

  function StartIdx(facing: Facing, xsize: int, zsize: int): int {
    match facing
    case South => 0
    case North => xsize * zsize - 1
    case East => (xsize - 1) * zsize
    case West => zsize - 1
  }

  function WriteIndex(facing: Facing, xsize: int, zsize: int, x: int, z: int): int {
    var xt := XDir(facing).x * x + XDir(facing).y * z;
    var zt := ZDir(facing).x * x + ZDir(facing).y * z;
    StartIdx(facing, xsize, zsize) + xt + zt * RowWidth(facing, xsize, zsize)
  }

  /** The world square, relative to the footprint's corner, on which entry (x, z) of the definition lies. */
  function WorldSquare(facing: Facing, xsize: int, zsize: int, x: int, z: int): Int2 {
    match facing
    case South => Int2(x, z)
    case North => Int2(xsize - 1 - x, zsize - 1 - z)
    case East => Int2(z, xsize - 1 - x)
    case West => Int2(zsize - 1 - z, x)
  }

  /** The callback writes each entry to the row and column of its world square. */
  lemma WritesToWorldSquare(facing: Facing, xsize: int, zsize: int, x: int, z: int)
    requires 0 <= x < xsize && 0 <= z < zsize
    ensures
      var w := WorldSquare(facing, xsize, zsize, x, z);
      && 0 <= w.x < RowWidth(facing, xsize, zsize) && 0 <= w.y < ColumnHeight(facing, xsize, zsize)
      && WriteIndex(facing, xsize, zsize, x, z) == w.x + w.y * RowWidth(facing, xsize, zsize)
  {
  }

  /** The same in coordinates, facing by facing. */
  lemma WriteIndexIs(xsize: int, zsize: int, x: int, z: int)
    ensures WriteIndex(South, xsize, zsize, x, z) == x + z * xsize
    ensures WriteIndex(East, xsize, zsize, x, z) == z + (xsize - 1 - x) * zsize
    ensures WriteIndex(North, xsize, zsize, x, z) == (xsize - 1 - x) + (zsize - 1 - z) * xsize
    ensures WriteIndex(West, xsize, zsize, x, z) == (zsize - 1 - z) + x * zsize
  {
  }

  /** From each facing to the next the footprint turns by a quarter: rows become columns, the far end first. */
  lemma QuarterTurns(facing: Facing, next: Facing, xsize: int, zsize: int, x: int, z: int)
    requires (facing, next) in {(South, East), (East, North), (North, West), (West, South)}
    ensures WorldSquare(South, xsize, zsize, x, z) == Int2(x, z)
    ensures RowWidth(South, xsize, zsize) == xsize && ColumnHeight(South, xsize, zsize) == zsize
    ensures
      var w, w' := WorldSquare(facing, xsize, zsize, x, z), WorldSquare(next, xsize, zsize, x, z);
      var width, height := RowWidth(facing, xsize, zsize), ColumnHeight(facing, xsize, zsize);
      && w'.x == w.y && w'.y == width - 1 - w.x
      && RowWidth(next, xsize, zsize) == height && ColumnHeight(next, xsize, zsize) == width
  {
  }

  /** The build test reads, for that world square, the same entry. */
  lemma ReadsTheSameEntry(facing: Facing, xsize: int, zsize: int, x: int, z: int, xrange: Int2, zrange: Int2)
    requires xrange.y - xrange.x == RowWidth(facing, xsize, zsize)
    requires zrange.y - zrange.x == ColumnHeight(facing, xsize, zsize)
    ensures
      var w := WorldSquare(facing, xsize, zsize, x, z);
      GetYardMapIndex(facing, Int2(xrange.x + w.x, zrange.x + w.y), xrange, zrange) == x + z * xsize
  {
    assert xsize * z == z * xsize;
  }

  /** Every world square of the footprint is the place of exactly one entry. */
  lemma WorldSquareIsBijection(facing: Facing, xsize: int, zsize: int, w: Int2) returns (x: int, z: int)
    requires 0 <= w.x < RowWidth(facing, xsize, zsize) && 0 <= w.y < ColumnHeight(facing, xsize, zsize)
    ensures 0 <= x < xsize && 0 <= z < zsize && WorldSquare(facing, xsize, zsize, x, z) == w
    ensures forall x', z' :: WorldSquare(facing, xsize, zsize, x', z') == w ==> x' == x && z' == z
  {
    match facing
    case South => x, z := w.x, w.y;
    case North => x, z := xsize - 1 - w.x, zsize - 1 - w.y;
    case East => x, z := xsize - 1 - w.y, w.x;
    case West => x, z := w.y, zsize - 1 - w.x;
  }

  // ---- the two together ----

  lemma GridIndex(x: int, z: int, width: int, height: int)
    requires 0 <= x < width && 0 <= z < height
    ensures 0 <= x + z * width < width * height
  {
    assert z * width <= (height - 1) * width;
  }

  lemma GridIndexUnique(x: int, z: int, x': int, z': int, width: int)
    requires 0 <= x < width && 0 <= x' < width && x + z * width == x' + z' * width
    ensures x == x' && z == z'
  {
    RowsApart(z, z', width);
    RowsApart(z', z, width);
  }

  lemma RowsApart(z: int, z': int, width: int)
    requires width >= 0
    ensures z > z' ==> z * width >= z' * width + width
  {
    if z > z' {
      ProductNonNegative(z - z' - 1, width);
      assert z * width == (z - z' - 1) * width + z' * width + width by {
        Distribute(z - z' - 1, z' + 1, width);
        Distribute(z', 1, width);
      }
    }
  }

  lemma ProductNonNegative(x: int, y: int)
    requires x >= 0 && y >= 0
    ensures x * y >= 0
  {
  }

  lemma Distribute(x: int, y: int, w: int)
    ensures (x + y) * w == x * w + y * w
  {
  }

  /** dest is the yard map src as it lies in the world for the facing. */
  ghost predicate Rotated(facing: Facing, xsize: int, zsize: int, src: seq<int>, dest: seq<int>)
    requires xsize >= 0 && zsize >= 0 && |src| == xsize * zsize && |dest| >= |src|
  {
    forall x, z :: 0 <= x < xsize && 0 <= z < zsize ==>
      EntryWritten(facing, xsize, zsize, src, dest, x, z)
  }

  ghost predicate EntryWritten(facing: Facing, xsize: int, zsize: int, src: seq<int>, dest: seq<int>, x: int, z: int)
    requires |src| == xsize * zsize && |dest| >= |src|
    requires 0 <= x < xsize && 0 <= z < zsize
  {
    var idx := WriteIndex(facing, xsize, zsize, x, z);
    IndicesInRange(facing, xsize, zsize, x, z);
    dest[idx] == src[x + z * xsize]
  }

  lemma IndicesInRange(facing: Facing, xsize: int, zsize: int, x: int, z: int)
    requires 0 <= x < xsize && 0 <= z < zsize
    ensures 0 <= WriteIndex(facing, xsize, zsize, x, z) < xsize * zsize
    ensures 0 <= x + z * xsize < xsize * zsize
  {
    WritesToWorldSquare(facing, xsize, zsize, x, z);
    var w := WorldSquare(facing, xsize, zsize, x, z);
    GridIndex(x, z, xsize, zsize);
    GridIndex(w.x, w.y, RowWidth(facing, xsize, zsize), ColumnHeight(facing, xsize, zsize));
    assert xsize * zsize == zsize * xsize;
  }

  /** Different entries go to different places: nothing is overwritten. */
  lemma WriteIndexInjective(facing: Facing, xsize: int, zsize: int, x: int, z: int, x': int, z': int)
    requires 0 <= x < xsize && 0 <= z < zsize && 0 <= x' < xsize && 0 <= z' < zsize
    requires WriteIndex(facing, xsize, zsize, x, z) == WriteIndex(facing, xsize, zsize, x', z')
    ensures x == x' && z == z'
  {
    var w, w' := WorldSquare(facing, xsize, zsize, x, z), WorldSquare(facing, xsize, zsize, x', z');
    WritesToWorldSquare(facing, xsize, zsize, x, z);
    WritesToWorldSquare(facing, xsize, zsize, x', z');
    GridIndexUnique(w.x, w.y, w'.x, w'.y, RowWidth(facing, xsize, zsize));
  }

  /** The rotations undo each other: the map written out agrees, square by square, with what the build test reads. */
  lemma RotationsAgree(
    facing: Facing, xsize: int, zsize: int, src: seq<int>, dest: seq<int>, yardPos: Int2, xrange: Int2, zrange: Int2)
    requires xsize >= 0 && zsize >= 0 && |src| == xsize * zsize && |dest| >= |src|
    requires Rotated(facing, xsize, zsize, src, dest)
    requires xrange.y - xrange.x == RowWidth(facing, xsize, zsize)
    requires zrange.y - zrange.x == ColumnHeight(facing, xsize, zsize)
    requires xrange.x <= yardPos.x < xrange.y && zrange.x <= yardPos.y < zrange.y
    ensures
      var worldIdx := (yardPos.x - xrange.x) + (yardPos.y - zrange.x) * RowWidth(facing, xsize, zsize);
      var defIdx := GetYardMapIndex(facing, yardPos, xrange, zrange);
      0 <= worldIdx < |src| && 0 <= defIdx < |src| && dest[worldIdx] == src[defIdx]
  {
    var w := Int2(yardPos.x - xrange.x, yardPos.y - zrange.x);
    var x, z := WorldSquareIsBijection(facing, xsize, zsize, w);
    WritesToWorldSquare(facing, xsize, zsize, x, z);
    ReadsTheSameEntry(facing, xsize, zsize, x, z, xrange, zrange);
    IndicesInRange(facing, xsize, zsize, x, z);
    assert EntryWritten(facing, xsize, zsize, src, dest, x, z);
  }

  /** Every place of the map written out is written by exactly one entry. */
  lemma EveryPlaceWritten(facing: Facing, xsize: int, zsize: int, idx: int) returns (x: int, z: int)
    requires xsize >= 0 && zsize >= 0 && 0 <= idx < xsize * zsize
    ensures 0 <= x < xsize && 0 <= z < zsize && WriteIndex(facing, xsize, zsize, x, z) == idx
    ensures forall x', z' | 0 <= x' < xsize && 0 <= z' < zsize && WriteIndex(facing, xsize, zsize, x', z') == idx ::
              x' == x && z' == z
  {
    var width, height := RowWidth(facing, xsize, zsize), ColumnHeight(facing, xsize, zsize);
    assert width * height == xsize * zsize by { assert xsize * zsize == zsize * xsize; }
    var row, col := SplitIndex(idx, width, height);
    x, z := WorldSquareIsBijection(facing, xsize, zsize, Int2(col, row));
    WritesToWorldSquare(facing, xsize, zsize, x, z);
    forall x', z' | 0 <= x' < xsize && 0 <= z' < zsize && WriteIndex(facing, xsize, zsize, x', z') == idx
      ensures x' == x && z' == z
    {
      WriteIndexInjective(facing, xsize, zsize, x, z, x', z');
    }
  }

  lemma {:induction false} SplitIndex(idx: int, width: int, height: int) returns (row: int, col: int)
    requires width >= 0 && height >= 0 && 0 <= idx < width * height
    ensures 0 <= col < width && 0 <= row < height && idx == col + row * width
    decreases height
  {
    assert (height - 1) * width == width * height - width;
    if idx >= width * height - width {
      row, col := height - 1, idx - (height - 1) * width;
    } else {
      row, col := SplitIndex(idx, width, height - 1);
    }
  }

  /** The loops of getYardMap. */
  method WriteRotated(facing: Facing, xsize: int, zsize: int, udYardMap: seq<int>, yardMap: array<int>)
    requires xsize >= 0 && zsize >= 0 && |udYardMap| == xsize * zsize && yardMap.Length >= |udYardMap|
    modifies yardMap
    ensures Rotated(facing, xsize, zsize, udYardMap, yardMap[..])
    ensures yardMap[|udYardMap|..] == old(yardMap[|udYardMap|..])
  {
    var xdir, zdir := XDir(facing), ZDir(facing);
    var rowWidth, startIdx := RowWidth(facing, xsize, zsize), StartIdx(facing, xsize, zsize);
    for z := 0 to zsize
      invariant forall x, w :: 0 <= x < xsize && 0 <= w < z ==>
                  EntryWritten(facing, xsize, zsize, udYardMap, yardMap[..], x, w)
      invariant yardMap[|udYardMap|..] == old(yardMap[|udYardMap|..])
    {
      for x := 0 to xsize
        invariant forall v, w :: 0 <= v < xsize && 0 <= w < zsize && (w < z || (w == z && v < x)) ==>
                    EntryWritten(facing, xsize, zsize, udYardMap, yardMap[..], v, w)
        invariant yardMap[|udYardMap|..] == old(yardMap[|udYardMap|..])
      {
        var xt := xdir.x * x + xdir.y * z;
        var zt := zdir.x * x + zdir.y * z;
        var idx := startIdx + xt + zt * rowWidth;
        IndicesInRange(facing, xsize, zsize, x, z);
        WriteKeepsOthers(facing, xsize, zsize, udYardMap, yardMap[..], x, z);
        yardMap[idx] := udYardMap[x + z * xsize];
      }
    }
  }

  /**
   The loops write a place for every entry, whatever the size that has been computed for the buffer: they stay
   within a size just if the whole map does.
   */
  lemma WritesWithinIff(facing: Facing, xsize: int, zsize: int, size: nat)
    requires xsize >= 0 && zsize >= 0
    ensures (forall x, z :: 0 <= x < xsize && 0 <= z < zsize ==> WriteIndex(facing, xsize, zsize, x, z) < size) <==>
            xsize * zsize <= size
  {
    if xsize * zsize <= size {
      forall x, z | 0 <= x < xsize && 0 <= z < zsize
        ensures WriteIndex(facing, xsize, zsize, x, z) < size
      {
        IndicesInRange(facing, xsize, zsize, x, z);
      }
    } else {
      var x, z := EveryPlaceWritten(facing, xsize, zsize, size);
      assert !(WriteIndex(facing, xsize, zsize, x, z) < size);
    }
  }

  /** getYardMap: null for the buffer, or a definition without a yard map, asks for the size only. */
  method GetYardMap(
    facing: Facing, xsize: int, zsize: int, udYardMap: seq<int>, yardMap: array?<int>, yardMapMaxSize: nat)
    returns (yardMapSize: int)
    requires xsize >= 0 && zsize >= 0 && (udYardMap == [] || |udYardMap| == xsize * zsize)
    requires yardMap != null ==> |udYardMap| <= yardMapMaxSize <= yardMap.Length
    modifies yardMap
    ensures yardMapSize == |udYardMap|
    ensures yardMap != null && udYardMap != [] ==> Rotated(facing, xsize, zsize, udYardMap, yardMap[..])
    ensures yardMap != null ==> yardMap[yardMapSize..] == old(yardMap[yardMapSize..])
  {
    yardMapSize := |udYardMap|;
    if yardMap != null && udYardMap != [] {
      yardMapSize := if yardMapMaxSize < yardMapSize then yardMapMaxSize else yardMapSize;
      WriteRotated(facing, xsize, zsize, udYardMap, yardMap);
    }
  }

  lemma WriteKeepsOthers(facing: Facing, xsize: int, zsize: int, src: seq<int>, dest: seq<int>, x: int, z: int)
    requires |src| == xsize * zsize && |dest| >= |src|
    requires 0 <= x < xsize && 0 <= z < zsize
    ensures 0 <= x + z * xsize < |src| && 0 <= WriteIndex(facing, xsize, zsize, x, z) < |src|
    ensures
      var dest' := dest[WriteIndex(facing, xsize, zsize, x, z) := src[x + z * xsize]];
      && EntryWritten(facing, xsize, zsize, src, dest', x, z)
      && forall v, w :: 0 <= v < xsize && 0 <= w < zsize && EntryWritten(facing, xsize, zsize, src, dest, v, w) ==>
           EntryWritten(facing, xsize, zsize, src, dest', v, w)
  {
    IndicesInRange(facing, xsize, zsize, x, z);
    var idx := WriteIndex(facing, xsize, zsize, x, z);
    var dest' := dest[idx := src[x + z * xsize]];
    forall v, w | 0 <= v < xsize && 0 <= w < zsize && EntryWritten(facing, xsize, zsize, src, dest, v, w)
      ensures EntryWritten(facing, xsize, zsize, src, dest', v, w)
    {
      IndicesInRange(facing, xsize, zsize, v, w);
      if WriteIndex(facing, xsize, zsize, v, w) == idx {
        WriteIndexInjective(facing, xsize, zsize, x, z, v, w);
      }
    }
  }
}
