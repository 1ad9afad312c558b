/**
 The search for the nearest build site: offsets from the wanted position are
 tried in the order of a table sorted by distance. The table is static and only
 ever grows, so a search may read the front of a table made for a larger radius.
 */
module BuildSearch {
  import opened Sequences

  datatype SearchOffset = SearchOffset(dx: int, dy: int, qdist: int)

  function OffsetAt(dx: int, dy: int): SearchOffset {
    SearchOffset(dx, dy, dx * dx + dy * dy)
  }

  /** Row by row, as the table is filled. */
  predicate RowBefore(a: SearchOffset, b: SearchOffset) {
    a.dy < b.dy || (a.dy == b.dy && a.dx < b.dx)
  }

  /** By distance, and row by row among equals. */
  predicate Before(a: SearchOffset, b: SearchOffset) {
    a.qdist < b.qdist || (a.qdist == b.qdist && RowBefore(a, b))
  }

  lemma BeforeIsTotalOrder()
    ensures StrictTotalOrder(Before)
  {
  }

  // ---- std::stable_sort by distance ----

  function Insert(o: SearchOffset, s: seq<SearchOffset>): (r: seq<SearchOffset>)
    ensures |r| == |s| + 1
  {
    if s == [] || o.qdist <= s[0].qdist then [o] + s else [s[0]] + Insert(o, s[1..])
  }

  function StableSort(s: seq<SearchOffset>): (r: seq<SearchOffset>)
    ensures |r| == |s|
  {
    if s == [] then [] else Insert(s[0], StableSort(s[1..]))
  }

  lemma {:induction false} InsertMembers(o: SearchOffset, s: seq<SearchOffset>)
    ensures forall x :: x in Insert(o, s) <==> x == o || x in s
  {
    if s != [] && o.qdist > s[0].qdist {
      InsertMembers(o, s[1..]);
      assert s == [s[0]] + s[1..];
    }
  }

  lemma {:induction false} InsertSorted(o: SearchOffset, s: seq<SearchOffset>)
    requires StrictlySorted(Before, s)
    requires forall x :: x in s ==> RowBefore(o, x)
    ensures StrictlySorted(Before, Insert(o, s))
  {
    if s != [] {
      assert s == [s[0]] + s[1..];
      if o.qdist > s[0].qdist {
        InsertSorted(o, s[1..]);
        InsertMembers(o, s[1..]);
        var r := Insert(o, s[1..]);
        forall i | 0 <= i < |r|
          ensures Before(s[0], r[i])
        {
          assert r[i] in r;
        }
      } else {
        assert RowBefore(o, s[0]);
      }
    }
  }

  /** Because the sort is stable, sorting a row-by-row list by distance settles ties row by row. */
  lemma {:induction false} StableSortOfRows(s: seq<SearchOffset>)
    requires StrictlySorted(RowBefore, s)
    ensures StrictlySorted(Before, StableSort(s))
    ensures forall x :: x in StableSort(s) <==> x in s
  {
    if s != [] {
      StableSortOfRows(s[1..]);
      InsertMembers(s[0], StableSort(s[1..]));
      assert s == [s[0]] + s[1..];
      forall x | x in StableSort(s[1..])
        ensures RowBefore(s[0], x)
      {
        assert x in s[1..];
      }
      InsertSorted(s[0], StableSort(s[1..]));
    }
  }

  // ---- the table for a radius ----

  function Square(n: nat): nat { n * n }

  /** One row of the square around the origin. */
  function Row(radius: int, dy: int): (s: seq<SearchOffset>)
    requires radius >= 0
    ensures |s| == 2 * radius
  {
    seq(2 * radius, x requires 0 <= x < 2 * radius => OffsetAt(x - radius, dy))
  }

  /** The first rows of the table before sorting. */
  function Rows(radius: int, rows: nat): (s: seq<SearchOffset>)
    requires radius >= 0
    ensures |s| == rows * (2 * radius)
  {
    if rows == 0 then [] else Rows(radius, rows - 1) + Row(radius, rows - 1 - radius)
  }

  function Table(radius: int): (s: seq<SearchOffset>)
    requires radius >= 0
    ensures |s| == Square(2 * radius)
  {
    StableSort(Rows(radius, 2 * radius))
  }

  predicate InSquare(radius: int, o: SearchOffset) {
    -radius <= o.dx < radius && -radius <= o.dy < radius && o == OffsetAt(o.dx, o.dy)
  }

  predicate InRow(radius: int, dy: int, o: SearchOffset) {
    o.dy == dy && -radius <= o.dx < radius && o == OffsetAt(o.dx, dy)
  }

  lemma RowMembers(radius: int, dy: int)
    requires radius >= 0
    ensures forall o :: o in Row(radius, dy) <==> InRow(radius, dy, o)
  {
    var row := Row(radius, dy);
    forall o
      ensures o in row <==> InRow(radius, dy, o)
    {
      if o in row {
        var x :| 0 <= x < |row| && row[x] == o;
        assert row[x] == OffsetAt(x - radius, dy);
      }
      if InRow(radius, dy, o) {
        assert row[o.dx + radius] == o;
      }
    }
  }

  lemma {:induction false} RowsMembers(radius: int, rows: nat)
    requires radius >= 0
    ensures forall o :: o in Rows(radius, rows) <==>
              -radius <= o.dy < rows - radius && InRow(radius, o.dy, o)
  {
    if rows > 0 {
      RowsMembers(radius, rows - 1);
      RowMembers(radius, rows - 1 - radius);
    }
  }

  lemma RowInOrder(radius: int, dy: int)
    requires radius >= 0
    ensures StrictlySorted(RowBefore, Row(radius, dy))
  {
    var row := Row(radius, dy);
    forall i, k | 0 <= i < k < |row|
      ensures RowBefore(row[i], row[k])
    {
      assert row[i] == OffsetAt(i - radius, dy) && row[k] == OffsetAt(k - radius, dy);
    }
  }

  lemma {:induction false} RowsInOrder(radius: int, rows: nat)
    requires radius >= 0
    ensures StrictlySorted(RowBefore, Rows(radius, rows))
  {
    if rows > 0 {
      var dy := rows - 1 - radius;
      RowsInOrder(radius, rows - 1);
      RowsMembers(radius, rows - 1);
      RowMembers(radius, dy);
      RowInOrder(radius, dy);
      ConcatInOrder(Rows(radius, rows - 1), Row(radius, dy), dy);
    }
  }

  lemma ConcatInOrder(a: seq<SearchOffset>, b: seq<SearchOffset>, dy: int)
    requires StrictlySorted(RowBefore, a) && StrictlySorted(RowBefore, b)
    requires forall o :: o in a ==> o.dy < dy
    requires forall o :: o in b ==> o.dy == dy
    ensures StrictlySorted(RowBefore, a + b)
  {
    forall i, k | 0 <= i < k < |a + b|
      ensures RowBefore((a + b)[i], (a + b)[k])
    {
      if i < |a| <= k {
        assert a[i] in a && b[k - |a|] in b;
      }
    }
  }

  lemma TableInOrder(radius: int)
    requires radius >= 0
    ensures StrictlySorted(Before, Table(radius))
    ensures forall o :: o in Table(radius) <==> InSquare(radius, o)
  {
    RowsInOrder(radius, 2 * radius);
    RowsMembers(radius, 2 * radius);
    StableSortOfRows(Rows(radius, 2 * radius));
  }

  /**
   The table for a radius has one entry for each pair of offsets from -radius up to but not including radius, the
   nearer first, and among equally near ones those of the lower row, and in a row those of the lower column.
   */
  lemma TableIsSortedSquare(radius: int)
    requires radius >= 0
    ensures forall o :: o in Table(radius) <==>
              -radius <= o.dx < radius && -radius <= o.dy < radius && o.qdist == o.dx * o.dx + o.dy * o.dy
    ensures
      forall i, k :: 0 <= i < k < |Table(radius)| ==>
        var a, b := Table(radius)[i], Table(radius)[k];
        var da, db := a.dx * a.dx + a.dy * a.dy, b.dx * b.dx + b.dy * b.dy;
        da < db || (da == db && (a.dy < b.dy || (a.dy == b.dy && a.dx < b.dx)))
  {
    TableInOrder(radius);
    forall o
      ensures InSquare(radius, o) <==>
                -radius <= o.dx < radius && -radius <= o.dy < radius && o.qdist == o.dx * o.dx + o.dy * o.dy
    {
      assert o == SearchOffset(o.dx, o.dy, o.qdist);
    }
    forall i, k | 0 <= i < k < |Table(radius)|
      ensures
        var a, b := Table(radius)[i], Table(radius)[k];
        IsOffset(a) && IsOffset(b) && Before(a, b)
    {
      assert Table(radius)[i] in Table(radius) && Table(radius)[k] in Table(radius);
    }
  }

  // ---- which part of the table does not depend on the radius ----

  /** The first offset of the fixed order that the table for radius lacks and every larger one has. */
  function Edge(radius: int): SearchOffset { OffsetAt(radius, 0) }

  /** The entries of the table for radius that come before its edge. */
  function Core(radius: int): seq<SearchOffset>
    requires radius >= 0
  {
    Front(Edge(radius), Table(radius))
  }

  function Front(limit: SearchOffset, s: seq<SearchOffset>): seq<SearchOffset> {
    if s == [] || !Before(s[0], limit) then [] else [s[0]] + Front(limit, s[1..])
  }

  /** In a sorted list, everything before a limit stands in front of everything else. */
  lemma {:induction false} FrontIsPrefix(limit: SearchOffset, s: seq<SearchOffset>)
    requires StrictlySorted(Before, s)
    ensures Front(limit, s) <= s
    ensures StrictlySorted(Before, Front(limit, s))
    ensures forall o :: o in Front(limit, s) <==> o in s && Before(o, limit)
  {
    if s != [] {
      assert s == [s[0]] + s[1..];
      FrontIsPrefix(limit, s[1..]);
      if !Before(s[0], limit) {
        assert forall i :: 0 <= i < |s| ==> i == 0 || Before(s[0], s[i]);
        assert forall i :: 0 <= i < |s| ==> !Before(s[i], limit);
      }
    }
  }

  /** Every offset before the edge of a radius lies in its square. */
  lemma BeforeEdgeInSquare(radius: int, o: SearchOffset)
    requires radius >= 0 && o == OffsetAt(o.dx, o.dy) && Before(o, Edge(radius))
    ensures InSquare(radius, o)
  {
    SquareBound(o.dx, o.dy, radius);
    SquareBound(o.dy, o.dx, radius);
  }

  lemma SquareBound(x: int, y: int, r: int)
    requires r >= 0 && x * x + y * y <= r * r
    ensures -r <= x <= r
    ensures x == r || x == -r ==> y == 0
    ensures x * x + y * y < r * r ==> -r < x < r
  {
    SquareNonNegative(x);
    SquareNonNegative(y);
    RootBound(x, r);
    RootBound(-x, r);
    if x == r || x == -r {
      assert x * x == r * r;
      SquareIsZero(y);
    }
  }

  lemma SquareNonNegative(x: int)
    ensures x * x >= 0
  {
  }

  lemma SquareIsZero(x: int)
    requires x * x <= 0
    ensures x == 0
  {
  }

  lemma RootBound(x: int, r: int)
    requires r >= 0 && x * x <= r * r
    ensures x <= r
  {
    assert x > r ==> x * x > r * r;
  }

  /** Whatever larger radius a table was made for, it begins with the same core. */
  lemma CoreIsCommonPrefix(radius: int, made: int)
    requires 0 <= radius <= made
    ensures Core(radius) <= Table(made)
    ensures Front(Edge(radius), Table(made)) == Core(radius)
  {
    TableInOrder(radius);
    TableInOrder(made);
    FrontIsPrefix(Edge(radius), Table(radius));
    FrontIsPrefix(Edge(radius), Table(made));
    var a, b := Front(Edge(radius), Table(made)), Core(radius);
    forall o
      ensures o in a <==> o in b
    {
      if o in a { BeforeEdgeInSquare(radius, o); }
    }
    BeforeIsTotalOrder();
    StrictlySortedUnique(Before, a, b);
  }

  /** In a sorted list that has the limit, the limit comes right behind what is before it. */
  lemma {:induction false} LimitFollowsFront(limit: SearchOffset, s: seq<SearchOffset>)
    requires StrictlySorted(Before, s) && limit in s
    ensures |Front(limit, s)| < |s| && s[|Front(limit, s)|] == limit
  {
    assert s == [s[0]] + s[1..];
    if Before(s[0], limit) {
      LimitFollowsFront(limit, s[1..]);
    } else {
      var i :| 0 <= i < |s| && s[i] == limit;
      assert i == 0;
    }
  }

  lemma TablesGrow(radius: int, made: int)
    requires 0 <= radius < made
    ensures |Table(radius)| == Square(2 * radius) < Square(2 * made) == |Table(made)|
  {
    SquareStrict(2 * radius, 2 * made);
  }

  lemma SquareStrict(a: nat, b: nat)
    requires a < b
    ensures Square(a) < Square(b)
  {
    assert a * a <= a * b < b * b;
  }

  lemma EdgeSquares(radius: int, made: int)
    requires 1 <= radius < made
    ensures InSquare(made, Edge(radius)) && !InSquare(radius, Edge(radius))
  {
  }

  /** Right behind the core, a table made for a larger radius has the edge; the radius' own table never has it. */
  lemma EdgeFollowsCore(radius: int, made: int)
    requires 1 <= radius < made
    ensures Core(radius) <= Table(made) && |Core(radius)| < Square(2 * radius) < |Table(made)|
    ensures Table(made)[|Core(radius)|] == Edge(radius)
    ensures Edge(radius) !in Table(radius)
  {
    CoreIsCommonPrefix(radius, made);
    CoreIsShort(radius);
    TableInOrder(radius);
    TableInOrder(made);
    TablesGrow(radius, made);
    EdgeSquares(radius, made);
    LimitFollowsFront(Edge(radius), Table(made));
  }

  /** The corner of the square is never in the core. */
  lemma CoreIsShort(radius: int)
    requires radius >= 1
    ensures |Core(radius)| < |Table(radius)|
  {
    CoreIsCommonPrefix(radius, radius);
    TableInOrder(radius);
    FrontIsPrefix(Edge(radius), Table(radius));
    var corner := OffsetAt(-radius, -radius);
    assert corner in Table(radius);
    assert !Before(corner, Edge(radius));
  }

  /**
   How much of the table can be relied on: the first m entries returned for a
   radius are the same whatever was asked for before, exactly up to the core.
   */
  lemma PrefixIndependentIff(radius: int, m: nat)
    requires 1 <= radius && m <= Square(2 * radius)
    ensures (forall made :: made >= radius ==>
               m <= |Table(made)| && Table(made)[..m] == Table(radius)[..m]) <==> m <= |Core(radius)|
  {
    EdgeFollowsCore(radius, radius + 1);
    CoreIsCommonPrefix(radius, radius);
    if m <= |Core(radius)| {
      forall made | made >= radius
        ensures m <= |Table(made)| && Table(made)[..m] == Table(radius)[..m]
      {
        CoreIsCommonPrefix(radius, made);
        assert Table(made)[..m] == Core(radius)[..m] == Table(radius)[..m];
      }
    } else {
      var n, t := |Core(radius)|, Table(radius + 1);
      assert t[..m][n] == Edge(radius);
      assert Table(radius)[..m][n] in Table(radius);
      assert t[..m] != Table(radius)[..m];
    }
  }

  // ---- the search ----

  /** The first of the first n entries that is accepted. */
  function FirstAccepted(accept: SearchOffset -> bool, s: seq<SearchOffset>, n: nat): Option<SearchOffset>
    requires n <= |s|
  {
    if n == 0 then None
    else if accept(s[0]) then Some(s[0])
    else FirstAccepted(accept, s[1..], n - 1)
  }

  lemma {:induction false} FirstAcceptedIs(accept: SearchOffset -> bool, s: seq<SearchOffset>, n: nat, k: nat)
    requires k < n <= |s| && accept(s[k]) && forall i :: 0 <= i < k ==> !accept(s[i])
    ensures FirstAccepted(accept, s, n) == Some(s[k])
  {
    if k > 0 {
      FirstAcceptedIs(accept, s[1..], n - 1, k - 1);
    }
  }

  lemma {:induction false} NoneAccepted(accept: SearchOffset -> bool, s: seq<SearchOffset>, n: nat)
    requires n <= |s| && forall i :: 0 <= i < n ==> !accept(s[i])
    ensures FirstAccepted(accept, s, n) == None
  {
    if n > 0 {
      NoneAccepted(accept, s[1..], n - 1);
    }
  }

  /** What a search of the given radius finds when the table was made for a radius at least as large. */
  function SearchResult(accept: SearchOffset -> bool, radius: int, made: int): Option<SearchOffset>
    requires 0 <= radius <= made
  {
    assert Square(2 * radius) <= Square(2 * made) by { SquareMonotone(2 * radius, 2 * made); }
    FirstAccepted(accept, Table(made), Square(2 * radius))
  }

  lemma SquareMonotone(a: nat, b: nat)
    requires a <= b
    ensures Square(a) <= Square(b)
  {
    assert a * a <= a * b <= b * b;
  }

  /** A list with an accepted element has a first one. */
  lemma {:induction false} FirstIndex(accept: SearchOffset -> bool, s: seq<SearchOffset>, k: nat) returns (first: nat)
    requires k < |s| && accept(s[k])
    ensures first <= k && accept(s[first]) && forall i :: 0 <= i < first ==> !accept(s[i])
    decreases k
  {
    if j :| 0 <= j < k && accept(s[j]) {
      first := FirstIndex(accept, s, j);
    } else {
      first := k;
    }
  }

  /** Of two lists that begin with the same core, a search that succeeds in the core finds the same offset. */
  lemma FoundInCore(accept: SearchOffset -> bool, core: seq<SearchOffset>, a: seq<SearchOffset>, b: seq<SearchOffset>,
                    n: nat, o: SearchOffset) returns (nearest: SearchOffset)
    requires core <= a && core <= b && |core| <= n <= |a| && n <= |b|
    requires StrictlySorted(Before, core) && o in core && accept(o)
    ensures FirstAccepted(accept, a, n) == Some(nearest) == FirstAccepted(accept, b, n)
    ensures nearest in core && accept(nearest)
    ensures forall x :: x in core && accept(x) ==> x == nearest || Before(nearest, x)
  {
    var k :| 0 <= k < |core| && core[k] == o;
    var first := FirstIndex(accept, core, k);
    nearest := core[first];
    FirstAcceptedIs(accept, a, n, first);
    FirstAcceptedIs(accept, b, n, first);
    forall x | x in core && accept(x)
      ensures x == nearest || Before(nearest, x)
    {
      var i :| 0 <= i < |core| && core[i] == x;
      assert i >= first;
    }
  }

  lemma FirstWhateverTheHistory(accept: SearchOffset -> bool, radius: int, made: int, some: SearchOffset)
    returns (nearest: SearchOffset)
    requires 1 <= radius <= made
    requires IsOffset(some) && Before(some, Edge(radius)) && accept(some)
    ensures SearchResult(accept, radius, made) == Some(nearest) == SearchResult(accept, radius, radius)
    ensures accept(nearest) && IsOffset(nearest)
    ensures forall o :: IsOffset(o) && accept(o) ==> o == nearest || Before(nearest, o)
  {
    CoreInOrder(radius);
    CoreIsCommonPrefix(radius, made);
    CoreIsCommonPrefix(radius, radius);
    CoreIsShort(radius);
    SquareMonotone(2 * radius, 2 * made);
    nearest := FoundInCore(accept, Core(radius), Table(made), Table(radius), Square(2 * radius), some);
    forall o | IsOffset(o) && accept(o)
      ensures o == nearest || Before(nearest, o)
    {
      BeforeOrNot(nearest, Edge(radius), o);
    }
  }

  lemma BeforeOrNot(a: SearchOffset, limit: SearchOffset, o: SearchOffset)
    requires Before(a, limit)
    ensures Before(o, limit) || Before(a, o)
  {
  }

  predicate IsOffset(o: SearchOffset) { o == OffsetAt(o.dx, o.dy) }

  /** The fixed order by the two coordinates of its offsets. */
  lemma BeforeIs(a: SearchOffset, b: SearchOffset)
    requires IsOffset(a) && IsOffset(b)
    ensures
      Before(a, b) <==>
        var da, db := a.dx * a.dx + a.dy * a.dy, b.dx * b.dx + b.dy * b.dy;
        da < db || (da == db && (a.dy < b.dy || (a.dy == b.dy && a.dx < b.dx)))
  {
  }

  /** Before the edge are the offsets nearer than the radius, and of those at the radius the ones in a lower place. */
  lemma BeforeEdgeIs(radius: int, o: SearchOffset)
    requires o.qdist == o.dx * o.dx + o.dy * o.dy
    ensures IsOffset(o)
    ensures
      Before(o, Edge(radius)) <==>
        var d := o.dx * o.dx + o.dy * o.dy;
        d < radius * radius || (d == radius * radius && (o.dy < 0 || (o.dy == 0 && o.dx < radius)))
  {
    assert o == SearchOffset(o.dx, o.dy, o.qdist);
    assert Edge(radius).qdist == radius * radius;
  }

  /** The core is exactly the part of the table that is nearer than the radius, or as near and in a lower place. */
  lemma CoreMembers(radius: int, o: SearchOffset)
    requires radius >= 0
    ensures
      o in Core(radius) <==>
        var d := o.dx * o.dx + o.dy * o.dy;
        && o.qdist == d
        && (d < radius * radius || (d == radius * radius && (o.dy < 0 || (o.dy == 0 && o.dx < radius))))
  {
    CoreInOrder(radius);
    if o.qdist == o.dx * o.dx + o.dy * o.dy {
      BeforeEdgeIs(radius, o);
    }
  }

  /** The core holds every offset strictly inside the circle of the radius. */
  lemma CoreContainsDisc(radius: int, dx: int, dy: int)
    requires radius >= 0 && dx * dx + dy * dy < radius * radius
    ensures SearchOffset(dx, dy, dx * dx + dy * dy) in Core(radius)
  {
    CoreMembers(radius, SearchOffset(dx, dy, dx * dx + dy * dy));
  }

  /**
   History independence: if some acceptable offset comes before the edge of the radius, the search finds, whatever
   the table was made for, the acceptable offset of least dx * dx + dy * dy, and among equally near ones the one
   with the least dy, then dx.
   */
  lemma NearestWhateverTheHistory(accept: SearchOffset -> bool, radius: int, made: int, some: SearchOffset)
    returns (nearest: SearchOffset)
    requires 1 <= radius <= made && accept(some)
    requires
      var d := some.dx * some.dx + some.dy * some.dy;
      && some.qdist == d
      && (d < radius * radius || (d == radius * radius && (some.dy < 0 || (some.dy == 0 && some.dx < radius))))
    ensures SearchResult(accept, radius, made) == Some(nearest) == SearchResult(accept, radius, radius)
    ensures accept(nearest) && nearest.qdist == nearest.dx * nearest.dx + nearest.dy * nearest.dy
    ensures
      forall o :: accept(o) && o != nearest && o.qdist == o.dx * o.dx + o.dy * o.dy ==>
        var d, least := o.dx * o.dx + o.dy * o.dy, nearest.dx * nearest.dx + nearest.dy * nearest.dy;
        least < d || (least == d && (nearest.dy < o.dy || (nearest.dy == o.dy && nearest.dx < o.dx)))
  {
    BeforeEdgeIs(radius, some);
    nearest := FirstWhateverTheHistory(accept, radius, made, some);
    forall o | accept(o) && o != nearest && o.qdist == o.dx * o.dx + o.dy * o.dy
      ensures IsOffset(o) && Before(nearest, o)
    {
      BeforeEdgeIs(radius, o);
      BeforeIs(nearest, o);
    }
  }

  /** If an offset nearer than the radius is acceptable, the nearest acceptable one is found. */
  lemma SearchFindsNearest(accept: SearchOffset -> bool, radius: int, made: int)
    requires 1 <= radius <= made
    ensures
      var found := SearchResult(accept, radius, made);
      && (found.Some? ==> accept(found.value))
      && forall o :: accept(o) && o.qdist == o.dx * o.dx + o.dy * o.dy < radius * radius ==>
           found.Some? &&
           (var nearest := found.value;
            var d, least := o.dx * o.dx + o.dy * o.dy, nearest.dx * nearest.dx + nearest.dy * nearest.dy;
            o == nearest ||
            least < d || (least == d && (nearest.dy < o.dy || (nearest.dy == o.dy && nearest.dx < o.dx))))
  {
    if SearchResult(accept, radius, made).Some? {
      FoundIsAccepted(accept, radius, made);
    }
    if o :| accept(o) && o.qdist == o.dx * o.dx + o.dy * o.dy < radius * radius {
      var _ := NearestWhateverTheHistory(accept, radius, made, o);
    }
  }

  /** Without an acceptable offset before the edge, what is found is acceptable all the same. */
  lemma FoundIsAccepted(accept: SearchOffset -> bool, radius: int, made: int)
    requires 0 <= radius <= made && SearchResult(accept, radius, made).Some?
    ensures
      var o := SearchResult(accept, radius, made).value;
      accept(o) && -made <= o.dx < made && -made <= o.dy < made && o.qdist == o.dx * o.dx + o.dy * o.dy
  {
    SquareMonotone(2 * radius, 2 * made);
    FirstAcceptedIsMember(accept, Table(made), Square(2 * radius));
    TableIsSortedSquare(made);
  }

  lemma CoreInOrder(radius: int)
    requires radius >= 0
    ensures StrictlySorted(Before, Core(radius))
    ensures forall o :: o in Core(radius) <==> IsOffset(o) && Before(o, Edge(radius))
  {
    TableInOrder(radius);
    FrontIsPrefix(Edge(radius), Table(radius));
    forall o | IsOffset(o) && Before(o, Edge(radius))
      ensures o in Core(radius)
    {
      BeforeEdgeInSquare(radius, o);
    }
  }

  /** The edge is where it ends: a search for it alone succeeds or fails by what was asked for before. */
  lemma HistoryMattersAtEdge(radius: int, made: int)
    requires 1 <= radius < made
    ensures SearchResult(o => o == Edge(radius), radius, radius) == None
    ensures SearchResult(o => o == Edge(radius), radius, made) == Some(Edge(radius))
  {
    EdgeFollowsCore(radius, made);
    TableInOrder(made);
    TableInOrder(radius);
    var accept := (o: SearchOffset) => o == Edge(radius);
    var n, t := |Core(radius)|, Table(made);
    assert forall i :: 0 <= i < n ==> Before(t[i], t[n]);
    FirstAcceptedIs(accept, t, Square(2 * radius), n);
    assert forall i :: 0 <= i < |Table(radius)| ==> Table(radius)[i] in Table(radius);
    NoneAccepted(accept, Table(radius), Square(2 * radius));
  }

  lemma {:induction false} FirstAcceptedIsMember(accept: SearchOffset -> bool, s: seq<SearchOffset>, n: nat)
    requires n <= |s| && FirstAccepted(accept, s, n).Some?
    ensures FirstAccepted(accept, s, n).value in s && accept(FirstAccepted(accept, s, n).value)
  {
    var k :| 0 <= k < n && accept(s[k]) && forall i :: 0 <= i < k ==> !accept(s[i]) by {
      if forall i :: 0 <= i < n ==> !accept(s[i]) {
        NoneAccepted(accept, s, n);
        assert false;
      }
      var some :| 0 <= some < n && accept(s[some]);
      var first := FirstIndex(accept, s, some);
      assert 0 <= first < n;
    }
    FirstAcceptedIs(accept, s, n, k);
  }

  ghost predicate SameForEveryHistory(accept: SearchOffset -> bool, radius: int)
    requires radius >= 0
  {
    forall made :: made >= radius ==> SearchResult(accept, radius, made) == SearchResult(accept, radius, radius)
  }

  /**
   An acceptable offset rules out that the history matters, whatever else is acceptable, exactly if it comes
   before the edge: if it is nearer than the radius, or as near and in a lower place.
   */
  lemma HistoryIndependentIff(radius: int, o: SearchOffset)
    requires radius >= 1 && o.qdist == o.dx * o.dx + o.dy * o.dy
    ensures
      (forall accept: SearchOffset -> bool :: accept(o) ==> SameForEveryHistory(accept, radius)) <==>
        var d := o.dx * o.dx + o.dy * o.dy;
        d < radius * radius || (d == radius * radius && (o.dy < 0 || (o.dy == 0 && o.dx < radius)))
  {
    BeforeEdgeIs(radius, o);
    if Before(o, Edge(radius)) {
      forall accept: SearchOffset -> bool | accept(o)
        ensures SameForEveryHistory(accept, radius)
      {
        forall made | made >= radius
          ensures SearchResult(accept, radius, made) == SearchResult(accept, radius, radius)
        {
          var _ := FirstWhateverTheHistory(accept, radius, made, o);
        }
      }
    } else {
      var accept := (x: SearchOffset) => x == o || x == Edge(radius);
      EdgeMisleads(radius, o, accept);
      assert accept(o) && !SameForEveryHistory(accept, radius);
    }
  }

  /** With the edge acceptable besides, a larger table gives the edge, which the radius' own table never does. */
  lemma EdgeMisleads(radius: int, o: SearchOffset, accept: SearchOffset -> bool)
    requires radius >= 1 && IsOffset(o) && !Before(o, Edge(radius))
    requires forall x :: accept(x) <==> x == o || x == Edge(radius)
    ensures SearchResult(accept, radius, radius + 1) == Some(Edge(radius))
    ensures SearchResult(accept, radius, radius) != Some(Edge(radius))
  {
    EdgeFollowsCore(radius, radius + 1);
    CoreInOrder(radius);
    var n, t := |Core(radius)|, Table(radius + 1);
    assert forall i :: 0 <= i < n ==> t[i] == Core(radius)[i] && t[i] in Core(radius);
    FirstAcceptedIs(accept, t, Square(2 * radius), n);
    if SearchResult(accept, radius, radius).Some? {
      FirstAcceptedIsMember(accept, Table(radius), Square(2 * radius));
    }
  }

  // ---- the static table and the search over it ----

  /** What stands on a square of the map. */
  datatype SolidObject = SolidObject(immobile: bool, yardOpen: bool)

  datatype Rect = Rect(xmin: int, zmin: int, xmax: int, zmax: int)

  datatype GroundMap = GroundMap(mapx: nat, mapy: nat, objects: seq<Option<SolidObject>>)
  {
    predicate Valid() { |objects| == mapx * mapy }

    predicate Contains(r: Rect) { 0 <= r.xmin && 0 <= r.zmin && r.xmax <= mapx && r.zmax <= mapy }

    function ObjectAt(x: int, z: int): Option<SolidObject>
      requires Valid() && 0 <= x < mapx && 0 <= z < mapy
    {
      SquareIndex(x, z, mapx, mapy);
      objects[z * mapx + x]
    }

    /** No immobile object in the rectangle; with yardsOnly, none whose yard is open. */
    ghost predicate Clear(r: Rect, yardsOnly: bool)
      requires Valid() && Contains(r)
    {
      forall x, z :: r.xmin <= x < r.xmax && r.zmin <= z < r.zmax ==> !Blocks(ObjectAt(x, z), yardsOnly)
    }

    /** The site's rectangle, widened and cut off at the border of the map. */
    function Around(r: Rect, margin: int): (r': Rect)
      ensures Contains(r')
    {
      Rect(Max(0, r.xmin - margin), Max(0, r.zmin - margin), Min(mapx, r.xmax + margin), Min(mapy, r.zmax + margin))
    }

    /** No immobile object within the minimum distance, and no open factory yard two squares further. */
    ghost predicate IsFree(site: Site, minDistance: int)
      requires Valid()
    {
      var near := Around(site.Footprint(), minDistance);
      Clear(near, false) && Clear(Around(near, 2), true)
    }
  }

  lemma SquareIndex(x: int, z: int, mapx: nat, mapy: nat)
    requires 0 <= x < mapx && 0 <= z < mapy
    ensures 0 <= z * mapx + x < mapx * mapy
  {
    assert z * mapx <= (mapy - 1) * mapx;
  }

  function Max(a: int, b: int): int { if a > b then a else b }

  function Min(a: int, b: int): int { if a < b then a else b }

  predicate Blocks(obj: Option<SolidObject>, yardsOnly: bool) {
    obj.Some? && obj.value.immobile && (!yardsOnly || obj.value.yardOpen)
  }

  /** A candidate site: its middle square, its size, and whether TestUnitBuildSquare lets the unit stand there. */
  datatype Site = Site(xsqr: int, zsqr: int, xsize: nat, zsize: nat, buildable: bool)
  {
    function Footprint(): Rect {
      Rect(xsqr - xsize / 2, zsqr - zsize / 2, xsqr + (xsize + 1) / 2, zsqr + (zsize + 1) / 2)
    }
  }

  /** Places in the list of squares go through the map row by row. */
  lemma SquareOfPlace(ground: GroundMap, k: nat)
    requires ground.Valid() && k < |ground.objects|
    ensures ground.mapx > 0
    ensures
      var x, z := k % ground.mapx, k / ground.mapx;
      0 <= x < ground.mapx && 0 <= z < ground.mapy && ground.ObjectAt(x, z) == ground.objects[k]
  {
    assert ground.mapx == 0 ==> ground.mapx * ground.mapy == 0;
    var x, z := k % ground.mapx, k / ground.mapx;
    assert k == z * ground.mapx + x;
    RowOfPlace(k, ground.mapx, ground.mapy);
  }

  lemma RowOfPlace(k: nat, mapx: nat, mapy: nat)
    requires mapx > 0 && k < mapx * mapy
    ensures 0 <= k / mapx < mapy
  {
    var z := k / mapx;
    assert z * mapx <= k;
    assert z >= mapy ==> z * mapx >= mapy * mapx;
  }

  lemma PlaceOfSquare(ground: GroundMap, x: int, z: int)
    requires ground.Valid() && 0 <= x < ground.mapx && 0 <= z < ground.mapy
    ensures
      var k := z * ground.mapx + x;
      && 0 <= k < |ground.objects| && k % ground.mapx == x && k / ground.mapx == z
      && ground.ObjectAt(x, z) == ground.objects[k]
  {
    SquareIndex(x, z, ground.mapx, ground.mapy);
    QuotientOfPlace(x, z, ground.mapx);
  }

  lemma QuotientOfPlace(x: int, z: int, mapx: nat)
    requires 0 <= x < mapx && 0 <= z
    ensures (z * mapx + x) / mapx == z && (z * mapx + x) % mapx == x
  {
    var k := z * mapx + x;
    var q := k / mapx - z;
    assert q * mapx == x - k % mapx by { QuotientGap(k, z, x, mapx); }
    NoMultipleBetween(q, mapx);
  }

  lemma QuotientGap(k: int, z: int, x: int, mapx: int)
    requires mapx > 0 && k == z * mapx + x
    ensures (k / mapx - z) * mapx == x - k % mapx
  {
    assert k == k / mapx * mapx + k % mapx;
  }

  lemma NoMultipleBetween(q: int, m: int)
    requires -m < q * m < m
    ensures q == 0
  {
    assert q >= 1 ==> q * m >= m;
    assert q <= -1 ==> q * m <= -m;
  }

  /** A rectangle is clear exactly if none of the squares in it blocks, by their places in the list. */
  lemma ClearIs(ground: GroundMap, r: Rect, yardsOnly: bool)
    requires ground.Valid() && ground.Contains(r)
    ensures
      ground.Clear(r, yardsOnly) <==>
        ground.mapx > 0 ==>
          forall k :: 0 <= k < |ground.objects| &&
                      r.xmin <= k % ground.mapx < r.xmax && r.zmin <= k / ground.mapx < r.zmax ==>
                        !Blocks(ground.objects[k], yardsOnly)
  {
    if ground.Clear(r, yardsOnly) {
      forall k | 0 <= k < |ground.objects| && ground.mapx > 0 &&
                 r.xmin <= k % ground.mapx < r.xmax && r.zmin <= k / ground.mapx < r.zmax
        ensures !Blocks(ground.objects[k], yardsOnly)
      {
        SquareOfPlace(ground, k);
      }
    } else {
      var x, z :| r.xmin <= x < r.xmax && r.zmin <= z < r.zmax && Blocks(ground.ObjectAt(x, z), yardsOnly);
      PlaceOfSquare(ground, x, z);
    }
  }

  /**
   A site is free exactly if no immobile object stands within the minimum distance of its squares, and none with an
   open yard within two squares more.
   */
  lemma IsFreeIs(ground: GroundMap, site: Site, minDistance: int)
    requires ground.Valid()
    ensures
      ground.IsFree(site, minDistance) <==>
        ground.mapx > 0 ==>
          forall k :: 0 <= k < |ground.objects| && ground.objects[k].Some? && ground.objects[k].value.immobile ==>
            var x, z, far := k % ground.mapx, k / ground.mapx, minDistance + 2;
            && !(&& site.xsqr - site.xsize / 2 - minDistance <= x < site.xsqr + (site.xsize + 1) / 2 + minDistance
                 && site.zsqr - site.zsize / 2 - minDistance <= z < site.zsqr + (site.zsize + 1) / 2 + minDistance)
            && (ground.objects[k].value.yardOpen ==>
                  !(&& site.xsqr - site.xsize / 2 - far <= x < site.xsqr + (site.xsize + 1) / 2 + far
                    && site.zsqr - site.zsize / 2 - far <= z < site.zsqr + (site.zsize + 1) / 2 + far))
  {
    var near := ground.Around(site.Footprint(), minDistance);
    ClearIs(ground, near, false);
    ClearIs(ground, ground.Around(near, 2), true);
    forall k | 0 <= k < |ground.objects|
      ensures ground.mapx > 0 && 0 <= k % ground.mapx < ground.mapx && 0 <= k / ground.mapx < ground.mapy
    {
      SquareOfPlace(ground, k);
    }
  }

  /** One of the two scans for objects in the way; finding one ends its row, not the scan. */
  method Scan(ground: GroundMap, r: Rect, yardsOnly: bool) returns (free: bool)
    requires ground.Valid() && ground.Contains(r)
    ensures free <==> ground.Clear(r, yardsOnly)
  {
    free := true;
    var z := r.zmin;
    while z < r.zmax
      invariant free ==> forall x, w :: r.xmin <= x < r.xmax && r.zmin <= w < z && w < r.zmax ==>
                  !Blocks(ground.ObjectAt(x, w), yardsOnly)
      invariant !free ==> !ground.Clear(r, yardsOnly)
      invariant z >= r.zmin
    {
      var x := r.xmin;
      while x < r.xmax
        invariant x >= r.xmin
        invariant free ==> forall v, w :: r.xmin <= v < r.xmax && r.zmin <= w < z ==>
                    !Blocks(ground.ObjectAt(v, w), yardsOnly)
        invariant free ==> forall v :: r.xmin <= v < x && v < r.xmax ==>
                    !Blocks(ground.ObjectAt(v, z), yardsOnly)
        invariant !free ==> !ground.Clear(r, yardsOnly)
      {
        if !Blocks(ground.ObjectAt(x, z), yardsOnly) {
          x := x + 1;
          continue;
        }
        free := false;
        break;
      }
      z := z + 1;
    }
  }

  /** An offset is taken if its site is buildable and free. */
  ghost function Taken(ground: GroundMap, siteAt: SearchOffset -> Site, minDistance: int): SearchOffset -> bool
    requires ground.Valid()
  {
    o => siteAt(o).buildable && ground.IsFree(siteAt(o), minDistance)
  }

  class SearchOffsetTable {
    var searchOffsets: seq<SearchOffset>
    /** The largest radius asked for so far. */
    ghost var made: int

    ghost predicate Valid()
      reads this
    {
      made >= 0 && searchOffsets == Table(made)
    }

    constructor ()
      ensures Valid() && made == 0
    {
      searchOffsets, made := [], 0;
    }

    /** GetSearchOffsetTable: builds the table anew only if it is too small for the radius. */
    method Require(radius: int)
      requires Valid() && radius >= 0
      modifies this
      ensures Valid() && made == Max(old(made), radius)
    {
      var diam := 2 * radius;
      var size := diam * diam;
      SquareSigns(made, radius);
      if size > |searchOffsets| {
        searchOffsets := searchOffsets + seq(size - |searchOffsets|, _ => SearchOffset(0, 0, 0));
        FillRows(radius);
        searchOffsets := StableSort(searchOffsets);
        made := radius;
      }
    }

    /** Writes every entry of the square, row by row. */
    method FillRows(radius: int)
      requires radius >= 0 && |searchOffsets| == Square(2 * radius)
      modifies this`searchOffsets
      ensures searchOffsets == Rows(radius, 2 * radius)
    {
      var diam := 2 * radius;
      for y := 0 to diam
        invariant |searchOffsets| == Square(diam) && 0 <= y * diam <= Square(diam)
        invariant searchOffsets[..y * diam] == Rows(radius, y)
      {
        RowStart(y, diam);
        FillRow(radius, y, y * diam);
      }
      assert searchOffsets[..diam * diam] == searchOffsets;
    }

    /** The inner loop: entries start up to start + diam, where start is y * diam. */
    method FillRow(radius: int, y: nat, start: nat)
      requires radius >= 0 && start + 2 * radius <= |searchOffsets|
      modifies this`searchOffsets
      ensures |searchOffsets| == |old(searchOffsets)|
      ensures searchOffsets[..start + 2 * radius] == old(searchOffsets)[..start] + Row(radius, y - radius)
    {
      var diam := 2 * radius;
      for x := 0 to diam
        invariant |searchOffsets| == |old(searchOffsets)|
        invariant searchOffsets[..start + x] == old(searchOffsets)[..start] + Row(radius, y - radius)[..x]
      {
        ghost var before := searchOffsets;
        searchOffsets := searchOffsets[start + x := OffsetAt(x - radius, y - radius)];
        assert searchOffsets[..start + x + 1] == before[..start + x] + [OffsetAt(x - radius, y - radius)];
      }
      assert Row(radius, y - radius)[..diam] == Row(radius, y - radius);
    }

    /** ClosestBuildPos: the offset of the site, or None. */
    method ClosestBuildPos(rawRadius: int, ground: GroundMap, siteAt: SearchOffset -> Site, minDistance: int)
      returns (site: Option<SearchOffset>)
      requires Valid() && ground.Valid()
      modifies this
      ensures Valid() && made == Max(old(made), Clamp(rawRadius))
      ensures site == SearchResult(Taken(ground, siteAt, minDistance), Clamp(rawRadius), made)
      ensures site.Some? ==> siteAt(site.value).buildable && ground.IsFree(siteAt(site.value), minDistance)
      ensures
        forall o: SearchOffset ::
          && o.qdist == o.dx * o.dx + o.dy * o.dy < Clamp(rawRadius) * Clamp(rawRadius)
          && siteAt(o).buildable && ground.IsFree(siteAt(o), minDistance) ==>
            site.Some? &&
            (var nearest := site.value;
             var d, least := o.dx * o.dx + o.dy * o.dy, nearest.dx * nearest.dx + nearest.dy * nearest.dy;
             o == nearest ||
             least < d || (least == d && (nearest.dy < o.dy || (nearest.dy == o.dy && nearest.dx < o.dx))))
    {
      var maxRadius := Clamp(rawRadius);
      Require(maxRadius);
      ghost var accept := Taken(ground, siteAt, minDistance);
      SearchFindsNearest(accept, maxRadius, made);
      SquareMonotone(2 * maxRadius, 2 * made);
      var i, n := 0, Square(maxRadius * 2);
      while i < n
        invariant 0 <= i <= n && Valid() && made == Max(old(made), maxRadius)
        invariant forall k :: 0 <= k < i ==> !accept(searchOffsets[k])
      {
        var bi := siteAt(searchOffsets[i]);
        var near := ground.Around(bi.Footprint(), minDistance);
        var free := bi.buildable;
        if free {
          free := Scan(ground, near, false);
        }
        if free {
          free := Scan(ground, ground.Around(near, 2), true);
        }
        if free {
          FirstAcceptedIs(accept, searchOffsets, n, i);
          return Some(searchOffsets[i]);
        }
        i := i + 1;
      }
      NoneAccepted(accept, searchOffsets, n);
      return None;
    }
  }

  function Clamp(rawRadius: int): (r: int)
    ensures rawRadius < 1 ==> r == 1
    ensures 1 <= rawRadius <= 128 ==> r == rawRadius
    ensures rawRadius > 128 ==> r == 128
  {
    Max(1, Min(rawRadius, 128))
  }

  lemma SquareSigns(a: int, b: int)
    requires a >= 0 && b >= 0
    ensures Square(2 * a) < Square(2 * b) <==> a < b
  {
    if a < b { SquareStrict(2 * a, 2 * b); } else { SquareMonotone(2 * b, 2 * a); }
  }

  lemma RowStart(y: nat, diam: nat)
    requires y < diam
    ensures 0 <= y * diam && y * diam + diam == (y + 1) * diam <= Square(diam)
  {
    assert (y + 1) * diam <= diam * diam;
  }
}
