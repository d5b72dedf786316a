/** The grid over the flat particle buffer: a module-level map and cell
    size, rebuilt with a cell of `max(8, 2 * maxRadius)`, and a neighbour
    query that scans a block of cells sized by the maximum radius, sorts
    the candidates by squared distance and keeps the nearest 64. */
module FlatGrid {
  import opened JsNumber
  import opened Types
  import opened PhysicsUtils
  import opened SpatialHash

  const MAX_NEIGHBORS: int := 64

  /** The (x, y) slots of every particle of a whole buffer. */
  function Positions(s: seq<real>): (pts: seq<Vec>)
    requires Whole(s)
    ensures |pts| == Count(s)
  {
    seq(Count(s), j requires 0 <= j < Count(s) => (CountHolds(s, j); Vec(s[j * 8 + X], s[j * 8 + Y])))
  }

  /** `Math.max(8, maxRadius * 2)`: never below 8, and never below one
      particle diameter. */
  function CellSize(maxRadius: real): (cell: real)
    ensures cell >= 8.0 && cell >= 2.0 * maxRadius
    ensures cell == 8.0 || cell == 2.0 * maxRadius
  {
    Max(8.0, maxRadius * 2.0)
  }

  /** `Math.ceil(2 * maxRadius / gridCell)`. */
  function SearchRange(maxRadius: real, cell: real): int
    requires cell > 0.0
  {
    Ceil(2.0 * maxRadius / cell)
  }

  /** With the cell size the build chose for the same radius, the search
      reaches at most one cell out, and at least one for a positive radius. */
  lemma SearchRangeOfBuild(maxRadius: real)
    requires maxRadius >= 0.0
    ensures 0 <= SearchRange(maxRadius, CellSize(maxRadius)) <= 1
    ensures maxRadius > 0.0 ==> SearchRange(maxRadius, CellSize(maxRadius)) == 1
  {
    var cell := CellSize(maxRadius);
    var q := 2.0 * maxRadius / cell;
    assert q * cell == 2.0 * maxRadius;
    if q > 1.0 {
      MulPositive(q - 1.0, cell);
    }
    if maxRadius > 0.0 && q <= 0.0 {
      MulPositive(-q, cell);
    }
    if q < 0.0 {
      MulPositive(-q, cell);
    }
  }

  /** The sort key of candidate j: its squared distance to particle i.
      An index past the buffer's end reads as distance 0. */
  function Dist2(s: seq<real>, i: int, j: int): real
    requires Holds(s, i)
  {
    if Holds(s, j) then
      var dx := s[j * 8 + X] - s[i * 8 + X];
      var dy := s[j * 8 + Y] - s[i * 8 + Y];
      dx * dx + dy * dy
    else 0.0
  }

  /** The sort key as a function of the candidate index. */
  function DistTo(s: seq<real>, i: int): int -> real
    requires Holds(s, i)
  {
    j => Dist2(s, i, j)
  }

  /** `xs` is ordered by non-decreasing key `d`. */
  predicate SortedBy(d: int -> real, xs: seq<int>)
  {
    forall a, b :: 0 <= a < b < |xs| ==> d(xs[a]) <= d(xs[b])
  }

  /** Inserts x after every entry whose key is not larger than x's. */
  function Insert(d: int -> real, x: int, xs: seq<int>): (r: seq<int>)
    ensures multiset(r) == multiset(xs) + multiset{x}
  {
    if |xs| == 0 then [x]
    else if d(x) < d(xs[0]) then [x] + xs
    else assert xs == [xs[0]] + xs[1..]; [xs[0]] + Insert(d, x, xs[1..])
  }

  lemma {:induction false} InsertSorted(d: int -> real, x: int, xs: seq<int>)
    requires SortedBy(d, xs)
    ensures SortedBy(d, Insert(d, x, xs))
    ensures |Insert(d, x, xs)| > 0
    ensures Insert(d, x, xs)[0] == x || (|xs| > 0 && Insert(d, x, xs)[0] == xs[0])
  {
    if |xs| > 0 && d(x) >= d(xs[0]) {
      var tail := xs[1..];
      assert SortedBy(d, tail) by {
        forall a, b | 0 <= a < b < |tail|
          ensures d(tail[a]) <= d(tail[b])
        {
          assert tail[a] == xs[a + 1] && tail[b] == xs[b + 1];
        }
      }
      InsertSorted(d, x, tail);
      var r := Insert(d, x, xs);
      var rt := Insert(d, x, tail);
      assert r == [xs[0]] + rt;
      forall b | 0 < b < |r|
        ensures d(r[0]) <= d(r[b])
      {
        assert r[b] in multiset(rt);
        assert r[b] in multiset(tail) + multiset{x};
        if r[b] in multiset(tail) {
          var k :| 0 <= k < |tail| && tail[k] == r[b];
          assert xs[k + 1] == r[b];
        }
      }
    }
  }

  /** `res.sort((a, b) => d(a) - d(b))`: a stable insertion sort by key. */
  function SortBy(d: int -> real, xs: seq<int>): seq<int>
  {
    if |xs| == 0 then [] else Insert(d, xs[|xs| - 1], SortBy(d, xs[..|xs| - 1]))
  }

  /** The sort orders by non-decreasing key and keeps every entry with its
      multiplicity. */
  lemma {:induction false} SortByCorrect(d: int -> real, xs: seq<int>)
    ensures SortedBy(d, SortBy(d, xs))
    ensures multiset(SortBy(d, xs)) == multiset(xs)
  {
    if |xs| > 0 {
      var init, last := xs[..|xs| - 1], xs[|xs| - 1];
      SortByCorrect(d, init);
      InsertSorted(d, last, SortBy(d, init));
      assert xs == init + [last];
      assert multiset(xs) == multiset(init) + multiset{last};
    }
  }

  /** `if (res.length > maxNeighbors) res.length = maxNeighbors`. */
  function Cap(xs: seq<int>): (r: seq<int>)
    ensures |r| <= MAX_NEIGHBORS
    ensures |xs| <= MAX_NEIGHBORS ==> r == xs
    ensures r == xs[..|r|]
  {
    if |xs| > MAX_NEIGHBORS then xs[..MAX_NEIGHBORS] else xs
  }

  /** A scan never returns the index it was asked for. */
  lemma {:induction false} ColumnExcludes(g: map<int, seq<int>>, kf: KeyFn, cx: int, cy: int, ox: int,
                                          lo: int, hi: int, i: int)
    ensures i !in Column(g, kf, cx, cy, ox, lo, hi, i)
    decreases hi - lo
  {
    if lo < hi {
      ColumnExcludes(g, kf, cx, cy, ox, lo, hi - 1, i);
      var key := At(kf, cx, cy, ox, hi - 1);
      if key in g {
        WithoutMembers(g[key], i, i);
      }
    }
  }

  lemma {:induction false} BlockExcludes(g: map<int, seq<int>>, kf: KeyFn, cx: int, cy: int, range: int,
                                         lo: int, hi: int, i: int)
    ensures i !in Block(g, kf, cx, cy, range, lo, hi, i)
    decreases hi - lo
  {
    if lo < hi {
      BlockExcludes(g, kf, cx, cy, range, lo, hi - 1, i);
      ColumnExcludes(g, kf, cx, cy, hi - 1, -range, range + 1, i);
    }
  }

  /** The candidate list of `neighbors` for particle i against map g. */
  function Candidates(g: map<int, seq<int>>, s: seq<real>, cell: real, maxRadius: real, i: int): seq<int>
    requires cell > 0.0 && Holds(s, i)
  {
    var b := i * 8;
    Scan(g, Key, CellCoord(s[b + X], cell), CellCoord(s[b + Y], cell), SearchRange(maxRadius, cell), i)
  }

  /** What `neighbors` returns: the candidates, nearest first, at most 64. */
  function NeighborList(g: map<int, seq<int>>, s: seq<real>, cell: real, maxRadius: real, i: int): seq<int>
    requires cell > 0.0 && Holds(s, i)
  {
    Cap(SortBy(DistTo(s, i), Candidates(g, s, cell, maxRadius, i)))
  }

  /** Every entry of the neighbour list is a candidate, so the list
      never holds i. */
  lemma NeighborListExcludesSelf(g: map<int, seq<int>>, s: seq<real>, cell: real, maxRadius: real, i: int)
    requires cell > 0.0 && Holds(s, i)
    ensures forall j :: j in NeighborList(g, s, cell, maxRadius, i) ==> j in Candidates(g, s, cell, maxRadius, i)
    ensures i !in NeighborList(g, s, cell, maxRadius, i)
  {
    var b := i * 8;
    var c := Candidates(g, s, cell, maxRadius, i);
    var range := SearchRange(maxRadius, cell);
    BlockExcludes(g, Key, CellCoord(s[b + X], cell), CellCoord(s[b + Y], cell), range, -range, range + 1, i);
    assert i !in c;
    SortByCorrect(DistTo(s, i), c);
    var sorted := SortBy(DistTo(s, i), c);
    var r := Cap(sorted);
    assert r == sorted[..|r|];
    forall j | j in r
      ensures j in c
    {
      assert j in sorted;
      assert j in multiset(sorted);
    }
  }

  /** The neighbour list is ordered by non-decreasing distance to i and
      holds at most 64 entries. */
  lemma NeighborListSorted(g: map<int, seq<int>>, s: seq<real>, cell: real, maxRadius: real, i: int)
    requires cell > 0.0 && Holds(s, i)
    ensures SortedBy(DistTo(s, i), NeighborList(g, s, cell, maxRadius, i))
    ensures |NeighborList(g, s, cell, maxRadius, i)| <= MAX_NEIGHBORS
  {
    var c := Candidates(g, s, cell, maxRadius, i);
    SortByCorrect(DistTo(s, i), c);
    var sorted := SortBy(DistTo(s, i), c);
    var r := Cap(sorted);
    assert r == sorted[..|r|];
    forall a, b | 0 <= a < b < |r|
      ensures DistTo(s, i)(r[a]) <= DistTo(s, i)(r[b])
    {
      assert r[a] == sorted[a] && r[b] == sorted[b];
    }
  }

  /** Completeness before the cap: over a grid built from this buffer,
      every other particle whose cell lies within the search range of i's
      cell on both axes is a candidate; when there are at most 64
      candidates it is in the result. */
  lemma NeighborsComplete(s: seq<real>, cell: real, maxRadius: real, i: int, j: int)
    requires cell > 0.0 && Whole(s) && Holds(s, i)
    requires 0 <= j < Count(s) && j != i
    requires -SearchRange(maxRadius, cell) <= CellCoord(Positions(s)[j].x, cell) - CellCoord(Positions(s)[i].x, cell) <= SearchRange(maxRadius, cell)
    requires -SearchRange(maxRadius, cell) <= CellCoord(Positions(s)[j].y, cell) - CellCoord(Positions(s)[i].y, cell) <= SearchRange(maxRadius, cell)
    ensures j in Candidates(GridOf(KeysOf(Positions(s), cell), Count(s)), s, cell, maxRadius, i)
    ensures |Candidates(GridOf(KeysOf(Positions(s), cell), Count(s)), s, cell, maxRadius, i)| <= MAX_NEIGHBORS ==>
              j in NeighborList(GridOf(KeysOf(Positions(s), cell), Count(s)), s, cell, maxRadius, i)
  {
    var pts := Positions(s);
    var g := GridOf(KeysOf(pts, cell), Count(s));
    assert Holds(s, i) ==> i < Count(s);
    ScanFindsNear(pts, cell, i, CellCoord(pts[i].x, cell), CellCoord(pts[i].y, cell), SearchRange(maxRadius, cell), j);
    var c := Candidates(g, s, cell, maxRadius, i);
    SortByCorrect(DistTo(s, i), c);
    assert j in multiset(SortBy(DistTo(s, i), c));
  }

  /** The module state of `physics/grid.ts`: the map and the cell size. */
  class FlatGrid {
    const table: HashGrid
    var gridCell: real

    ghost predicate Valid()
      reads this
    {
      gridCell >= 8.0
    }

    constructor()
      ensures Valid() && gridCell == 16.0
      ensures fresh(table) && table.buckets == map[]
    {
      table := new HashGrid();
      gridCell := 16.0;
    }

    /** `buildGrid`: the cell becomes `max(8, 2 * maxRadius)` and the map
        holds exactly the grid of this buffer at that cell size. */
    method BuildGrid(particles: array<real>, maxRadius: real)
      requires Whole(particles[..])
      modifies this, table
      ensures Valid() && gridCell == CellSize(maxRadius)
      ensures table.buckets == GridOf(KeysOf(Positions(particles[..]), gridCell), Count(particles[..]))
    {
      gridCell := CellSize(maxRadius);
      table.Rebuild(Positions(particles[..]), gridCell);
    }

    /** `neighbors(i, particles, maxRadius)` against the current map. */
    method Neighbors(i: int, particles: array<real>, maxRadius: real) returns (res: seq<int>)
      requires Valid() && Holds(particles[..], i)
      ensures res == NeighborList(table.buckets, particles[..], gridCell, maxRadius, i)
    {
      ghost var s := particles[..];
      var base := i * 8;
      var px, py := particles[base + X], particles[base + Y];
      assert px == s[base + X] && py == s[base + Y];
      var cx := CellCoord(px, gridCell);
      var cy := CellCoord(py, gridCell);
      var searchRange := SearchRange(maxRadius, gridCell);
      var candidates := table.Gather(i, cx, cy, searchRange);
      assert candidates == Candidates(table.buckets, s, gridCell, maxRadius, i);
      res := Cap(SortBy(DistTo(particles[..], i), candidates));
    }
  }
}
