/** The main thread's grid over the particle records: `buildGrid` clears
    the state's map and puts each particle's index into the bucket of its
    truncated cell, with the cell size the state already holds, and
    `neighbors(i)` collects the indices other than i from the 3x3 block of
    cells around i's current cell, column by column, without sorting or
    capping. */
module RecordGrid {
  import opened JsNumber
  import opened Types
  import opened SpatialHash
  import opened SimState

  /** The particles' positions. */
  function Points(ps: seq<Particle>): (pts: seq<Vec>)
    ensures |pts| == |ps|
    ensures forall k :: 0 <= k < |ps| ==> pts[k] == Vec(ps[k].x, ps[k].y)
  {
    seq(|ps|, k requires 0 <= k < |ps| => Vec(ps[k].x, ps[k].y))
  }

  /** The map `buildGrid` leaves for particles ps and cell size `cell`. */
  function GridFor(ps: seq<Particle>, cell: real): map<int, seq<int>>
    requires cell > 0.0
  {
    GridOf(KeysOf(Points(ps), cell), |ps|)
  }

  /** What `neighbors(i)` returns over map g: the block of half-width 1
      around the cell particle i is in now. */
  function NeighborsOf(g: map<int, seq<int>>, ps: seq<Particle>, cell: real, i: int): seq<int>
    requires cell > 0.0 && 0 <= i < |ps|
  {
    Scan(g, Key, CellCoord(ps[i].x, cell), CellCoord(ps[i].y, cell), 1, i)
  }

  /** `buildGrid`: the map is rebuilt from the current positions with the
      state's cell size; nothing else changes, the cell size included. */
  method BuildGrid(w: World)
    requires w.Valid()
    modifies w.grid
    ensures w.grid.buckets == GridFor(w.particles, w.gridCell)
  {
    w.grid.Rebuild(Points(w.particles), w.gridCell);
  }

  /** `neighbors(i)`: the 3x3 scan around particle i's current cell. */
  method Neighbors(w: World, i: int) returns (res: seq<int>)
    requires w.Valid() && 0 <= i < |w.particles|
    ensures res == NeighborsOf(w.grid.buckets, w.particles, w.gridCell, i)
  {
    var p := w.particles[i];
    res := w.grid.Gather(i, CellCoord(p.x, w.gridCell), CellCoord(p.y, w.gridCell), 1);
  }

  /** After `buildGrid`, particle j sits in the bucket of its own cell and
      in no other bucket. */
  lemma BuildPlacesOnce(ps: seq<Particle>, cell: real, j: int, key: int)
    requires cell > 0.0 && 0 <= j < |ps|
    ensures var g := GridFor(ps, cell);
            var own := Key(CellCoord(ps[j].x, cell), CellCoord(ps[j].y, cell));
            own in g && j in g[own]
            && (key in g && j in g[key] ==> key == own)
  {
    var ks := KeysOf(Points(ps), cell);
    GridHas(ks, |ps|, j);
    if key in GridFor(ps, cell) && j in GridFor(ps, cell)[key] {
      GridOnly(ks, |ps|, key, j);
    }
  }

  /** `neighbors(i)` never returns i. */
  lemma NeighborsExcludeSelf(g: map<int, seq<int>>, ps: seq<Particle>, cell: real, i: int)
    requires cell > 0.0 && 0 <= i < |ps|
    ensures i !in NeighborsOf(g, ps, cell, i)
  {
    if i in NeighborsOf(g, ps, cell, i) {
      var cx, cy := CellCoord(ps[i].x, cell), CellCoord(ps[i].y, cell);
      var ox, oy := BlockOnly(g, Key, cx, cy, 1, -1, 2, i, i);
    }
  }

  /** Completeness: over the map built from `built`, `neighbors(i)` finds
      every other particle whose cell at build time is within one cell of
      particle i's current cell on both axes. */
  lemma NeighborsFindAdjacent(built: seq<Particle>, ps: seq<Particle>, cell: real, i: int, j: int)
    requires cell > 0.0 && 0 <= i < |ps| && 0 <= j < |built| && j != i
    requires -1 <= CellCoord(built[j].x, cell) - CellCoord(ps[i].x, cell) <= 1
    requires -1 <= CellCoord(built[j].y, cell) - CellCoord(ps[i].y, cell) <= 1
    ensures j in NeighborsOf(GridFor(built, cell), ps, cell, i)
  {
    ScanFindsNear(Points(built), cell, i, CellCoord(ps[i].x, cell), CellCoord(ps[i].y, cell), 1, j);
  }

  /** Soundness: everything `neighbors(i)` returns is another particle of
      the built array; while cell coordinates stay in [0, 2^16), where keys
      do not collide, its cell at build time is within one cell of i's. */
  lemma NeighborsAreAdjacent(built: seq<Particle>, ps: seq<Particle>, cell: real, i: int, j: int)
    requires cell > 0.0 && 0 <= i < |ps|
    requires j in NeighborsOf(GridFor(built, cell), ps, cell, i)
    ensures j != i && 0 <= j < |built|
    ensures var cx, cy := CellCoord(ps[i].x, cell), CellCoord(ps[i].y, cell);
            var jx, jy := CellCoord(built[j].x, cell), CellCoord(built[j].y, cell);
            1 <= cx < 0xFFFF && 1 <= cy < 0xFFFF && 0 <= jx < 0x1_0000 && 0 <= jy < 0x1_0000 ==>
              -1 <= jx - cx <= 1 && -1 <= jy - cy <= 1
  {
    var ks := KeysOf(Points(built), cell);
    var cx, cy := CellCoord(ps[i].x, cell), CellCoord(ps[i].y, cell);
    var g := GridOf(ks, |built|);
    var ox, oy := BlockOnly(g, Key, cx, cy, 1, -1, 2, i, j);
    GridOnly(ks, |built|, At(Key, cx, cy, ox, oy), j);
    var jx, jy := CellCoord(built[j].x, cell), CellCoord(built[j].y, cell);
    assert ks[j] == Key(jx, jy);
    if 1 <= cx < 0xFFFF && 1 <= cy < 0xFFFF && 0 <= jx < 0x1_0000 && 0 <= jy < 0x1_0000 {
      KeyInjective(jx, jy, cx + ox, cy + oy);
    }
  }

  /** Exactly once: while the nine scanned cells and particle j's cell have
      coordinates in [0, 2^16), a particle j in the block appears exactly
      once in `neighbors(i)`. */
  lemma NeighborsOnce(built: seq<Particle>, ps: seq<Particle>, cell: real, i: int, j: int)
    requires cell > 0.0 && 0 <= i < |ps| && 0 <= j < |built| && j != i
    requires 1 <= CellCoord(ps[i].x, cell) < 0xFFFF && 1 <= CellCoord(ps[i].y, cell) < 0xFFFF
    requires -1 <= CellCoord(built[j].x, cell) - CellCoord(ps[i].x, cell) <= 1
    requires -1 <= CellCoord(built[j].y, cell) - CellCoord(ps[i].y, cell) <= 1
    ensures multiset(NeighborsOf(GridFor(built, cell), ps, cell, i))[j] == 1
  {
    var ks := KeysOf(Points(built), cell);
    var cx, cy := CellCoord(ps[i].x, cell), CellCoord(ps[i].y, cell);
    var jx, jy := CellCoord(built[j].x, cell), CellCoord(built[j].y, cell);
    assert ks[j] == Key(jx, jy);
    OnlyOwnCell(cx, cy, jx, jy);
    BlockCount(ks, |built|, Key, cx, cy, 1, -1, 2, i, j, jx - cx, jy - cy);
  }

  /** Around a cell (cx, cy) away from the edges of [0, 2^16), the only
      cell of the 3x3 block with the key of a neighbouring cell (jx, jy)
      is that cell itself. */
  lemma OnlyOwnCell(cx: int, cy: int, jx: int, jy: int)
    requires 1 <= cx < 0xFFFF && 1 <= cy < 0xFFFF && -1 <= jx - cx <= 1 && -1 <= jy - cy <= 1
    ensures At(Key, cx, cy, jx - cx, jy - cy) == Key(jx, jy)
    ensures forall ox, oy :: -1 <= ox < 2 && -1 <= oy <= 1 && At(Key, cx, cy, ox, oy) == Key(jx, jy)
              ==> ox == jx - cx && oy == jy - cy
  {
    forall ox, oy | -1 <= ox < 2 && -1 <= oy <= 1 && At(Key, cx, cy, ox, oy) == Key(jx, jy)
      ensures ox == jx - cx && oy == jy - cy
    {
      KeyInjective(jx, jy, cx + ox, cy + oy);
    }
  }

  // ---------------------------------------------------------------------
  // Multiplicities in a scan
  // ---------------------------------------------------------------------

  lemma {:induction false} BucketCount(ks: seq<int>, key: int, n: int, j: int)
    requires 0 <= n <= |ks|
    ensures multiset(Bucket(ks, key, n))[j] == if 0 <= j < n && ks[j] == key then 1 else 0
  {
    if n > 0 {
      BucketCount(ks, key, n - 1, j);
      var prev := Bucket(ks, key, n - 1);
      if ks[n - 1] == key {
        assert Bucket(ks, key, n) == prev + [n - 1];
        assert multiset(prev + [n - 1]) == multiset(prev) + multiset{n - 1};
        assert multiset(Bucket(ks, key, n))[j] == multiset(prev)[j] + if j == n - 1 then 1 else 0;
      } else {
        assert Bucket(ks, key, n) == prev + [];
        assert prev + [] == prev;
        assert multiset(Bucket(ks, key, n))[j] == multiset(prev)[j];
      }
    } else {
      assert Bucket(ks, key, n) == [];
    }
  }

  lemma {:induction false} WithoutCount(s: seq<int>, i: int, j: int)
    ensures multiset(Without(s, i))[j] == if j == i then 0 else multiset(s)[j]
  {
    if |s| > 0 {
      var init, x := s[..|s| - 1], s[|s| - 1];
      WithoutCount(init, i, j);
      var prev := Without(init, i);
      assert s == init + [x];
      assert multiset(s) == multiset(init) + multiset{x};
      if x != i {
        assert Without(s, i) == prev + [x];
        assert multiset(prev + [x]) == multiset(prev) + multiset{x};
        assert multiset(Without(s, i))[j] == multiset(prev)[j] + multiset{x}[j];
      } else {
        assert Without(s, i) == prev + [];
        assert prev + [] == prev;
        assert multiset(Without(s, i))[j] == multiset(prev)[j];
      }
    }
  }

  /** A scanned cell yields j once if j is in it and is not i, else never. */
  lemma CellCount(ks: seq<int>, n: int, key: int, i: int, j: int)
    requires 0 <= n <= |ks|
    ensures multiset(CellList(GridOf(ks, n), key, i))[j]
            == if j != i && 0 <= j < n && ks[j] == key then 1 else 0
  {
    var g := GridOf(ks, n);
    if key in g {
      WithoutCount(Bucket(ks, key, n), i, j);
      BucketCount(ks, key, n, j);
    }
  }

  /** A column yields j as often as its cells have j's key: once when
      only the cell at oy0 can have it. */
  lemma {:induction false} ColumnCount(ks: seq<int>, n: int, kf: KeyFn, cx: int, cy: int, ox: int,
                                       lo: int, hi: int, i: int, j: int, oy0: int)
    requires 0 <= j < n <= |ks| && j != i
    requires forall oy :: lo <= oy < hi && At(kf, cx, cy, ox, oy) == ks[j] ==> oy == oy0
    ensures multiset(Column(GridOf(ks, n), kf, cx, cy, ox, lo, hi, i))[j]
            == if lo <= oy0 < hi && At(kf, cx, cy, ox, oy0) == ks[j] then 1 else 0
    decreases hi - lo
  {
    var g := GridOf(ks, n);
    if lo < hi {
      var before := Column(g, kf, cx, cy, ox, lo, hi - 1, i);
      var cells := CellList(g, At(kf, cx, cy, ox, hi - 1), i);
      assert Column(g, kf, cx, cy, ox, lo, hi, i) == before + cells;
      assert multiset(before + cells) == multiset(before) + multiset(cells);
      ColumnCount(ks, n, kf, cx, cy, ox, lo, hi - 1, i, j, oy0);
      CellCount(ks, n, At(kf, cx, cy, ox, hi - 1), i, j);
    }
  }

  /** A block yields j once when only the cell at (ox0, oy0) can have
      j's key. */
  lemma {:induction false} BlockCount(ks: seq<int>, n: int, kf: KeyFn, cx: int, cy: int, range: int,
                                      lo: int, hi: int, i: int, j: int, ox0: int, oy0: int)
    requires 0 <= j < n <= |ks| && j != i
    requires forall ox, oy :: lo <= ox < hi && -range <= oy <= range && At(kf, cx, cy, ox, oy) == ks[j]
               ==> ox == ox0 && oy == oy0
    ensures multiset(Block(GridOf(ks, n), kf, cx, cy, range, lo, hi, i))[j]
            == if lo <= ox0 < hi && -range <= oy0 <= range && At(kf, cx, cy, ox0, oy0) == ks[j] then 1 else 0
    decreases hi - lo
  {
    var g := GridOf(ks, n);
    if lo < hi {
      var before := Block(g, kf, cx, cy, range, lo, hi - 1, i);
      var column := Column(g, kf, cx, cy, hi - 1, -range, range + 1, i);
      assert Block(g, kf, cx, cy, range, lo, hi, i) == before + column;
      assert multiset(before + column) == multiset(before) + multiset(column);
      BlockCount(ks, n, kf, cx, cy, range, lo, hi - 1, i, j, ox0, oy0);
      ColumnCount(ks, n, kf, cx, cy, hi - 1, -range, range + 1, i, j, oy0);
    }
  }
}
