/** The uniform spatial hash shared by both grid copies: a map from a
    32-bit cell key to the indices of the points in that cell, rebuilt
    from scratch, and the scan of a square block of cells around a point. */
module SpatialHash {
  import opened JsNumber
  import opened Types

  /** `(v / cell) | 0`. */
  function CellCoord(v: real, cell: real): (c: int)
    requires cell > 0.0
    ensures -TWO31 <= c < TWO31
  {
    ToInt32(v / cell)
  }

  function Pow2(w: nat): (p: nat)
    ensures p >= 1
  {
    if w == 0 then 1 else 2 * Pow2(w - 1)
  }

  lemma Pow2Sixteen()
    ensures Pow2(16) == 0x1_0000
  {
    assert Pow2(4) == 16;
    assert Pow2(8) == 256;
    assert Pow2(12) == 4096;
  }

  /** Bitwise exclusive or of the low w bits of a and b. */
  function Xor(a: nat, b: nat, w: nat): nat
  {
    if w == 0 then 0
    else (if a % 2 != b % 2 then 1 else 0) + 2 * Xor(a / 2, b / 2, w - 1)
  }

  lemma {:induction false} XorZero(a: nat, w: nat)
    requires a < Pow2(w)
    ensures Xor(a, 0, w) == a
  {
    if w > 0 {
      XorZero(a / 2, w - 1);
    }
  }

  /** `(cx << 16) ^ cy`, as the unsigned 32-bit pattern of the number the
      source uses as map key (two keys are equal exactly when their
      patterns are).  The shift keeps the low 16 bits of cx as the high
      half; the exclusive or mixes in all 32 bits of cy. */
  function Key(cx: int, cy: int): int
  {
    var cyBits := cy % TWO32;
    Xor(cx % 0x1_0000, cyBits / 0x1_0000, 16) * 0x1_0000 + cyBits % 0x1_0000
  }

  function PointKey(p: Vec, cell: real): int
    requires cell > 0.0
  {
    Key(CellCoord(p.x, cell), CellCoord(p.y, cell))
  }

  /** For coordinates in [0, 2^16) the key is `cx * 2^16 + cy`. */
  lemma SmallKey(cx: int, cy: int)
    requires 0 <= cx < 0x1_0000 && 0 <= cy < 0x1_0000
    ensures Key(cx, cy) == cx * 0x1_0000 + cy
  {
    assert cy % TWO32 == cy;
    assert cy / 0x1_0000 == 0 && cy % 0x1_0000 == cy && cx % 0x1_0000 == cx;
    Pow2Sixteen();
    XorZero(cx, 16);
  }

  /** Keys of cells whose coordinates both lie in [0, 2^16) are distinct. */
  lemma KeyInjective(cx1: int, cy1: int, cx2: int, cy2: int)
    requires 0 <= cx1 < 0x1_0000 && 0 <= cy1 < 0x1_0000
    requires 0 <= cx2 < 0x1_0000 && 0 <= cy2 < 0x1_0000
    requires Key(cx1, cy1) == Key(cx2, cy2)
    ensures cx1 == cx2 && cy1 == cy2
  {
    SmallKey(cx1, cy1);
    SmallKey(cx2, cy2);
  }

  /** Outside that range keys collide: the shift drops the high half of
      cx, so the cell left of the origin shares its key with cell 65535. */
  lemma KeyWrapsBelowZero()
    ensures Key(-1, 0) == Key(0xFFFF, 0)
  {
    assert -1 % 0x1_0000 == 0xFFFF % 0x1_0000;
  }

  /** The cell keys of a point list, in index order. */
  function KeysOf(pts: seq<Vec>, cell: real): (ks: seq<int>)
    requires cell > 0.0
    ensures |ks| == |pts|
  {
    seq(|pts|, j requires 0 <= j < |pts| => PointKey(pts[j], cell))
  }

  /** The indices below n whose key is `key`, in increasing order. */
  function Bucket(ks: seq<int>, key: int, n: int): seq<int>
    requires 0 <= n <= |ks|
  {
    if n == 0 then []
    else Bucket(ks, key, n - 1) + (if ks[n - 1] == key then [n - 1] else [])
  }

  function Keys(ks: seq<int>, n: int): set<int>
    requires 0 <= n <= |ks|
  {
    set j | 0 <= j < n :: ks[j]
  }

  /** The grid of the first n keys: one bucket per occupied cell. */
  function GridOf(ks: seq<int>, n: int): map<int, seq<int>>
    requires 0 <= n <= |ks|
  {
    map k | k in Keys(ks, n) :: Bucket(ks, k, n)
  }

  /** A bucket lists exactly the indices below n whose key it is. */
  lemma {:induction false} BucketMembers(ks: seq<int>, key: int, n: int, j: int)
    requires 0 <= n <= |ks|
    ensures j in Bucket(ks, key, n) <==> 0 <= j < n && ks[j] == key
  {
    if n > 0 {
      BucketMembers(ks, key, n - 1, j);
    }
  }

  /** Each bucket lists its indices in strictly increasing order. */
  lemma {:induction false} BucketIncreasing(ks: seq<int>, key: int, n: int)
    requires 0 <= n <= |ks|
    ensures forall a, b :: 0 <= a < b < |Bucket(ks, key, n)| ==>
              Bucket(ks, key, n)[a] < Bucket(ks, key, n)[b]
  {
    if n > 0 {
      BucketIncreasing(ks, key, n - 1);
      var s := Bucket(ks, key, n - 1);
      forall a | 0 <= a < |s|
        ensures s[a] < n - 1
      {
        BucketMembers(ks, key, n - 1, s[a]);
      }
    }
  }

  /** A key no index below n has gets an empty bucket. */
  lemma {:induction false} BucketOutside(ks: seq<int>, key: int, n: int)
    requires 0 <= n <= |ks|
    requires key !in Keys(ks, n)
    ensures Bucket(ks, key, n) == []
  {
    if n > 0 {
      assert ks[n - 1] in Keys(ks, n);
      assert Keys(ks, n - 1) <= Keys(ks, n);
      BucketOutside(ks, key, n - 1);
    }
  }

  lemma GridOfEmpty(ks: seq<int>)
    ensures GridOf(ks, 0) == map[]
  {
    assert Keys(ks, 0) == {};
  }

  /** Inserting index n into the grid of the first n keys. */
  lemma GridOfStep(ks: seq<int>, n: int)
    requires 0 <= n < |ks|
    ensures GridOf(ks, n + 1) == GridOf(ks, n)[ks[n] := Bucket(ks, ks[n], n) + [n]]
  {
    var k := ks[n];
    var g0 := GridOf(ks, n);
    var g1 := GridOf(ks, n + 1);
    var g2 := g0[k := Bucket(ks, k, n) + [n]];
    assert Keys(ks, n + 1) == Keys(ks, n) + {k};
    forall q | q in g1
      ensures q in g2 && g1[q] == g2[q]
    {
    }
    assert g1.Keys == g2.Keys;
  }

  /** Index j < n sits in the bucket of its own key. */
  lemma GridHas(ks: seq<int>, n: int, j: int)
    requires 0 <= j < n <= |ks|
    ensures ks[j] in GridOf(ks, n) && j in GridOf(ks, n)[ks[j]]
  {
    BucketMembers(ks, ks[j], n, j);
  }

  /** A bucket holds only indices below n whose key it is. */
  lemma GridOnly(ks: seq<int>, n: int, k: int, j: int)
    requires 0 <= n <= |ks|
    requires k in GridOf(ks, n) && j in GridOf(ks, n)[k]
    ensures 0 <= j < n && ks[j] == k
  {
    BucketMembers(ks, k, n, j);
  }

  /** The scan of j's own cell yields j, unless j is the skipped index. */
  lemma GridCellList(ks: seq<int>, n: int, i: int, j: int)
    requires 0 <= j < n <= |ks| && j != i
    ensures j in CellList(GridOf(ks, n), ks[j], i)
  {
    GridHas(ks, n, j);
    WithoutMembers(GridOf(ks, n)[ks[j]], i, j);
  }

  /** Every bucket of the grid lists its indices in increasing order. */
  lemma GridIncreasing(ks: seq<int>, n: int, k: int)
    requires 0 <= n <= |ks| && k in GridOf(ks, n)
    ensures forall a, b :: 0 <= a < b < |GridOf(ks, n)[k]| ==> GridOf(ks, n)[k][a] < GridOf(ks, n)[k][b]
  {
    BucketIncreasing(ks, k, n);
  }

  /** `list` without the entries equal to i, in order. */
  function Without(s: seq<int>, i: int): seq<int>
  {
    if |s| == 0 then []
    else Without(s[..|s| - 1], i) + (if s[|s| - 1] != i then [s[|s| - 1]] else [])
  }

  /** Filtering out i keeps exactly the other entries. */
  lemma {:induction false} WithoutMembers(s: seq<int>, i: int, j: int)
    ensures j in Without(s, i) <==> j in s && j != i
  {
    if |s| > 0 {
      WithoutMembers(s[..|s| - 1], i, j);
      assert s == s[..|s| - 1] + [s[|s| - 1]];
    }
  }

  /** The key of cell (x, y); the scan is stated for any such function. */
  type KeyFn = (int, int) -> int

  /** The key of the cell at offset (ox, oy) from cell (cx, cy). */
  function At(kf: KeyFn, cx: int, cy: int, ox: int, oy: int): int
  {
    kf(cx + ox, cy + oy)
  }

  /** What the scan takes from one cell. */
  function CellList(g: map<int, seq<int>>, key: int, i: int): seq<int>
  {
    if key in g then Without(g[key], i) else []
  }

  /** The cells (cx+ox, cy+oy) for oy in [lo, hi), in order. */
  function Column(g: map<int, seq<int>>, kf: KeyFn, cx: int, cy: int, ox: int, lo: int, hi: int, i: int): seq<int>
    decreases hi - lo
  {
    if hi <= lo then []
    else Column(g, kf, cx, cy, ox, lo, hi - 1, i) + CellList(g, At(kf, cx, cy, ox, hi - 1), i)
  }

  /** The columns ox in [lo, hi) of the block of half-width `range`. */
  function Block(g: map<int, seq<int>>, kf: KeyFn, cx: int, cy: int, range: int, lo: int, hi: int, i: int): seq<int>
    decreases hi - lo
  {
    if hi <= lo then []
    else Block(g, kf, cx, cy, range, lo, hi - 1, i) + Column(g, kf, cx, cy, hi - 1, -range, range + 1, i)
  }

  /** The whole scan of `neighbors`: every cell within `range` of
      (cx, cy), ox outer and oy inner, bucket order within a cell. */
  function Scan(g: map<int, seq<int>>, kf: KeyFn, cx: int, cy: int, range: int, i: int): seq<int>
  {
    Block(g, kf, cx, cy, range, -range, range + 1, i)
  }

  lemma ColumnStep(g: map<int, seq<int>>, kf: KeyFn, cx: int, cy: int, ox: int, lo: int, hi: int, i: int)
    requires lo <= hi
    ensures Column(g, kf, cx, cy, ox, lo, hi + 1, i)
            == Column(g, kf, cx, cy, ox, lo, hi, i) + CellList(g, At(kf, cx, cy, ox, hi), i)
  {
  }

  lemma BlockStep(g: map<int, seq<int>>, kf: KeyFn, cx: int, cy: int, range: int, lo: int, hi: int, i: int)
    requires lo <= hi
    ensures Block(g, kf, cx, cy, range, lo, hi + 1, i)
            == Block(g, kf, cx, cy, range, lo, hi, i) + Column(g, kf, cx, cy, hi, -range, range + 1, i)
  {
  }

  lemma {:induction false} ColumnHas(g: map<int, seq<int>>, kf: KeyFn, cx: int, cy: int, ox: int, lo: int, hi: int,
                                     i: int, oy: int, j: int)
    requires lo <= oy < hi
    requires j in CellList(g, At(kf, cx, cy, ox, oy), i)
    ensures j in Column(g, kf, cx, cy, ox, lo, hi, i)
    decreases hi - lo
  {
    assert Column(g, kf, cx, cy, ox, lo, hi, i)
           == Column(g, kf, cx, cy, ox, lo, hi - 1, i) + CellList(g, At(kf, cx, cy, ox, hi - 1), i);
    if oy < hi - 1 {
      ColumnHas(g, kf, cx, cy, ox, lo, hi - 1, i, oy, j);
    }
  }

  lemma {:induction false} BlockHas(g: map<int, seq<int>>, kf: KeyFn, cx: int, cy: int, range: int, lo: int, hi: int,
                                    i: int, ox: int, j: int)
    requires lo <= ox < hi
    requires j in Column(g, kf, cx, cy, ox, -range, range + 1, i)
    ensures j in Block(g, kf, cx, cy, range, lo, hi, i)
    decreases hi - lo
  {
    assert Block(g, kf, cx, cy, range, lo, hi, i)
           == Block(g, kf, cx, cy, range, lo, hi - 1, i) + Column(g, kf, cx, cy, hi - 1, -range, range + 1, i);
    if ox < hi - 1 {
      BlockHas(g, kf, cx, cy, range, lo, hi - 1, i, ox, j);
    }
  }

  /** A scan yields whatever the scan of a cell in its block yields. */
  lemma ScanHas(g: map<int, seq<int>>, kf: KeyFn, cx: int, cy: int, range: int, i: int, ox: int, oy: int, j: int)
    requires -range <= ox <= range && -range <= oy <= range
    requires j in CellList(g, At(kf, cx, cy, ox, oy), i)
    ensures j in Scan(g, kf, cx, cy, range, i)
  {
    ColumnHas(g, kf, cx, cy, ox, -range, range + 1, i, oy, j);
    BlockHas(g, kf, cx, cy, range, -range, range + 1, i, ox, j);
  }

  /** Everything a scan returns comes from a scanned cell and is not i;
      the lemma names the cell. */
  lemma {:induction false} ColumnOnly(g: map<int, seq<int>>, kf: KeyFn, cx: int, cy: int, ox: int, lo: int, hi: int,
                                      i: int, j: int) returns (oy: int)
    requires j in Column(g, kf, cx, cy, ox, lo, hi, i)
    ensures j != i
    ensures lo <= oy < hi && At(kf, cx, cy, ox, oy) in g && j in g[At(kf, cx, cy, ox, oy)]
    decreases hi - lo
  {
    assert Column(g, kf, cx, cy, ox, lo, hi, i)
           == Column(g, kf, cx, cy, ox, lo, hi - 1, i) + CellList(g, At(kf, cx, cy, ox, hi - 1), i);
    if j in Column(g, kf, cx, cy, ox, lo, hi - 1, i) {
      oy := ColumnOnly(g, kf, cx, cy, ox, lo, hi - 1, i, j);
    } else {
      oy := hi - 1;
      var key := At(kf, cx, cy, ox, oy);
      assert key in g;
      WithoutMembers(g[key], i, j);
    }
  }

  lemma {:induction false} BlockOnly(g: map<int, seq<int>>, kf: KeyFn, cx: int, cy: int, range: int, lo: int, hi: int,
                                     i: int, j: int) returns (ox: int, oy: int)
    requires j in Block(g, kf, cx, cy, range, lo, hi, i)
    ensures j != i
    ensures lo <= ox < hi && -range <= oy <= range
    ensures At(kf, cx, cy, ox, oy) in g && j in g[At(kf, cx, cy, ox, oy)]
    decreases hi - lo
  {
    assert Block(g, kf, cx, cy, range, lo, hi, i)
           == Block(g, kf, cx, cy, range, lo, hi - 1, i) + Column(g, kf, cx, cy, hi - 1, -range, range + 1, i);
    if j in Block(g, kf, cx, cy, range, lo, hi - 1, i) {
      ox, oy := BlockOnly(g, kf, cx, cy, range, lo, hi - 1, i, j);
    } else {
      ox := hi - 1;
      oy := ColumnOnly(g, kf, cx, cy, ox, -range, range + 1, i, j);
    }
  }

  /** Completeness: over the grid of the first n keys, the scan around
      (cx, cy) finds every index other than i whose key is the key of a
      cell within `range` on both axes.  No injectivity of keys is needed
      for this direction. */
  lemma ScanComplete(ks: seq<int>, kf: KeyFn, n: int, i: int, cx: int, cy: int, range: int, j: int, ox: int, oy: int)
    requires 0 <= j < n <= |ks| && j != i
    requires -range <= ox <= range && -range <= oy <= range
    requires ks[j] == At(kf, cx, cy, ox, oy)
    ensures j in Scan(GridOf(ks, n), kf, cx, cy, range, i)
  {
    GridCellList(ks, n, i, j);
    ScanHas(GridOf(ks, n), kf, cx, cy, range, i, ox, oy, j);
  }

  /** Completeness for points: every other point whose cell lies within
      `range` of (cx, cy) on both axes is found. */
  lemma ScanFindsNear(pts: seq<Vec>, cell: real, i: int, cx: int, cy: int, range: int, j: int)
    requires cell > 0.0 && 0 <= j < |pts| && j != i
    requires -range <= CellCoord(pts[j].x, cell) - cx <= range
    requires -range <= CellCoord(pts[j].y, cell) - cy <= range
    ensures j in Scan(GridOf(KeysOf(pts, cell), |pts|), Key, cx, cy, range, i)
  {
    var ox, oy := CellCoord(pts[j].x, cell) - cx, CellCoord(pts[j].y, cell) - cy;
    assert KeysOf(pts, cell)[j] == At(Key, cx, cy, ox, oy);
    ScanComplete(KeysOf(pts, cell), Key, |pts|, i, cx, cy, range, j, ox, oy);
  }

  /** Soundness: over the grid of the first n keys, the scan returns only
      indices other than i, below n, whose key is one of the scanned keys. */
  lemma ScanSound(ks: seq<int>, kf: KeyFn, n: int, i: int, cx: int, cy: int, range: int, j: int)
    requires 0 <= n <= |ks|
    requires j in Scan(GridOf(ks, n), kf, cx, cy, range, i)
    ensures j != i && 0 <= j < n
    ensures exists ox, oy :: -range <= ox <= range && -range <= oy <= range
              && ks[j] == At(kf, cx, cy, ox, oy)
  {
    var g := GridOf(ks, n);
    var ox, oy := BlockOnly(g, kf, cx, cy, range, -range, range + 1, i, j);
    GridOnly(ks, n, At(kf, cx, cy, ox, oy), j);
  }

  lemma AppendAssoc(a: seq<int>, b: seq<int>, c: seq<int>)
    ensures a + (b + c) == (a + b) + c
  {
  }

  /** The innermost loop of `neighbors`: appends the entries of one
      bucket other than i, in bucket order. */
  method AppendOthers(acc: seq<int>, list: seq<int>, i: int) returns (res: seq<int>)
    ensures res == acc + Without(list, i)
  {
    res := acc;
    var k := 0;
    while k < |list|
      invariant 0 <= k <= |list|
      invariant res == acc + Without(list[..k], i)
    {
      assert list[..k + 1][..k] == list[..k];
      if list[k] != i {
        res := res + [list[k]];
      }
      k := k + 1;
    }
    assert list[..|list|] == list;
  }

  /** The hash map both grid modules keep: `buckets` is the `Map`. */
  class HashGrid {
    var buckets: map<int, seq<int>>

    constructor()
      ensures buckets == map[]
    {
      buckets := map[];
    }

    /** `grid.clear()` and the insertion loop of `buildGrid`: the map
        afterwards depends only on the points and the cell size. */
    method Rebuild(pts: seq<Vec>, cell: real)
      requires cell > 0.0
      modifies this
      ensures buckets == GridOf(KeysOf(pts, cell), |pts|)
    {
      ghost var ks := KeysOf(pts, cell);
      buckets := map[];
      GridOfEmpty(ks);
      var i := 0;
      while i < |pts|
        invariant 0 <= i <= |pts|
        invariant buckets == GridOf(ks, i)
      {
        var key := PointKey(pts[i], cell);
        assert key == ks[i];
        GridOfStep(ks, i);
        if key in buckets {
          assert buckets[key] == Bucket(ks, key, i);
          buckets := buckets[key := buckets[key] + [i]];
          assert buckets == GridOf(ks, i + 1);
        } else {
          assert key !in Keys(ks, i);
          BucketOutside(ks, key, i);
          assert Bucket(ks, key, i) + [i] == [i];
          buckets := buckets[key := [i]];
          assert buckets == GridOf(ks, i + 1);
        }
        i := i + 1;
      }
    }

    /** The offset loops of `neighbors`: every bucket within `range` cells
        of (cx, cy), skipping index i. */
    method Gather(i: int, cx: int, cy: int, range: int) returns (res: seq<int>)
      ensures res == Scan(buckets, Key, cx, cy, range, i)
    {
      res := [];
      var ox := -range;
      while ox <= range
        invariant ox == -range || -range <= ox <= range + 1
        invariant res == Block(buckets, Key, cx, cy, range, -range, ox, i)
        decreases range - ox
      {
        res := GatherColumn(res, i, cx, cy, ox, range);
        BlockStep(buckets, Key, cx, cy, range, -range, ox, i);
        ox := ox + 1;
      }
    }

    /** The inner offset loop of `neighbors` for one column ox. */
    method GatherColumn(acc: seq<int>, i: int, cx: int, cy: int, ox: int, range: int) returns (res: seq<int>)
      ensures res == acc + Column(buckets, Key, cx, cy, ox, -range, range + 1, i)
    {
      var g := buckets;
      res := acc;
      var oy := -range;
      while oy <= range
        invariant oy == -range || -range <= oy <= range + 1
        invariant res == acc + Column(g, Key, cx, cy, ox, -range, oy, i)
        decreases range - oy
      {
        var key := At(Key, cx, cy, ox, oy);
        ghost var cells := CellList(g, key, i);
        ghost var before := Column(g, Key, cx, cy, ox, -range, oy, i);
        if key in g {
          res := AppendOthers(res, g[key], i);
        }
        assert res == (acc + before) + cells;
        ColumnStep(g, Key, cx, cy, ox, -range, oy, i);
        AppendAssoc(acc, before, cells);
        oy := oy + 1;
      }
    }
  }
}
