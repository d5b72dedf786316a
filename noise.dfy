/** The precomputed noise fields: eight 128x128 grids of numbers, stored
    column-major-by-row as `i + j*128` for node `(i, j)`, filled at the
    canvas positions `(i/127*BW, j/127*BH)`, and read back by bilinear
    interpolation between the four nodes around a point.  The noise
    functions themselves are inputs (`NoiseFns`); only the layout, the
    sampling and the module state are modelled. */
module Noise {
  import opened JsNumber
  import opened Utils

  const GRID_SIZE: int := 128
  /** The number of entries in one field, `128 * 128`. */
  const CELLS: int := 16384

  /** `Math.max(0, Math.min(size - 1, k))` on a node coordinate. */
  function ClampNode(k: int): (c: int)
    ensures 0 <= c < GRID_SIZE
    ensures 0 <= k < GRID_SIZE ==> c == k
  {
    if k < 0 then 0 else if k > GRID_SIZE - 1 then GRID_SIZE - 1 else k
  }

  /** The entry of node `(i, j)` after both coordinates are clamped to the
      grid; every such index lies in [0, 128*128). */
  function NodeIndex(i: int, j: int): (idx: int)
    ensures 0 <= idx < CELLS
    ensures 0 <= i < GRID_SIZE && 0 <= j < GRID_SIZE ==> idx == i + j * 128
  {
    ClampNode(i) + ClampNode(j) * 128
  }

  /** `sampleBilinear(arr, x, y, BW, BH)`: the grid position of `(x, y)`,
      its floor, the fractional parts, the four corner entries, and the
      blend along x and then along y.  The four reads are in range for any
      point and any canvas (see `NodeIndex`). */
  function SampleBilinear(arr: seq<real>, x: real, y: real, bw: real, bh: real): real
    requires |arr| == CELLS
  {
    var fx := Div(x, bw) * 127.0;
    var fy := Div(y, bh) * 127.0;
    var ix := Floor(fx);
    var iy := Floor(fy);
    var ux := fx - ix as real;
    var uy := fy - iy as real;
    var v0 := Lerp(arr[NodeIndex(ix, iy)], arr[NodeIndex(ix + 1, iy)], ux);
    var v1 := Lerp(arr[NodeIndex(ix, iy + 1)], arr[NodeIndex(ix + 1, iy + 1)], ux);
    Lerp(v0, v1, uy)
  }

  /** The four entries a sample at `(x, y)` blends. */
  function Corners(arr: seq<real>, x: real, y: real, bw: real, bh: real): (c: seq<real>)
    requires |arr| == CELLS
    ensures |c| == 4
  {
    var ix := Floor(Div(x, bw) * 127.0);
    var iy := Floor(Div(y, bh) * 127.0);
    [arr[NodeIndex(ix, iy)], arr[NodeIndex(ix + 1, iy)],
     arr[NodeIndex(ix, iy + 1)], arr[NodeIndex(ix + 1, iy + 1)]]
  }

  /** A sample lies between the smallest and the largest of the four
      entries it blends. */
  lemma SampleBetweenCorners(arr: seq<real>, x: real, y: real, bw: real, bh: real)
    requires |arr| == CELLS
    ensures var c := Corners(arr, x, y, bw, bh);
            var v := SampleBilinear(arr, x, y, bw, bh);
            Min(Min(c[0], c[1]), Min(c[2], c[3])) <= v <= Max(Max(c[0], c[1]), Max(c[2], c[3]))
  {
    var fx := Div(x, bw) * 127.0;
    var fy := Div(y, bh) * 127.0;
    var ix := Floor(fx);
    var iy := Floor(fy);
    var ux := fx - ix as real;
    var uy := fy - iy as real;
    var c := Corners(arr, x, y, bw, bh);
    var v0 := Lerp(c[0], c[1], ux);
    var v1 := Lerp(c[2], c[3], ux);
    LerpBetween(c[0], c[1], ux);
    LerpBetween(c[2], c[3], ux);
    LerpBetween(v0, v1, uy);
    assert SampleBilinear(arr, x, y, bw, bh) == Lerp(v0, v1, uy);
  }

  /** The canvas x coordinate of grid column i: `(i / 127) * BW`. */
  function NodeX(i: int, bw: real): real
  {
    (i as real / 127.0) * bw
  }

  /** A grid position computed from a node's own coordinate is that
      node's index. */
  lemma GridPosition(i: int, b: real)
    requires b > 0.0
    ensures Div(NodeX(i, b), b) * 127.0 == i as real
    ensures Floor(Div(NodeX(i, b), b) * 127.0) == i
  {
    assert Div(NodeX(i, b), b) == i as real / 127.0;
  }

  /** At an exact node the sample is that node's own entry. */
  lemma SampleAtNode(arr: seq<real>, i: int, j: int, bw: real, bh: real)
    requires |arr| == CELLS && 0 <= i < GRID_SIZE && 0 <= j < GRID_SIZE && bw > 0.0 && bh > 0.0
    ensures SampleBilinear(arr, NodeX(i, bw), NodeX(j, bh), bw, bh) == arr[i + j * 128]
  {
    GridPosition(i, bw);
    GridPosition(j, bh);
  }

  /** Every entry index is the index of exactly one node: node
      `(idx % 128, idx / 128)`, and no other node writes it. */
  lemma IndexBijection(idx: int, i: int, j: int)
    requires 0 <= idx < CELLS
    ensures 0 <= idx % 128 < GRID_SIZE && 0 <= idx / 128 < GRID_SIZE
    ensures idx == idx % 128 + (idx / 128) * 128
    ensures 0 <= i < GRID_SIZE && 0 <= j < GRID_SIZE && i + j * 128 == idx ==>
              i == idx % 128 && j == idx / 128
  {
  }

  /** The four noise vectors the precompute reads at a canvas point, with
      the time, scale and amplitude of the call fixed: `curlNoise`, and
      `flowNoiseVec` for flow, wind and gust. */
  datatype NoiseVec = NoiseVec(x: real, y: real)
  datatype NoiseFns = NoiseFns(curl: (real, real) -> NoiseVec, flow: (real, real) -> NoiseVec,
                               wind: (real, real) -> NoiseVec, gust: (real, real) -> NoiseVec)

  /** The value field f (0 curlX, 1 curlY, 2 flowX, 3 flowY, 4 windX,
      5 windY, 6 gustX, 7 gustY) takes at canvas point `(x, y)`; wind is
      sampled at `0.7` and gust at `0.3` times the point. */
  function Entry(fns: NoiseFns, f: int, x: real, y: real): real
  {
    if f == 0 then fns.curl(x, y).x
    else if f == 1 then fns.curl(x, y).y
    else if f == 2 then fns.flow(x, y).x
    else if f == 3 then fns.flow(x, y).y
    else if f == 4 then fns.wind(x * 0.7, y * 0.7).x
    else if f == 5 then fns.wind(x * 0.7, y * 0.7).y
    else if f == 6 then fns.gust(x * 0.3, y * 0.3).x
    else fns.gust(x * 0.3, y * 0.3).y
  }

  /** Field f's value at node `(i, j)`. */
  function NodeValue(fns: NoiseFns, f: int, i: int, j: int, bw: real, bh: real): real
  {
    Entry(fns, f, NodeX(i, bw), NodeX(j, bh))
  }

  /** The whole of field f as the precompute leaves it. */
  function FieldOf(fns: NoiseFns, f: int, bw: real, bh: real): (s: seq<real>)
    ensures |s| == CELLS
  {
    seq(CELLS, idx requires 0 <= idx < CELLS => NodeValue(fns, f, idx % 128, idx / 128, bw, bh))
  }

  /** Node `(a, b)` comes before node `(i, j)` in the loop order: columns
      i in turn, and within a column the rows j in turn. */
  predicate Before(a: int, b: int, i: int, j: int)
  {
    a < i || (a == i && b < j)
  }

  /** Every node visited before `(i, j)` holds field f's value. */
  ghost predicate Filled(s: seq<real>, fns: NoiseFns, f: int, bw: real, bh: real, i: int, j: int)
  {
    |s| == CELLS
    && forall a, b :: 0 <= a < GRID_SIZE && 0 <= b < GRID_SIZE && Before(a, b, i, j) ==>
         s[a + b * 128] == NodeValue(fns, f, a, b, bw, bh)
  }

  /** Writing node `(i, j)` extends the filled part by that node. */
  lemma FilledStep(s: seq<real>, fns: NoiseFns, f: int, bw: real, bh: real, i: int, j: int)
    requires Filled(s, fns, f, bw, bh, i, j) && 0 <= i < GRID_SIZE && 0 <= j < GRID_SIZE
    ensures Filled(s[i + j * 128 := NodeValue(fns, f, i, j, bw, bh)], fns, f, bw, bh, i, j + 1)
  {
    var t := s[i + j * 128 := NodeValue(fns, f, i, j, bw, bh)];
    forall a, b | 0 <= a < GRID_SIZE && 0 <= b < GRID_SIZE && Before(a, b, i, j + 1)
      ensures t[a + b * 128] == NodeValue(fns, f, a, b, bw, bh)
    {
      if a + b * 128 != i + j * 128 {
        assert Before(a, b, i, j);
      } else {
        IndexBijection(i + j * 128, a, b);
        IndexBijection(i + j * 128, i, j);
      }
    }
  }

  /** A finished column is the same as the start of the next one. */
  lemma FilledColumn(s: seq<real>, fns: NoiseFns, f: int, bw: real, bh: real, i: int)
    requires Filled(s, fns, f, bw, bh, i, GRID_SIZE)
    ensures Filled(s, fns, f, bw, bh, i + 1, 0)
  {
    forall a, b | 0 <= a < GRID_SIZE && 0 <= b < GRID_SIZE && Before(a, b, i + 1, 0)
      ensures s[a + b * 128] == NodeValue(fns, f, a, b, bw, bh)
    {
      assert Before(a, b, i, GRID_SIZE);
    }
  }

  /** Once every column is done, the array is the field. */
  lemma FilledAll(s: seq<real>, fns: NoiseFns, f: int, bw: real, bh: real)
    requires Filled(s, fns, f, bw, bh, GRID_SIZE, 0)
    ensures s == FieldOf(fns, f, bw, bh)
  {
    forall idx | 0 <= idx < CELLS
      ensures s[idx] == FieldOf(fns, f, bw, bh)[idx]
    {
      IndexBijection(idx, 0, 0);
      assert Before(idx % 128, idx / 128, GRID_SIZE, 0);
    }
  }

  /** The module's eight field arrays; each is null until the first
      precompute.  The getters `getCurlX()` ... `getGustY()` return these
      fields as they stand. */
  class NoiseFields {
    var curlX: Option<array<real>>
    var curlY: Option<array<real>>
    var flowX: Option<array<real>>
    var flowY: Option<array<real>>
    var windX: Option<array<real>>
    var windY: Option<array<real>>
    var gustX: Option<array<real>>
    var gustY: Option<array<real>>

    /** Before any precompute every getter returns null. */
    constructor()
      ensures curlX.None? && curlY.None? && flowX.None? && flowY.None?
      ensures windX.None? && windY.None? && gustX.None? && gustY.None?
    {
      curlX, curlY, flowX, flowY := None, None, None, None;
      windX, windY, gustX, gustY := None, None, None, None;
    }

    /** `precomputeNoiseFields`: eight new arrays of 128*128 entries, each
        filled at every node with its field's value there; afterwards the
        getters return the new arrays. */
    method Precompute(bw: real, bh: real, fns: NoiseFns)
      modifies this
      ensures curlX.Some? && fresh(curlX.value) && curlX.value[..] == FieldOf(fns, 0, bw, bh)
      ensures curlY.Some? && fresh(curlY.value) && curlY.value[..] == FieldOf(fns, 1, bw, bh)
      ensures flowX.Some? && fresh(flowX.value) && flowX.value[..] == FieldOf(fns, 2, bw, bh)
      ensures flowY.Some? && fresh(flowY.value) && flowY.value[..] == FieldOf(fns, 3, bw, bh)
      ensures windX.Some? && fresh(windX.value) && windX.value[..] == FieldOf(fns, 4, bw, bh)
      ensures windY.Some? && fresh(windY.value) && windY.value[..] == FieldOf(fns, 5, bw, bh)
      ensures gustX.Some? && fresh(gustX.value) && gustX.value[..] == FieldOf(fns, 6, bw, bh)
      ensures gustY.Some? && fresh(gustY.value) && gustY.value[..] == FieldOf(fns, 7, bw, bh)
    {
      var cx, cy, fx, fy, wx, wy, gx, gy := FillFields(bw, bh, fns);
      SetCurlFlow(cx, cy, fx, fy);
      SetWindGust(wx, wy, gx, gy);
    }

    /** The assignments of the curl and flow arrays. */
    method SetCurlFlow(cx: array<real>, cy: array<real>, fx: array<real>, fy: array<real>)
      modifies this`curlX, this`curlY, this`flowX, this`flowY
      ensures curlX == Some(cx) && curlY == Some(cy) && flowX == Some(fx) && flowY == Some(fy)
    {
      curlX, curlY, flowX, flowY := Some(cx), Some(cy), Some(fx), Some(fy);
    }

    /** The assignments of the wind and gust arrays. */
    method SetWindGust(wx: array<real>, wy: array<real>, gx: array<real>, gy: array<real>)
      modifies this`windX, this`windY, this`gustX, this`gustY
      ensures windX == Some(wx) && windY == Some(wy) && gustX == Some(gx) && gustY == Some(gy)
    {
      windX, windY, gustX, gustY := Some(wx), Some(wy), Some(gx), Some(gy);
    }
  }

  /** The eight new arrays of `precomputeNoiseFields`, and the nested loop
      over columns i and rows j that fills them. */
  method FillFields(bw: real, bh: real, fns: NoiseFns)
      returns (cx: array<real>, cy: array<real>, fx: array<real>, fy: array<real>,
               wx: array<real>, wy: array<real>, gx: array<real>, gy: array<real>)
    ensures fresh(cx) && fresh(cy) && fresh(fx) && fresh(fy)
    ensures fresh(wx) && fresh(wy) && fresh(gx) && fresh(gy)
    ensures cx[..] == FieldOf(fns, 0, bw, bh) && cy[..] == FieldOf(fns, 1, bw, bh)
    ensures fx[..] == FieldOf(fns, 2, bw, bh) && fy[..] == FieldOf(fns, 3, bw, bh)
    ensures wx[..] == FieldOf(fns, 4, bw, bh) && wy[..] == FieldOf(fns, 5, bw, bh)
    ensures gx[..] == FieldOf(fns, 6, bw, bh) && gy[..] == FieldOf(fns, 7, bw, bh)
  {
    cx := new real[CELLS];
    cy := new real[CELLS];
    fx := new real[CELLS];
    fy := new real[CELLS];
    wx := new real[CELLS];
    wy := new real[CELLS];
    gx := new real[CELLS];
    gy := new real[CELLS];
    var i := 0;
    while i < GRID_SIZE
      invariant 0 <= i <= GRID_SIZE
      invariant Filled(cx[..], fns, 0, bw, bh, i, 0) && Filled(cy[..], fns, 1, bw, bh, i, 0)
      invariant Filled(fx[..], fns, 2, bw, bh, i, 0) && Filled(fy[..], fns, 3, bw, bh, i, 0)
      invariant Filled(wx[..], fns, 4, bw, bh, i, 0) && Filled(wy[..], fns, 5, bw, bh, i, 0)
      invariant Filled(gx[..], fns, 6, bw, bh, i, 0) && Filled(gy[..], fns, 7, bw, bh, i, 0)
    {
      FillColumn(cx, cy, fx, fy, wx, wy, gx, gy, fns, bw, bh, i);
      i := i + 1;
    }
    FilledAll(cx[..], fns, 0, bw, bh);
    FilledAll(cy[..], fns, 1, bw, bh);
    FilledAll(fx[..], fns, 2, bw, bh);
    FilledAll(fy[..], fns, 3, bw, bh);
    FilledAll(wx[..], fns, 4, bw, bh);
    FilledAll(wy[..], fns, 5, bw, bh);
    FilledAll(gx[..], fns, 6, bw, bh);
    FilledAll(gy[..], fns, 7, bw, bh);
  }

  /** One pass of the outer loop: every row j of column i, in turn. */
  method FillColumn(cx: array<real>, cy: array<real>, fx: array<real>, fy: array<real>,
                    wx: array<real>, wy: array<real>, gx: array<real>, gy: array<real>,
                    fns: NoiseFns, bw: real, bh: real, i: int)
    requires cx != cy && cx != fx && cx != fy && cx != wx && cx != wy && cx != gx && cx != gy
    requires cy != fx && cy != fy && cy != wx && cy != wy && cy != gx && cy != gy
    requires fx != fy && fx != wx && fx != wy && fx != gx && fx != gy
    requires fy != wx && fy != wy && fy != gx && fy != gy
    requires wx != wy && wx != gx && wx != gy
    requires wy != gx && wy != gy && gx != gy
    requires 0 <= i < GRID_SIZE
    requires Filled(cx[..], fns, 0, bw, bh, i, 0) && Filled(cy[..], fns, 1, bw, bh, i, 0)
    requires Filled(fx[..], fns, 2, bw, bh, i, 0) && Filled(fy[..], fns, 3, bw, bh, i, 0)
    requires Filled(wx[..], fns, 4, bw, bh, i, 0) && Filled(wy[..], fns, 5, bw, bh, i, 0)
    requires Filled(gx[..], fns, 6, bw, bh, i, 0) && Filled(gy[..], fns, 7, bw, bh, i, 0)
    modifies cx, cy, fx, fy, wx, wy, gx, gy
    ensures Filled(cx[..], fns, 0, bw, bh, i + 1, 0) && Filled(cy[..], fns, 1, bw, bh, i + 1, 0)
    ensures Filled(fx[..], fns, 2, bw, bh, i + 1, 0) && Filled(fy[..], fns, 3, bw, bh, i + 1, 0)
    ensures Filled(wx[..], fns, 4, bw, bh, i + 1, 0) && Filled(wy[..], fns, 5, bw, bh, i + 1, 0)
    ensures Filled(gx[..], fns, 6, bw, bh, i + 1, 0) && Filled(gy[..], fns, 7, bw, bh, i + 1, 0)
  {
    var j := 0;
    while j < GRID_SIZE
      invariant 0 <= j <= GRID_SIZE
      invariant Filled(cx[..], fns, 0, bw, bh, i, j) && Filled(cy[..], fns, 1, bw, bh, i, j)
      invariant Filled(fx[..], fns, 2, bw, bh, i, j) && Filled(fy[..], fns, 3, bw, bh, i, j)
      invariant Filled(wx[..], fns, 4, bw, bh, i, j) && Filled(wy[..], fns, 5, bw, bh, i, j)
      invariant Filled(gx[..], fns, 6, bw, bh, i, j) && Filled(gy[..], fns, 7, bw, bh, i, j)
    {
      var x := (i as real / 127.0) * bw;
      var y := (j as real / 127.0) * bh;
      var idx := i + j * 128;
      FillNode(cx, cy, fx, fy, wx, wy, gx, gy, fns, bw, bh, i, j, x, y, idx);
      j := j + 1;
    }
    FilledColumn(cx[..], fns, 0, bw, bh, i);
    FilledColumn(cy[..], fns, 1, bw, bh, i);
    FilledColumn(fx[..], fns, 2, bw, bh, i);
    FilledColumn(fy[..], fns, 3, bw, bh, i);
    FilledColumn(wx[..], fns, 4, bw, bh, i);
    FilledColumn(wy[..], fns, 5, bw, bh, i);
    FilledColumn(gx[..], fns, 6, bw, bh, i);
    FilledColumn(gy[..], fns, 7, bw, bh, i);
  }

  /** The body of the inner loop: node `(i, j)` at canvas point `(x, y)`
      is written into all eight arrays at `idx = i + j*128`. */
  method FillNode(cx: array<real>, cy: array<real>, fx: array<real>, fy: array<real>,
                  wx: array<real>, wy: array<real>, gx: array<real>, gy: array<real>,
                  fns: NoiseFns, bw: real, bh: real, i: int, j: int, x: real, y: real, idx: int)
    requires cx != cy && cx != fx && cx != fy && cx != wx && cx != wy && cx != gx && cx != gy
    requires cy != fx && cy != fy && cy != wx && cy != wy && cy != gx && cy != gy
    requires fx != fy && fx != wx && fx != wy && fx != gx && fx != gy
    requires fy != wx && fy != wy && fy != gx && fy != gy
    requires wx != wy && wx != gx && wx != gy
    requires wy != gx && wy != gy && gx != gy
    requires 0 <= i < GRID_SIZE && 0 <= j < GRID_SIZE && x == NodeX(i, bw) && y == NodeX(j, bh)
    requires idx == i + j * 128
    requires Filled(cx[..], fns, 0, bw, bh, i, j) && Filled(cy[..], fns, 1, bw, bh, i, j)
    requires Filled(fx[..], fns, 2, bw, bh, i, j) && Filled(fy[..], fns, 3, bw, bh, i, j)
    requires Filled(wx[..], fns, 4, bw, bh, i, j) && Filled(wy[..], fns, 5, bw, bh, i, j)
    requires Filled(gx[..], fns, 6, bw, bh, i, j) && Filled(gy[..], fns, 7, bw, bh, i, j)
    modifies cx, cy, fx, fy, wx, wy, gx, gy
    ensures Filled(cx[..], fns, 0, bw, bh, i, j + 1) && Filled(cy[..], fns, 1, bw, bh, i, j + 1)
    ensures Filled(fx[..], fns, 2, bw, bh, i, j + 1) && Filled(fy[..], fns, 3, bw, bh, i, j + 1)
    ensures Filled(wx[..], fns, 4, bw, bh, i, j + 1) && Filled(wy[..], fns, 5, bw, bh, i, j + 1)
    ensures Filled(gx[..], fns, 6, bw, bh, i, j + 1) && Filled(gy[..], fns, 7, bw, bh, i, j + 1)
  {
    FillOne(cx, fns, 0, bw, bh, i, j, fns.curl(x, y).x);
    FillOne(cy, fns, 1, bw, bh, i, j, fns.curl(x, y).y);
    FillOne(fx, fns, 2, bw, bh, i, j, fns.flow(x, y).x);
    FillOne(fy, fns, 3, bw, bh, i, j, fns.flow(x, y).y);
    FillOne(wx, fns, 4, bw, bh, i, j, fns.wind(x * 0.7, y * 0.7).x);
    FillOne(wy, fns, 5, bw, bh, i, j, fns.wind(x * 0.7, y * 0.7).y);
    FillOne(gx, fns, 6, bw, bh, i, j, fns.gust(x * 0.3, y * 0.3).x);
    FillOne(gy, fns, 7, bw, bh, i, j, fns.gust(x * 0.3, y * 0.3).y);
  }

  /** One write: node `(i, j)` of field f gets its value. */
  method FillOne(a: array<real>, fns: NoiseFns, f: int, bw: real, bh: real, i: int, j: int, v: real)
    requires 0 <= i < GRID_SIZE && 0 <= j < GRID_SIZE && Filled(a[..], fns, f, bw, bh, i, j)
    requires v == NodeValue(fns, f, i, j, bw, bh)
    modifies a
    ensures Filled(a[..], fns, f, bw, bh, i, j + 1)
  {
    FilledStep(a[..], fns, f, bw, bh, i, j);
    a[i + j * 128] := v;
  }
}
