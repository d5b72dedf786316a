/** The main thread's global simulation state: the particle records, the
    spatial-hash map and its cell size, the frame clock and the FPS
    window, the run flags, and the settings object (whose collision switch
    the adaptive rule writes).  Only the members the modelled code reads
    or writes are kept. */
module SimState {
  import opened JsNumber
  import opened Types
  import opened SpatialHash

  /** The particles after `f` has been applied to each of the first n
      records; the rest are as they were. */
  function MapPrefix(f: Particle --> Particle, s: seq<Particle>, n: int): (t: seq<Particle>)
    requires 0 <= n <= |s| && forall p :: f.requires(p)
    ensures |t| == |s|
    ensures forall k :: 0 <= k < |s| ==> t[k] == if k < n then f(s[k]) else s[k]
  {
    seq(|s|, k requires 0 <= k < |s| => if k < n then f(s[k]) else s[k])
  }

  /** Every record through `f`, in place: the array keeps its length and
      order, and record k becomes `f` of old record k. */
  function MapAll(f: Particle --> Particle, s: seq<Particle>): (t: seq<Particle>)
    requires forall p :: f.requires(p)
    ensures |t| == |s|
    ensures forall k :: 0 <= k < |s| ==> t[k] == f(s[k])
  {
    MapPrefix(f, s, |s|)
  }

  class World {
    var particles: seq<Particle>
    /** `State.grid`, a `Map` the grid module clears and refills. */
    const grid: HashGrid
    var gridCell: real
    var settings: Settings
    var heatDecay: real
    var running: bool
    var stepOnce: bool
    var gDir: Vec
    var mouseGravity: Vec
    var lastT: real
    var fpsSmooth: real
    var substeps: real
    var frameCount: int
    var recentFps: seq<real>
    var pointer: PointerState
    /** The canvas size in device pixels and the device pixel ratio. */
    var canvasWidth: real
    var canvasHeight: real
    var dpr: real

    /** What every operation keeps: the cell size is at least the 8 the
        rebuild rule never goes below, the frame counter is a count, and
        the FPS window holds at most 30 samples. */
    ghost predicate Valid()
      reads this
    {
      gridCell >= 8.0 && frameCount >= 0 && |recentFps| <= 30
    }

    /** The initial state: no particles, an empty map with cell size 16,
        heat decay 0.97, running and not single-stepping, gravity and
        pointer gravity straight down, a smoothed rate of 60 fps, the
        substep count from the settings, frame 0, an empty FPS window and
        an idle pointer at the origin.  The clock starts at `now`. */
    constructor(settings: Settings, now: real, canvasWidth: real, canvasHeight: real, dpr: real)
      ensures Valid()
      ensures particles == [] && fresh(grid) && grid.buckets == map[] && gridCell == 16.0
      ensures this.settings == settings && heatDecay == 0.97 && running && !stepOnce
      ensures gDir == Vec(0.0, 1.0) && mouseGravity == Vec(0.0, 1.0)
      ensures lastT == now && fpsSmooth == 60.0 && substeps == settings.performance.substeps
      ensures frameCount == 0 && recentFps == []
      ensures pointer == PointerState(0.0, 0.0, 0.0, 0.0, false)
      ensures this.canvasWidth == canvasWidth && this.canvasHeight == canvasHeight && this.dpr == dpr
    {
      particles := [];
      grid := new HashGrid();
      gridCell := 16.0;
      this.settings := settings;
      heatDecay := 0.97;
      running := true;
      stepOnce := false;
      gDir := Vec(0.0, 1.0);
      mouseGravity := Vec(0.0, 1.0);
      lastT := now;
      fpsSmooth := 60.0;
      substeps := settings.performance.substeps;
      frameCount := 0;
      recentFps := [];
      pointer := PointerState(0.0, 0.0, 0.0, 0.0, false);
      this.canvasWidth := canvasWidth;
      this.canvasHeight := canvasHeight;
      this.dpr := dpr;
    }

    /** `canvas.width / DPR`: the canvas width in CSS pixels. */
    function BW(): real
      reads this`canvasWidth, this`dpr
    {
      Div(canvasWidth, dpr)
    }

    /** `canvas.height / DPR`. */
    function BH(): real
      reads this`canvasHeight, this`dpr
    {
      Div(canvasHeight, dpr)
    }

    /** A loop over `State.particles` that rewrites each record in turn
        from that record alone. */
    method MapParticles(f: Particle --> Particle)
      requires forall p :: f.requires(p)
      modifies this`particles
      ensures particles == MapAll(f, old(particles))
    {
      ghost var s0 := particles;
      var i := 0;
      while i < |particles|
        invariant 0 <= i <= |particles| == |s0|
        invariant particles == MapPrefix(f, s0, i)
      {
        particles := particles[i := f(particles[i])];
        i := i + 1;
      }
    }
  }
}
