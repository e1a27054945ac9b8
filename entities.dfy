/**
 * The game's entities: the fixed constants of catch_game.py, the bucket the
 * player steers, the falling tears, the cosmetic particles and the screen
 * buttons. Drawing is not modelled; what remains is integer state.
 */
module Entities {
  import opened Geometry

  // Window and gameplay constants, as catch_game.py fixes them.
  const WindowWidth := 800
  const WindowHeight := 600
  const BucketWidth := 120
  const BucketHeight := 35
  const BucketSpeed := 8
  const ObjectSize := 35
  const ObjectSpeed := 5
  /** `OBJECT_SPEED * 1.2`, which is exactly 6.0, the fall speed of a dangerous tear. */
  const DangerSpeed := 6
  const SpawnRate := 60
  const DangerChance := 15
  const MaxLives := 5
  const CatchScore := 10
  /** Particles per burst: `create_particles(..., 12)` for a red tear, the default 8 for a blue one. */
  const HazardBurst := 12
  const CatchBurst := 8
  /** The default `life` of a new particle. */
  const ParticleLife := 60
  /** The bucket's start and reset position, `WINDOW_WIDTH // 2 - BUCKET_WIDTH // 2`. */
  const BucketStartX := WindowWidth / 2 - BucketWidth / 2
  /** The bucket's fixed vertical position, `WINDOW_HEIGHT - 60`. */
  const BucketTop := WindowHeight - 60

  // ---------------------------------------------------------------------
  // Bucket

  /**
   * The position after one `move_left`: a step of BucketSpeed, guarded by the
   * OLD position. It moves at most one step left and never below -BucketSpeed.
   */
  function LeftStep(x: int): (r: int)
    ensures r <= x && x - r <= BucketSpeed
    ensures -BucketSpeed < x ==> -BucketSpeed < r
  {
    if x > 0 then x - BucketSpeed else x
  }

  /** The position after one `move_right`: at most one step right, never beyond one step past the edge. */
  function RightStep(x: int): (r: int)
    ensures x <= r && r - x <= BucketSpeed
    ensures x < WindowWidth - BucketWidth + BucketSpeed ==> r < WindowWidth - BucketWidth + BucketSpeed
  {
    if x < WindowWidth - BucketWidth then x + BucketSpeed else x
  }

  /** The hit box of a bucket whose left edge is at x (`Bucket.get_rect`). */
  function BucketBox(x: int): Rect {
    Rect(x, BucketTop, BucketWidth, BucketHeight)
  }

  /** The band the guards keep the bucket in: one step beyond either edge at most. */
  predicate InBand(x: int) {
    -BucketSpeed < x < WindowWidth - BucketWidth + BucketSpeed
  }

  /** The positions a bucket can reach from BucketStartX: the grid 4, 12, ... between -4 and 684. */
  predicate Reachable(x: int) {
    x % BucketSpeed == BucketStartX % BucketSpeed && -4 <= x <= 684
  }

  /** Both moves keep the bucket in its band; neither leaves a position it did not change. */
  lemma StepsKeepBand(x: int)
    requires InBand(x)
    ensures InBand(LeftStep(x)) && InBand(RightStep(x))
    ensures LeftStep(x) == x || LeftStep(x) == x - BucketSpeed
    ensures RightStep(x) == x || RightStep(x) == x + BucketSpeed
  {
  }

  /** The reachable grid is closed under both moves and contains the start position. */
  lemma ReachableClosed(x: int)
    requires Reachable(x)
    ensures Reachable(LeftStep(x)) && Reachable(RightStep(x)) && InBand(x)
    ensures Reachable(BucketStartX)
  {
    assert (x - BucketSpeed) % BucketSpeed == x % BucketSpeed;
    assert (x + BucketSpeed) % BucketSpeed == x % BucketSpeed;
  }

  function LeftSteps(x: int, n: nat): int
    decreases n
  {
    if n == 0 then x else LeftSteps(LeftStep(x), n - 1)
  }

  function RightSteps(x: int, n: nat): int
    decreases n
  {
    if n == 0 then x else RightSteps(RightStep(x), n - 1)
  }

  /** Holding left for n frames from a reachable position stays reachable (and likewise right). */
  lemma {:induction false} StepsStayReachable(x: int, n: nat)
    requires Reachable(x)
    ensures Reachable(LeftSteps(x, n)) && Reachable(RightSteps(x, n))
    decreases n
  {
    if n > 0 {
      ReachableClosed(x);
      StepsStayReachable(LeftStep(x), n - 1);
      StepsStayReachable(RightStep(x), n - 1);
    }
  }

  /** While every guard passes, n left moves subtract exactly n steps. */
  lemma {:induction false} LeftSlide(x: int, n: nat)
    requires n == 0 || x > BucketSpeed * (n - 1)
    ensures LeftSteps(x, n) == x - BucketSpeed * n
    decreases n
  {
    if n > 0 {
      LeftSlide(x - BucketSpeed, n - 1);
    }
  }

  /** While every guard passes, n right moves add exactly n steps. */
  lemma {:induction false} RightSlide(x: int, n: nat)
    requires n == 0 || x + BucketSpeed * (n - 1) < WindowWidth - BucketWidth
    ensures RightSteps(x, n) == x + BucketSpeed * n
    decreases n
  {
    if n > 0 {
      RightSlide(x + BucketSpeed, n - 1);
    }
  }

  /**
   * The guards are not a clamp to [0, WindowWidth - BucketWidth]: from the
   * start position the bucket reaches -4 and 684, and stops there.
   */
  lemma EdgesOvershoot()
    ensures LeftSteps(BucketStartX, 43) == -4 && LeftStep(-4) == -4
    ensures RightSteps(BucketStartX, 43) == 684 && RightStep(684) == 684
  {
    LeftSlide(BucketStartX, 43);
    RightSlide(BucketStartX, 43);
  }

  /** Every position of the reachable grid is reached from the start by holding one key. */
  lemma ReachableIsExact(x: int)
    requires Reachable(x)
    ensures x <= BucketStartX ==> LeftSteps(BucketStartX, (BucketStartX - x) / BucketSpeed) == x
    ensures x >= BucketStartX ==> RightSteps(BucketStartX, (x - BucketStartX) / BucketSpeed) == x
  {
    if x <= BucketStartX {
      LeftSlide(BucketStartX, (BucketStartX - x) / BucketSpeed);
    }
    if x >= BucketStartX {
      RightSlide(BucketStartX, (x - BucketStartX) / BucketSpeed);
    }
  }

  /** The player's bucket; only its horizontal position ever changes. */
  class Bucket {
    var x: int
    const y: int

    constructor (x: int, y: int)
      ensures this.x == x && this.y == y
    {
      this.x := x;
      this.y := y;
    }

    method MoveLeft()
      modifies this
      ensures x == LeftStep(old(x))
    {
      if x > 0 {
        x := x - BucketSpeed;
      }
    }

    method MoveRight()
      modifies this
      ensures x == RightStep(old(x))
    {
      if x < WindowWidth - BucketWidth {
        x := x + BucketSpeed;
      }
    }

    function Box(): (r: Rect)
      reads this
      ensures y == BucketTop ==> r == BucketBox(x)
    {
      Rect(x, y, BucketWidth, BucketHeight)
    }
  }

  // ---------------------------------------------------------------------
  // Falling tears

  /** The colour drawn for a tear: one of four blues for a benign tear, red for a dangerous one. */
  datatype Tint = TearsMedium | SkyBlue | PowderBlue | OceanBlue | DangerRed

  datatype FallingObject = FallingObject(x: int, y: int, speed: int, dangerous: bool, tint: Tint) {

    /** `update`: the tear falls by its speed and keeps its column, speed, danger and colour. */
    function Fall(): (r: FallingObject)
      ensures r.x == x && r.speed == speed && r.dangerous == dangerous && r.tint == tint
      ensures 0 < speed ==> y < r.y
    {
      this.(y := y + speed)
    }

    /** `get_rect`: the ObjectSize square with top-left corner (x - 17, y - 17), around the centre. */
    function Box(): (r: Rect)
      ensures r.width == ObjectSize && r.height == ObjectSize
      ensures Contains(r, Point(x, y))
    {
      Rect(x - ObjectSize / 2, y - ObjectSize / 2, ObjectSize, ObjectSize)
    }

    /** `is_off_screen`: below the window by more than one object size, so the whole box is below the window. */
    predicate OffScreen()
      ensures OffScreen() ==> Box().top > WindowHeight
    {
      y > WindowHeight + ObjectSize
    }
  }

  /**
   * `FallingObject.__init__`: a dangerous tear is red and 1.2 times as fast;
   * a benign one takes the blue `random.choice` drew.
   */
  function NewObject(x: int, y: int, dangerous: bool, blue: Tint): (o: FallingObject)
    ensures o.x == x && o.y == y && o.dangerous == dangerous
    ensures dangerous ==> 5 * o.speed == 6 * ObjectSpeed && o.tint == DangerRed
    ensures !dangerous ==> o.speed == ObjectSpeed && o.tint == blue
  {
    if dangerous then FallingObject(x, y, DangerSpeed, true, DangerRed)
    else FallingObject(x, y, ObjectSpeed, false, blue)
  }

  function FallN(o: FallingObject, n: nat): FallingObject
    decreases n
  {
    if n == 0 then o else FallN(o.Fall(), n - 1)
  }

  /** n frames of `update` move a tear straight down by n times its speed. */
  lemma {:induction false} FallIsLinear(o: FallingObject, n: nat)
    ensures FallN(o, n) == o.(y := o.y + n * o.speed)
    decreases n
  {
    if n > 0 {
      FallIsLinear(o.Fall(), n - 1);
      assert (n - 1) * o.speed + o.speed == n * o.speed;
    }
  }

  /**
   * A tear released at -ObjectSize, left alone, is off screen for the first
   * time after 135 updates when benign and after 112 when dangerous.
   */
  lemma FramesToLeave(x: int, blue: Tint)
    ensures var b := NewObject(x, -ObjectSize, false, blue);
      !FallN(b, 134).OffScreen() && FallN(b, 135).OffScreen()
    ensures var d := NewObject(x, -ObjectSize, true, blue);
      !FallN(d, 111).OffScreen() && FallN(d, 112).OffScreen()
  {
    var b := NewObject(x, -ObjectSize, false, blue);
    var d := NewObject(x, -ObjectSize, true, blue);
    FallIsLinear(b, 134);
    FallIsLinear(b, 135);
    FallIsLinear(d, 111);
    FallIsLinear(d, 112);
  }

  /** A tear's box is the square of points within 17 of its centre on both axes. */
  lemma BoxCentred(o: FallingObject, p: Point)
    ensures Contains(o.Box(), p) <==>
      o.x - 17 <= p.x <= o.x + 17 && o.y - 17 <= p.y <= o.y + 17
  {
  }

  /**
   * The catch zone: a tear touches the bucket exactly when its centre is
   * less than 18 left of or 137 right of the bucket's edge, and its height
   * lies strictly between 522 and 592.
   */
  lemma CatchZone(bx: int, o: FallingObject)
    ensures Overlaps(BucketBox(bx), o.Box()) <==>
      bx - 18 < o.x < bx + 137 && 522 < o.y < 592
  {
  }

  /** A tear touching the bucket is never off screen, so catch and miss are exclusive. */
  lemma CaughtIsOnScreen(bx: int, o: FallingObject)
    requires Overlaps(BucketBox(bx), o.Box())
    ensures !o.OffScreen()
  {
    CatchZone(bx, o);
  }

  // ---------------------------------------------------------------------
  // Particles: only the life countdown is modelled.

  datatype Particle = Particle(life: int, hazard: bool) {
    /** `update`, as far as `life` goes: one frame older; a dead particle stays dead. */
    function Tick(): (r: Particle)
      ensures r.hazard == hazard && r.life + 1 == life
      ensures !IsAlive() ==> !r.IsAlive()
    {
      this.(life := life - 1)
    }

    /** Alive while some life is left: a particle of full life is alive. */
    predicate IsAlive()
      ensures life == ParticleLife ==> IsAlive()
    {
      life > 0
    }
  }

  /** `create_particles(x, y, colour, n)`: n fresh particles of full life. */
  function Burst(n: nat, hazard: bool): (ps: seq<Particle>)
    ensures |ps| == n
    ensures forall i :: 0 <= i < n ==> ps[i] == Particle(ParticleLife, hazard)
  {
    seq(n, _ => Particle(ParticleLife, hazard))
  }

  /**
   * The particle pass of `draw_game_screen`: every particle ages one frame
   * and those no longer alive are dropped, the rest keeping their order.
   */
  function Prune(ps: seq<Particle>): (r: seq<Particle>)
    ensures |r| <= |ps|
    ensures forall i :: 0 <= i < |r| ==> r[i].IsAlive()
  {
    if ps == [] then []
    else
      var p := ps[|ps| - 1].Tick();
      Prune(ps[..|ps| - 1]) + (if p.IsAlive() then [p] else [])
  }

  /** Pruning one more particle of a list prunes that particle on its own. */
  lemma PruneNext(ps: seq<Particle>, i: nat)
    requires i < |ps|
    ensures Prune(ps[..i + 1]) == Prune(ps[..i]) + (if ps[i].Tick().IsAlive() then [ps[i].Tick()] else [])
  {
    assert ps[..i + 1][..i] == ps[..i];
  }

  /**
   * The particle pass removes only the dead: every particle still alive
   * after its tick is kept, and everything kept is some particle after its
   * tick, so each survivor has exactly one frame less of life.
   */
  lemma {:induction false} PruneContents(ps: seq<Particle>)
    ensures forall i :: 0 <= i < |ps| && ps[i].Tick().IsAlive() ==> ps[i].Tick() in Prune(ps)
    ensures forall q :: q in Prune(ps) ==> exists i :: 0 <= i < |ps| && q == ps[i].Tick()
  {
    if ps != [] {
      var n := |ps| - 1;
      PruneContents(ps[..n]);
      assert forall i :: 0 <= i < n ==> ps[..n][i] == ps[i];
    }
  }

  /** Every particle of a list after its tick, in order. */
  function Ticks(ps: seq<Particle>): (r: seq<Particle>)
    ensures |r| == |ps| && forall i :: 0 <= i < |ps| ==> r[i] == ps[i].Tick()
  {
    seq(|ps|, i requires 0 <= i < |ps| => ps[i].Tick())
  }

  /**
   * The particle pass keeps every copy: each particle value that is alive
   * after the tick occurs in the result exactly as often as among the
   * ticked particles, so equal particles of one burst all survive together.
   */
  lemma {:induction false} PruneCounts(ps: seq<Particle>)
    ensures forall q: Particle :: q.IsAlive() ==> multiset(Prune(ps))[q] == multiset(Ticks(ps))[q]
  {
    if ps != [] {
      var n := |ps| - 1;
      PruneCounts(ps[..n]);
      assert Ticks(ps) == Ticks(ps[..n]) + [ps[n].Tick()];
    }
  }

  /** Every particle is alive with at most `bound` frames of life left. */
  predicate LivesWithin(ps: seq<Particle>, bound: int) {
    forall i :: 0 <= i < |ps| ==> 0 < ps[i].life <= bound
  }

  /** One pruning pass lowers the bound on the survivors' remaining life by one. */
  lemma {:induction false} PruneAges(ps: seq<Particle>, bound: int)
    requires LivesWithin(ps, bound)
    ensures LivesWithin(Prune(ps), bound - 1)
  {
    if ps != [] {
      PruneAges(ps[..|ps| - 1], bound);
    }
  }

  lemma FirstLives(ps: seq<Particle>, bound: int)
    requires ps != [] && LivesWithin(ps, bound)
    ensures 0 < bound
  {
    assert 0 < ps[0].life <= bound;
  }

  function PruneN(ps: seq<Particle>, n: nat): seq<Particle>
    decreases n
  {
    if n == 0 then ps else PruneN(Prune(ps), n - 1)
  }

  /** Live particles with at most n frames of life left are all gone after n passes. */
  lemma {:induction false} PruneEmpties(ps: seq<Particle>, n: nat)
    requires LivesWithin(ps, n)
    ensures PruneN(ps, n) == []
    decreases n
  {
    if n == 0 {
      if ps != [] {
        FirstLives(ps, n);
        assert false;
      }
    } else {
      PruneAges(ps, n);
      PruneEmpties(Prune(ps), n - 1);
    }
  }

  // ---------------------------------------------------------------------
  // Buttons

  /** A clickable screen button; only its hover flag changes. */
  class Button {
    const rect: Rect
    var hovered: bool

    constructor (rect: Rect)
      ensures this.rect == rect && !hovered
    {
      this.rect := rect;
      hovered := false;
    }

    /** `is_clicked`: the pointer is inside the button; a button of no size is never clicked. */
    predicate IsClicked(pos: Point)
      ensures IsClicked(pos) ==> 0 < rect.width && 0 < rect.height
    {
      Contains(rect, pos)
    }

    /** `update_hover`: the hover flag follows the pointer. */
    method UpdateHover(pos: Point)
      modifies this
      ensures hovered == IsClicked(pos)
    {
      hovered := IsClicked(pos);
    }
  }
}
