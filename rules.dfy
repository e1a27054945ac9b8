/**
 * The game's rules on values: a World is everything `Game` holds that the
 * gameplay reads or writes, `Update` is `update_game`, and `FrameWorld` is
 * one pass of the main loop of `Game.run` with drawing left out. The class
 * in module CatchGame is proved to follow these functions; the lemmas here
 * state what the rules promise.
 */
module Rules {
  import opened Geometry
  import opened Entities
  import opened Screens

  datatype World = World(
    state: Screen,
    score: int,
    lives: int,
    spawnTimer: int,
    objects: seq<FallingObject>,
    particles: seq<Particle>,
    bucketX: int)

  /** The held keys: `left` is LEFT or A, `right` is RIGHT or D. */
  datatype Keys = Keys(left: bool, right: bool)

  /**
   * The random draws a spawn consumes: `randint` for the column and for the
   * 1..100 hazard roll, `random.choice` for a benign tear's blue.
   */
  datatype SpawnDraw = SpawnDraw(x: int, roll: int, blue: Tint)

  /** The ranges the draws come from. */
  predicate ValidDraw(d: SpawnDraw) {
    ObjectSize / 2 <= d.x <= WindowWidth - ObjectSize / 2 &&
    1 <= d.roll <= 100 &&
    d.blue != DangerRed
  }

  /** The state `Game.__init__` leaves behind. */
  const InitialWorld := World(Welcome, 0, MaxLives, 0, [], [], BucketStartX)

  /** `reset_game`: everything but the screen goes back to its start value. */
  function Reset(w: World): (r: World)
    ensures r.state == w.state
    ensures r.score == 0 && r.lives == MaxLives && r.spawnTimer == 0
    ensures r.objects == [] && r.particles == [] && r.bucketX == BucketStartX
  {
    InitialWorld.(state := w.state)
  }

  /**
   * The held-key part of `update_game`: left first, then right. One held
   * key makes that key's move, with no key held the bucket stays put, and
   * with both held it stays put while both guards pass; it never moves by
   * more than one step.
   */
  function Steer(x: int, keys: Keys): (r: int)
    ensures -BucketSpeed <= r - x <= BucketSpeed
    ensures keys.left && !keys.right ==> r == LeftStep(x)
    ensures !keys.left && keys.right ==> r == RightStep(x)
    ensures !keys.left && !keys.right ==> r == x
    ensures keys.left && keys.right && 0 < x < WindowWidth - BucketWidth + BucketSpeed ==> r == x
  {
    var afterLeft := if keys.left then LeftStep(x) else x;
    if keys.right then RightStep(afterLeft) else afterLeft
  }

  /**
   * The spawn part of `update_game`: the timer advances, and when it reaches
   * SpawnRate it restarts at 0 and one new tear is appended at height
   * -ObjectSize, dangerous exactly when the roll is at most DangerChance.
   */
  function SpawnStep(w: World, d: SpawnDraw): (r: World)
    ensures r == w.(spawnTimer := r.spawnTimer, objects := r.objects)
    ensures w.objects <= r.objects && |r.objects| <= |w.objects| + 1
    ensures 0 <= w.spawnTimer < SpawnRate ==>
      0 <= r.spawnTimer < SpawnRate && (|r.objects| == |w.objects| + 1 <==> r.spawnTimer == 0)
    ensures |r.objects| == |w.objects| + 1 ==>
      r.objects[|w.objects|] == NewObject(d.x, -ObjectSize, d.roll <= DangerChance, d.blue)
  {
    var t := w.spawnTimer + 1;
    if t >= SpawnRate then
      w.(spawnTimer := 0,
         objects := w.objects + [NewObject(d.x, -ObjectSize, d.roll <= DangerChance, d.blue)])
    else
      w.(spawnTimer := t)
  }

  /** Spawn steps over a run of frames, one draw per frame. */
  function SpawnRun(w: World, ds: seq<SpawnDraw>): World
    decreases |ds|
  {
    if ds == [] then w else SpawnStep(SpawnRun(w, ds[..|ds| - 1]), ds[|ds| - 1])
  }

  /** Exactly one tear every SpawnRate frames: the timer counts frames modulo SpawnRate. */
  lemma {:induction false} SpawnCadence(w: World, ds: seq<SpawnDraw>)
    requires 0 <= w.spawnTimer < SpawnRate
    ensures SpawnRun(w, ds).spawnTimer == (w.spawnTimer + |ds|) % SpawnRate
    ensures |SpawnRun(w, ds).objects| == |w.objects| + (w.spawnTimer + |ds|) / SpawnRate
    decreases |ds|
  {
    if ds != [] {
      SpawnCadence(w, ds[..|ds| - 1]);
    }
  }

  // ---------------------------------------------------------------------
  // The sweep over the falling tears

  /** What happens to a tear after it moved: caught takes precedence over off screen. */
  datatype Fate = Caught | Missed | Falling

  function FateOf(m: FallingObject, bx: int): Fate {
    if Overlaps(BucketBox(bx), m.Box()) then Caught
    else if m.OffScreen() then Missed
    else Falling
  }

  /**
   * The catch test comes first, yet no tear is both caught and off screen:
   * a tear touching the bucket is caught, every tear off screen is missed,
   * and no other tear is.
   */
  lemma FateOfCases(m: FallingObject, bx: int)
    ensures FateOf(m, bx) == Caught <==> Overlaps(BucketBox(bx), m.Box())
    ensures FateOf(m, bx) == Missed <==> m.OffScreen()
  {
    if Overlaps(BucketBox(bx), m.Box()) {
      CaughtIsOnScreen(bx, m);
    }
  }

  /** Lives fall to `lives`; the game ends when they are used up. */
  function LoseLife(w: World): (r: World)
    ensures r == w.(lives := w.lives - 1, state := r.state)
    ensures r.state == (if w.lives - 1 <= 0 then GameOver else w.state)
  {
    var l := w.lives - 1;
    w.(lives := l, state := if l <= 0 then GameOver else w.state)
  }

  /**
   * One turn of the loop over the snapshot in `update_game`, for tear o as it
   * was before the frame. A caught blue tear scores CatchScore, a caught red
   * tear costs a life; a missed blue tear costs a life and a missed red tear
   * nothing; a tear neither caught nor missed stays, moved.
   */
  function Resolve(w: World, o: FallingObject): (r: World)
    ensures r.spawnTimer == w.spawnTimer && r.bucketX == w.bucketX
    ensures var f := FateOf(o.Fall(), w.bucketX);
      && (f == Caught && !o.dangerous ==> r.score == w.score + CatchScore && r.lives == w.lives)
      && (f == Caught && o.dangerous ==> r.score == w.score && r.lives == w.lives - 1)
      && (f == Missed && !o.dangerous ==> r.score == w.score && r.lives == w.lives - 1)
      && (f == Missed && o.dangerous ==> r == w)
      && (f == Falling ==> r == w.(objects := w.objects + [o.Fall()]))
      && r.objects == w.objects + (if f == Falling then [o.Fall()] else [])
      && r.particles == w.particles +
        (if f != Caught then [] else if o.dangerous then Burst(HazardBurst, true) else Burst(CatchBurst, false))
    ensures r.state == (if r.lives < w.lives && r.lives <= 0 then GameOver else w.state)
  {
    var m := o.Fall();
    match FateOf(m, w.bucketX)
    case Caught =>
      if m.dangerous then
        LoseLife(w).(particles := w.particles + Burst(HazardBurst, true))
      else
        w.(score := w.score + CatchScore, particles := w.particles + Burst(CatchBurst, false))
    case Missed =>
      if m.dangerous then w else LoseLife(w)
    case Falling =>
      w.(objects := w.objects + [m])
  }

  /**
   * The whole loop over a snapshot, in list order. The screen stays or
   * becomes GameOver, lives never rise and the score never falls.
   */
  function Sweep(w: World, s: seq<FallingObject>): (r: World)
    ensures r.spawnTimer == w.spawnTimer && r.bucketX == w.bucketX
    ensures r.state == w.state || r.state == GameOver
    ensures r.lives <= w.lives && r.score >= w.score
    decreases |s|
  {
    if s == [] then w else Resolve(Sweep(w, s[..|s| - 1]), s[|s| - 1])
  }

  /** Sweeping one more tear of a snapshot resolves it against the world the others left. */
  lemma SweepNext(w: World, s: seq<FallingObject>, i: nat)
    requires i < |s|
    ensures Sweep(w, s[..i + 1]) == Resolve(Sweep(w, s[..i]), s[i])
  {
    assert s[..i + 1][..i] == s[..i];
  }

  /** How many tears of the snapshot meet fate f, split by danger. */
  function Count(s: seq<FallingObject>, bx: int, f: Fate, dangerous: bool): nat
    decreases |s|
  {
    if s == [] then 0
    else
      var o := s[|s| - 1];
      Count(s[..|s| - 1], bx, f, dangerous) +
        (if FateOf(o.Fall(), bx) == f && o.dangerous == dangerous then 1 else 0)
  }

  /** Lives a sweep costs: red tears caught plus blue tears missed. */
  function Losses(s: seq<FallingObject>, bx: int): nat {
    Count(s, bx, Caught, true) + Count(s, bx, Missed, false)
  }

  /** A tear as `update_game` may find it before moving it. */
  predicate Launched(o: FallingObject) {
    && ObjectSize / 2 <= o.x <= WindowWidth - ObjectSize / 2
    && -ObjectSize <= o.y <= WindowHeight + ObjectSize
    && o.speed == (if o.dangerous then DangerSpeed else ObjectSpeed)
    && (o.tint == DangerRed <==> o.dangerous)
  }

  /** A tear as a frame leaves it: already moved, and not off screen. */
  predicate InFlight(o: FallingObject) {
    Launched(o) && o.y > -ObjectSize
  }

  /** The moved tears the sweep keeps, in their original order. */
  function Kept(s: seq<FallingObject>, bx: int): (r: seq<FallingObject>)
    ensures |r| == Count(s, bx, Falling, true) + Count(s, bx, Falling, false)
    ensures (forall i :: 0 <= i < |s| ==> Launched(s[i])) ==>
      forall i :: 0 <= i < |r| ==> InFlight(r[i])
    decreases |s|
  {
    if s == [] then []
    else
      var o := s[|s| - 1];
      var m := o.Fall();
      assert forall i :: 0 <= i < |s| - 1 ==> s[..|s| - 1][i] == s[i];
      Kept(s[..|s| - 1], bx) + (if FateOf(m, bx) == Falling then [m] else [])
  }

  /** Each kept tear is a tear of the snapshot, moved, whose fate is Falling. */
  lemma {:induction false} KeptAreFalling(s: seq<FallingObject>, bx: int)
    ensures forall k :: k in Kept(s, bx) ==>
      FateOf(k, bx) == Falling && exists j :: 0 <= j < |s| && k == s[j].Fall()
    decreases |s|
  {
    if s != [] {
      var n := |s| - 1;
      KeptAreFalling(s[..n], bx);
      var before := Kept(s[..n], bx);
      forall k | k in before
        ensures exists j :: 0 <= j < |s| && k == s[j].Fall()
      {
        var j :| 0 <= j < n && k == s[..n][j].Fall();
        assert s[..n][j] == s[j];
      }
    }
  }

  /** Each tear of the snapshot whose fate, once moved, is Falling is kept. */
  lemma {:induction false} FallingAreKept(s: seq<FallingObject>, bx: int)
    ensures forall j :: 0 <= j < |s| && FateOf(s[j].Fall(), bx) == Falling ==> s[j].Fall() in Kept(s, bx)
    decreases |s|
  {
    if s != [] {
      var n := |s| - 1;
      FallingAreKept(s[..n], bx);
      assert forall j :: 0 <= j < n ==> s[..n][j] == s[j];
    }
  }

  /** The particle bursts of the catches, in order. */
  function Bursts(s: seq<FallingObject>, bx: int): (r: seq<Particle>)
    ensures |r| == HazardBurst * Count(s, bx, Caught, true) + CatchBurst * Count(s, bx, Caught, false)
    ensures forall i :: 0 <= i < |r| ==> r[i].life == ParticleLife
    decreases |s|
  {
    if s == [] then []
    else
      var o := s[|s| - 1];
      Bursts(s[..|s| - 1], bx) +
        (if FateOf(o.Fall(), bx) == Caught then
           (if o.dangerous then Burst(HazardBurst, true) else Burst(CatchBurst, false))
         else [])
  }

  /**
   * The sweep's tallies in closed form: CatchScore per blue tear caught, one
   * life per red tear caught or blue tear missed, and game over exactly when
   * a lost life left none.
   */
  lemma {:induction false} SweepCounts(w: World, s: seq<FallingObject>)
    ensures var r := Sweep(w, s); var bx := w.bucketX;
      && r.score == w.score + CatchScore * Count(s, bx, Caught, false)
      && r.lives == w.lives - Losses(s, bx)
      && (r.state == GameOver <==> (w.state == GameOver || (Losses(s, bx) > 0 && r.lives <= 0)))
    decreases |s|
  {
    if s != [] {
      var n := |s| - 1;
      SweepCounts(w, s[..n]);
      var before := Sweep(w, s[..n]);
      assert before.bucketX == w.bucketX;
    }
  }

  /** The sweep's lists in closed form: the surviving tears and the catches' bursts, appended in order. */
  lemma {:induction false} SweepLists(w: World, s: seq<FallingObject>)
    ensures var r := Sweep(w, s);
      && r.objects == w.objects + Kept(s, w.bucketX)
      && r.particles == w.particles + Bursts(s, w.bucketX)
    decreases |s|
  {
    if s != [] {
      var n := |s| - 1;
      SweepLists(w, s[..n]);
      var before := Sweep(w, s[..n]);
      assert before.bucketX == w.bucketX;
      assert Sweep(w, s).objects == w.objects + Kept(s, w.bucketX);
    }
  }

  /** Every tear of the snapshot is kept, caught or missed, and only one of these. */
  lemma {:induction false} EveryTearAccountedFor(s: seq<FallingObject>, bx: int)
    ensures |Kept(s, bx)| + Count(s, bx, Caught, true) + Count(s, bx, Caught, false)
      + Count(s, bx, Missed, true) + Count(s, bx, Missed, false) == |s|
    decreases |s|
  {
    if s != [] {
      EveryTearAccountedFor(s[..|s| - 1], bx);
    }
  }

  /**
   * The sweep on its own does not bound lives below: with one life left, a
   * red tear caught and a blue tear missed in the same frame leave -1. The
   * two heights used here are ones no tear released at -ObjectSize reaches;
   * in play, tears are released SpawnRate frames apart, so at most one life
   * is lost per frame. That bound is not proved here.
   */
  lemma LivesCanFallBelowZero()
    ensures var w := World(Playing, 0, 1, 0, [], [], BucketStartX);
      var red := NewObject(400, 550, true, SkyBlue);
      var blue := NewObject(100, 632, false, SkyBlue);
      var r := Sweep(w, [red, blue]);
      r.lives == -1 && r.state == GameOver
  {
    var w := World(Playing, 0, 1, 0, [], [], BucketStartX);
    var red := NewObject(400, 550, true, SkyBlue);
    var blue := NewObject(100, 632, false, SkyBlue);
    assert [red, blue][..1] == [red];
    assert [red][..0] == [];
    assert FateOf(red.Fall(), BucketStartX) == Caught;
    assert FateOf(blue.Fall(), BucketStartX) == Missed;
    var afterRed := Sweep(w, [red]);
    assert Sweep(w, []) == w;
    assert afterRed == Resolve(Sweep(w, [red][..0]), red);
    assert afterRed.lives == 0 && afterRed.state == GameOver;
    assert Sweep(w, [red, blue]) == Resolve(afterRed, blue);
  }

  // ---------------------------------------------------------------------
  // One call of update_game, one pass of the main loop

  /**
   * `update_game`: steer, spawn, then sweep a snapshot of the tears. The
   * bucket follows the held keys, the timer counts one frame modulo
   * SpawnRate, the screen stays or becomes GameOver, lives never rise and
   * the score never falls.
   */
  function Update(w: World, keys: Keys, d: SpawnDraw): (r: World)
    ensures r.bucketX == Steer(w.bucketX, keys)
    ensures 0 <= w.spawnTimer < SpawnRate ==> r.spawnTimer == (w.spawnTimer + 1) % SpawnRate
    ensures r.state == w.state || r.state == GameOver
    ensures r.lives <= w.lives && r.score >= w.score
  {
    var steered := w.(bucketX := Steer(w.bucketX, keys));
    var spawned := SpawnStep(steered, d);
    Sweep(spawned.(objects := []), spawned.objects)
  }

  /**
   * The event part of a frame: the screen moves and the game may be reset.
   * Either only the screen changed, or the game was reset into play; while
   * playing, events change nothing.
   */
  function Routed(w: World, events: seq<Event>, mouse: Point): (r: World)
    ensures r.state == RouteAll(w.state, events, mouse).next
    ensures r == w.(state := r.state) || r == Reset(w).(state := Playing)
    ensures w.state == Playing ==> r == w
  {
    var r := RouteAll(w.state, events, mouse);
    (if r.reset then Reset(w) else w).(state := r.next)
  }

  /**
   * One pass of the main loop: events, then `update_game` while playing,
   * then the particle pass of `draw_game_screen`, which runs on the play and
   * game-over screens. The frame ends on the screen the events led to, or
   * on the game-over screen when play was lost; on the welcome screen
   * nothing changes.
   */
  function FrameWorld(w: World, events: seq<Event>, mouse: Point, keys: Keys, d: SpawnDraw): (r: World)
    ensures var s := RouteAll(w.state, events, mouse).next;
      r.state == s || (s == Playing && r.state == GameOver)
    ensures r.state == Welcome ==> r == w
  {
    var routed := Routed(w, events, mouse);
    var updated := if routed.state == Playing then Update(routed, keys, d) else routed;
    if updated.state != Welcome then updated.(particles := Prune(updated.particles)) else updated
  }

  /**
   * Whether the main loop goes round again after this frame: never after a
   * QUIT, and away from the game-over screen exactly when there was none.
   */
  predicate KeepsRunning(w: World, events: seq<Event>, mouse: Point)
    ensures KeepsRunning(w, events, mouse) ==> Quit !in events
    ensures w.state != GameOver ==> (KeepsRunning(w, events, mouse) <==> Quit !in events)
  {
    !RouteAll(w.state, events, mouse).stop
  }

  /** The inputs one pass of the main loop reads. */
  datatype FrameInput = FrameInput(events: seq<Event>, mouse: Point, keys: Keys, draw: SpawnDraw)

  /** The world after the first n frames of a script, one FrameWorld each, in order. */
  function Played(w: World, frames: seq<FrameInput>, n: nat): World
    requires n <= |frames|
    decreases n
  {
    if n == 0 then w
    else
      var f := frames[n - 1];
      FrameWorld(Played(w, frames, n - 1), f.events, f.mouse, f.keys, f.draw)
  }

  /** Each of the first n frames of a script, played in order, kept the main loop running. */
  ghost predicate RunningThrough(w: World, frames: seq<FrameInput>, n: nat)
    requires n <= |frames|
  {
    forall i :: 0 <= i < n ==> KeepsRunning(Played(w, frames, i), frames[i].events, frames[i].mouse)
  }

  /** No frame that kept the loop running held a QUIT event. */
  lemma RunningHadNoQuit(w: World, frames: seq<FrameInput>, n: nat)
    requires n <= |frames| && RunningThrough(w, frames, n)
    ensures forall i :: 0 <= i < n ==> Quit !in frames[i].events
  {
    forall i | 0 <= i < n
      ensures Quit !in frames[i].events
    {
      assert KeepsRunning(Played(w, frames, i), frames[i].events, frames[i].mouse);
    }
  }

  // ---------------------------------------------------------------------
  // What holds between frames

  predicate AllLaunched(s: seq<FallingObject>) {
    forall i :: 0 <= i < |s| ==> Launched(s[i])
  }

  predicate AllInFlight(s: seq<FallingObject>) {
    forall i :: 0 <= i < |s| ==> InFlight(s[i])
  }

  /** Everything that holds between frames except the particles' ages. */
  predicate Core(w: World) {
    && Reachable(w.bucketX)
    && 0 <= w.spawnTimer < SpawnRate
    && 0 <= w.score && w.score % CatchScore == 0
    && w.lives <= MaxLives
    && (w.state == Playing ==> 0 < w.lives)
    && (w.state == GameOver ==> w.lives <= 0)
    && (w.state == Welcome ==> w == InitialWorld)
    && AllInFlight(w.objects)
  }

  /** The invariant of the main loop. */
  predicate Inv(w: World) {
    Core(w) && LivesWithin(w.particles, ParticleLife - 1)
  }

  lemma InitialInv()
    ensures Inv(InitialWorld)
  {
  }

  /**
   * One `update_game` from a playing state: the game is over exactly when no
   * lives are left, and otherwise still playing; the score moves only by
   * CatchScore per blue catch and lives only by one per loss.
   */
  lemma UpdateOutcome(w: World, keys: Keys, d: SpawnDraw)
    requires w.state == Playing && 0 < w.lives
    ensures var r := Update(w, keys, d);
      && (r.state == Playing || r.state == GameOver)
      && (r.state == GameOver <==> r.lives <= 0)
      && r.score >= w.score && (r.score - w.score) % CatchScore == 0
      && r.lives <= w.lives
  {
    var steered := w.(bucketX := Steer(w.bucketX, keys));
    var spawned := SpawnStep(steered, d);
    SweepCounts(spawned.(objects := []), spawned.objects);
  }

  /** The held keys keep the bucket on its reachable grid. */
  lemma SteerReachable(x: int, keys: Keys)
    requires Reachable(x)
    ensures Reachable(Steer(x, keys))
  {
    ReachableClosed(x);
    if keys.left { ReachableClosed(LeftStep(x)); }
  }

  /** A spawn from a valid draw appends a tear as launched as the ones in flight. */
  lemma SpawnLaunched(w: World, d: SpawnDraw)
    requires AllInFlight(w.objects) && ValidDraw(d)
    ensures AllLaunched(SpawnStep(w, d).objects)
  {
    var r := SpawnStep(w, d);
    forall i | 0 <= i < |r.objects|
      ensures Launched(r.objects[i])
    {
      if i < |w.objects| {
        assert r.objects[i] == w.objects[i];
      }
    }
  }

  /** Fresh particles of full life keep the ages within ParticleLife. */
  lemma AppendFresh(ps: seq<Particle>, born: seq<Particle>)
    requires LivesWithin(ps, ParticleLife)
    requires forall i :: 0 <= i < |born| ==> born[i].life == ParticleLife
    ensures LivesWithin(ps + born, ParticleLife)
  {
    forall i | 0 <= i < |ps + born|
      ensures 0 < (ps + born)[i].life <= ParticleLife
    {
      if i >= |ps| {
        assert (ps + born)[i] == born[i - |ps|];
      }
    }
  }

  lemma ScoreStaysMultiple(score: int, n: int)
    requires score % CatchScore == 0
    ensures (score + CatchScore * n) % CatchScore == 0
  {
    assert score + CatchScore * n == CatchScore * (score / CatchScore + n);
  }

  /** `update_game` from a playing state keeps everything but the particle ages. */
  lemma UpdateKeepsCore(w: World, keys: Keys, d: SpawnDraw)
    requires Core(w) && w.state == Playing && ValidDraw(d)
    requires LivesWithin(w.particles, ParticleLife)
    ensures Core(Update(w, keys, d)) && LivesWithin(Update(w, keys, d).particles, ParticleLife)
  {
    SteerReachable(w.bucketX, keys);
    var steered := w.(bucketX := Steer(w.bucketX, keys));
    var spawned := SpawnStep(steered, d);
    SpawnLaunched(steered, d);
    var start := spawned.(objects := []);
    var r := Sweep(start, spawned.objects);
    assert r == Update(w, keys, d);
    SweepCounts(start, spawned.objects);
    SweepLists(start, spawned.objects);
    UpdateOutcome(w, keys, d);
    assert r.objects == Kept(spawned.objects, spawned.bucketX);
    assert AllInFlight(r.objects);
    var caught := Count(spawned.objects, spawned.bucketX, Caught, false);
    assert r.score == w.score + CatchScore * caught;
    ScoreStaysMultiple(w.score, caught);
    AppendFresh(w.particles, Bursts(spawned.objects, spawned.bucketX));
  }

  /** The invariant holds again after every pass of the main loop. */
  lemma FrameKeepsInv(w: World, events: seq<Event>, mouse: Point, keys: Keys, d: SpawnDraw)
    requires Inv(w) && ValidDraw(d)
    ensures Inv(FrameWorld(w, events, mouse, keys, d))
  {
    var route := RouteAll(w.state, events, mouse);
    var routed := Routed(w, events, mouse);
    assert !route.reset ==> routed == w;
    assert Core(routed) && LivesWithin(routed.particles, ParticleLife);
    var updated := if routed.state == Playing then Update(routed, keys, d) else routed;
    if routed.state == Playing {
      UpdateKeepsCore(routed, keys, d);
      UpdateOutcome(routed, keys, d);
    }
    assert Core(updated) && LivesWithin(updated.particles, ParticleLife);
    if updated.state != Welcome {
      PruneAges(updated.particles, ParticleLife);
    }
  }

  /** Any run of frames with draws in range keeps the invariant. */
  lemma {:induction false} PlayedKeepsInv(w: World, frames: seq<FrameInput>, n: nat)
    requires n <= |frames| && Inv(w)
    requires forall i :: 0 <= i < |frames| ==> ValidDraw(frames[i].draw)
    ensures Inv(Played(w, frames, n))
    decreases n
  {
    if n > 0 {
      var f := frames[n - 1];
      PlayedKeepsInv(w, frames, n - 1);
      FrameKeepsInv(Played(w, frames, n - 1), f.events, f.mouse, f.keys, f.draw);
    }
  }

  /** Every entry into play goes through `reset_game`. */
  lemma EnteringPlayResets(w: World, events: seq<Event>, mouse: Point)
    requires w.state != Playing && Routed(w, events, mouse).state == Playing
    ensures Routed(w, events, mouse) == Reset(w).(state := Playing)
    ensures exists i :: 0 <= i < |events| && Starts(events[i])
  {
  }

  /**
   * The game-over screen is left only through a restart: without a click or
   * a start key nothing but the particles' ages changes.
   */
  lemma GameOverHolds(w: World, events: seq<Event>, mouse: Point, keys: Keys, d: SpawnDraw)
    requires w.state == GameOver
    requires forall i :: 0 <= i < |events| ==> !Starts(events[i])
    ensures FrameWorld(w, events, mouse, keys, d) == w.(particles := Prune(w.particles))
  {
  }
}
