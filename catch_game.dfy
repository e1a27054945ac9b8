/**
 * The `Game` object of catch_game.py: the fields it updates in place, the
 * methods that update them, and the main loop of `Game.run` with drawing,
 * sound and pygame's event queue replaced by explicit inputs. Every method
 * is proved to follow the value-level rules of module Rules.
 */
module CatchGame {
  import opened Geometry
  import opened Entities
  import opened Screens
  import opened Rules

  /**
   * The in-place list edit of the snapshot loops. The live list holds the
   * entries kept so far followed by the unvisited part of the snapshot; the
   * visited entry, at index |done|, is overwritten and then kept or removed.
   */
  lemma EditInPlace<T>(done: seq<T>, snapshot: seq<T>, i: nat, live: seq<T>, x: T)
    requires i < |snapshot| && live == done + snapshot[i..]
    ensures |live| - (|snapshot| - i) == |done|
    ensures live[|done| := x] == done + [x] + snapshot[i + 1..]
    ensures var edited := live[|done| := x];
      edited[..|done|] + edited[|done| + 1..] == done + snapshot[i + 1..]
  {
    var edited := live[|done| := x];
    assert edited == done + [x] + snapshot[i + 1..];
    assert edited[..|done|] == done;
    assert edited[|done| + 1..] == snapshot[i + 1..];
  }

  /**
   * The loop of `update_game` over a snapshot of the tears: move each one,
   * and remove it from the live list when it is caught by `box` or off
   * screen, scoring, losing lives and adding particles on the way. It works
   * on copies of the game's fields, returned as the screen, score, lives,
   * particles and live tears after the loop.
   */
  method SweepTears(start: World, snapshot: seq<FallingObject>, box: Rect)
      returns (st: Screen, sc: int, lv: int, ps: seq<Particle>, live: seq<FallingObject>)
    requires start.objects == [] && box == BucketBox(start.bucketX)
    ensures World(st, sc, lv, start.spawnTimer, live, ps, start.bucketX) == Sweep(start, snapshot)
  {
    live, st, sc, lv, ps := snapshot, start.state, start.score, start.lives, start.particles;
    var i := 0;
    while i < |snapshot|
      invariant 0 <= i <= |snapshot|
      invariant var done := Sweep(start, snapshot[..i]);
        && st == done.state && sc == done.score && lv == done.lives
        && ps == done.particles && live == done.objects + snapshot[i..]
    {
      ghost var done := Sweep(start, snapshot[..i]);
      SweepNext(start, snapshot, i);
      // the tear's place in the live list: after the ones kept so far
      var k := |live| - (|snapshot| - i);
      var obj := snapshot[i].Fall();
      EditInPlace(done.objects, snapshot, i, live, obj);
      live := live[k := obj];
      if Overlaps(box, obj.Box()) {
        live := live[..k] + live[k + 1..];
        if obj.dangerous {
          lv := lv - 1;
          ps := ps + Burst(HazardBurst, true);
          if lv <= 0 {
            st := GameOver;
          }
        } else {
          sc := sc + CatchScore;
          ps := ps + Burst(CatchBurst, false);
        }
      } else if obj.OffScreen() {
        live := live[..k] + live[k + 1..];
        if !obj.dangerous {
          lv := lv - 1;
          if lv <= 0 {
            st := GameOver;
          }
        }
      }
      i := i + 1;
    }
    assert snapshot[..|snapshot|] == snapshot;
  }

  /**
   * The particle loop of `draw_game_screen` over a snapshot: age each
   * particle and remove it from the live list once it is dead.
   */
  method PruneLive(snapshot: seq<Particle>) returns (live: seq<Particle>)
    ensures live == Prune(snapshot)
  {
    live := snapshot;
    var i := 0;
    while i < |snapshot|
      invariant 0 <= i <= |snapshot|
      invariant live == Prune(snapshot[..i]) + snapshot[i..]
    {
      // the particle's place in the live list: after the ones kept so far
      var k := |live| - (|snapshot| - i);
      var p := snapshot[i].Tick();
      EditInPlace(Prune(snapshot[..i]), snapshot, i, live, p);
      live := live[k := p];
      if !p.IsAlive() {
        live := live[..k] + live[k + 1..];
      }
      PruneNext(snapshot, i);
      i := i + 1;
    }
    assert snapshot[..|snapshot|] == snapshot;
  }

  class Game {
    var state: Screen
    var score: int
    var lives: int
    var spawnTimer: int
    var objects: seq<FallingObject>
    var particles: seq<Particle>
    const bucket: Bucket
    const startButton: Button
    const restartButton: Button
    const quitButton: Button

    /** The fixed layout: the bucket's row, the buttons' places, and three distinct buttons. */
    ghost predicate Valid()
      reads this
    {
      && bucket.y == BucketTop
      && startButton.rect == StartRect
      && restartButton.rect == RestartRect
      && quitButton.rect == QuitRect
      && startButton != restartButton && startButton != quitButton && restartButton != quitButton
    }

    /** The gameplay state as a value. */
    function Abs(): World
      reads this, bucket
    {
      World(state, score, lives, spawnTimer, objects, particles, bucket.x)
    }

    /** `Game.__init__`, without the window, fonts and sounds. */
    constructor ()
      ensures Valid() && Abs() == InitialWorld && Inv(Abs())
      ensures fresh(bucket) && fresh(startButton) && fresh(restartButton) && fresh(quitButton)
      ensures !startButton.hovered && !restartButton.hovered && !quitButton.hovered
    {
      state := Welcome;
      bucket := new Bucket(BucketStartX, BucketTop);
      objects := [];
      particles := [];
      score := 0;
      lives := MaxLives;
      spawnTimer := 0;
      startButton := new Button(StartRect);
      restartButton := new Button(RestartRect);
      quitButton := new Button(QuitRect);
      new;
      InitialInv();
    }

    /** `reset_game`. */
    method ResetGame()
      requires Valid()
      modifies this, bucket
      ensures Valid()
      ensures Abs() == Reset(old(Abs()))
    {
      score := 0;
      lives := MaxLives;
      objects := [];
      particles := [];
      spawnTimer := 0;
      bucket.x := BucketStartX;
    }

    /**
     * `update_game`: move the bucket for the held keys, advance the spawn
     * timer, then walk a snapshot of the tears, moving each and removing it
     * from the live list when it is caught or off screen.
     */
    method UpdateGame(keys: Keys, draw: SpawnDraw)
      requires Valid()
      modifies this, bucket
      ensures Valid()
      ensures Abs() == Update(old(Abs()), keys, draw)
    {
      ghost var w0 := Abs();
      if keys.left {
        bucket.MoveLeft();
      }
      if keys.right {
        bucket.MoveRight();
      }
      ghost var steered := w0.(bucketX := Steer(w0.bucketX, keys));
      assert Abs() == steered;

      spawnTimer := spawnTimer + 1;
      if spawnTimer >= SpawnRate {
        spawnTimer := 0;
        var x := draw.x;
        var isDangerous := draw.roll <= DangerChance;
        objects := objects + [NewObject(x, -ObjectSize, isDangerous, draw.blue)];
      }
      ghost var spawned := SpawnStep(steered, draw);
      assert Abs() == spawned;

      state, score, lives, particles, objects :=
        SweepTears(Abs().(objects := []), objects, bucket.Box());
    }

    /**
     * The particle pass of `draw_game_screen`: walk a snapshot, age each
     * particle, and remove it from the live list once it is dead.
     */
    method PruneParticles()
      modifies this
      ensures Abs() == old(Abs()).(particles := Prune(old(particles)))
    {
      particles := PruneLive(particles);
    }

    /**
     * The event loop of one frame in `Game.run`. Mouse presses test the
     * buttons against `mouse`, the pointer position read at the start of the
     * frame. Returns whether a QUIT event or the quit button asked to stop.
     */
    method HandleEvents(events: seq<Event>, mouse: Point) returns (quit: bool)
      requires Valid()
      modifies this, bucket
      ensures Valid()
      ensures Abs() == Routed(old(Abs()), events, mouse)
      ensures quit == RouteAll(old(state), events, mouse).stop
    {
      ghost var w0 := Abs();
      quit := false;
      var i := 0;
      while i < |events|
        invariant 0 <= i <= |events|
        invariant Valid()
        invariant var r := RouteAll(w0.state, events[..i], mouse);
          && quit == r.stop
          && Abs() == (if r.reset then Reset(w0) else w0).(state := r.next)
      {
        assert events[..i + 1][..i] == events[..i];
        match events[i] {
          case Quit =>
          quit := true;
        case MouseDown =>
          if state == Welcome {
            if startButton.IsClicked(mouse) {
              state := Playing;
              ResetGame();
            }
          } else if state == GameOver {
            if restartButton.IsClicked(mouse) {
              state := Playing;
              ResetGame();
            } else if quitButton.IsClicked(mouse) {
              quit := true;
            }
          }
        case KeyDown(key) =>
          if key == Space && state == Welcome {
            state := Playing;
            ResetGame();
          } else if key == R && state == GameOver {
            state := Playing;
            ResetGame();
          }
        }
        i := i + 1;
      }
      assert events[..|events|] == events;
    }

    /**
     * One pass of the main loop: events, hover highlighting for the screen's
     * buttons, `update_game` while playing, and the particle pass of the
     * drawing on the play and game-over screens. Returns whether the loop
     * goes round again.
     */
    method Frame(events: seq<Event>, mouse: Point, keys: Keys, draw: SpawnDraw) returns (running: bool)
      requires Valid()
      modifies this, bucket, startButton, restartButton, quitButton
      ensures Valid()
      ensures Abs() == FrameWorld(old(Abs()), events, mouse, keys, draw)
      ensures running == KeepsRunning(old(Abs()), events, mouse)
      ensures var s := RouteAll(old(state), events, mouse).next;
        && startButton.hovered == (if s == Welcome then startButton.IsClicked(mouse) else old(startButton.hovered))
        && restartButton.hovered == (if s == GameOver then restartButton.IsClicked(mouse) else old(restartButton.hovered))
        && quitButton.hovered == (if s == GameOver then quitButton.IsClicked(mouse) else old(quitButton.hovered))
    {
      var quit := HandleEvents(events, mouse);
      running := !quit;

      if state == Welcome {
        startButton.UpdateHover(mouse);
      } else if state == GameOver {
        restartButton.UpdateHover(mouse);
        quitButton.UpdateHover(mouse);
      }

      if state == Playing {
        UpdateGame(keys, draw);
      }

      if state != Welcome {
        PruneParticles();
      }
    }

    /**
     * `Game.run` over a finite script of frame inputs: frames are played
     * while the loop keeps running, and `running` is the loop's flag when it
     * ends. Every frame played but the last kept the loop running; the loop
     * ends on the first frame that stops it, or when the script runs out.
     * The state is the script's frames played in order, and the invariant of
     * Rules holds after every frame.
     */
    method Run(script: seq<FrameInput>) returns (played: nat, running: bool)
      requires Valid() && Inv(Abs())
      requires forall i :: 0 <= i < |script| ==> ValidDraw(script[i].draw)
      modifies this, bucket, startButton, restartButton, quitButton
      ensures Valid() && Inv(Abs())
      ensures played <= |script| && (running ==> played == |script|)
      ensures Abs() == Played(old(Abs()), script, played)
      ensures running ==> RunningThrough(old(Abs()), script, played)
      ensures !running ==>
        && 0 < played
        && RunningThrough(old(Abs()), script, played - 1)
        && !KeepsRunning(Played(old(Abs()), script, played - 1), script[played - 1].events, script[played - 1].mouse)
      ensures forall i :: 0 <= i < played - 1 ==> Quit !in script[i].events
    {
      ghost var w0 := Abs();
      played := 0;
      running := true;
      while running && played < |script|
        invariant Valid()
        invariant played <= |script|
        invariant Abs() == Played(w0, script, played)
        invariant running ==> RunningThrough(w0, script, played)
        invariant !running ==>
          && 0 < played
          && RunningThrough(w0, script, played - 1)
          && !KeepsRunning(Played(w0, script, played - 1), script[played - 1].events, script[played - 1].mouse)
        decreases |script| - played, running
      {
        var input := script[played];
        running := Frame(input.events, input.mouse, input.keys, input.draw);
        if running {
          assert RunningThrough(w0, script, played + 1);
        }
        played := played + 1;
      }
      if !running {
        RunningHadNoQuit(w0, script, played - 1);
      } else {
        RunningHadNoQuit(w0, script, played);
      }
      PlayedKeepsInv(w0, script, played);
    }
  }
}
