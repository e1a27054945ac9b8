/**
 * The screen state machine of `Game.run`: how each input event moves the
 * game between the welcome screen, play and the game-over screen, when it
 * asks for `reset_game`, and when it ends the main loop.
 */
module Screens {
  import opened Geometry
  import opened Entities

  datatype Screen = Welcome | Playing | GameOver

  /** The keys the event loop tells apart. */
  datatype Key = Space | R | OtherKey

  /**
   * One pygame event. A mouse press carries no position of its own: the loop
   * tests the buttons against the pointer position read once per frame.
   * Every event type the loop ignores (key releases, mouse motion, window
   * events and the rest) is routed like `KeyDown(OtherKey)`: through no branch.
   */
  datatype Event = Quit | MouseDown | KeyDown(key: Key)

  /** What one event, or a frame's events, did: the new screen, whether the game was reset, whether the loop stops. */
  datatype Route = Route(next: Screen, reset: bool, stop: bool)

  // The three buttons, as `Game.__init__` places them.
  const StartRect := Rect(WindowWidth / 2 - 120, WindowHeight / 2 + 120, 240, 70)
  const RestartRect := Rect(WindowWidth / 2 - 120, WindowHeight / 2 + 50, 240, 70)
  const QuitRect := Rect(WindowWidth / 2 - 120, WindowHeight / 2 + 140, 240, 70)

  /** The restart and quit buttons never share a point, so their `elif` order never matters. */
  lemma GameOverButtonsDisjoint(p: Point)
    ensures !(Contains(RestartRect, p) && Contains(QuitRect, p))
  {
  }

  /** An event that can start or restart a game. */
  predicate Starts(e: Event) {
    e == MouseDown || e == KeyDown(Space) || e == KeyDown(R)
  }

  /**
   * An event that takes screen s into play: SPACE or a click on the start
   * button on the welcome screen, R or a click on the restart button on the
   * game-over screen.
   */
  predicate Enters(s: Screen, e: Event, mouse: Point) {
    || (s == Welcome && (e == KeyDown(Space) || (e == MouseDown && Contains(StartRect, mouse))))
    || (s == GameOver && (e == KeyDown(R) || (e == MouseDown && Contains(RestartRect, mouse))))
  }

  /**
   * The routing of one event in `Game.run`. SPACE and a start click act only
   * on the welcome screen; R and the restart and quit clicks only on the
   * game-over screen; a QUIT event stops the loop on any screen.
   */
  function Transition(s: Screen, e: Event, mouse: Point): (r: Route)
    ensures r.next == s || r.next == Playing
    ensures r.reset <==> (s != Playing && r.next == Playing)
    ensures r.stop ==> r.next == s
    ensures r.stop <==> (e == Quit || (e == MouseDown && s == GameOver && Contains(QuitRect, mouse)))
    ensures r.next != s ==> Starts(e)
    ensures r.next == Playing <==> s == Playing || Enters(s, e, mouse)
  {
    match e
    case Quit => Route(s, false, true)
    case MouseDown =>
      if s == Welcome && Contains(StartRect, mouse) then Route(Playing, true, false)
      else if s == GameOver && Contains(RestartRect, mouse) then Route(Playing, true, false)
      else if s == GameOver && Contains(QuitRect, mouse) then Route(s, false, true)
      else Route(s, false, false)
    case KeyDown(k) =>
      if k == Space && s == Welcome then Route(Playing, true, false)
      else if k == R && s == GameOver then Route(Playing, true, false)
      else Route(s, false, false)
  }

  /**
   * All of a frame's events, in order. The loop keeps reading events after a
   * quit, so later events still move the screen; a stop is never undone.
   * Away from play, the frame enters play exactly when one of its events
   * enters play from the screen it started on. The loop stops exactly on a
   * QUIT, or on the game-over screen with the pointer on the quit button,
   * on a click that comes before any R.
   */
  function RouteAll(s: Screen, events: seq<Event>, mouse: Point): (r: Route)
    ensures r.next == s || r.next == Playing
    ensures r.reset <==> (s != Playing && r.next == Playing)
    ensures r.next != s ==> exists i :: 0 <= i < |events| && Starts(events[i])
    ensures s != Playing ==>
      (r.next == Playing <==> exists i :: 0 <= i < |events| && Enters(s, events[i], mouse))
    ensures r.stop <==>
      || Quit in events
      || (&& s == GameOver && Contains(QuitRect, mouse)
          && exists i :: 0 <= i < |events| && events[i] == MouseDown && KeyDown(R) !in events[..i])
    decreases |events|
  {
    if events == [] then Route(s, false, false)
    else
      var n := |events| - 1;
      var before := RouteAll(s, events[..n], mouse);
      var t := Transition(before.next, events[n], mouse);
      assert events == events[..n] + [events[n]];
      assert forall i :: 0 <= i < n ==> events[..n][i] == events[i] && events[..n][..i] == events[..i];
      GameOverButtonsDisjoint(mouse);
      Route(t.next, before.reset || t.reset, before.stop || t.stop)
  }

  /** Once play has started, no event of the frame leaves it. */
  lemma {:induction false} PlayingStaysPlaying(events: seq<Event>, mouse: Point)
    ensures RouteAll(Playing, events, mouse) == Route(Playing, false, Quit in events)
    decreases |events|
  {
    if events != [] {
      var n := |events| - 1;
      PlayingStaysPlaying(events[..n], mouse);
      assert events == events[..n] + [events[n]];
    }
  }
}
