/**
 * The screens of the game and how polled events move between them: the main menu, a play
 * session, and the end of the process.
 */
module Screens {

  datatype Key = Return | Escape | OtherKey
  /** A polled event: the window's close button, a key press, or anything else. */
  datatype Event = WindowClose | KeyDown(key: Key) | OtherEvent
  datatype Screen = Menu | Playing | Exit

  /** Events that end the main menu's wait: closing the window, ENTER or ESC. */
  predicate Decides(e: Event) {
    e == WindowClose || e == KeyDown(Return) || e == KeyDown(Escape)
  }

  /** None of the first n events decides the menu. */
  predicate UndecidedFor(events: seq<Event>, n: nat)
    requires n <= |events|
  {
    forall j :: 0 <= j < n ==> !Decides(events[j])
  }

  /**
   * One poll of the main menu: the events are handled in order and the first deciding one
   * wins; ENTER starts a session, ESC or closing the window ends the process, and without a
   * deciding event the menu is shown again.
   */
  function MenuPoll(events: seq<Event>): (r: Screen)
    ensures r == Menu <==> UndecidedFor(events, |events|)
    ensures r == Playing <==>
      exists i :: 0 <= i < |events| && events[i] == KeyDown(Return) && UndecidedFor(events, i)
    ensures r == Exit <==>
      exists i :: 0 <= i < |events| && (events[i] == WindowClose || events[i] == KeyDown(Escape)) &&
        UndecidedFor(events, i)
  {
    if events == [] then Menu
    else match events[0]
      case WindowClose => Exit
      case KeyDown(Return) => Playing
      case KeyDown(Escape) => Exit
      case _ => MenuPoll(events[1..])
  }

  /**
   * One frame of a play session: closing the window ends the process whatever else happened;
   * otherwise the session returns to the menu when the frame crashed and continues if not.
   * No key ends a session.
   */
  function PlayingPoll(events: seq<Event>, crashed: bool): (r: Screen)
    ensures r == Exit <==> WindowClose in events
    ensures r == Menu <==> WindowClose !in events && crashed
  {
    if events == [] then (if crashed then Menu else Playing)
    else if events[0] == WindowClose then Exit
    else PlayingPoll(events[1..], crashed)
  }

  /** The screen after one poll; crashed says whether the frame played on this poll crashed. */
  function Next(screen: Screen, events: seq<Event>, crashed: bool): (r: Screen)
    ensures screen == Exit ==> r == Exit
    ensures screen == Menu && r == Playing ==> KeyDown(Return) in events
    ensures screen == Playing && r == Menu ==> crashed
    ensures screen == Playing ==> (r == Exit <==> WindowClose in events)
  {
    match screen
    case Menu => MenuPoll(events)
    case Playing => PlayingPoll(events, crashed)
    case Exit => Exit
  }
}
