/**
 * `CrosshairOverlay`: a HUD crosshair that sits at the screen centre while the pointer is
 * locked and otherwise follows the last cursor position, plus a frame counter that forces
 * re-renders. Whether the document holds pointer lock, and the window size, are inputs to
 * each handler: the handlers read them from the document and window at the time of the event.
 */
module Crosshair {

  /** The counter wraps after this many frames. */
  const TickModulus: nat := 1000000

  /** The tracked cursor position, `posRef.current`. */
  datatype Point = Point(x: real, y: real)

  function Centre(innerWidth: real, innerHeight: real): Point
  {
    Point(innerWidth / 2.0, innerHeight / 2.0)
  }

  /** The overlay's state: the `locked` flag and the tracked position. */
  datatype View = View(locked: bool, pos: Point)

  /** The handler inputs, one per listened event. */
  datatype Event =
    | LockChange(documentLocked: bool, innerWidth: real, innerHeight: real)
    | MouseMove(documentLocked: bool, clientX: real, clientY: real)
    | Resize(documentLocked: bool, innerWidth: real, innerHeight: real)

  /** What one event does to the state. */
  function Apply(s: View, e: Event): (r: View)
    ensures e.LockChange? ==> r.locked == e.documentLocked
    ensures !e.LockChange? ==> r.locked == s.locked
  {
    match e
    case LockChange(l, w, h) => View(l, if l then Centre(w, h) else s.pos)
    case MouseMove(l, x, y) => if l then s else s.(pos := Point(x, y))
    case Resize(l, w, h) => if l then s.(pos := Centre(w, h)) else s
  }

  /** The state after a series of events, in order. */
  function Run(s: View, events: seq<Event>): View
    decreases |events|
  {
    if events == [] then s else Run(Apply(s, events[0]), events[1..])
  }

  /** The three handlers, case by case. */
  lemma HandlerCases(s: View, a: real, b: real)
    ensures Apply(s, LockChange(true, a, b)) == View(true, Centre(a, b))
    ensures Apply(s, LockChange(false, a, b)) == View(false, s.pos)
    ensures Apply(s, MouseMove(true, a, b)) == s
    ensures Apply(s, MouseMove(false, a, b)) == View(s.locked, Point(a, b))
    ensures Apply(s, Resize(true, a, b)) == s.(pos := Centre(a, b))
    ensures Apply(s, Resize(false, a, b)) == s
  {
  }

  predicate AllLockedMoves(events: seq<Event>)
  {
    forall i :: 0 <= i < |events| ==> events[i].MouseMove? && events[i].documentLocked
  }

  /** However the mouse moves while the document holds the lock, the state does not change. */
  lemma {:induction false} LockedMovesIgnored(s: View, events: seq<Event>)
    requires AllLockedMoves(events)
    ensures Run(s, events) == s
    decreases |events|
  {
    if events != [] {
      assert Apply(s, events[0]) == s;
      assert AllLockedMoves(events[1..]) by {
        forall i | 0 <= i < |events[1..]|
          ensures events[1..][i].MouseMove? && events[1..][i].documentLocked
        {
          assert events[1..][i] == events[i + 1];
        }
      }
      LockedMovesIgnored(s, events[1..]);
    }
  }

  /** A CSS length: a percentage or a pixel count. */
  datatype CssLength = Percent(p: real) | Px(v: real)

  /** The `left` and `top` the crosshair is drawn at. */
  function Rendered(s: View): (CssLength, CssLength)
  {
    if s.locked then (Percent(50.0), Percent(50.0)) else (Px(s.pos.x), Px(s.pos.y))
  }

  /**
   * After a lock change that locks, the crosshair is drawn at the centre, and after an
   * unlocked mouse move it is drawn at that cursor.
   */
  lemma RenderedPosition(s: View, a: real, b: real)
    ensures Rendered(Apply(s, LockChange(true, a, b))) == (Percent(50.0), Percent(50.0))
    ensures !s.locked ==> Rendered(Apply(s, MouseMove(false, a, b))) == (Px(a), Px(b))
  {
  }

  predicate NoLockChange(events: seq<Event>)
  {
    forall i :: 0 <= i < |events| ==> !events[i].LockChange?
  }

  /**
   * Once a lock change has locked the overlay, it is drawn at the centre through any mouse
   * moves and resizes until the next lock change, whatever the tracked position does.
   */
  lemma {:induction false} LockedStaysCentred(s: View, events: seq<Event>)
    requires s.locked && NoLockChange(events)
    ensures Run(s, events).locked
    ensures Rendered(Run(s, events)) == (Percent(50.0), Percent(50.0))
    decreases |events|
  {
    if events != [] {
      assert !events[0].LockChange?;
      assert NoLockChange(events[1..]) by {
        forall i | 0 <= i < |events[1..]|
          ensures !events[1..][i].LockChange?
        {
          assert events[1..][i] == events[i + 1];
        }
      }
      LockedStaysCentred(Apply(s, events[0]), events[1..]);
    }
  }

  /** `(t + 1) % 1000000`. */
  function NextTick(t: nat): (r: nat)
    ensures r < TickModulus
    ensures t + 1 < TickModulus ==> r == t + 1
    ensures t + 1 == TickModulus ==> r == 0
  {
    (t + 1) % TickModulus
  }

  /** Starting from 0, the counter counts every frame modulo 1000000 and never leaves [0, 1000000). */
  lemma {:induction false} TickCount(n: nat)
    ensures Ticks(n) == n % TickModulus
  {
    if n > 0 {
      TickCount(n - 1);
    }
  }

  function Ticks(n: nat): nat
  {
    if n == 0 then 0 else NextTick(Ticks(n - 1))
  }

  class Overlay {
    var locked: bool
    var pos: Point
    var tick: nat

    /** `locked` starts as whether the document holds the lock; the cursor starts at the window centre. */
    constructor (documentLocked: bool, innerWidth: real, innerHeight: real)
      ensures State() == View(documentLocked, Centre(innerWidth, innerHeight)) && tick == 0
    {
      locked := documentLocked;
      pos := Centre(innerWidth, innerHeight);
      tick := 0;
    }

    function State(): View
      reads this
    {
      View(locked, pos)
    }

    method OnPointerLockChange(documentLocked: bool, innerWidth: real, innerHeight: real)
      modifies this
      ensures State() == Apply(old(State()), LockChange(documentLocked, innerWidth, innerHeight))
      ensures tick == old(tick)
    {
      locked := documentLocked;
      if documentLocked {
        pos := Centre(innerWidth, innerHeight);
      }
    }

    method OnMouseMove(documentLocked: bool, clientX: real, clientY: real)
      modifies this
      ensures State() == Apply(old(State()), MouseMove(documentLocked, clientX, clientY))
      ensures tick == old(tick)
    {
      if documentLocked {
        return;
      }
      pos := Point(clientX, clientY);
    }

    method OnResize(documentLocked: bool, innerWidth: real, innerHeight: real)
      modifies this
      ensures State() == Apply(old(State()), Resize(documentLocked, innerWidth, innerHeight))
      ensures tick == old(tick)
    {
      if documentLocked {
        pos := Centre(innerWidth, innerHeight);
      }
    }

    /** One animation frame of the re-render loop. */
    method Tick()
      modifies this
      ensures tick == NextTick(old(tick)) && tick < TickModulus
      ensures State() == old(State())
    {
      tick := (tick + 1) % TickModulus;
    }
  }
}
