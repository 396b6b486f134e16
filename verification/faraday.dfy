/** The induction page (FaradaysLaw.jsx): the flux through the coil as the
    magnet moves, the induced EMF and current, the magnet's damped free
    motion between the walls, and the handlers that drag, push and reset it.
    `Date.now()` readings are parameters. */
module Faraday {
  import opened RealArith
  import opened Transcendental

  /** The coil's centre and the flux through it when the magnet sits there. */
  const CoilCenter := 400.0
  const MaxFlux := 10.0

  /** The magnet's track. */
  const Left := 50.0
  const Right := 750.0

  /** A press within this distance of the magnet grabs it. */
  const GrabRadius := 30.0

  /** The velocity kept per timer tick, and the push buttons' speed. */
  const Damping := 0.95
  const PushSpeed := 200.0

  /** `10 * Math.exp(-|pos - 400| / 100)`: the flux peaks at the coil and is
      always positive. */
  function Flux(exp: real -> real, pos: real): (f: real)
    requires ExpLaw(exp)
    ensures 0.0 < f <= MaxFlux
    ensures f == MaxFlux <==> pos == CoilCenter
  {
    var t := -Abs(pos - CoilCenter) / 100.0;
    assert t <= 0.0;
    assert t < 0.0 ==> exp(t) < exp(0.0);
    MaxFlux * exp(t)
  }

  /** The flux depends only on the distance to the coil, and falls strictly as
      the magnet moves away. */
  lemma FluxFallsWithDistance(exp: real -> real, p1: real, p2: real)
    requires ExpLaw(exp)
    ensures Abs(p1 - CoilCenter) == Abs(p2 - CoilCenter) ==> Flux(exp, p1) == Flux(exp, p2)
    ensures Abs(p1 - CoilCenter) < Abs(p2 - CoilCenter) ==> Flux(exp, p2) < Flux(exp, p1)
  {
    var t1, t2 := -Abs(p1 - CoilCenter) / 100.0, -Abs(p2 - CoilCenter) / 100.0;
    if Abs(p1 - CoilCenter) < Abs(p2 - CoilCenter) {
      assert t2 < t1;
      assert exp(t2) < exp(t1);
    }
  }

  /** `-velocity * 0.5`: the induced EMF opposes the motion (Lenz's law) and
      is half the speed in size. */
  function Emf(velocity: real): (e: real)
    ensures e < 0.0 <==> velocity > 0.0
    ensures e == 0.0 <==> velocity == 0.0
    ensures 2.0 * Abs(e) == Abs(velocity)
  {
    -velocity * 0.5
  }

  /** `emf * 0.1`: the current has the EMF's sign, so it opposes the motion,
      and vanishes exactly when the magnet is still. */
  function Current(velocity: real): (i: real)
    ensures i < 0.0 <==> velocity > 0.0
    ensures i == 0.0 <==> velocity == 0.0
    ensures 20.0 * i == -velocity
  {
    Emf(velocity) * 0.1
  }

  /** The magnet and the refs the handlers share: the last pointer position
      and the last time reading, in milliseconds. */
  datatype Magnet = Magnet(pos: real, velocity: real, dragging: bool, lastPos: real, lastTime: real)

  predicate OnTrack(s: Magnet) {
    Left <= s.pos <= Right
  }

  /** Seconds since the last time reading. */
  function Elapsed(s: Magnet, now: real): real {
    (now - s.lastTime) / 1000.0
  }

  /** One tick of the 16 ms timer, which runs only while the magnet is not
      held: damp the velocity, then move by it and clamp to the track. */
  function Tick(s: Magnet, now: real): (r: Magnet)
    ensures s.dragging ==> r == s
    ensures !s.dragging ==>
      && r.velocity == Damping * s.velocity
      && OnTrack(r) && r.lastTime == now
      && r.dragging == s.dragging && r.lastPos == s.lastPos
    ensures !s.dragging ==>
      var target := s.pos + r.velocity * Elapsed(s, now) * 100.0;
      Left <= target <= Right ==> r.pos == target
  {
    if s.dragging then s
    else
      var v := s.velocity * Damping;
      var target := s.pos + v * Elapsed(s, now) * 100.0;
      s.(velocity := v, pos := Clamp(target, Left, Right), lastTime := now)
  }

  /** A run of timer ticks at the given times. */
  function Ticks(s: Magnet, times: seq<real>): Magnet
    decreases |times|
  {
    if |times| == 0 then s else Ticks(Tick(s, times[0]), times[1..])
  }

  /** While the magnet is free its speed only decays, and after any tick it
      is on the track. */
  lemma {:induction false} FreeMotionDecays(s: Magnet, times: seq<real>)
    requires !s.dragging
    ensures Abs(Ticks(s, times).velocity) <= Abs(s.velocity)
    ensures !Ticks(s, times).dragging
    ensures |times| > 0 || OnTrack(s) ==> OnTrack(Ticks(s, times))
    decreases |times|
  {
    if |times| > 0 {
      var t := Tick(s, times[0]);
      assert Abs(t.velocity) == Damping * Abs(s.velocity);
      FreeMotionDecays(t, times[1..]);
    }
  }

  /** `handleMouseDown`: grab the magnet when the press is within 30 px of
      it, remembering where and when. */
  function MouseDown(s: Magnet, x: real, now: real): (r: Magnet)
    ensures Abs(x - s.pos) < GrabRadius ==>
      r == s.(dragging := true, lastPos := s.pos, lastTime := now)
    ensures Abs(x - s.pos) >= GrabRadius ==> r == s
  {
    if Abs(x - s.pos) < GrabRadius then s.(dragging := true, lastPos := s.pos, lastTime := now)
    else s
  }

  /** `handleMouseMove`: while held, the magnet follows the pointer within
      the track, and the velocity becomes the pointer's speed since the last
      event when some time has passed. The pointer's own position, not the
      clamped one, is remembered. */
  function MouseMove(s: Magnet, x: real, now: real): (r: Magnet)
    ensures !s.dragging ==> r == s
    ensures s.dragging ==>
      && r.pos == Clamp(x, Left, Right) && r.dragging
      && r.lastPos == x && r.lastTime == now
    ensures s.dragging && Elapsed(s, now) > 0.0 ==>
      r.velocity * Elapsed(s, now) == x - s.lastPos
    ensures s.dragging && Elapsed(s, now) <= 0.0 ==> r.velocity == s.velocity
  {
    if !s.dragging then s
    else
      var dt := Elapsed(s, now);
      var v := if dt > 0.0 then (x - s.lastPos) / dt else s.velocity;
      s.(velocity := v, pos := Clamp(x, Left, Right), lastPos := x, lastTime := now)
  }

  /** `handleMouseUp`: let go, keeping the last drag velocity. */
  function MouseUp(s: Magnet): (r: Magnet)
    ensures !r.dragging
    ensures r.pos == s.pos && r.velocity == s.velocity
  {
    s.(dragging := false)
  }

  /** `reset`: the magnet back at 200, at rest. */
  function Reset(s: Magnet): (r: Magnet)
    ensures r.pos == 200.0 && r.velocity == 0.0
    ensures r.dragging == s.dragging && r.lastPos == s.lastPos && r.lastTime == s.lastTime
  {
    s.(pos := 200.0, velocity := 0.0)
  }

  /** `pushMagnet(direction)`: set the velocity to 200 in that direction. */
  function Push(s: Magnet, direction: real): (r: Magnet)
    ensures r.velocity == PushSpeed * direction
    ensures r.pos == s.pos && r.dragging == s.dragging
  {
    s.(velocity := direction * PushSpeed)
  }

  /** The readouts the page derives from the magnet: flux, EMF, current. */
  datatype Readout = Readout(flux: real, emf: real, current: real)

  function ReadoutOf(exp: real -> real, s: Magnet): Readout
    requires ExpLaw(exp)
  {
    Readout(Flux(exp, s.pos), Emf(s.velocity), Current(s.velocity))
  }

  /** `reset` also writes EMF 0 and current 0 directly; the values derived
      from the reset magnet agree, and the flux there is below the peak. */
  lemma ResetReadout(exp: real -> real, s: Magnet)
    requires ExpLaw(exp)
    ensures ReadoutOf(exp, Reset(s)).emf == 0.0 && ReadoutOf(exp, Reset(s)).current == 0.0
    ensures ReadoutOf(exp, Reset(s)).flux < MaxFlux
  {
  }

  /** Everything that changes the magnet. */
  datatype Event =
    | TickEvent(now: real)
    | DownEvent(x: real, downAt: real)
    | MoveEvent(x: real, movedAt: real)
    | UpEvent
    | ResetEvent
    | PushEvent(direction: real)

  function Step(s: Magnet, e: Event): Magnet {
    match e
    case TickEvent(now) => Tick(s, now)
    case DownEvent(x, now) => MouseDown(s, x, now)
    case MoveEvent(x, now) => MouseMove(s, x, now)
    case UpEvent => MouseUp(s)
    case ResetEvent => Reset(s)
    case PushEvent(d) => Push(s, d)
  }

  function Run(s: Magnet, events: seq<Event>): Magnet
    decreases |events|
  {
    if |events| == 0 then s else Run(Step(s, events[0]), events[1..])
  }

  /** Whatever the user does, a magnet that starts on the track stays on it. */
  lemma {:induction false} StaysOnTrack(s: Magnet, events: seq<Event>)
    requires OnTrack(s)
    ensures OnTrack(Run(s, events))
    decreases |events|
  {
    if |events| > 0 {
      StaysOnTrack(Step(s, events[0]), events[1..]);
    }
  }
}
