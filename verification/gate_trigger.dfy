/** The pressure-plate gate (GateTrigger): the player entering the trigger
    arms it once; while armed the assigned gates sink toward their open
    height, and once every gate is open a close timer runs (only when a
    positive close speed is configured); after the delay the gates rise back,
    and when every gate is home the trigger resets and can fire again.

    Gates move only vertically (the open height is the original height moved
    straight down), so each gate is its height. Unassigned gate slots are
    kept as None and skipped everywhere. */
module GateTrigger {
  import opened Engine

  /** How close to its goal a gate must be to count as arrived. */
  const Tolerance: real := 0.01

  datatype Config = Config(moveDistance: real, moveSpeed: real, closeSpeed: real, closeDelay: real)

  /** An assigned gate: its height now, where it started, and its open height. */
  datatype Gate = Gate(y: real, originalY: real, targetY: real)

  /** `button` is the trigger's own colour, None when it has no renderer. */
  datatype State = State(
    gates: seq<Option<Gate>>,
    triggered: bool,
    closing: bool,
    closeTimer: real,
    button: Option<Color>,
    originalColor: Color)

  /** Start: record each assigned gate's height and its open height one
      moveDistance below, and the button's colour. */
  function Setup(cfg: Config, heights: seq<Option<real>>, buttonColor: Option<Color>): (s: State)
    ensures |s.gates| == |heights|
    ensures forall i :: 0 <= i < |heights| ==>
              && (s.gates[i].Some? <==> heights[i].Some?)
              && (s.gates[i].Some? ==>
                    s.gates[i].value.y == s.gates[i].value.originalY == heights[i].value
                    && s.gates[i].value.targetY == heights[i].value - cfg.moveDistance)
    ensures !s.triggered && !s.closing && s.closeTimer == 0.0 && s.button == buttonColor
  {
    var gates := seq(|heights|, i requires 0 <= i < |heights| =>
      match heights[i]
      case None => None
      case Some(h) => Some(Gate(h, h, h - cfg.moveDistance)));
    State(gates, false, false, 0.0, buttonColor, if buttonColor.Some? then buttonColor.value else White)
  }

  function Goal(g: Gate, opening: bool): real {
    if opening then g.targetY else g.originalY
  }

  /** Every assigned gate is within the tolerance of its open (or home) height. */
  predicate AllAt(gates: seq<Option<Gate>>, opening: bool) {
    forall i :: 0 <= i < |gates| && gates[i].Some? ==> Abs(gates[i].value.y - Goal(gates[i].value, opening)) <= Tolerance
  }

  /** Move every assigned gate toward its open (or home) height by maxDelta. */
  function MoveAll(gates: seq<Option<Gate>>, opening: bool, maxDelta: real): (r: seq<Option<Gate>>)
    ensures |r| == |gates|
    ensures forall i :: 0 <= i < |gates| ==>
              && (r[i].Some? <==> gates[i].Some?)
              && (r[i].Some? ==> r[i].value.originalY == gates[i].value.originalY && r[i].value.targetY == gates[i].value.targetY)
    ensures maxDelta >= 0.0 ==> forall i :: 0 <= i < |gates| && gates[i].Some? ==>
              && Abs(r[i].value.y - Goal(r[i].value, opening)) <= Abs(gates[i].value.y - Goal(gates[i].value, opening))
              && Abs(r[i].value.y - gates[i].value.y) <= maxDelta
    ensures maxDelta >= 0.0 ==> forall i :: 0 <= i < |gates| && gates[i].Some? ==>
              || r[i].value.y == Goal(gates[i].value, opening)
              || Abs(r[i].value.y - Goal(r[i].value, opening)) == Abs(gates[i].value.y - Goal(gates[i].value, opening)) - maxDelta
  {
    seq(|gates|, i requires 0 <= i < |gates| =>
      match gates[i]
      case None => None
      case Some(g) => Some(g.(y := MoveTowards(g.y, Goal(g, opening), maxDelta))))
  }

  /** OnTriggerEnter: only the player, and only while not already armed,
      arms the trigger and turns the button green. */
  function OnTriggerEnter(s: State, isPlayer: bool): (r: State)
    ensures isPlayer && !s.triggered ==>
              r == s.(triggered := true, button := if s.button.Some? then Some(Green) else None)
    ensures !isPlayer || s.triggered ==> r == s
  {
    if isPlayer && !s.triggered then
      s.(triggered := true, button := if s.button.Some? then Some(Green) else None)
    else s
  }

  /** The opening phase of one frame: gates sink, and once all are open a
      positive close speed lets the timer run until the delay. */
  function Open(cfg: Config, s: State, dt: real): (r: State)
    ensures r.gates == MoveAll(s.gates, true, cfg.moveSpeed * dt)
  {
    var gates := MoveAll(s.gates, true, cfg.moveSpeed * dt);
    if AllAt(gates, true) && cfg.closeSpeed > 0.0 then
      var timer := s.closeTimer + dt;
      s.(gates := gates, closeTimer := timer, closing := timer >= cfg.closeDelay)
    else s.(gates := gates)
  }

  /** The closing phase of one frame: gates rise, and once all are home the
      trigger resets and the button gets its colour back. */
  function Close(cfg: Config, s: State, dt: real): (r: State)
    ensures r.gates == MoveAll(s.gates, false, cfg.closeSpeed * dt)
  {
    var gates := MoveAll(s.gates, false, cfg.closeSpeed * dt);
    if AllAt(gates, false) then
      s.(gates := gates, triggered := false, closing := false, closeTimer := 0.0,
         button := if s.button.Some? then Some(s.originalColor) else None)
    else s.(gates := gates)
  }

  /** Update: the opening phase while armed and not closing, then the closing
      phase if closing (which may have begun in this same frame).

      Opening: the gates sink toward their open heights, and the close timer
      advances by dt only when every assigned gate is open and a positive
      close speed is set; closing begins once it reaches the delay. Closing:
      the gates rise toward home, and the trigger resets exactly when every
      assigned gate ends the frame within the tolerance of home. */
  function Update(cfg: Config, s: State, dt: real): (r: State)
    ensures |r.gates| == |s.gates|
    ensures forall i :: 0 <= i < |s.gates| ==>
              && (r.gates[i].Some? <==> s.gates[i].Some?)
              && (r.gates[i].Some? ==> r.gates[i].value.originalY == s.gates[i].value.originalY
                                       && r.gates[i].value.targetY == s.gates[i].value.targetY)
    ensures !s.triggered && !s.closing ==> r == s
    ensures s.triggered && !s.closing && cfg.closeSpeed <= 0.0 ==>
              r == s.(gates := MoveAll(s.gates, true, cfg.moveSpeed * dt))
    // The closing phase.
    ensures s.closing ==> r.gates == MoveAll(s.gates, false, cfg.closeSpeed * dt)
    ensures s.closing ==> (r.closing <==> !AllAt(r.gates, false))
    ensures s.closing && r.closing ==> r == s.(gates := r.gates)
    // A reset, whichever phase it came from.
    ensures (s.triggered || s.closing) && !(r.triggered || r.closing) ==>
              && r.closeTimer == 0.0 && AllAt(r.gates, false)
              && r.button == (if s.button.Some? then Some(s.originalColor) else None)
              && r == s.(gates := r.gates, triggered := false, closing := false, closeTimer := 0.0, button := r.button)
    ensures s.triggered && r.triggered && !r.closing ==> r.button == s.button
  {
    var afterOpen := if s.triggered && !s.closing then Open(cfg, s, dt) else s;
    if afterOpen.closing then Close(cfg, afterOpen, dt) else afterOpen
  }

  /** A frame of an armed, opening trigger. The close timer advances by dt
      only when every assigned gate is open after this frame's move and a
      positive close speed is set, and closing begins exactly when it then
      reaches the delay. A trigger that begins closing moves its gates back
      toward home in the same frame, and resets at once if they all arrive. */
  lemma OpeningPhase(cfg: Config, s: State, dt: real)
    requires s.triggered && !s.closing
    ensures var r := Update(cfg, s, dt);
            var sunk := MoveAll(s.gates, true, cfg.moveSpeed * dt);
            var timerRuns := AllAt(sunk, true) && cfg.closeSpeed > 0.0;
            var timer := if timerRuns then s.closeTimer + dt else s.closeTimer;
            && ((r.closing || !r.triggered) <==> timerRuns && timer >= cfg.closeDelay)
            && (r.triggered && !r.closing ==> r == s.(gates := sunk, closeTimer := timer))
            && (r.closing || !r.triggered ==> r.gates == MoveAll(sunk, false, cfg.closeSpeed * dt))
            && (r.closing ==> r == s.(gates := r.gates, closing := true, closeTimer := timer))
  {
    OpenThenClose(cfg, s, dt);
    var o := Open(cfg, s, dt);
    if o.closing {
      assert Update(cfg, s, dt).gates == Close(cfg, o, dt).gates;
    }
  }

  /** Moving the gates down and then back up in one frame. */
  lemma OpenThenClose(cfg: Config, s: State, dt: real)
    ensures Close(cfg, Open(cfg, s, dt), dt).gates ==
              MoveAll(MoveAll(s.gates, true, cfg.moveSpeed * dt), false, cfg.closeSpeed * dt)
  {
  }

  datatype Event = Enter(isPlayer: bool) | Tick(dt: real)

  function Step(cfg: Config, s: State, e: Event): State {
    match e
    case Enter(isPlayer) => OnTriggerEnter(s, isPlayer)
    case Tick(dt) => Update(cfg, s, dt)
  }

  function Run(cfg: Config, s: State, events: seq<Event>): State
    decreases |events|
  {
    if |events| == 0 then s else Step(cfg, Run(cfg, s, events[..|events| - 1]), events[|events| - 1])
  }

  /** Closing only ever happens to an armed trigger; while idle the timer is
      at zero; the button shows green exactly while armed; every gate keeps
      its open height one moveDistance below its home. */
  predicate Inv(cfg: Config, s: State) {
    && (s.closing ==> s.triggered)
    && (!s.triggered ==> s.closeTimer == 0.0)
    && (s.button.Some? ==> s.button.value == if s.triggered then Green else s.originalColor)
    && forall i :: 0 <= i < |s.gates| && s.gates[i].Some? ==>
         s.gates[i].value.targetY == s.gates[i].value.originalY - cfg.moveDistance
  }

  lemma SetupInv(cfg: Config, heights: seq<Option<real>>, buttonColor: Option<Color>)
    ensures Inv(cfg, Setup(cfg, heights, buttonColor))
  {
  }

  lemma {:induction false} RunKeepsInv(cfg: Config, s: State, events: seq<Event>)
    requires Inv(cfg, s)
    ensures Inv(cfg, Run(cfg, s, events))
    decreases |events|
  {
    if |events| > 0 {
      RunKeepsInv(cfg, s, events[..|events| - 1]);
      var q := Run(cfg, s, events[..|events| - 1]);
      match events[|events| - 1]
      case Enter(_) =>
      case Tick(dt) =>
        var r := Update(cfg, q, dt);
        forall i | 0 <= i < |r.gates| && r.gates[i].Some?
          ensures r.gates[i].value.targetY == r.gates[i].value.originalY - cfg.moveDistance
        {
          assert q.gates[i].Some?;
        }
    }
  }

  /** With no positive close speed an armed trigger never closes and never
      resets, whatever happens afterwards. */
  lemma {:induction false} NoCloseSpeedStaysOpen(cfg: Config, s: State, events: seq<Event>)
    requires cfg.closeSpeed <= 0.0 && s.triggered && !s.closing
    ensures Run(cfg, s, events).triggered && !Run(cfg, s, events).closing
    decreases |events|
  {
    if |events| > 0 {
      NoCloseSpeedStaysOpen(cfg, s, events[..|events| - 1]);
    }
  }

  /** A closing trigger whose gates all reach home in this frame resets, and
      the next player entry arms it again. */
  lemma ResetRearms(cfg: Config, s: State, dt: real)
    requires s.closing && AllAt(MoveAll(s.gates, false, cfg.closeSpeed * dt), false)
    ensures var r := Update(cfg, s, dt);
            && !r.triggered && !r.closing && AllAt(r.gates, false)
            && OnTriggerEnter(r, true).triggered && !OnTriggerEnter(r, true).closing
  {
  }
}
