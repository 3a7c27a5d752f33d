/** The hovering patrol NPC (NPCHoverPatrol): once per frame it perceives the
    player, possibly switches to chase, and then runs exactly one behaviour
    handler chosen by a fixed priority over its mode flags.

    The flags are kept as six independent booleans, as the script keeps them:
    a wall pivot requested while chasing or patrolling stays latent until every
    higher-priority flag has cleared, so the flags are not one enumerated state.

    Geometry is reduced to the readings the decisions compare: the distance to
    the player and to the current waypoint, two sight readings (before the
    handler turns the NPC and after), and the three obstacle probes. Headings,
    the hover height and the interpolated search angles are not modelled,
    except for the stationary sweep pattern (module StationarySweep). */
module HoverPatrol {
  import opened PatrolCursor
  import StationarySweep
  import Engine

  datatype PatrolPoint = PatrolPoint(isSearchPoint: bool, pivotLeft: bool, pivotRange: real)

  datatype Config = Config(
    speed: real,
    chaseSpeedMultiplier: real,
    path: seq<PatrolPoint>,
    searchFov: real,
    detectionDistance: real,
    contactDistance: real,
    delayAtPoint: real,
    searchDuration: real,
    lostSearchDuration: real,
    stationaryPivotDuration: real,
    stationaryPauseDuration: real,
    wallPivotDuration: real,
    isStationary: bool)

  /** Durations the handlers divide by are positive. */
  predicate ValidConfig(cfg: Config) {
    && cfg.searchDuration > 0.0
    && cfg.lostSearchDuration > 0.0
    && cfg.stationaryPivotDuration > 0.0
    && cfg.stationaryPauseDuration >= 0.0
    && cfg.wallPivotDuration > 0.0
  }

  datatype Modes = Modes(
    chasing: bool,
    waiting: bool,
    searching: bool,
    lostSearching: bool,
    stationarySearching: bool,
    wallPivoting: bool)

  const NoModes: Modes := Modes(false, false, false, false, false, false)

  /** The flashlight colour. PresetLight is the colour of a Light that was
      already on the view point before Start, which Start does not recolour. */
  datatype Light = DefaultLight | ChaseLight | PresetLight

  datatype Npc = Npc(
    cursor: Cursor,
    modes: Modes,
    waitTimer: real,
    searchTimer: real,
    lostSearchTimer: real,
    stationarySearchTimer: real,
    wallPivotTimer: real,
    light: Light)

  /** The state right after Start: first waypoint, moving forward, no mode set.
      Start gives the flashlight the default colour only when it has to add a
      Light to the view point; a Light already there keeps its own colour. */
  function Initial(viewPointHasLight: bool): Npc {
    var light := if viewPointHasLight then PresetLight else DefaultLight;
    Npc(Cursor(0, true), NoModes, 0.0, 0.0, 0.0, 0.0, 0.0, light)
  }

  /** What the script relies on between frames: the cursor addresses a real
      waypoint, waits and searches only happen on a non-empty path, and the
      sweep timer is not negative. */
  predicate Inv(cfg: Config, n: Npc) {
    && (|cfg.path| > 0 ==> 0 <= n.cursor.index < |cfg.path|)
    && (|cfg.path| == 0 ==> !n.modes.waiting && !n.modes.searching)
    && n.stationarySearchTimer >= 0.0
  }

  // ---------------------------------------------------------------------
  // Perception

  /** One reading of the view cone: the angle between the view direction and
      the player, the distance to the player, and whether a ray toward the
      player (at most detectionDistance long) first hits the player. */
  datatype Sight = Sight(angle: real, distance: real, rayHitsPlayer: bool)

  /** The first collider a probe ray hits, if any. */
  datatype RayHit = NoHit | Hit(onGroundLayer: bool, isTrigger: bool)

  /** The three nested tests of the view cone, in the script's order: the
      angle, then the distance, then the ray. Seeing needs all three. */
  predicate CanSeePlayer(cfg: Config, s: Sight): (seen: bool)
    ensures seen <==> s.angle <= cfg.searchFov / 2.0 && s.distance <= cfg.detectionDistance && s.rayHitsPlayer
  {
    if s.angle <= cfg.searchFov / 2.0 then
      if s.distance <= cfg.detectionDistance then s.rayHitsPlayer else false
    else false
  }

  /** Contact is a closed ball: the contact distance itself counts. */
  predicate IsPlayerInContact(cfg: Config, playerDistance: real): (inContact: bool)
    ensures playerDistance < cfg.contactDistance ==> inContact
    ensures playerDistance == cfg.contactDistance ==> inContact
    ensures playerDistance > cfg.contactDistance ==> !inContact
  {
    playerDistance <= cfg.contactDistance
  }

  /** A probe is blocked only by a solid collider outside the ground layer;
      a miss, the ground and triggers all leave the way clear. */
  predicate IsPathClear(hit: RayHit): (clear: bool)
    ensures clear <==> hit.NoHit? || hit.onGroundLayer || hit.isTrigger
  {
    match hit
    case NoHit => true
    case Hit(onGroundLayer, isTrigger) => !(!onGroundLayer && !isTrigger)
  }

  /** Visibility needs all three tests; moving the player past the detection
      distance, all else equal, hides it. */
  lemma SightBoundary(cfg: Config, s: Sight)
    ensures !CanSeePlayer(cfg, s.(distance := cfg.detectionDistance + 1.0))
  {
  }

  // ---------------------------------------------------------------------
  // One frame

  /** Engine readings for one frame. The probe rays are cast along the
      intended direction and its right and left perpendiculars. */
  datatype Sensors = Sensors(
    dt: real,
    playerDistance: real,
    waypointDistance: real,
    sightAtStart: Sight,
    sightAfterTurn: Sight,
    forward: RayHit,
    right: RayHit,
    left: RayHit)

  datatype Probe = Forward | Right | Left

  /** The movement a handler applies this frame. */
  datatype Motion = Hold | Step(direction: Probe, distance: real)

  datatype Outcome = Outcome(npc: Npc, motion: Motion)

  datatype Tick = Tick(npc: Npc, motion: Motion, notifiedContact: bool)

  datatype Handler =
    | ChaseHandler
    | LostSearchHandler
    | StationarySearchHandler
    | SearchHandler
    | WaitHandler
    | WallPivotHandler
    | PatrolHandler

  /** Position of a handler in the dispatch order, highest priority first. */
  function Rank(h: Handler): nat {
    match h
    case ChaseHandler => 0
    case LostSearchHandler => 1
    case StationarySearchHandler => 2
    case SearchHandler => 3
    case WaitHandler => 4
    case WallPivotHandler => 5
    case PatrolHandler => 6
  }

  /** Whether the flag that guards a handler is set; patrol has no flag. */
  predicate Raised(m: Modes, h: Handler) {
    match h
    case ChaseHandler => m.chasing
    case LostSearchHandler => m.lostSearching
    case StationarySearchHandler => m.stationarySearching
    case SearchHandler => m.searching
    case WaitHandler => m.waiting
    case WallPivotHandler => m.wallPivoting
    case PatrolHandler => true
  }

  /** The if/else-if chain of Update: the one handler that runs is the
      highest-ranked handler whose flag is set. */
  function Selected(m: Modes): (h: Handler)
    ensures Raised(m, h)
    ensures forall g: Handler :: Rank(g) < Rank(h) ==> !Raised(m, g)
  {
    if m.chasing then ChaseHandler
    else if m.lostSearching then LostSearchHandler
    else if m.stationarySearching then StationarySearchHandler
    else if m.searching then SearchHandler
    else if m.waiting then WaitHandler
    else if m.wallPivoting then WallPivotHandler
    else PatrolHandler
  }

  /** Seeing or touching the player: every other mode is dropped, chase is set
      and the light turns to the chase colour. */
  function Detect(n: Npc): (r: Npc)
    ensures r.modes.chasing
    ensures forall h: Handler :: h != ChaseHandler && h != PatrolHandler ==> !Raised(r.modes, h)
    ensures r.light == ChaseLight
    ensures r.cursor == n.cursor && r.waitTimer == n.waitTimer && r.searchTimer == n.searchTimer
    ensures r.lostSearchTimer == n.lostSearchTimer && r.stationarySearchTimer == n.stationarySearchTimer
    ensures r.wallPivotTimer == n.wallPivotTimer
  {
    n.(modes := NoModes.(chasing := true), light := ChaseLight)
  }

  /** Start leaves the NPC on a valid state for any configuration. */
  lemma InitialInv(cfg: Config, viewPointHasLight: bool)
    ensures Inv(cfg, Initial(viewPointHasLight))
    ensures var n := Initial(viewPointHasLight);
            && n.cursor == Cursor(0, true) && n.modes == NoModes
            && (viewPointHasLight ==> n.light == PresetLight)
            && (!viewPointHasLight ==> n.light == DefaultLight)
  {
  }

  /** Frames in order, each with its own readings. The invariant holds after
      every frame. */
  function Run(cfg: Config, n: Npc, readings: seq<Sensors>): (r: Npc)
    requires ValidConfig(cfg) && Inv(cfg, n)
    requires forall k :: 0 <= k < |readings| ==> readings[k].dt >= 0.0
    ensures Inv(cfg, r)
    decreases |readings|
  {
    if |readings| == 0 then n
    else Run(cfg, Update(cfg, n, readings[0]).npc, readings[1..])
  }

  /** Update: perception, then exactly one handler. */
  function Update(cfg: Config, n: Npc, s: Sensors): (t: Tick)
    requires ValidConfig(cfg) && Inv(cfg, n) && s.dt >= 0.0
    ensures Inv(cfg, t.npc)
    ensures t.notifiedContact <==> IsPlayerInContact(cfg, s.playerDistance)
    ensures IsPlayerInContact(cfg, s.playerDistance) ==> t.npc == Detect(n) && t.motion == Hold
    ensures CanSeePlayer(cfg, s.sightAtStart) || IsPlayerInContact(cfg, s.playerDistance) ==>
              && t.npc.light == ChaseLight
              && t.npc.cursor == n.cursor
              && !t.npc.modes.waiting && !t.npc.modes.searching
  {
    var contact := IsPlayerInContact(cfg, s.playerDistance);
    var detected := CanSeePlayer(cfg, s.sightAtStart) || contact;
    var n1 := if detected then Detect(n) else n;
    var o := Dispatch(cfg, n1, s);
    Tick(o.npc, o.motion, contact)
  }

  function Dispatch(cfg: Config, n: Npc, s: Sensors): (o: Outcome)
    requires ValidConfig(cfg) && Inv(cfg, n) && s.dt >= 0.0
    ensures Inv(cfg, o.npc)
    ensures n.light == ChaseLight && Selected(n.modes) == ChaseHandler ==> o.npc.light == ChaseLight
    ensures Selected(n.modes) == ChaseHandler ==> o.npc.cursor == n.cursor && o.npc.modes.waiting == n.modes.waiting && o.npc.modes.searching == n.modes.searching
  {
    match Selected(n.modes)
    case ChaseHandler => Chase(cfg, n, s)
    case LostSearchHandler => LostSearch(cfg, n, s)
    case StationarySearchHandler => StationarySearch(cfg, n, s)
    case SearchHandler => SearchAtPoint(cfg, n, s)
    case WaitHandler => WaitAtPatrolPoint(cfg, n, s)
    case WallPivotHandler => PivotAtWall(cfg, n, s)
    case PatrolHandler => Patrol(cfg, n, s)
  }

  // ---------------------------------------------------------------------
  // Handlers

  function ProbeRay(s: Sensors, p: Probe): RayHit {
    match p
    case Forward => s.forward
    case Right => s.right
    case Left => s.left
  }

  function ProbeOrder(p: Probe): nat {
    match p
    case Forward => 0
    case Right => 1
    case Left => 2
  }

  /** MoveInDirection: refuse to close in on a touching player while chasing;
      otherwise travel along the first clear probe (forward, right, left), or,
      when all three are blocked, stay put and request a wall pivot. */
  function MoveInDirection(cfg: Config, n: Npc, s: Sensors, moveSpeed: real): (o: Outcome)
    ensures o.npc.cursor == n.cursor && o.npc.light == n.light
    ensures o.npc.modes == n.modes || o.npc.modes == n.modes.(wallPivoting := true)
    ensures n.modes.chasing && s.playerDistance <= cfg.contactDistance ==> o == Outcome(n, Hold)
    ensures o.motion.Step? ==>
              && IsPathClear(ProbeRay(s, o.motion.direction))
              && o.motion.distance == moveSpeed * s.dt
              && (forall p: Probe :: ProbeOrder(p) < ProbeOrder(o.motion.direction) ==> !IsPathClear(ProbeRay(s, p)))
              && o.npc == n
    ensures !(n.modes.chasing && s.playerDistance <= cfg.contactDistance) ==>
              (o.motion.Hold? <==> forall p: Probe :: !IsPathClear(ProbeRay(s, p)))
    ensures o.motion.Hold? && !(n.modes.chasing && s.playerDistance <= cfg.contactDistance) ==>
              o.npc == n.(modes := n.modes.(wallPivoting := true), wallPivotTimer := 0.0)
  {
    if n.modes.chasing && s.playerDistance <= cfg.contactDistance then
      Outcome(n, Hold)
    else if IsPathClear(s.forward) then
      Outcome(n, Step(Forward, moveSpeed * s.dt))
    else if IsPathClear(s.right) then
      Outcome(n, Step(Right, moveSpeed * s.dt))
    else if IsPathClear(s.left) then
      Outcome(n, Step(Left, moveSpeed * s.dt))
    else
      Outcome(n.(modes := n.modes.(wallPivoting := true), wallPivotTimer := 0.0), Hold)
  }

  /** Patrol: head for the current waypoint; on arrival (closer than 0.5)
      start a search at a search point or a wait at any other point. */
  function Patrol(cfg: Config, n: Npc, s: Sensors): (o: Outcome)
    requires Inv(cfg, n)
    ensures Inv(cfg, o.npc)
    ensures cfg.isStationary || |cfg.path| == 0 ==> o == Outcome(n, Hold)
    ensures !cfg.isStationary && |cfg.path| > 0 && s.waypointDistance >= 0.5 ==>
              o == MoveInDirection(cfg, n, s, cfg.speed)
    ensures !cfg.isStationary && |cfg.path| > 0 && s.waypointDistance < 0.5 ==>
              var moved := MoveInDirection(cfg, n, s, cfg.speed);
              && o.motion == moved.motion
              && if cfg.path[n.cursor.index].isSearchPoint
                 then o.npc == moved.npc.(modes := moved.npc.modes.(searching := true), searchTimer := 0.0)
                 else o.npc == moved.npc.(modes := moved.npc.modes.(waiting := true), waitTimer := 0.0)
    // Consequences of the exact results above, spelled out per field:
    ensures !cfg.isStationary && |cfg.path| > 0 ==>
              o.motion == MoveInDirection(cfg, n, s, cfg.speed).motion && o.npc.cursor == n.cursor
    ensures !cfg.isStationary && |cfg.path| > 0 && s.waypointDistance < 0.5 ==>
              if cfg.path[n.cursor.index].isSearchPoint
              then o.npc.modes.searching && o.npc.searchTimer == 0.0 && o.npc.modes.waiting == n.modes.waiting
              else o.npc.modes.waiting && o.npc.waitTimer == 0.0 && o.npc.modes.searching == n.modes.searching
    ensures s.waypointDistance >= 0.5 ==>
              o.npc.modes.waiting == n.modes.waiting && o.npc.modes.searching == n.modes.searching
  {
    if cfg.isStationary || |cfg.path| == 0 then
      Outcome(n, Hold)
    else
      var moved := MoveInDirection(cfg, n, s, cfg.speed);
      if s.waypointDistance < 0.5 then
        if cfg.path[n.cursor.index].isSearchPoint then
          Outcome(moved.npc.(modes := moved.npc.modes.(searching := true), searchTimer := 0.0), moved.motion)
        else
          Outcome(moved.npc.(modes := moved.npc.modes.(waiting := true), waitTimer := 0.0), moved.motion)
      else
        moved
  }

  /** WaitAtPatrolPoint: the wait ends once the timer reaches delayAtPoint,
      and then the cursor advances. */
  function WaitAtPatrolPoint(cfg: Config, n: Npc, s: Sensors): (o: Outcome)
    requires Inv(cfg, n) && n.modes.waiting
    ensures Inv(cfg, o.npc)
    ensures o.motion == Hold && o.npc.waitTimer == n.waitTimer + s.dt
    ensures !o.npc.modes.waiting <==> n.waitTimer + s.dt >= cfg.delayAtPoint
    ensures o.npc.cursor == if o.npc.modes.waiting then n.cursor else Advance(n.cursor, |cfg.path|)
    ensures o.npc.modes == n.modes.(waiting := o.npc.modes.waiting)
    ensures o.npc == n.(waitTimer := n.waitTimer + s.dt, modes := o.npc.modes, cursor := o.npc.cursor)
  {
    var t := n.waitTimer + s.dt;
    if t >= cfg.delayAtPoint then
      Outcome(n.(waitTimer := t, modes := n.modes.(waiting := false), cursor := Advance(n.cursor, |cfg.path|)), Hold)
    else
      Outcome(n.(waitTimer := t), Hold)
  }

  lemma RatioReachesOne(timer: real, duration: real)
    requires duration > 0.0
    ensures timer / duration >= 1.0 <==> timer >= duration
  {
    assert timer / duration * duration == timer;
    if timer / duration >= 1.0 {
      Engine.MulMonotone(1.0, timer / duration, duration);
    } else {
      Engine.MulStrict(timer / duration, 1.0, duration);
    }
  }

  /** A timed phase is over once timer / duration reaches 1. */
  function PhaseDone(timer: real, duration: real): (done: bool)
    requires duration > 0.0
    ensures done <==> timer >= duration
  {
    RatioReachesOne(timer, duration);
    timer / duration >= 1.0
  }

  /** SearchAtPoint: the look-around ends when its progress reaches 1, and
      then the cursor advances. */
  function SearchAtPoint(cfg: Config, n: Npc, s: Sensors): (o: Outcome)
    requires ValidConfig(cfg) && Inv(cfg, n) && n.modes.searching
    ensures Inv(cfg, o.npc)
    ensures o.motion == Hold && o.npc.searchTimer == n.searchTimer + s.dt
    ensures !o.npc.modes.searching <==> n.searchTimer + s.dt >= cfg.searchDuration
    ensures o.npc.cursor == if o.npc.modes.searching then n.cursor else Advance(n.cursor, |cfg.path|)
    ensures o.npc.modes == n.modes.(searching := o.npc.modes.searching)
    ensures o.npc == n.(searchTimer := n.searchTimer + s.dt, modes := o.npc.modes, cursor := o.npc.cursor)
  {
    var t := n.searchTimer + s.dt;
    if PhaseDone(t, cfg.searchDuration) then
      Outcome(n.(searchTimer := t, modes := n.modes.(searching := false), cursor := Advance(n.cursor, |cfg.path|)), Hold)
    else
      Outcome(n.(searchTimer := t), Hold)
  }

  /** ChasePlayer: a touching player holds the NPC in place; a player no longer
      seen ends the chase and starts the lost-target search of a patrolling
      NPC or the sweep of a stationary one; otherwise the NPC closes in. */
  function Chase(cfg: Config, n: Npc, s: Sensors): (o: Outcome)
    requires n.modes.chasing && n.stationarySearchTimer >= 0.0
    ensures o.npc.cursor == n.cursor && o.npc.light == n.light && o.npc.stationarySearchTimer >= 0.0
    ensures o.npc.modes.waiting == n.modes.waiting && o.npc.modes.searching == n.modes.searching
    ensures IsPlayerInContact(cfg, s.playerDistance) ==> o == Outcome(n, Hold)
    ensures !IsPlayerInContact(cfg, s.playerDistance) && !CanSeePlayer(cfg, s.sightAfterTurn) ==>
              if cfg.isStationary
              then o == Outcome(n.(modes := n.modes.(chasing := false, stationarySearching := true), stationarySearchTimer := 0.0), Hold)
              else o == Outcome(n.(modes := n.modes.(chasing := false, lostSearching := true), lostSearchTimer := 0.0), Hold)
    ensures !IsPlayerInContact(cfg, s.playerDistance) && CanSeePlayer(cfg, s.sightAfterTurn) ==>
              o.npc.modes.chasing && o == MoveInDirection(cfg, n, s, cfg.speed * cfg.chaseSpeedMultiplier)
    // Consequence of the exact results above, spelled out per field:
    ensures !IsPlayerInContact(cfg, s.playerDistance) && !CanSeePlayer(cfg, s.sightAfterTurn) ==>
              && o.motion == Hold
              && !o.npc.modes.chasing
              && (if cfg.isStationary
                  then o.npc.modes.stationarySearching && o.npc.stationarySearchTimer == 0.0
                       && o.npc.modes.lostSearching == n.modes.lostSearching
                  else o.npc.modes.lostSearching && o.npc.lostSearchTimer == 0.0
                       && o.npc.modes.stationarySearching == n.modes.stationarySearching)
  {
    if IsPlayerInContact(cfg, s.playerDistance) then
      Outcome(n, Hold)
    else if !CanSeePlayer(cfg, s.sightAfterTurn) then
      var lost := n.modes.(chasing := false);
      if !cfg.isStationary then
        Outcome(n.(modes := lost.(lostSearching := true), lostSearchTimer := 0.0), Hold)
      else
        Outcome(n.(modes := lost.(stationarySearching := true), stationarySearchTimer := 0.0), Hold)
    else if s.playerDistance > cfg.contactDistance then
      MoveInDirection(cfg, n, s, cfg.speed * cfg.chaseSpeedMultiplier)
    else
      Outcome(n, Hold)
  }

  /** LostPlayerSearch: seeing the player again resumes the chase at once;
      otherwise the search ends when its progress reaches 1, restoring the
      default light. */
  function LostSearch(cfg: Config, n: Npc, s: Sensors): (o: Outcome)
    requires ValidConfig(cfg) && n.modes.lostSearching
    ensures o.motion == Hold && o.npc.cursor == n.cursor && o.npc.lostSearchTimer == n.lostSearchTimer + s.dt
    ensures o.npc.stationarySearchTimer == n.stationarySearchTimer
    ensures CanSeePlayer(cfg, s.sightAfterTurn) ==>
              o.npc.modes == n.modes.(lostSearching := false, chasing := true) && o.npc.light == ChaseLight
    ensures !CanSeePlayer(cfg, s.sightAfterTurn) ==>
              && o.npc.modes == n.modes.(lostSearching := o.npc.modes.lostSearching)
              && (!o.npc.modes.lostSearching <==> n.lostSearchTimer + s.dt >= cfg.lostSearchDuration)
              && o.npc.light == if o.npc.modes.lostSearching then n.light else DefaultLight
    ensures o.npc == n.(lostSearchTimer := n.lostSearchTimer + s.dt, modes := o.npc.modes, light := o.npc.light)
  {
    var t := n.lostSearchTimer + s.dt;
    var timed := n.(lostSearchTimer := t);
    if CanSeePlayer(cfg, s.sightAfterTurn) then
      Outcome(timed.(modes := n.modes.(lostSearching := false, chasing := true), light := ChaseLight), Hold)
    else if PhaseDone(t, cfg.lostSearchDuration) then
      Outcome(timed.(modes := n.modes.(lostSearching := false), light := DefaultLight), Hold)
    else
      Outcome(timed, Hold)
  }

  /** Whether `timer` falls in the last frame of a sweep step: the time into
      the step is within one frame of the step's end. */
  predicate AtStepEnd(cfg: Config, timer: real, dt: real)
    requires ValidConfig(cfg) && timer >= 0.0
  {
    var pose := StationarySweep.PoseAt(timer, cfg.stationaryPivotDuration, cfg.stationaryPauseDuration);
    pose.timeInStep >= cfg.stationaryPivotDuration + cfg.stationaryPauseDuration - dt
  }

  /** StationarySearch: sweep through the 9-step pattern; only at the end of a
      step may the player be re-acquired, which resumes the chase. The sweep
      itself never ends on its own. */
  function StationarySearch(cfg: Config, n: Npc, s: Sensors): (o: Outcome)
    requires ValidConfig(cfg) && n.modes.stationarySearching && n.stationarySearchTimer >= 0.0 && s.dt >= 0.0
    ensures o.motion == Hold && o.npc.cursor == n.cursor
    ensures o.npc.stationarySearchTimer == n.stationarySearchTimer + s.dt
    ensures if AtStepEnd(cfg, n.stationarySearchTimer + s.dt, s.dt) && CanSeePlayer(cfg, s.sightAfterTurn)
            then o.npc.modes == n.modes.(stationarySearching := false, chasing := true) && o.npc.light == ChaseLight
            else o.npc.modes == n.modes && o.npc.light == n.light
    ensures o.npc == n.(stationarySearchTimer := n.stationarySearchTimer + s.dt, modes := o.npc.modes, light := o.npc.light)
  {
    var t := n.stationarySearchTimer + s.dt;
    var timed := n.(stationarySearchTimer := t);
    if AtStepEnd(cfg, t, s.dt) && CanSeePlayer(cfg, s.sightAfterTurn) then
      Outcome(timed.(modes := n.modes.(stationarySearching := false, chasing := true), light := ChaseLight), Hold)
    else
      Outcome(timed, Hold)
  }

  /** PivotAtWall: the turn in place ends when its progress reaches 1. */
  function PivotAtWall(cfg: Config, n: Npc, s: Sensors): (o: Outcome)
    requires ValidConfig(cfg) && n.modes.wallPivoting
    ensures o.motion == Hold && o.npc.cursor == n.cursor && o.npc.light == n.light
    ensures o.npc == n.(wallPivotTimer := n.wallPivotTimer + s.dt, modes := o.npc.modes)
    ensures o.npc.modes == n.modes.(wallPivoting := o.npc.modes.wallPivoting)
    ensures !o.npc.modes.wallPivoting <==> n.wallPivotTimer + s.dt >= cfg.wallPivotDuration
  {
    var t := n.wallPivotTimer + s.dt;
    if PhaseDone(t, cfg.wallPivotDuration) then
      Outcome(n.(wallPivotTimer := t, modes := n.modes.(wallPivoting := false)), Hold)
    else
      Outcome(n.(wallPivotTimer := t), Hold)
  }

  // ---------------------------------------------------------------------
  // The latent wall pivot

  /** A chase (running, or started by this frame's detection) whose every
      probe is blocked requests a wall pivot, but the chase keeps priority:
      the pivot waits behind it. */
  lemma BlockedChaseLeavesPivotLatent(cfg: Config, n: Npc, s: Sensors)
    requires ValidConfig(cfg) && Inv(cfg, n) && s.dt >= 0.0
    requires n.modes.chasing || CanSeePlayer(cfg, s.sightAtStart)
    requires !IsPlayerInContact(cfg, s.playerDistance) && CanSeePlayer(cfg, s.sightAfterTurn)
    requires !IsPathClear(s.forward) && !IsPathClear(s.right) && !IsPathClear(s.left)
    ensures var t := Update(cfg, n, s);
            && t.motion == Hold
            && t.npc.modes.chasing && t.npc.modes.wallPivoting && t.npc.wallPivotTimer == 0.0
            && Selected(t.npc.modes) == ChaseHandler
  {
    var n1 := if CanSeePlayer(cfg, s.sightAtStart) then Detect(n) else n;
    assert Selected(n1.modes) == ChaseHandler;
    assert forall p: Probe :: !IsPathClear(ProbeRay(s, p));
  }

  /** Once the chase has turned into a lost-target search and that search
      runs out, the pivot left pending runs next. */
  lemma PendingPivotRunsAfterLostSearch(cfg: Config, n: Npc, s: Sensors)
    requires ValidConfig(cfg)
    requires n.modes == NoModes.(lostSearching := true, wallPivoting := true)
    requires !CanSeePlayer(cfg, s.sightAfterTurn) && n.lostSearchTimer + s.dt >= cfg.lostSearchDuration
    ensures Selected(n.modes) == LostSearchHandler
    ensures Selected(LostSearch(cfg, n, s).npc.modes) == WallPivotHandler
  {
    var o := LostSearch(cfg, n, s);
    assert o.npc.modes == NoModes.(wallPivoting := true);
  }

  /** A frame that starts with no detection: the player is neither seen nor
      touched before the handler runs. */
  predicate Undetected(cfg: Config, s: Sensors) {
    !CanSeePlayer(cfg, s.sightAtStart) && !IsPlayerInContact(cfg, s.playerDistance)
  }

  /** A frame in which the player is neither seen (before or after the turn)
      nor touched. */
  predicate Unnoticed(cfg: Config, s: Sensors) {
    Undetected(cfg, s) && !CanSeePlayer(cfg, s.sightAfterTurn)
  }

  /** Without a detection at its start, a frame whose handler is not the wall
      pivot itself never drops a pending pivot request. */
  lemma PendingPivotSurvives(cfg: Config, n: Npc, s: Sensors)
    requires ValidConfig(cfg) && Inv(cfg, n) && s.dt >= 0.0
    requires n.modes.wallPivoting && Selected(n.modes) != WallPivotHandler
    requires !CanSeePlayer(cfg, s.sightAtStart) && !IsPlayerInContact(cfg, s.playerDistance)
    ensures Update(cfg, n, s).npc.modes.wallPivoting
  {
    match Selected(n.modes)
    case ChaseHandler =>
      assert Update(cfg, n, s).npc == Chase(cfg, n, s).npc;
    case LostSearchHandler =>
    case StationarySearchHandler =>
    case SearchHandler =>
    case WaitHandler =>
  }

  /** Total frame time of a sequence of frames. */
  function Elapsed(readings: seq<Sensors>): (total: real)
    requires forall k :: 0 <= k < |readings| ==> readings[k].dt >= 0.0
    ensures total >= 0.0
    ensures |readings| > 0 ==> total >= readings[0].dt
    decreases |readings|
  {
    if |readings| == 0 then 0.0 else readings[0].dt + Elapsed(readings[1..])
  }

  /** A lost-target search holding a pending pivot keeps both, with its timer
      counting the frames, for as long as the player stays unnoticed and the
      search has not run out. */
  lemma {:induction false} LostSearchKeepsPivotPending(cfg: Config, n: Npc, readings: seq<Sensors>)
    requires ValidConfig(cfg) && Inv(cfg, n)
    requires n.modes == NoModes.(lostSearching := true, wallPivoting := true)
    requires forall k :: 0 <= k < |readings| ==> readings[k].dt >= 0.0 && Unnoticed(cfg, readings[k])
    requires n.lostSearchTimer + Elapsed(readings) < cfg.lostSearchDuration
    ensures Run(cfg, n, readings).modes == n.modes
    ensures Run(cfg, n, readings).lostSearchTimer == n.lostSearchTimer + Elapsed(readings)
    ensures Run(cfg, n, readings).wallPivotTimer == n.wallPivotTimer
    decreases |readings|
  {
    if |readings| > 0 {
      var s := readings[0];
      var n1 := Update(cfg, n, s).npc;
      assert n1 == LostSearch(cfg, n, s).npc;
      assert n1.modes == n.modes && n1.lostSearchTimer == n.lostSearchTimer + s.dt;
      LostSearchKeepsPivotPending(cfg, n1, readings[1..]);
    }
  }

  /** A wall pivot with nothing above it keeps turning, its timer counting
      the frames, for as long as no detection interrupts it and its time has
      not run out. */
  lemma {:induction false} PivotKeepsTurning(cfg: Config, n: Npc, readings: seq<Sensors>)
    requires ValidConfig(cfg) && Inv(cfg, n)
    requires n.modes == NoModes.(wallPivoting := true)
    requires forall k :: 0 <= k < |readings| ==> readings[k].dt >= 0.0 && Undetected(cfg, readings[k])
    requires n.wallPivotTimer + Elapsed(readings) < cfg.wallPivotDuration
    ensures Run(cfg, n, readings).modes == n.modes
    ensures Run(cfg, n, readings).wallPivotTimer == n.wallPivotTimer + Elapsed(readings)
    decreases |readings|
  {
    if |readings| > 0 {
      var s := readings[0];
      var n1 := Update(cfg, n, s).npc;
      assert n1 == PivotAtWall(cfg, n, s).npc;
      assert n1.modes == n.modes && n1.wallPivotTimer == n.wallPivotTimer + s.dt;
      PivotKeepsTurning(cfg, n1, readings[1..]);
    }
  }

  /** A pivot that starts with its timer at zero turns for exactly
      wallPivotDuration: it is still running while less time has passed, and
      it ends in the frame that reaches the duration, leaving no mode set. */
  lemma LatentPivotLastsItsDuration(cfg: Config, n: Npc, pivoting: seq<Sensors>, done: Sensors)
    requires ValidConfig(cfg) && Inv(cfg, n)
    requires n.modes == NoModes.(wallPivoting := true) && n.wallPivotTimer == 0.0
    requires forall k :: 0 <= k < |pivoting| ==> pivoting[k].dt >= 0.0 && Undetected(cfg, pivoting[k])
    requires done.dt >= 0.0 && Undetected(cfg, done)
    requires Elapsed(pivoting) < cfg.wallPivotDuration <= Elapsed(pivoting) + done.dt
    ensures Selected(Run(cfg, n, pivoting).modes) == WallPivotHandler
    ensures Update(cfg, Run(cfg, n, pivoting), done).npc.modes == NoModes
  {
    PivotKeepsTurning(cfg, n, pivoting);
    var m := Run(cfg, n, pivoting);
    assert Update(cfg, m, done).npc == PivotAtWall(cfg, m, done).npc;
  }

  /** The pending pivot over a whole episode: a chase blocked on every probe
      requests a pivot; the next unnoticed frame loses the player and starts a
      lost-target search with the request still pending; the search runs
      unnoticed; and once its time runs out, the pivot is the handler that
      runs next, alone and with its timer still at zero, so it then turns for
      exactly wallPivotDuration (LatentPivotLastsItsDuration). */
  lemma BlockedChasePivotsOnceSearchEnds(cfg: Config, n: Npc, blocked: Sensors, lost: Sensors,
                                         searching: seq<Sensors>, last: Sensors)
    requires ValidConfig(cfg) && Inv(cfg, n) && !cfg.isStationary
    requires blocked.dt >= 0.0 && lost.dt >= 0.0 && last.dt >= 0.0
    requires CanSeePlayer(cfg, blocked.sightAtStart) && CanSeePlayer(cfg, blocked.sightAfterTurn)
    requires !IsPlayerInContact(cfg, blocked.playerDistance)
    requires !IsPathClear(blocked.forward) && !IsPathClear(blocked.right) && !IsPathClear(blocked.left)
    requires Unnoticed(cfg, lost) && Unnoticed(cfg, last)
    requires forall k :: 0 <= k < |searching| ==> searching[k].dt >= 0.0 && Unnoticed(cfg, searching[k])
    requires Elapsed(searching) < cfg.lostSearchDuration <= Elapsed(searching) + last.dt
    ensures var n1 := Update(cfg, n, blocked).npc;
            var n2 := Update(cfg, n1, lost).npc;
            var n3 := Run(cfg, n2, searching);
            && n1.modes == NoModes.(chasing := true, wallPivoting := true)
            && n2.modes == NoModes.(lostSearching := true, wallPivoting := true)
            && Selected(n3.modes) == LostSearchHandler
            && Selected(Update(cfg, n3, last).npc.modes) == WallPivotHandler
            && Update(cfg, n3, last).npc.modes == NoModes.(wallPivoting := true)
            && Update(cfg, n3, last).npc.wallPivotTimer == 0.0
  {
    BlockedChaseLeavesPivotLatent(cfg, n, blocked);
    var n1 := Update(cfg, n, blocked).npc;
    assert n1.modes == NoModes.(chasing := true, wallPivoting := true);
    var n2 := Update(cfg, n1, lost).npc;
    assert n2 == Chase(cfg, n1, lost).npc;
    assert n2.modes == NoModes.(lostSearching := true, wallPivoting := true) && n2.lostSearchTimer == 0.0;
    LostSearchKeepsPivotPending(cfg, n2, searching);
    var n3 := Run(cfg, n2, searching);
    assert Update(cfg, n3, last).npc == LostSearch(cfg, n3, last).npc;
    PendingPivotRunsAfterLostSearch(cfg, n3, last);
  }
}
