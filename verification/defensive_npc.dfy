/** The defensive ground NPC (DefensiveNPC): a periodic proximity poll decides
    whether to flee to a randomly chosen refuge, return home, or stay; a
    per-frame update detects arrival and stops unintended drift of the
    navigation agent.

    The navigation agent is reduced to the fields the script writes or reads
    (speed, stop flag, path flag, velocity magnitude, destination, update
    flags, avoidance quality). Path following itself belongs to the engine: each
    frame the model receives the agent's current velocity, whether it has a
    path, and the distance to its destination. */
module DefensiveNpc {
  import opened Engine

  datatype Config = Config(
    detectionRadius: real,
    minDistanceThreshold: real,
    checkInterval: real,
    safeLocationCheckInterval: real,
    fleeSpeed: real,
    returnSpeed: real,
    arrivalDistance: real,
    velocityThreshold: real)

  /** Time since the last arrival after which drift counts as unexpected. */
  const SettleTime: real := 0.1

  datatype Destination = NoDestination | OriginalPosition | SafeSlot(slot: nat)

  datatype Avoidance = LowQualityAvoidance | NoAvoidance

  datatype Agent = Agent(
    speed: real,
    isStopped: bool,
    hasPath: bool,
    velocity: real,
    destination: Destination,
    updatePosition: bool,
    updateRotation: bool,
    avoidance: Avoidance)

  datatype Npc = Npc(
    movingToSafe: bool,
    movingToOriginal: bool,
    atSafe: bool,
    timeSinceReached: real,
    currentSafe: Option<nat>,
    agent: Agent,
    nextPoll: real)

  // ---------------------------------------------------------------------
  // Refuge choice. Slots are the inspector array: true where assigned.

  predicate AnyAssigned(slots: seq<bool>) {
    exists i :: 0 <= i < |slots| && slots[i]
  }

  /** The assigned slots at index `from` or later, in array order. */
  function AssignedFrom(slots: seq<bool>, from: nat): (r: seq<nat>)
    requires from <= |slots|
    ensures forall k :: 0 <= k < |r| ==> from <= r[k] < |slots| && slots[r[k]]
    ensures forall i :: from <= i < |slots| && slots[i] ==> i in r
    ensures forall j, k :: 0 <= j < k < |r| ==> r[j] < r[k]
    decreases |slots| - from
  {
    if from == |slots| then []
    else
      var rest := AssignedFrom(slots, from + 1);
      if slots[from] then [from] + rest else rest
  }

  /** The assigned slots, in array order (the filtered list of the script). */
  function AssignedSlots(slots: seq<bool>): (r: seq<nat>)
    ensures forall k :: 0 <= k < |r| ==> r[k] < |slots| && slots[r[k]]
    ensures forall i :: 0 <= i < |slots| && slots[i] ==> i in r
    ensures forall j, k :: 0 <= j < k < |r| ==> r[j] < r[k]
    ensures |r| > 0 <==> AnyAssigned(slots)
  {
    var r := AssignedFrom(slots, 0);
    assert |r| > 0 ==> slots[r[0]];
    r
  }

  /** GetRandomSafeLocation. `roll` stands for the engine's random draw; the
      script's Random.Range(0, count) is roll taken modulo the count. */
  function PickSafeLocation(slots: seq<bool>, roll: nat): (r: Option<nat>)
    ensures r.Some? ==> r.value < |slots| && slots[r.value]
    ensures r.None? <==> !AnyAssigned(slots)
  {
    var valid := AssignedSlots(slots);
    if |valid| == 0 then None else Some(valid[roll % |valid|])
  }

  /** Every assigned slot is a possible outcome of the random choice. */
  lemma EveryAssignedSlotCanBePicked(slots: seq<bool>, i: nat)
    requires i < |slots| && slots[i]
    ensures exists roll: nat :: PickSafeLocation(slots, roll) == Some(i)
  {
    var valid := AssignedSlots(slots);
    var k :| 0 <= k < |valid| && valid[k] == i;
    DivModUnique(k, |valid|, 0, k);
    assert PickSafeLocation(slots, k) == Some(i);
  }

  // ---------------------------------------------------------------------
  // Transitions

  /** MoveToSafeLocation: with a refuge chosen, flee toward it at flee speed;
      with none assigned, only the remembered refuge is cleared. */
  function Flee(cfg: Config, n: Npc, slots: seq<bool>, roll: nat): (r: Npc)
    ensures AnyAssigned(slots) ==>
              && (r.movingToSafe, r.movingToOriginal, r.atSafe) == (true, false, true)
              && r.agent.speed == cfg.fleeSpeed && !r.agent.isStopped
              && r.agent.destination.SafeSlot?
              && r.agent.destination.slot < |slots| && slots[r.agent.destination.slot]
              && r.currentSafe == Some(r.agent.destination.slot)
              && r.timeSinceReached == n.timeSinceReached && r.nextPoll == n.nextPoll
    ensures !AnyAssigned(slots) ==> r == n.(currentSafe := None)
  {
    var pick := PickSafeLocation(slots, roll);
    if pick.None? then
      n.(currentSafe := None)
    else
      n.(movingToSafe := true, movingToOriginal := false, atSafe := true, currentSafe := pick,
         agent := n.agent.(speed := cfg.fleeSpeed, isStopped := false, updatePosition := true,
                           updateRotation := true, avoidance := LowQualityAvoidance,
                           destination := SafeSlot(pick.value)))
  }

  /** ReturnToOriginalPosition: head home at return speed. */
  function ReturnHome(cfg: Config, n: Npc): (r: Npc)
    ensures (r.movingToSafe, r.movingToOriginal, r.atSafe) == (false, true, false)
    ensures r.agent.speed == cfg.returnSpeed && !r.agent.isStopped
    ensures r.agent.destination == OriginalPosition
    ensures r.currentSafe == n.currentSafe && r.timeSinceReached == n.timeSinceReached && r.nextPoll == n.nextPoll
  {
    n.(movingToSafe := false, movingToOriginal := true, atSafe := false,
       agent := n.agent.(speed := cfg.returnSpeed, isStopped := false, updatePosition := true,
                         updateRotation := true, avoidance := LowQualityAvoidance,
                         destination := OriginalPosition))
  }

  /** OnReachedDestination: both movement flags drop and the agent is brought
      to a full stop; whether the NPC counts as at a refuge is kept. */
  function Arrive(n: Npc): (r: Npc)
    ensures !r.movingToSafe && !r.movingToOriginal && r.atSafe == n.atSafe
    ensures r.agent.isStopped && !r.agent.hasPath && r.agent.velocity == 0.0 && r.agent.speed == 0.0
    ensures !r.agent.updatePosition && !r.agent.updateRotation && r.agent.avoidance == NoAvoidance
    ensures r.agent.destination == n.agent.destination
    ensures r.timeSinceReached == 0.0 && r.currentSafe == n.currentSafe && r.nextPoll == n.nextPoll
  {
    n.(movingToSafe := false, movingToOriginal := false, timeSinceReached := 0.0,
       agent := n.agent.(isStopped := true, hasPath := false, velocity := 0.0, speed := 0.0,
                         avoidance := NoAvoidance, updatePosition := false, updateRotation := false))
  }

  /** The forced stop of the drift guard. */
  function EmergencyStop(n: Npc): (r: Npc)
    ensures r.agent == n.agent.(isStopped := true, hasPath := false, velocity := 0.0)
    ensures r == n.(agent := r.agent)
  {
    n.(agent := n.agent.(isStopped := true, hasPath := false, velocity := 0.0))
  }

  // ---------------------------------------------------------------------
  // The proximity poll (one pass of the CheckPlayerProximity loop)

  /** The distance band decision of one poll. */
  datatype Decision = FleeDecision | ReturnDecision | StayDecision

  /** At a refuge: flee again at or inside minDistanceThreshold, go home
      strictly beyond detectionRadius, else stay hidden. Elsewhere: flee at or
      inside detectionRadius, else stay. */
  function Decide(cfg: Config, atSafe: bool, distance: real): (d: Decision)
    ensures d == FleeDecision <==>
              (if atSafe then distance <= cfg.minDistanceThreshold else distance <= cfg.detectionRadius)
    ensures d == ReturnDecision <==>
              atSafe && distance > cfg.minDistanceThreshold && distance > cfg.detectionRadius
  {
    if atSafe then
      if distance <= cfg.minDistanceThreshold then FleeDecision
      else if distance > cfg.detectionRadius then ReturnDecision
      else StayDecision
    else
      if distance <= cfg.detectionRadius then FleeDecision
      else StayDecision
  }

  /** The delay before the next poll, read after this poll's decision. */
  function PollInterval(cfg: Config, n: Npc): (interval: real)
    ensures interval == cfg.safeLocationCheckInterval || interval == cfg.checkInterval
    ensures interval == cfg.safeLocationCheckInterval <== n.atSafe
    ensures interval == cfg.checkInterval <== !n.atSafe
  {
    if n.atSafe then cfg.safeLocationCheckInterval else cfg.checkInterval
  }

  /** One poll at time `now`. `playerDistance` is None when no player is
      assigned. A flee in progress is never interrupted, and without a player
      or without any assigned refuge no decision is taken. */
  function Poll(cfg: Config, n: Npc, slots: seq<bool>, playerDistance: Option<real>, roll: nat, now: real): (r: Npc)
    ensures r.nextPoll == now + (if r.atSafe then cfg.safeLocationCheckInterval else cfg.checkInterval)
    ensures n.movingToSafe || playerDistance.None? || !AnyAssigned(slots) ==> r == n.(nextPoll := r.nextPoll)
    ensures !n.movingToSafe && playerDistance.Some? && AnyAssigned(slots) ==>
              match Decide(cfg, n.atSafe, playerDistance.value)
              case FleeDecision => r == Flee(cfg, n, slots, roll).(nextPoll := r.nextPoll)
              case ReturnDecision => r == ReturnHome(cfg, n).(nextPoll := r.nextPoll)
              case StayDecision => r == n.(nextPoll := r.nextPoll)
  {
    var decided :=
      if n.movingToSafe || playerDistance.None? || !AnyAssigned(slots) then n
      else
        match Decide(cfg, n.atSafe, playerDistance.value)
        case FleeDecision => Flee(cfg, n, slots, roll)
        case ReturnDecision => ReturnHome(cfg, n)
        case StayDecision => n;
    decided.(nextPoll := now + PollInterval(cfg, decided))
  }

  // ---------------------------------------------------------------------
  // Start

  /** The state Start sets up before the polling loop begins: no movement
      flag, no refuge remembered, avoidance lowered. */
  function BeforeFirstPoll(agent: Agent): Npc {
    Npc(false, false, false, 0.0, None, agent.(avoidance := LowQualityAvoidance), 0.0)
  }

  /** Start. Starting the polling coroutine runs its first pass at once, so a
      player already within detectionRadius sends the NPC fleeing before the
      first frame, and the next poll is one interval after `now`. */
  function Initial(cfg: Config, agent: Agent, slots: seq<bool>, playerDistance: Option<real>, roll: nat,
                   now: real): (n: Npc)
    ensures var flees := playerDistance.Some? && AnyAssigned(slots) && playerDistance.value <= cfg.detectionRadius;
            && (flees ==>
                  && (n.movingToSafe, n.movingToOriginal, n.atSafe) == (true, false, true)
                  && n.agent.speed == cfg.fleeSpeed && !n.agent.isStopped
                  && n.agent.destination.SafeSlot?
                  && n.agent.destination.slot < |slots| && slots[n.agent.destination.slot]
                  && n.nextPoll == now + cfg.safeLocationCheckInterval)
            && (!flees ==>
                  && n == BeforeFirstPoll(agent).(nextPoll := n.nextPoll)
                  && n.nextPoll == now + cfg.checkInterval)
    ensures n.timeSinceReached == 0.0
  {
    Poll(cfg, BeforeFirstPoll(agent), slots, playerDistance, roll, now)
  }

  // ---------------------------------------------------------------------
  // The per-frame update

  /** What the engine reports this frame about the agent. */
  datatype AgentReading = AgentReading(velocity: real, hasPath: bool, distanceToDestination: real)

  predicate Moving(n: Npc) {
    n.movingToSafe || n.movingToOriginal
  }

  /** Update: arrival check, settle timer, then the drift guard. */
  function Update(cfg: Config, n: Npc, dt: real, reading: AgentReading): (r: Npc)
    ensures r.atSafe == n.atSafe && r.nextPoll == n.nextPoll && r.currentSafe == n.currentSafe
    ensures var arrived := Moving(n) && reading.hasPath && reading.distanceToDestination <= cfg.arrivalDistance;
            && (arrived ==> r == Arrive(n.(agent := n.agent.(velocity := reading.velocity, hasPath := reading.hasPath))).(timeSinceReached := dt))
            && (Moving(n) && !arrived ==> r == n.(agent := n.agent.(velocity := reading.velocity, hasPath := reading.hasPath)))
    ensures !Moving(n) ==> r.timeSinceReached == n.timeSinceReached + dt
    ensures !Moving(n) ==>
              var observed := n.agent.(velocity := reading.velocity, hasPath := reading.hasPath);
              r.agent == if reading.velocity > cfg.velocityThreshold && n.timeSinceReached + dt > SettleTime
                         then observed.(isStopped := true, hasPath := false, velocity := 0.0)
                         else observed
  {
    var observed := n.(agent := n.agent.(velocity := reading.velocity, hasPath := reading.hasPath));
    var afterArrival :=
      if Moving(observed) && observed.agent.hasPath && reading.distanceToDestination <= cfg.arrivalDistance
      then Arrive(observed) else observed;
    var settled :=
      if !Moving(afterArrival) then afterArrival.(timeSinceReached := afterArrival.timeSinceReached + dt)
      else afterArrival;
    if !Moving(settled) && settled.agent.velocity > cfg.velocityThreshold && settled.timeSinceReached > SettleTime
    then EmergencyStop(settled)
    else settled
  }

  /** One frame: Update, then the polling coroutine resumes if its wait has
      run out. The poll sees the state this frame's Update left, the poll is
      due exactly when its time has come (Update never moves it), and after
      a poll the next one lies one interval ahead. */
  function Frame(cfg: Config, n: Npc, slots: seq<bool>, now: real, dt: real, reading: AgentReading,
                 playerDistance: Option<real>, roll: nat): (r: Npc)
    ensures now < n.nextPoll ==> r == Update(cfg, n, dt, reading)
    ensures now >= n.nextPoll ==> r == Poll(cfg, Update(cfg, n, dt, reading), slots, playerDistance, roll, now)
    ensures now >= n.nextPoll ==> r.nextPoll == now + PollInterval(cfg, r)
  {
    var updated := Update(cfg, n, dt, reading);
    if now >= updated.nextPoll then Poll(cfg, updated, slots, playerDistance, roll, now) else updated
  }

  // ---------------------------------------------------------------------
  // Invariant

  /** The two movement flags exclude each other, a flee is always toward an
      assigned refuge and marks the NPC as at a refuge, and a return is
      always toward the original position and does not. */
  predicate Inv(n: Npc, slots: seq<bool>) {
    && !(n.movingToSafe && n.movingToOriginal)
    && (n.movingToSafe ==> n.atSafe && n.agent.destination.SafeSlot?
                           && n.agent.destination.slot < |slots| && slots[n.agent.destination.slot])
    && (n.movingToOriginal ==> !n.atSafe && n.agent.destination == OriginalPosition)
  }

  lemma InitialInv(cfg: Config, agent: Agent, slots: seq<bool>, playerDistance: Option<real>, roll: nat, now: real)
    ensures Inv(Initial(cfg, agent, slots, playerDistance, roll, now), slots)
  {
    var n := BeforeFirstPoll(agent);
    if playerDistance.Some? && AnyAssigned(slots) {
      match Decide(cfg, n.atSafe, playerDistance.value)
      case FleeDecision =>
      case ReturnDecision =>
      case StayDecision =>
    }
  }

  lemma {:induction false} FrameKeepsInv(cfg: Config, n: Npc, slots: seq<bool>, now: real, dt: real,
                                         reading: AgentReading, playerDistance: Option<real>, roll: nat)
    requires Inv(n, slots)
    ensures Inv(Frame(cfg, n, slots, now, dt, reading, playerDistance, roll), slots)
  {
    var updated := Update(cfg, n, dt, reading);
    assert Inv(updated, slots);
    if now >= updated.nextPoll {
      var r := Poll(cfg, updated, slots, playerDistance, roll, now);
      if !updated.movingToSafe && playerDistance.Some? && AnyAssigned(slots) {
        match Decide(cfg, updated.atSafe, playerDistance.value)
        case FleeDecision =>
        case ReturnDecision =>
        case StayDecision =>
      }
    }
  }

  /** Frames in order, each with its own readings. */
  function Run(cfg: Config, n: Npc, slots: seq<bool>, frames: seq<FrameInput>): Npc
    decreases |frames|
  {
    if |frames| == 0 then n
    else
      var f := frames[0];
      Run(cfg, Frame(cfg, n, slots, f.now, f.dt, f.reading, f.playerDistance, f.roll), slots, frames[1..])
  }

  datatype FrameInput = FrameInput(now: real, dt: real, reading: AgentReading, playerDistance: Option<real>, roll: nat)

  /** A run of frames keeps the two movement flags exclusive. */
  lemma {:induction false} RunKeepsMovingFlagsExclusive(cfg: Config, n: Npc, slots: seq<bool>, frames: seq<FrameInput>)
    requires Inv(n, slots)
    ensures Inv(Run(cfg, n, slots, frames), slots)
    ensures var r := Run(cfg, n, slots, frames); !(r.movingToSafe && r.movingToOriginal)
    decreases |frames|
  {
    if |frames| > 0 {
      var f := frames[0];
      FrameKeepsInv(cfg, n, slots, f.now, f.dt, f.reading, f.playerDistance, f.roll);
      RunKeepsMovingFlagsExclusive(cfg, Frame(cfg, n, slots, f.now, f.dt, f.reading, f.playerDistance, f.roll), slots, frames[1..]);
    }
  }

  /** From Start, the movement flags stay exclusive through any run of frames. */
  lemma FromStartFlagsExclusive(cfg: Config, agent: Agent, slots: seq<bool>, playerDistance: Option<real>,
                                roll: nat, now: real, frames: seq<FrameInput>)
    ensures var r := Run(cfg, Initial(cfg, agent, slots, playerDistance, roll, now), slots, frames);
            !(r.movingToSafe && r.movingToOriginal)
  {
    InitialInv(cfg, agent, slots, playerDistance, roll, now);
    RunKeepsMovingFlagsExclusive(cfg, Initial(cfg, agent, slots, playerDistance, roll, now), slots, frames);
  }
}
