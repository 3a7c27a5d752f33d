# Hover-patrol arena: a Dafny model of the gameplay core

This project models the gameplay scripts of a small Unity arena. The player
dodges hazards that rain down and chase them across the terrain, NPCs patrol
and chase, and a pressure plate opens gates. The model covers five behaviours:

- **NPCHoverPatrol.** A hovering NPC walks a ping-pong route through its
  waypoints, waiting or looking around at each one. When it sees or touches
  the player it chases. When it loses sight it searches (a patrolling NPC)
  or runs a fixed nine-step sweep (a stationary NPC). It turns in place when
  all three probe rays are blocked. Once per frame, exactly one behaviour
  handler runs, chosen by a fixed priority over six mode flags.
- **DefensiveNPC.** A ground NPC polls the player's distance at intervals.
  It flees to a randomly chosen refuge, returns home or stays put. Each
  frame it checks for arrival and stops unintended drift of its navigation
  agent.
- **ObstacleSpawner**, with ObstacleCollision. Two hazard streams fire
  faster as the session goes on, down to a shared floor, but only while the
  player is inside the spawn box. Sky hazards fall and are removed when they
  land. A colour change is broadcast to every live hazard. A hazard that
  touches the player is destroyed.
- **ThirdPersonController**, the hit counter only. NPC contacts and
  hazard hits raise a shared counter. A 3-second cooldown filters NPC
  contacts and controller-detected hazard touches. Each hit flashes the
  player red, and the third turns them red for good.
- **GateTrigger.** The player arms a plate once. The assigned gates sink,
  and a close timer runs once all of them are open. After the delay the
  gates rise back and the plate re-arms.

Each script becomes one module. Unity callbacks become pure functions from
a state and the frame's readings to the next state. A coroutine becomes one
function per resumption. The engine's answers are inputs:

- sight and probe rays;
- distances;
- terrain heights, as a function from (x, z) to an optional height;
- navigation-agent velocity;
- random draws, as a natural-number roll or a fraction of the sampled range.

The project has eight modules:

- `Engine` (engine.dfy): shared values and `MoveTowards`, whose engine
  behaviour is assumed.
- `PatrolCursor` (patrol_cursor.dfy).
- `StationarySweep` (stationary_sweep.dfy).
- `HoverPatrol` (hover_patrol.dfy).
- `DefensiveNpc` (defensive_npc.dfy).
- `ObstacleSpawner` (obstacle_spawner.dfy).
- `PlayerHits` (player_hits.dfy).
- `GateTrigger` (gate_trigger.dfy).

Where the written design and the code differ, the model follows the code:

- A stationary hover NPC enters its sweep only after a chase is lost. It
  never starts the sweep on its own, and the sweep never ends by itself.
- A hazard that touches the player is destroyed whether it is a ground or
  a sky hazard. Its registry entry is kept as a dead reference.
- Fleeing when no refuge is assigned does not move the NPC. It only clears
  the remembered refuge.
- A sky hazard takes its first fall step in the frame it is spawned,
  because starting a coroutine runs its first step at once.

## Model

| member | source | states |
|---|---|---|
| PatrolCursor.Advance | Assets/mySCRIPTS/NPCHoverPatrol.cs:453-475 | On a non-empty path the cursor always lands on a real waypoint. It steps one point in its direction and reverses at either end (to n-2 going back, to 1 going forward). A one-point path only flips the direction. |
| PatrolCursor.Wave | Assets/mySCRIPTS/NPCHoverPatrol.cs:453-475 | Reference ping-pong sweep: a triangle wave of period 2(n-1) that stays inside the path. |
| PatrolCursor.WaveStep | Assets/mySCRIPTS/NPCHoverPatrol.cs:453-475 | One UpdatePointIndex step moves the reference sweep forward by exactly one step. |
| PatrolCursor.IterateFollowsWave | Assets/mySCRIPTS/NPCHoverPatrol.cs:453-475 | From the first waypoint, moving forward, any number of advances gives the triangle wave: the route goes back and forth forever and never leaves the path. |
| PatrolCursor.WaveVisitsEveryPoint | Assets/mySCRIPTS/NPCHoverPatrol.cs:453-475 | Waypoint i is reached after exactly i advances, so every point of the route is visited. |
| StationarySweep.StepAngle | Assets/mySCRIPTS/NPCHoverPatrol.cs:361-371 | During a step the yaw offset stays between the previous and the target angle. From the end of the pivot on, it holds the target. |
| StationarySweep.PoseAt | Assets/mySCRIPTS/NPCHoverPatrol.cs:349-371 | The timer splits into whole steps plus a time into the step that is shorter than pivot + pause. The step picks pattern entry step mod 9 and pivots from the entry before it (the last entry for the first step). No step turns by more than 45 degrees, and the shown offset lies between the two entries. |
| StationarySweep.NextStepTarget | Assets/mySCRIPTS/NPCHoverPatrol.cs:355-359 | Consecutive steps aim at consecutive pattern entries, wrapping from the ninth to the first, and differ by at most 45 degrees. |
| HoverPatrol.CanSeePlayer | Assets/mySCRIPTS/NPCHoverPatrol.cs:477-501 | The nested angle, distance and ray tests together decide sight: the player is seen exactly when all three pass. |
| HoverPatrol.IsPlayerInContact | Assets/mySCRIPTS/NPCHoverPatrol.cs:503-507 | Contact is inclusive: closer than or exactly at contactDistance is contact, farther is not. |
| HoverPatrol.IsPathClear | Assets/mySCRIPTS/NPCHoverPatrol.cs:509-521 | A probe is clear exactly when it hits nothing, or hits a collider on the ground layer or a trigger. |
| HoverPatrol.SightBoundary | Assets/mySCRIPTS/NPCHoverPatrol.cs:477-501 | Beyond the detection distance the player is never seen, whatever the angle and the ray. |
| HoverPatrol.InitialInv | Assets/mySCRIPTS/NPCHoverPatrol.cs:48-91 | Start leaves the NPC at the first waypoint, moving forward, with no mode set, and this state satisfies the NPC invariant for any configuration. The light has the default colour only when Start had to add it; a Light already on the view point keeps its own colour. |
| HoverPatrol.Run | Assets/mySCRIPTS/NPCHoverPatrol.cs:95-158 | Over any sequence of frames the NPC invariant holds after every frame. |
| HoverPatrol.Selected | Assets/mySCRIPTS/NPCHoverPatrol.cs:130-157 | The handler that runs is the highest-priority one whose flag is set: chase, lost search, stationary search, search, wait, wall pivot, patrol. No higher one is set. |
| HoverPatrol.Detect | Assets/mySCRIPTS/NPCHoverPatrol.cs:103-126 | Detection sets chase, clears every other mode and switches to the chase light. Cursor and timers are left alone. |
| HoverPatrol.Update | Assets/mySCRIPTS/NPCHoverPatrol.cs:95-158 | Preserves the NPC invariant (cursor on the path, no wait or search on an empty path). The player controller is notified exactly when the player is within contact distance. Contact leaves the NPC in the detected state without moving. Any detection ends in chase light with the same cursor and no wait or search. |
| HoverPatrol.Dispatch | Assets/mySCRIPTS/NPCHoverPatrol.cs:130-157 | Whichever handler runs, the invariant is kept. A running chase keeps its light, cursor and the wait/search flags. |
| HoverPatrol.MoveInDirection | Assets/mySCRIPTS/NPCHoverPatrol.cs:387-434 | A chasing NPC in contact holds still. Otherwise it moves along the first clear probe in the order forward, right, left. It holds exactly when all three are blocked, and then requests a wall pivot with its timer restarted. |
| HoverPatrol.Patrol | Assets/mySCRIPTS/NPCHoverPatrol.cs:171-208 | A stationary NPC or an empty path holds. Otherwise, before arrival the frame is exactly MoveInDirection's, including a wall-pivot request when every probe is blocked. Arriving closer than 0.5 starts a search at a search point and a wait anywhere else, with its timer at zero; nothing else differs from MoveInDirection's result. |
| HoverPatrol.WaitAtPatrolPoint | Assets/mySCRIPTS/NPCHoverPatrol.cs:210-221 | The wait ends exactly when the accumulated time reaches delayAtPoint, and the cursor then advances. Only the wait timer, the wait flag and the cursor change; the light and every other timer, a pending pivot's included, are kept. |
| HoverPatrol.PhaseDone | Assets/mySCRIPTS/NPCHoverPatrol.cs:233-251 | A progress ratio timer / duration reaches 1 exactly when the timer reaches the duration. |
| HoverPatrol.SearchAtPoint | Assets/mySCRIPTS/NPCHoverPatrol.cs:231-258 | The look-around ends exactly when its time reaches searchDuration, and the cursor then advances. Only the search timer, the search flag and the cursor change. |
| HoverPatrol.Chase | Assets/mySCRIPTS/NPCHoverPatrol.cs:260-305 | In contact it holds. After losing sight it drops the chase and starts a lost-target search (patrolling NPC) or a sweep (stationary NPC), timer at zero, and every other flag and timer, a pending wall pivot included, is kept. While it still sees the player it keeps chasing at the chase speed. |
| HoverPatrol.LostSearch | Assets/mySCRIPTS/NPCHoverPatrol.cs:307-345 | Seeing the player again resumes the chase with the chase light. Otherwise the search ends exactly when its time reaches lostSearchDuration, restoring the default light. Only its timer, the flags and the light change. |
| HoverPatrol.StationarySearch | Assets/mySCRIPTS/NPCHoverPatrol.cs:347-385 | The sweep timer advances. The player can be re-acquired only in the last frame of a step, and doing so resumes the chase. Otherwise modes and light are unchanged: the sweep never ends on its own. Nothing but its timer, the flags and the light changes. |
| HoverPatrol.PivotAtWall | Assets/mySCRIPTS/NPCHoverPatrol.cs:436-451 | The turn ends exactly when its time reaches wallPivotDuration. Nothing but its timer and flag changes. |
| HoverPatrol.BlockedChaseLeavesPivotLatent | Assets/mySCRIPTS/NPCHoverPatrol.cs:130-157 | A chase blocked on all three probes holds still and raises the wall-pivot flag, but chase keeps priority, so the pivot waits. |
| HoverPatrol.PendingPivotSurvives | Assets/mySCRIPTS/NPCHoverPatrol.cs:95-158 | In a frame with no detection, a pending wall pivot is kept by whichever handler runs, unless the pivot handler itself runs. |
| HoverPatrol.LostSearchKeepsPivotPending | Assets/mySCRIPTS/NPCHoverPatrol.cs:307-345 | While the player stays unnoticed and the lost-target search has not run out, the search and the pending pivot both stay set, the search timer counts the elapsed frame time, and the pivot timer is untouched. |
| HoverPatrol.PivotKeepsTurning | Assets/mySCRIPTS/NPCHoverPatrol.cs:436-451 | With nothing above it and no detection, a wall pivot keeps running while its time is below wallPivotDuration, its timer counting the elapsed frame time. |
| HoverPatrol.LatentPivotLastsItsDuration | Assets/mySCRIPTS/NPCHoverPatrol.cs:436-451 | A pivot starting with its timer at zero turns for exactly wallPivotDuration: still running before, and ending, with no mode left, in the frame that reaches it. |
| HoverPatrol.BlockedChasePivotsOnceSearchEnds | Assets/mySCRIPTS/NPCHoverPatrol.cs:95-158 | A whole episode: a chase blocked on every probe requests a pivot, losing the player starts a lost-target search with the request pending, and when that search runs out the pivot is the next handler to run, alone and with its timer still at zero. |
| HoverPatrol.PendingPivotRunsAfterLostSearch | Assets/mySCRIPTS/NPCHoverPatrol.cs:307-345 | When the lost-target search times out, a wall pivot left pending from the chase is the next handler to run. |
| DefensiveNpc.Initial | Assets/mySCRIPTS/DefensiveNPC.cs:32-211 | Start runs the first poll at once. A player already within detectionRadius, with a refuge assigned, sends the NPC fleeing toward an assigned refuge before the first frame, and the next poll comes one refuge interval later. Otherwise no movement flag is set and the next poll comes one normal interval later. |
| DefensiveNpc.AssignedSlots | Assets/mySCRIPTS/DefensiveNPC.cs:270-288 | The filtered list holds exactly the assigned refuge slots, in array order. It is empty exactly when none is assigned. |
| DefensiveNpc.PickSafeLocation | Assets/mySCRIPTS/DefensiveNPC.cs:270-288 | A pick is always an assigned slot. There is no pick exactly when no slot is assigned. |
| DefensiveNpc.EveryAssignedSlotCanBePicked | Assets/mySCRIPTS/DefensiveNPC.cs:270-288 | Every assigned slot is a possible outcome of the random choice. |
| DefensiveNpc.Flee | Assets/mySCRIPTS/DefensiveNPC.cs:216-236 | With a refuge assigned, the NPC flees toward an assigned slot at flee speed and counts as at a refuge. With none assigned, only the remembered refuge is cleared. |
| DefensiveNpc.ReturnHome | Assets/mySCRIPTS/DefensiveNPC.cs:239-251 | The NPC heads to its original position at return speed and no longer counts as at a refuge. |
| DefensiveNpc.Arrive | Assets/mySCRIPTS/DefensiveNPC.cs:254-267 | Both movement flags drop and the agent stops fully. The at-refuge flag is kept and the settle timer restarts. |
| DefensiveNpc.EmergencyStop | Assets/mySCRIPTS/DefensiveNPC.cs:108-114 | Only the agent's stop, path and velocity change. |
| DefensiveNpc.Decide | Assets/mySCRIPTS/DefensiveNPC.cs:165-200 | Flee exactly when within minDistanceThreshold at a refuge, or within detectionRadius elsewhere. Return exactly when at a refuge and beyond both thresholds. Otherwise stay. |
| DefensiveNpc.PollInterval | Assets/mySCRIPTS/DefensiveNPC.cs:209-211 | The wait is the refuge interval at a refuge and the normal interval elsewhere. |
| DefensiveNpc.Poll | Assets/mySCRIPTS/DefensiveNPC.cs:142-213 | The next poll is due one interval after this one. A flee in progress, a missing player or no assigned refuge means no decision. Otherwise the distance band picks flee, return or stay. |
| DefensiveNpc.Update | Assets/mySCRIPTS/DefensiveNPC.cs:89-133 | Arrival (moving, path present, within arrivalDistance) stops the NPC. The settle timer runs only while not moving. Drift above the velocity threshold after the settle time forces a stop. The refuge flags and the poll schedule are untouched. |
| DefensiveNpc.InitialInv | Assets/mySCRIPTS/DefensiveNPC.cs:32-211 | The state after Start and its first poll satisfies the movement invariant. |
| DefensiveNpc.Frame | Assets/mySCRIPTS/DefensiveNPC.cs:89-211 | Within a frame Update runs first. The poll resumes only when its time has come, sees the state Update left, and sets the next poll one interval ahead. |
| DefensiveNpc.FrameKeepsInv | Assets/mySCRIPTS/DefensiveNPC.cs:89-213 | A frame keeps the invariant: the movement flags exclude each other, a flee targets an assigned refuge, and a return targets home. |
| DefensiveNpc.RunKeepsMovingFlagsExclusive | Assets/mySCRIPTS/DefensiveNPC.cs:89-267 | Over any run of frames the NPC is never fleeing and returning at once. |
| DefensiveNpc.FromStartFlagsExclusive | Assets/mySCRIPTS/DefensiveNPC.cs:32-267 | From Start, through any run of frames, the NPC is never fleeing and returning at once. |
| ObstacleSpawner.Start | Assets/mySCRIPTS/ObstacleSpawner.cs:43-67 | Start leaves an empty registry, timers and session time at zero, and a white tint. |
| ObstacleSpawner.SpawnRate | Assets/mySCRIPTS/ObstacleSpawner.cs:72-73 | A spawn period is the linearly shortened initial period, but never below the floor. |
| ObstacleSpawner.SpawnRateNonIncreasing | Assets/mySCRIPTS/ObstacleSpawner.cs:71-73 | With a non-negative increase, spawn periods never grow as the session goes on. |
| ObstacleSpawner.FollowSpeedNonDecreasing | Assets/mySCRIPTS/ObstacleSpawner.cs:74 | With a non-negative increase, the follow speed never drops as the session goes on. |
| ObstacleSpawner.BoundsAreInclusive | Assets/mySCRIPTS/ObstacleSpawner.cs:170-176 | The spawn box is closed: both corners of a well-formed box are inside, a point past any face is outside, and an ill-formed box holds no point. |
| ObstacleSpawner.SampleInRange | Assets/mySCRIPTS/ObstacleSpawner.cs:156-168 | A fraction of a well-formed range lands inside it. |
| ObstacleSpawner.Sample | Assets/mySCRIPTS/ObstacleSpawner.cs:156-168 | A random coordinate lies inside its range. |
| ObstacleSpawner.SampleReachesEveryValue | Assets/mySCRIPTS/ObstacleSpawner.cs:156-168 | Every value of the range is a possible draw. |
| ObstacleSpawner.SpawnPosition | Assets/mySCRIPTS/ObstacleSpawner.cs:156-168 | A spawn point lies inside the box in x and z, on the bottom face for ground and the top face for sky. |
| ObstacleSpawner.Register | Assets/mySCRIPTS/ObstacleSpawner.cs:94-117 | A new hazard is appended, live, with the current tint and the next id. Nothing else changes. |
| ObstacleSpawner.SpawnGround | Assets/mySCRIPTS/ObstacleSpawner.cs:94-106 | A ground hazard sits on the sampled terrain height. Nothing spawns when the terrain ray misses. |
| ObstacleSpawner.Fall | Assets/mySCRIPTS/ObstacleSpawner.cs:140-154 | A fall step lowers the hazard by fallSpeed * dt. It lands exactly when the terrain is hit at or above the new height. |
| ObstacleSpawner.SpawnSky | Assets/mySCRIPTS/ObstacleSpawner.cs:108-117 | A sky hazard starts at skySpawnHeight and takes its first fall step in the same frame. If that step lands it, it is already gone. |
| ObstacleSpawner.GroundStage | Assets/mySCRIPTS/ObstacleSpawner.cs:78-83 | The ground timer restarts at zero exactly when it reaches its period, and otherwise grows by dt. A ground hazard is appended exactly when the timer fires and the terrain is hit. Nothing else changes. |
| ObstacleSpawner.SkyStage | Assets/mySCRIPTS/ObstacleSpawner.cs:85-90 | The sky timer restarts the same way. A firing timer always uses up an id, and the new hazard is in the registry exactly when its first fall step does not land it. |
| ObstacleSpawner.Update | Assets/mySCRIPTS/ObstacleSpawner.cs:69-92 | The ramps follow session time. Outside the box the timers and registry are frozen. Inside, a timer restarts at zero exactly when it reaches its period. At most a ground hazard and then a sky hazard are appended, fresh and in bounds. The old registry is kept as a prefix. A ground hazard appears exactly when the player is in the box, its timer fires and the terrain is hit. |
| ObstacleSpawner.AdvanceSky | Assets/mySCRIPTS/ObstacleSpawner.cs:140-154 | One pass of the fall routines never adds entries or ids. |
| ObstacleSpawner.AdvanceSkyKeeps | Assets/mySCRIPTS/ObstacleSpawner.cs:140-154 | Entries whose routine does not run are kept. A falling hazard that does not land is kept at its new height. |
| ObstacleSpawner.AdvanceSkyOnlyFalls | Assets/mySCRIPTS/ObstacleSpawner.cs:140-154 | Every entry after the pass is an untouched entry or one fall step below an entry that fell. |
| ObstacleSpawner.AdvanceSkyOrdered | Assets/mySCRIPTS/ObstacleSpawner.cs:140-154 | The pass keeps the registry ordered by spawn order. |
| ObstacleSpawner.AdvanceSkyRemovesLanded | Assets/mySCRIPTS/ObstacleSpawner.cs:144-150 | A hazard whose step lands it is removed from the registry. |
| ObstacleSpawner.UpdateKeepsInv | Assets/mySCRIPTS/ObstacleSpawner.cs:69-117 | Spawning keeps the registry ordered by spawn order, below the next id. |
| ObstacleSpawner.FrameLandsSkyHazards | Assets/mySCRIPTS/ObstacleSpawner.cs:140-154 | In a frame, a live sky hazard that reaches the terrain leaves the registry, one that does not is kept one step lower, and ground hazards and destroyed entries are kept. |
| ObstacleSpawner.Frame | Assets/mySCRIPTS/ObstacleSpawner.cs:69-154 | Within a frame Update runs first, then the fall routines resume. Only the registry differs from what Update left, no id is added, and ground hazards, destroyed entries and hazards spawned in this frame are kept as they are. |
| ObstacleSpawner.FrameKeepsInv | Assets/mySCRIPTS/ObstacleSpawner.cs:69-154 | A whole frame keeps the registry ordered and below the next id. |
| ObstacleSpawner.SetObstacleColor | Assets/mySCRIPTS/ObstacleSpawner.cs:193-204 | The new tint is remembered for later spawns and applied to every live hazard. Destroyed entries are skipped. Entries, order and positions are kept. |
| ObstacleSpawner.DestroyOnContact | Assets/mySCRIPTS/ObstacleCollision.cs:7-15 | Only the touching hazard is marked destroyed. Its entry and every other entry stay as they were. |
| ObstacleSpawner.StartInv | Assets/mySCRIPTS/ObstacleSpawner.cs:43-67 | The start state satisfies the registry invariant. |
| ObstacleSpawner.RunKeepsInv | Assets/mySCRIPTS/ObstacleSpawner.cs:69-204 | From Start, any sequence of frames, colour broadcasts and contacts keeps the registry ordered by spawn order and below the next id. |
| ObstacleSpawner.ContactDestroys | Assets/mySCRIPTS/ObstacleCollision.cs:7-15 | After a contact no registry entry with the touching hazard's id is alive. |
| ObstacleSpawner.StepKeepsDestroyed | Assets/mySCRIPTS/ObstacleSpawner.cs:69-204 | No frame, broadcast or contact makes a destroyed hazard live again: ids are never reused, falls only move live hazards, and broadcasts skip destroyed entries. |
| ObstacleSpawner.DestroyedStaysDestroyed | Assets/mySCRIPTS/ObstacleCollision.cs:7-15 | Once destroyed, a hazard stays destroyed for the rest of the session. |
| PlayerHits.Initial | Assets/mySCRIPTS/ThirdPersonController.cs:30-32 | No hits yet, and the last hit time lies a full cooldown in the past, so the first contact counts. |
| PlayerHits.RegisterHit | Assets/mySCRIPTS/ThirdPersonController.cs:198-236 | Each hit adds one. The first two start a short flash. The third stops every routine and starts the permanent red flash. Later hits start nothing. |
| PlayerHits.OnNpcContact | Assets/mySCRIPTS/ThirdPersonController.cs:198-219 | An NPC contact counts only a full cooldown after the last gated hit, and then restarts the cooldown. Otherwise nothing changes. |
| PlayerHits.OnObstacleCollision | Assets/mySCRIPTS/ThirdPersonController.cs:222-236 | A hazard's own collision always counts and leaves the cooldown clock alone. |
| PlayerHits.OnControllerHit | Assets/mySCRIPTS/ThirdPersonController.cs:102-118 | A touched hazard counts only after the cooldown, and restarts it. Anything else, or a touch inside the cooldown, changes nothing. |
| PlayerHits.ContactsWithinCooldownCountOnce | Assets/mySCRIPTS/ThirdPersonController.cs:198-219 | NPC contacts that all fall within a window shorter than the cooldown count at most once between them. |
| PlayerHits.SpacedContactsAllCount | Assets/mySCRIPTS/ThirdPersonController.cs:198-219 | NPC contacts spaced at least a cooldown apart all count. |
| PlayerHits.RunKeepsInv | Assets/mySCRIPTS/ThirdPersonController.cs:198-236 | The started flashes always match the hit count: one short flash per hit below three, only the permanent flash from three on. The count never drops. |
| PlayerHits.PermanentRedIffThreeHits | Assets/mySCRIPTS/ThirdPersonController.cs:207-211 | From the start, the stay-red flash has been started exactly when at least three hits have been counted. |
| PlayerHits.Blinks | Assets/mySCRIPTS/ThirdPersonController.cs:246-252 | The flash loop writes red and the original colour alternately, twice per blink. |
| PlayerHits.FlashWrites | Assets/mySCRIPTS/ThirdPersonController.cs:238-263 | Without a renderer nothing is written. A flash starts red. It ends on the original colour, or on red when it keeps the player red. |
| PlayerHits.BlinkTimes | Assets/mySCRIPTS/ThirdPersonController.cs:246-252 | The i-th colour write of the blink loop happens i times 0.2 s after the loop starts. |
| PlayerHits.WriteTimes | Assets/mySCRIPTS/ThirdPersonController.cs:238-263 | Every write of a flash has a time, and the i-th write comes i times 0.2 s after the start. |
| PlayerHits.FlashDuration | Assets/mySCRIPTS/ThirdPersonController.cs:246-263 | A flash runs 0.4 s per blink, and no write comes after its end. A stay-red flash writes its final red exactly at the end. Any other non-empty flash writes its last colour, the original one, 0.2 s before the end. |
| GateTrigger.Setup | Assets/mySCRIPTS/GateTrigger.cs:37-89 | Each assigned gate starts at its own height, with its open height one moveDistance below. Unassigned slots stay empty. The trigger starts idle. |
| GateTrigger.MoveAll | Assets/mySCRIPTS/GateTrigger.cs:94-108 | Each assigned gate moves toward its goal by at most maxDelta without overshooting. Every gate keeps its home and open heights. |
| GateTrigger.OnTriggerEnter | Assets/mySCRIPTS/GateTrigger.cs:172-209 | Only the player arms the plate, and only when it is not already armed. The button then turns green. Anything else changes nothing. |
| GateTrigger.Update | Assets/mySCRIPTS/GateTrigger.cs:91-169 | An idle plate does nothing, and gate slots and heights are kept. Without a close speed an opening plate only moves its gates. A closing plate moves every assigned gate toward home by closeSpeed * dt, and it resets exactly when every assigned gate ends the frame within 0.01 of home. While it stays closing nothing but the gates changes. A reset clears the flags and the timer and restores the button colour. |
| GateTrigger.OpeningPhase | Assets/mySCRIPTS/GateTrigger.cs:93-167 | For an armed, opening plate: the close timer grows by dt only when every assigned gate is within 0.01 of open and a positive close speed is set, and otherwise stays put. Closing begins exactly when that timer reaches closeDelay. A plate that begins closing moves its gates back toward home in the same frame. |
| GateTrigger.SetupInv | Assets/mySCRIPTS/GateTrigger.cs:37-89 | The start state satisfies the gate invariant. |
| GateTrigger.RunKeepsInv | Assets/mySCRIPTS/GateTrigger.cs:91-209 | Any sequence of entries and frames keeps the invariant: closing only when armed, the timer at zero while idle, green exactly while armed, and open heights fixed. |
| GateTrigger.NoCloseSpeedStaysOpen | Assets/mySCRIPTS/GateTrigger.cs:119-127 | With no positive close speed an armed plate never closes or resets. |
| GateTrigger.ResetRearms | Assets/mySCRIPTS/GateTrigger.cs:146-209 | A closing plate whose gates all reach home in this frame resets, and the next player entry arms it again. |
| Engine.MoveTowards | Assets/mySCRIPTS/GateTrigger.cs:100-104 | Assumed engine behaviour in one axis: never overshoots and moves at most maxDelta. It lands on the target when the target is within reach, and otherwise closes the gap by exactly maxDelta. |

## Left out

- Movement geometry is left out: headings, Quaternion turns, the hover-height spring, the angle curves of the point and lost-target searches, and player locomotion. These are continuous engine maths that no decision above depends on; the NPC decisions read distances, sight and probe results as inputs.
- HoverPatrol.SightBoundary: CanSeePlayer's geometry (the angle, the distance and the raycast) is taken as a reading, and a missing view point reads as no sight.
- MoveGroundSpawn, the ground hazards' follow motion toward the player, is left out. It changes only positions, and no modelled decision reads those.
- Engine.MoveTowards is engine code. Its one-axis behaviour is assumed, not derived, and the gates move only vertically.
- Rendering, audio, the debug log, gizmos and the prefab material checks are left out, since they have no effect on game state.
- The NavMesh validity checks in DefensiveNPC Start only log warnings, so they are left out. The navigation agent's path following is an input each frame.
- Random draws are inputs. The model shows that every permitted value can be drawn, but not that draws are uniform.
- HoverPatrol.Update requires positive search, lost-search, pivot and wall-pivot durations and a non-negative stationary pause (ValidConfig). A zero duration would divide by zero in floating point. The sweep divides by pivot + pause, so the pause alone may be zero, but a negative pause is excluded although the script does not reject one.
- Floating-point rounding is left out: all arithmetic is exact real arithmetic.
- PlayerHits.RegisterHit: the hit counter is an unbounded natural, and 32-bit overflow after two billion hits is not modelled.
- HoverPatrol.Update: contact notification assumes the player has a controller component. The script skips the call when it is missing.
- The destruction of a hazard takes effect at the end of the frame in the engine. The model applies it at once.
- ColorTrigger and the rest of the repository are not part of this model.
- A flash's write times are given relative to its start. Restarting flashes across hits is not timed, and wall-clock time is not modelled.
- Unity coroutine timing is reduced to one resumption per frame. WaitForSeconds in the DefensiveNPC poll becomes a next-poll time compared with the frame clock.
