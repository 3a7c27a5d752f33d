/** The hazard spawner (ObstacleSpawner): two emission streams whose periods
    shrink linearly with session time toward a shared floor, gated by the
    player standing inside an inclusive bounding box; a registry of every
    spawned hazard that a colour change is broadcast to; and the fall of sky
    hazards, which leave the registry once they reach the terrain.

    Random.Range draws are passed in as fractions of the sampled interval,
    terrain sampling as a function from (x, z) to an optional height. */
module ObstacleSpawner {
  import opened Engine

  datatype Config = Config(
    initialFollowSpeed: real,
    followSpeedIncrease: real,
    skySpawnHeight: real,
    fallSpeed: real,
    initialGroundSpawnRate: real,
    initialSkySpawnRate: real,
    minSpawnRate: real,
    groundSpawnRateIncrease: real,
    skySpawnRateIncrease: real,
    minBounds: Vec3,
    maxBounds: Vec3)

  datatype Kind = GroundFollow | SkyFall

  datatype Hazard = Hazard(id: nat, kind: Kind, pos: Vec3, color: Color)

  /** A registry entry. A hazard destroyed by touching the player is never
      taken out of the list: it stays as a reference the engine reports as
      null, which is `alive == false` here. */
  datatype Entry = Entry(hazard: Hazard, alive: bool)

  datatype Spawner = Spawner(
    elapsed: real,
    groundRate: real,
    skyRate: real,
    followSpeed: real,
    groundTimer: real,
    skyTimer: real,
    registry: seq<Entry>,
    color: Color,
    nextId: nat)

  /** Height of the terrain under (x, z), if the downward ray hits it. */
  type Terrain = (real, real) -> Option<real>

  /** Random.Range draws for one frame, as fractions of the sampled range. */
  datatype Draw = Draw(x: real, z: real)

  datatype Rolls = Rolls(ground: Draw, sky: Draw)

  /** Start: the rates and follow speed at their initial values, timers and
      session time at zero, an empty registry, white tint. */
  function Start(cfg: Config): (sp: Spawner)
    ensures sp.registry == [] && sp.groundTimer == 0.0 && sp.skyTimer == 0.0 && sp.elapsed == 0.0
    ensures sp.color == White
  {
    Spawner(0.0, cfg.initialGroundSpawnRate, cfg.initialSkySpawnRate, cfg.initialFollowSpeed,
            0.0, 0.0, [], White, 0)
  }

  // ---------------------------------------------------------------------
  // Ramps

  /** A spawn period: the initial period shortened linearly with session
      time, but never below the floor. */
  function SpawnRate(floor: real, initial: real, increase: real, elapsed: real): (rate: real)
    ensures rate >= floor && rate >= initial - increase * elapsed
    ensures rate == floor || rate == initial - increase * elapsed
  {
    Max(floor, initial - increase * elapsed)
  }

  lemma {:induction false} SpawnRateNonIncreasing(floor: real, initial: real, increase: real, e1: real, e2: real)
    requires increase >= 0.0 && e1 <= e2
    ensures SpawnRate(floor, initial, increase, e2) <= SpawnRate(floor, initial, increase, e1)
  {
    var x, y := ScaleMonotone(e1, e2, increase);
  }

  function FollowSpeed(initial: real, increase: real, elapsed: real): real {
    initial + increase * elapsed
  }

  lemma FollowSpeedNonDecreasing(initial: real, increase: real, e1: real, e2: real)
    requires increase >= 0.0 && e1 <= e2
    ensures FollowSpeed(initial, increase, e1) <= FollowSpeed(initial, increase, e2)
  {
    var x, y := ScaleMonotone(e1, e2, increase);
  }

  // ---------------------------------------------------------------------
  // Positions

  /** IsPlayerInBounds: inclusive on all six faces. */
  predicate InBounds(lo: Vec3, hi: Vec3, p: Vec3) {
    && lo.x <= p.x <= hi.x
    && lo.y <= p.y <= hi.y
    && lo.z <= p.z <= hi.z
  }

  /** The box is closed: both corners of a well-formed box count as inside,
      and stepping past any face, all else equal, leaves it. An ill-formed box
      (some minimum above its maximum) holds no point at all. */
  lemma BoundsAreInclusive(lo: Vec3, hi: Vec3, p: Vec3, e: real)
    requires e > 0.0
    ensures lo.x <= hi.x && lo.y <= hi.y && lo.z <= hi.z <==> InBounds(lo, hi, lo) && InBounds(lo, hi, hi)
    ensures !InBounds(lo, hi, p.(x := hi.x + e)) && !InBounds(lo, hi, p.(x := lo.x - e))
    ensures !InBounds(lo, hi, p.(y := hi.y + e)) && !InBounds(lo, hi, p.(y := lo.y - e))
    ensures !InBounds(lo, hi, p.(z := hi.z + e)) && !InBounds(lo, hi, p.(z := lo.z - e))
    ensures !(lo.x <= hi.x && lo.y <= hi.y && lo.z <= hi.z) ==> !InBounds(lo, hi, p)
  {
  }

  /** A fraction in [0, 1] of a well-formed range lands inside it. */
  lemma SampleInRange(lo: real, hi: real, c: real)
    requires 0.0 <= c <= 1.0
    ensures lo <= hi ==> lo <= lo + (hi - lo) * c <= hi
  {
    if lo <= hi {
      var p := ScaleNonneg(hi - lo, c);
    }
  }

  /** Random.Range(lo, hi) over reals, driven by the fraction u. */
  function Sample(lo: real, hi: real, u: real): (v: real)
    ensures lo <= hi ==> lo <= v <= hi
  {
    var c := Clamp01(u);
    assert 0.0 <= c <= 1.0;
    SampleInRange(lo, hi, c);
    lo + (hi - lo) * c
  }

  /** Every value of the range is a possible draw. */
  lemma SampleReachesEveryValue(lo: real, hi: real, v: real)
    requires lo < hi && lo <= v <= hi
    ensures Sample(lo, hi, (v - lo) / (hi - lo)) == v
  {
    var u := Ratio(v - lo, hi - lo);
    assert Clamp01(u) == u;
  }

  /** GetRandomGroundSpawnPosition / GetRandomSkySpawnPosition: a random
      (x, z) inside the bounds, on the bottom or the top face. */
  function SpawnPosition(cfg: Config, d: Draw, onTop: bool): (p: Vec3)
    ensures cfg.minBounds.x <= cfg.maxBounds.x ==> cfg.minBounds.x <= p.x <= cfg.maxBounds.x
    ensures cfg.minBounds.z <= cfg.maxBounds.z ==> cfg.minBounds.z <= p.z <= cfg.maxBounds.z
    ensures p.y == if onTop then cfg.maxBounds.y else cfg.minBounds.y
  {
    Vec3(Sample(cfg.minBounds.x, cfg.maxBounds.x, d.x),
         if onTop then cfg.maxBounds.y else cfg.minBounds.y,
         Sample(cfg.minBounds.z, cfg.maxBounds.z, d.z))
  }

  // ---------------------------------------------------------------------
  // Spawning

  /** Instantiate, add to the registry and tint with the current colour. */
  function Register(sp: Spawner, kind: Kind, pos: Vec3): (r: Spawner)
    ensures r.registry == sp.registry + [Entry(Hazard(sp.nextId, kind, pos, sp.color), true)]
    ensures r == sp.(registry := r.registry, nextId := sp.nextId + 1)
  {
    sp.(registry := sp.registry + [Entry(Hazard(sp.nextId, kind, pos, sp.color), true)],
        nextId := sp.nextId + 1)
  }

  /** SpawnGroundObstacle: placed on the sampled terrain height; nothing is
      spawned when the terrain ray misses. */
  function SpawnGround(cfg: Config, sp: Spawner, d: Draw, terrain: Terrain): (r: Spawner)
    ensures var p := SpawnPosition(cfg, d, false);
            if terrain(p.x, p.z).None? then r == sp
            else r == Register(sp, GroundFollow, p.(y := terrain(p.x, p.z).value))
  {
    var p := SpawnPosition(cfg, d, false);
    match terrain(p.x, p.z)
    case None => sp
    case Some(h) => Register(sp, GroundFollow, p.(y := h))
  }

  /** One resumption of MoveSkyFallSpawn: fall by fallSpeed * dt, and land
      (None) when the terrain below is hit at or above the new height. */
  function Fall(cfg: Config, h: Hazard, dt: real, terrain: Terrain): (r: Option<Hazard>)
    ensures var p := h.pos.(y := h.pos.y - cfg.fallSpeed * dt);
            && (r.None? <==> terrain(p.x, p.z).Some? && p.y <= terrain(p.x, p.z).value)
            && (r.Some? ==> r.value == h.(pos := p))
  {
    var p := h.pos.(y := h.pos.y - cfg.fallSpeed * dt);
    match terrain(p.x, p.z)
    case Some(g) => if p.y <= g then None else Some(h.(pos := p))
    case None => Some(h.(pos := p))
  }

  /** SpawnSkyFallObstacle: placed at skySpawnHeight. Starting its fall
      routine runs the first fall step at once, in the same frame. */
  function SpawnSky(cfg: Config, sp: Spawner, d: Draw, dt: real, terrain: Terrain): (r: Spawner)
    ensures var h := Hazard(sp.nextId, SkyFall, SpawnPosition(cfg, d, true).(y := cfg.skySpawnHeight), sp.color);
            match Fall(cfg, h, dt, terrain)
            case None => r == sp.(nextId := sp.nextId + 1)
            case Some(h') => r == sp.(registry := sp.registry + [Entry(h', true)], nextId := sp.nextId + 1)
  {
    var p := SpawnPosition(cfg, d, true).(y := cfg.skySpawnHeight);
    var registered := Register(sp, SkyFall, p);
    match Fall(cfg, registered.registry[|sp.registry|].hazard, dt, terrain)
    case None => registered.(registry := sp.registry)
    case Some(h') => registered.(registry := sp.registry + [Entry(h', true)])
  }

  /** What a hazard spawned this frame looks like: alive, tinted with the
      current colour, numbered from nextId on, inside the bounds in x and z;
      a ground hazard sits on the terrain, a sky hazard has made its first
      fall step from skySpawnHeight. */
  predicate FreshHazard(cfg: Config, sp: Spawner, dt: real, terrain: Terrain, e: Entry) {
    && e.alive
    && e.hazard.id >= sp.nextId
    && e.hazard.color == sp.color
    && (cfg.minBounds.x <= cfg.maxBounds.x ==> cfg.minBounds.x <= e.hazard.pos.x <= cfg.maxBounds.x)
    && (cfg.minBounds.z <= cfg.maxBounds.z ==> cfg.minBounds.z <= e.hazard.pos.z <= cfg.maxBounds.z)
    && (e.hazard.kind == GroundFollow ==> terrain(e.hazard.pos.x, e.hazard.pos.z) == Some(e.hazard.pos.y))
    && (e.hazard.kind == SkyFall ==> e.hazard.pos.y == cfg.skySpawnHeight - cfg.fallSpeed * dt)
  }

  // ---------------------------------------------------------------------
  // The per-frame update

  function Ramp(cfg: Config, sp: Spawner, dt: real): Spawner {
    var elapsed := sp.elapsed + dt;
    sp.(elapsed := elapsed,
        groundRate := SpawnRate(cfg.minSpawnRate, cfg.initialGroundSpawnRate, cfg.groundSpawnRateIncrease, elapsed),
        skyRate := SpawnRate(cfg.minSpawnRate, cfg.initialSkySpawnRate, cfg.skySpawnRateIncrease, elapsed),
        followSpeed := FollowSpeed(cfg.initialFollowSpeed, cfg.followSpeedIncrease, elapsed))
  }

  /** The ground stream's share of Update, on the ramped spawner: its timer
      runs, and on reaching the period it restarts and one spawn is tried. */
  function GroundStage(cfg: Config, sp: Spawner, dt: real, d: Draw, terrain: Terrain): (r: Spawner)
    ensures r.groundTimer == if sp.groundTimer + dt >= sp.groundRate then 0.0 else sp.groundTimer + dt
    ensures r == sp.(groundTimer := r.groundTimer, registry := r.registry, nextId := r.nextId)
    ensures var p := SpawnPosition(cfg, d, false);
            if sp.groundTimer + dt >= sp.groundRate && terrain(p.x, p.z).Some?
            then && r.registry == sp.registry + [Entry(Hazard(sp.nextId, GroundFollow, p.(y := terrain(p.x, p.z).value), sp.color), true)]
                 && r.nextId == sp.nextId + 1
            else r.registry == sp.registry && r.nextId == sp.nextId
  {
    var timer := sp.groundTimer + dt;
    if timer >= sp.groundRate then SpawnGround(cfg, sp, d, terrain).(groundTimer := 0.0)
    else sp.(groundTimer := timer)
  }

  /** The sky stream's share of Update: the same, with the spawned hazard's
      first fall step taken at once. */
  function SkyStage(cfg: Config, sp: Spawner, dt: real, d: Draw, terrain: Terrain): (r: Spawner)
    ensures r.skyTimer == if sp.skyTimer + dt >= sp.skyRate then 0.0 else sp.skyTimer + dt
    ensures r == sp.(skyTimer := r.skyTimer, registry := r.registry, nextId := r.nextId)
    ensures var h := Hazard(sp.nextId, SkyFall, SpawnPosition(cfg, d, true).(y := cfg.skySpawnHeight), sp.color);
            && r.nextId == (if sp.skyTimer + dt >= sp.skyRate then sp.nextId + 1 else sp.nextId)
            && if sp.skyTimer + dt >= sp.skyRate && Fall(cfg, h, dt, terrain).Some?
               then r.registry == sp.registry + [Entry(Fall(cfg, h, dt, terrain).value, true)]
               else r.registry == sp.registry
  {
    var timer := sp.skyTimer + dt;
    if timer >= sp.skyRate then SpawnSky(cfg, sp, d, dt, terrain).(skyTimer := 0.0)
    else sp.(skyTimer := timer)
  }

  /** Update: advance session time and the ramps; only while the player is in
      the box do the two stream timers run, and a stream whose timer reached
      its period emits (at most) one hazard and restarts from zero. */
  function Update(cfg: Config, sp: Spawner, dt: real, player: Vec3, rolls: Rolls, terrain: Terrain): (r: Spawner)
    ensures r.elapsed == sp.elapsed + dt && r.color == sp.color
    ensures r.groundRate >= cfg.minSpawnRate && r.skyRate >= cfg.minSpawnRate
    ensures r.groundRate == SpawnRate(cfg.minSpawnRate, cfg.initialGroundSpawnRate, cfg.groundSpawnRateIncrease, r.elapsed)
    ensures r.skyRate == SpawnRate(cfg.minSpawnRate, cfg.initialSkySpawnRate, cfg.skySpawnRateIncrease, r.elapsed)
    ensures r.followSpeed == FollowSpeed(cfg.initialFollowSpeed, cfg.followSpeedIncrease, r.elapsed)
    ensures !InBounds(cfg.minBounds, cfg.maxBounds, player) ==>
              r.groundTimer == sp.groundTimer && r.skyTimer == sp.skyTimer
              && r.registry == sp.registry && r.nextId == sp.nextId
    ensures InBounds(cfg.minBounds, cfg.maxBounds, player) ==>
              && r.groundTimer == (if sp.groundTimer + dt >= r.groundRate then 0.0 else sp.groundTimer + dt)
              && r.skyTimer == (if sp.skyTimer + dt >= r.skyRate then 0.0 else sp.skyTimer + dt)
    ensures |sp.registry| <= |r.registry| <= |sp.registry| + 2
    ensures r.registry[..|sp.registry|] == sp.registry
    ensures sp.nextId <= r.nextId <= sp.nextId + 2
    ensures forall k :: |sp.registry| <= k < |r.registry| ==> FreshHazard(cfg, sp, dt, terrain, r.registry[k]) && r.registry[k].hazard.id < r.nextId
    ensures forall j, k :: |sp.registry| <= j < k < |r.registry| ==>
              r.registry[j].hazard.kind == GroundFollow && r.registry[k].hazard.kind == SkyFall
    ensures var p := SpawnPosition(cfg, rolls.ground, false);
            (|r.registry| > |sp.registry| && r.registry[|sp.registry|].hazard.kind == GroundFollow) <==>
              InBounds(cfg.minBounds, cfg.maxBounds, player) && sp.groundTimer + dt >= r.groundRate
              && terrain(p.x, p.z).Some?
  {
    var ramped := Ramp(cfg, sp, dt);
    if !InBounds(cfg.minBounds, cfg.maxBounds, player) then ramped
    else SkyStage(cfg, GroundStage(cfg, ramped, dt, rolls.ground, terrain), dt, rolls.sky, terrain)
  }

  // ---------------------------------------------------------------------
  // Falling sky hazards

  /** Whether an entry's fall routine runs in this pass: it is a live sky
      hazard whose id lies in [lo, hi). */
  predicate Falls(e: Entry, lo: nat, hi: nat) {
    e.alive && e.hazard.kind == SkyFall && lo <= e.hazard.id < hi
  }

  predicate IdsIncreasing(entries: seq<Entry>) {
    forall j, k :: 0 <= j < k < |entries| ==> entries[j].hazard.id < entries[k].hazard.id
  }

  function IdSet(entries: seq<Entry>): set<nat> {
    set e | e in entries :: e.hazard.id
  }

  /** One resumption of every running fall routine whose hazard id lies in
      [lo, hi): landed hazards are destroyed and removed from the registry;
      every other entry stays, in order. */
  function AdvanceSky(cfg: Config, entries: seq<Entry>, dt: real, terrain: Terrain, lo: nat, hi: nat): (r: seq<Entry>)
    ensures |r| <= |entries|
    ensures IdSet(r) <= IdSet(entries)
    decreases |entries|
  {
    if |entries| == 0 then []
    else
      var e := entries[0];
      var rest := AdvanceSky(cfg, entries[1..], dt, terrain, lo, hi);
      assert IdSet(entries[1..]) <= IdSet(entries) by {
        assert forall x :: x in entries[1..] ==> x in entries;
      }
      if Falls(e, lo, hi) then
        match Fall(cfg, e.hazard, dt, terrain)
        case None => rest
        case Some(h) => [Entry(h, true)] + rest
      else
        [e] + rest
  }

  /** Entries whose routine does not run are kept; a hazard that falls
      without landing is kept at its new height. */
  lemma {:induction false} AdvanceSkyKeeps(cfg: Config, entries: seq<Entry>, dt: real, terrain: Terrain, lo: nat, hi: nat, e: Entry)
    requires e in entries
    ensures !Falls(e, lo, hi) ==> e in AdvanceSky(cfg, entries, dt, terrain, lo, hi)
    ensures Falls(e, lo, hi) && Fall(cfg, e.hazard, dt, terrain).Some? ==>
              Entry(Fall(cfg, e.hazard, dt, terrain).value, true) in AdvanceSky(cfg, entries, dt, terrain, lo, hi)
    decreases |entries|
  {
    if e != entries[0] {
      assert e in entries[1..];
      AdvanceSkyKeeps(cfg, entries[1..], dt, terrain, lo, hi, e);
    }
  }

  /** Nothing appears that was not there: every result entry is an untouched
      entry, or a live hazard one fall step below an entry that fell. */
  lemma {:induction false} AdvanceSkyOnlyFalls(cfg: Config, entries: seq<Entry>, dt: real, terrain: Terrain, lo: nat, hi: nat, x: Entry)
    requires x in AdvanceSky(cfg, entries, dt, terrain, lo, hi)
    ensures || (x in entries && !Falls(x, lo, hi))
            || (x.alive && exists e0 :: e0 in entries && Falls(e0, lo, hi) && Fall(cfg, e0.hazard, dt, terrain) == Some(x.hazard))
    decreases |entries|
  {
    var e := entries[0];
    var rest := AdvanceSky(cfg, entries[1..], dt, terrain, lo, hi);
    assert forall y :: y in entries[1..] ==> y in entries;
    if x in rest {
      AdvanceSkyOnlyFalls(cfg, entries[1..], dt, terrain, lo, hi, x);
    }
  }

  /** In an id-ordered registry the first entry's id is below every later id. */
  lemma HeadBelowTail(entries: seq<Entry>)
    requires IdsIncreasing(entries) && |entries| > 0
    ensures IdsIncreasing(entries[1..])
    ensures forall i :: i in IdSet(entries[1..]) ==> entries[0].hazard.id < i
  {
    forall i | i in IdSet(entries[1..])
      ensures entries[0].hazard.id < i
    {
      var y :| y in entries[1..] && y.hazard.id == i;
      var k :| 0 <= k < |entries| - 1 && entries[1..][k] == y;
      assert entries[k + 1] == y;
    }
  }

  /** The pass keeps the registry ordered by id. */
  lemma {:induction false} AdvanceSkyOrdered(cfg: Config, entries: seq<Entry>, dt: real, terrain: Terrain, lo: nat, hi: nat)
    requires IdsIncreasing(entries)
    ensures IdsIncreasing(AdvanceSky(cfg, entries, dt, terrain, lo, hi))
    decreases |entries|
  {
    if |entries| > 0 {
      HeadBelowTail(entries);
      var tail := entries[1..];
      AdvanceSkyOrdered(cfg, tail, dt, terrain, lo, hi);
      var rest := AdvanceSky(cfg, tail, dt, terrain, lo, hi);
      var r := AdvanceSky(cfg, entries, dt, terrain, lo, hi);
      if |r| > |rest| {
        assert r[1..] == rest;
        assert r[0].hazard.id == entries[0].hazard.id;
        forall m | 0 < m < |r|
          ensures r[0].hazard.id < r[m].hazard.id
        {
          assert r[m] == rest[m - 1];
          assert r[m].hazard.id in IdSet(rest);
        }
      }
    }
  }

  /** A hazard whose fall step lands it is gone from the registry. */
  lemma {:induction false} AdvanceSkyRemovesLanded(cfg: Config, entries: seq<Entry>, dt: real, terrain: Terrain, lo: nat, hi: nat, e: Entry)
    requires IdsIncreasing(entries) && e in entries
    requires Falls(e, lo, hi) && Fall(cfg, e.hazard, dt, terrain).None?
    ensures e.hazard.id !in IdSet(AdvanceSky(cfg, entries, dt, terrain, lo, hi))
    decreases |entries|
  {
    HeadBelowTail(entries);
    var tail := entries[1..];
    if e == entries[0] {
      assert AdvanceSky(cfg, entries, dt, terrain, lo, hi) == AdvanceSky(cfg, tail, dt, terrain, lo, hi);
    } else {
      assert e in tail;
      AdvanceSkyRemovesLanded(cfg, tail, dt, terrain, lo, hi, e);
      assert e.hazard.id in IdSet(tail);
    }
  }

  /** Every entry whose routine does not run in the pass is kept. */
  lemma AdvanceSkyKeepsAll(cfg: Config, entries: seq<Entry>, dt: real, terrain: Terrain, lo: nat, hi: nat)
    ensures forall e :: e in entries && !Falls(e, lo, hi) ==> e in AdvanceSky(cfg, entries, dt, terrain, lo, hi)
  {
    forall e | e in entries && !Falls(e, lo, hi)
      ensures e in AdvanceSky(cfg, entries, dt, terrain, lo, hi)
    {
      AdvanceSkyKeeps(cfg, entries, dt, terrain, lo, hi, e);
    }
  }

  /** One frame: Update, then one resumption of the fall routine of every sky
      hazard spawned in an earlier frame. Only the registry differs from what
      Update left, no id is added, and a hazard spawned in this frame (its id
      is at least the frame's starting nextId) is not moved a second time. */
  function Frame(cfg: Config, sp: Spawner, dt: real, player: Vec3, rolls: Rolls, terrain: Terrain): (r: Spawner)
    ensures var u := Update(cfg, sp, dt, player, rolls, terrain);
            && r == u.(registry := r.registry)
            && |r.registry| <= |u.registry| && IdSet(r.registry) <= IdSet(u.registry)
            && (forall e :: e in u.registry && (e.hazard.id >= sp.nextId || !e.alive || e.hazard.kind == GroundFollow) ==>
                  e in r.registry)
  {
    var updated := Update(cfg, sp, dt, player, rolls, terrain);
    AdvanceSkyKeepsAll(cfg, updated.registry, dt, terrain, 0, sp.nextId);
    updated.(registry := AdvanceSky(cfg, updated.registry, dt, terrain, 0, sp.nextId))
  }

  /** Registry ids are issued in order and stay below the next id. */
  predicate Inv(sp: Spawner) {
    IdsIncreasing(sp.registry) && forall e :: e in sp.registry ==> e.hazard.id < sp.nextId
  }

  /** Update only appends hazards numbered from nextId on, so ids stay ordered. */
  lemma UpdateKeepsInv(cfg: Config, sp: Spawner, dt: real, player: Vec3, rolls: Rolls, terrain: Terrain)
    requires Inv(sp)
    ensures Inv(Update(cfg, sp, dt, player, rolls, terrain))
  {
    var u := Update(cfg, sp, dt, player, rolls, terrain);
    var n := |sp.registry|;
    forall j, m | 0 <= j < m < |u.registry|
      ensures u.registry[j].hazard.id < u.registry[m].hazard.id
    {
      if m < n {
        assert u.registry[j] == sp.registry[j] && u.registry[m] == sp.registry[m];
      } else if j < n {
        assert u.registry[j] == sp.registry[j];
        assert sp.registry[j] in sp.registry;
        assert FreshHazard(cfg, sp, dt, terrain, u.registry[m]);
      } else {
        assert u.registry[j].hazard.kind == GroundFollow && u.registry[m].hazard.kind == SkyFall;
        assert j == n && m == n + 1;
      }
    }
    forall x | x in u.registry
      ensures x.hazard.id < u.nextId
    {
      var k :| 0 <= k < |u.registry| && u.registry[k] == x;
      if k < n {
        assert u.registry[k] == sp.registry[k];
        assert sp.registry[k] in sp.registry;
      }
    }
  }

  /** A live sky hazard leaves the registry in the first frame whose fall step
      brings it to or below the terrain; otherwise it stays, lower by
      fallSpeed * dt. Ground hazards and destroyed entries are kept as they are. */
  lemma FrameLandsSkyHazards(cfg: Config, sp: Spawner, dt: real, player: Vec3, rolls: Rolls,
                             terrain: Terrain, e: Entry)
    requires Inv(sp) && e in sp.registry
    ensures var r := Frame(cfg, sp, dt, player, rolls, terrain);
            && (e.alive && e.hazard.kind == SkyFall && Fall(cfg, e.hazard, dt, terrain).None? ==> e.hazard.id !in IdSet(r.registry))
            && (e.alive && e.hazard.kind == SkyFall && Fall(cfg, e.hazard, dt, terrain).Some? ==>
                  Entry(Fall(cfg, e.hazard, dt, terrain).value, true) in r.registry)
            && (!(e.alive && e.hazard.kind == SkyFall) ==> e in r.registry)
  {
    var u := Update(cfg, sp, dt, player, rolls, terrain);
    UpdateKeepsInv(cfg, sp, dt, player, rolls, terrain);
    var k :| 0 <= k < |sp.registry| && sp.registry[k] == e;
    assert u.registry[k] == sp.registry[k];
    assert e in u.registry;
    assert Falls(e, 0, sp.nextId) <==> e.alive && e.hazard.kind == SkyFall;
    AdvanceSkyKeeps(cfg, u.registry, dt, terrain, 0, sp.nextId, e);
    if Falls(e, 0, sp.nextId) && Fall(cfg, e.hazard, dt, terrain).None? {
      AdvanceSkyRemovesLanded(cfg, u.registry, dt, terrain, 0, sp.nextId, e);
    }
  }

  lemma FrameKeepsInv(cfg: Config, sp: Spawner, dt: real, player: Vec3, rolls: Rolls, terrain: Terrain)
    requires Inv(sp)
    ensures Inv(Frame(cfg, sp, dt, player, rolls, terrain))
  {
    var u := Update(cfg, sp, dt, player, rolls, terrain);
    UpdateKeepsInv(cfg, sp, dt, player, rolls, terrain);
    AdvanceSkyOrdered(cfg, u.registry, dt, terrain, 0, sp.nextId);
    var r := AdvanceSky(cfg, u.registry, dt, terrain, 0, sp.nextId);
    forall x | x in r
      ensures x.hazard.id < u.nextId
    {
      assert x.hazard.id in IdSet(r);
      var y :| y in u.registry && y.hazard.id == x.hazard.id;
    }
  }

  // ---------------------------------------------------------------------
  // Colour broadcast and destruction by contact

  /** The registry after a colour broadcast: live entries take the colour,
      destroyed entries are left alone. */
  function Retint(entries: seq<Entry>, c: Color): seq<Entry> {
    seq(|entries|, k requires 0 <= k < |entries| =>
      if entries[k].alive then entries[k].(hazard := entries[k].hazard.(color := c)) else entries[k])
  }

  /** SetObstacleColor: remember the colour for future spawns and retint every
      registry entry that is still alive; destroyed entries are skipped and
      the registry keeps its entries, order and positions. */
  method SetObstacleColor(sp: Spawner, c: Color) returns (r: Spawner)
    ensures r == sp.(color := c, registry := Retint(sp.registry, c))
    ensures r.color == c && |r.registry| == |sp.registry|
    ensures r == sp.(color := c, registry := r.registry)
    ensures forall k :: 0 <= k < |sp.registry| ==>
              && r.registry[k].alive == sp.registry[k].alive
              && r.registry[k].hazard == sp.registry[k].hazard.(color := r.registry[k].hazard.color)
              && r.registry[k].hazard.color == (if sp.registry[k].alive then c else sp.registry[k].hazard.color)
  {
    var entries: seq<Entry> := [];
    var i := 0;
    while i < |sp.registry|
      invariant 0 <= i <= |sp.registry| && |entries| == i
      invariant forall k :: 0 <= k < i ==>
                  && entries[k].alive == sp.registry[k].alive
                  && entries[k].hazard == sp.registry[k].hazard.(color := entries[k].hazard.color)
                  && entries[k].hazard.color == (if sp.registry[k].alive then c else sp.registry[k].hazard.color)
    {
      var e := sp.registry[i];
      if e.alive {
        entries := entries + [e.(hazard := e.hazard.(color := c))];
      } else {
        entries := entries + [e];
      }
      i := i + 1;
    }
    r := sp.(color := c, registry := entries);
  }

  /** A hazard that touches the player is destroyed (ObstacleCollision) but
      left in the registry; the hit itself is reported to the player. */
  function DestroyOnContact(sp: Spawner, id: nat): (r: Spawner)
    ensures |r.registry| == |sp.registry| && r == sp.(registry := r.registry)
    ensures forall k :: 0 <= k < |sp.registry| ==>
              && r.registry[k].hazard == sp.registry[k].hazard
              && (r.registry[k].alive <==> sp.registry[k].alive && sp.registry[k].hazard.id != id)
  {
    sp.(registry := seq(|sp.registry|, k requires 0 <= k < |sp.registry| =>
          var e := sp.registry[k]; if e.hazard.id == id then e.(alive := false) else e))
  }

  // ---------------------------------------------------------------------
  // A session: frames, colour broadcasts and contacts, in any order

  datatype Event =
    | FrameEvent(dt: real, player: Vec3, rolls: Rolls, terrain: Terrain)
    | ColorEvent(c: Color)
    | ContactEvent(id: nat)

  function Step(cfg: Config, sp: Spawner, e: Event): Spawner {
    match e
    case FrameEvent(dt, player, rolls, terrain) => Frame(cfg, sp, dt, player, rolls, terrain)
    case ColorEvent(c) => sp.(color := c, registry := Retint(sp.registry, c))
    case ContactEvent(id) => DestroyOnContact(sp, id)
  }

  function Run(cfg: Config, sp: Spawner, events: seq<Event>): Spawner
    decreases |events|
  {
    if |events| == 0 then sp else Step(cfg, Run(cfg, sp, events[..|events| - 1]), events[|events| - 1])
  }

  lemma StartInv(cfg: Config)
    ensures Inv(Start(cfg))
  {
  }

  /** Colour broadcasts and contacts keep every hazard and its id in place. */
  lemma StepKeepsInv(cfg: Config, sp: Spawner, e: Event)
    requires Inv(sp)
    ensures Inv(Step(cfg, sp, e))
  {
    match e
    case FrameEvent(dt, player, rolls, terrain) =>
      FrameKeepsInv(cfg, sp, dt, player, rolls, terrain);
    case ColorEvent(c) =>
      var r := Step(cfg, sp, e);
      forall x | x in r.registry
        ensures x.hazard.id < r.nextId
      {
        var k :| 0 <= k < |r.registry| && r.registry[k] == x;
        assert sp.registry[k] in sp.registry;
      }
    case ContactEvent(id) =>
      var r := Step(cfg, sp, e);
      forall x | x in r.registry
        ensures x.hazard.id < r.nextId
      {
        var k :| 0 <= k < |r.registry| && r.registry[k] == x;
        assert sp.registry[k] in sp.registry;
      }
  }

  /** From Start, any session keeps the registry ordered by spawn order and
      below the next id. */
  lemma {:induction false} RunKeepsInv(cfg: Config, events: seq<Event>)
    ensures Inv(Run(cfg, Start(cfg), events))
    decreases |events|
  {
    if |events| == 0 {
      StartInv(cfg);
    } else {
      RunKeepsInv(cfg, events[..|events| - 1]);
      StepKeepsInv(cfg, Run(cfg, Start(cfg), events[..|events| - 1]), events[|events| - 1]);
    }
  }

  /** The hazard numbered id has been issued and no registry entry with that
      id is alive. */
  predicate Destroyed(sp: Spawner, id: nat) {
    id < sp.nextId && forall x :: x in sp.registry && x.hazard.id == id ==> !x.alive
  }

  /** A contact destroys the touching hazard, whatever its kind. */
  lemma ContactDestroys(sp: Spawner, id: nat)
    requires id < sp.nextId
    ensures Destroyed(DestroyOnContact(sp, id), id)
  {
    var r := DestroyOnContact(sp, id);
    forall x | x in r.registry && x.hazard.id == id
      ensures !x.alive
    {
      var k :| 0 <= k < |r.registry| && r.registry[k] == x;
    }
  }

  /** No event brings a destroyed hazard back: frames never reuse its id and
      only move live hazards, broadcasts and contacts never revive an entry. */
  lemma StepKeepsDestroyed(cfg: Config, sp: Spawner, e: Event, id: nat)
    requires Destroyed(sp, id)
    ensures Destroyed(Step(cfg, sp, e), id)
  {
    var r := Step(cfg, sp, e);
    match e
    case FrameEvent(dt, player, rolls, terrain) =>
      var u := Update(cfg, sp, dt, player, rolls, terrain);
      forall x | x in u.registry && x.hazard.id == id
        ensures !x.alive
      {
        var k :| 0 <= k < |u.registry| && u.registry[k] == x;
        if k < |sp.registry| {
          assert u.registry[k] == sp.registry[k];
          assert sp.registry[k] in sp.registry;
        } else {
          assert FreshHazard(cfg, sp, dt, terrain, u.registry[k]);
        }
      }
      forall x | x in r.registry && x.hazard.id == id
        ensures !x.alive
      {
        AdvanceSkyOnlyFalls(cfg, u.registry, dt, terrain, 0, sp.nextId, x);
      }
    case ColorEvent(c) =>
      forall x | x in r.registry && x.hazard.id == id
        ensures !x.alive
      {
        var k :| 0 <= k < |r.registry| && r.registry[k] == x;
        assert sp.registry[k] in sp.registry;
      }
    case ContactEvent(other) =>
      forall x | x in r.registry && x.hazard.id == id
        ensures !x.alive
      {
        var k :| 0 <= k < |r.registry| && r.registry[k] == x;
        assert sp.registry[k] in sp.registry;
      }
  }

  /** Once destroyed by a contact, a hazard stays destroyed for the rest of
      the session: no later event makes an entry with its id live again. */
  lemma {:induction false} DestroyedStaysDestroyed(cfg: Config, sp: Spawner, id: nat, events: seq<Event>)
    requires Destroyed(sp, id)
    ensures Destroyed(Run(cfg, sp, events), id)
    decreases |events|
  {
    if |events| > 0 {
      DestroyedStaysDestroyed(cfg, sp, id, events[..|events| - 1]);
      StepKeepsDestroyed(cfg, Run(cfg, sp, events[..|events| - 1]), events[|events| - 1], id);
    }
  }
}
