/** The hit counter of the player controller (ThirdPersonController): contacts
    with a hover NPC and with hazards raise a shared counter, a 3-second
    cooldown filters NPC contacts and controller-detected hazard touches, and
    each counted hit starts a red flash until the third, which turns the
    player red for good. */
module PlayerHits {
  import opened Engine

  /** Minimum time between two counted cooldown-gated hits, in seconds. */
  const HitCooldown: real := 3.0

  /** The hit that turns the player permanently red. */
  const FinalHit: nat := 3

  /** Seconds each half of a flash lasts (red, then the original colour). */
  const FlashHalfPeriod: real := 0.2

  /** A FlashRed routine that was started. */
  datatype Flash = Flash(flashCount: nat, stayRed: bool)

  /** `started` lists the flash routines started since the controller last
      stopped all its routines. */
  datatype Player = Player(hitCount: nat, lastHitTime: real, started: seq<Flash>)

  /** The last hit time starts one cooldown in the past, so the first contact counts. */
  function Initial(): (p: Player)
    ensures p.hitCount == 0 && p.started == []
    ensures 0.0 - p.lastHitTime >= HitCooldown
  {
    Player(0, -3.0, [])
  }

  /** The shared part of both hit handlers: count the hit and start the flash
      that goes with it. The final hit stops every running routine first, and
      hits after it start nothing. */
  function RegisterHit(p: Player): (r: Player)
    ensures r.hitCount == p.hitCount + 1 && r.lastHitTime == p.lastHitTime
    ensures r.hitCount < FinalHit ==> r.started == p.started + [Flash(2, false)]
    ensures r.hitCount == FinalHit ==> r.started == [Flash(3, true)]
    ensures r.hitCount > FinalHit ==> r.started == p.started
  {
    var count := p.hitCount + 1;
    var started :=
      if count < FinalHit then p.started + [Flash(2, false)]
      else if count == FinalHit then [Flash(3, true)]
      else p.started;
    Player(count, p.lastHitTime, started)
  }

  predicate CooledDown(p: Player, now: real) {
    now - p.lastHitTime >= HitCooldown
  }

  /** OnNPCContact: counted only once the cooldown has passed since the last
      gated hit; a counted contact restarts the cooldown. */
  function OnNpcContact(p: Player, now: real): (r: Player)
    ensures CooledDown(p, now) ==> r == RegisterHit(p).(lastHitTime := now)
    ensures !CooledDown(p, now) ==> r == p
  {
    if CooledDown(p, now) then RegisterHit(p).(lastHitTime := now) else p
  }

  /** OnObstacleCollision, reached from a hazard's own collision callback:
      always counted, and the cooldown clock is left alone. */
  function OnObstacleCollision(p: Player): (r: Player)
    ensures r.hitCount == p.hitCount + 1 && r.lastHitTime == p.lastHitTime
  {
    RegisterHit(p)
  }

  /** OnControllerColliderHit: a touched object that carries a hazard's
      collision component counts through OnObstacleCollision, gated by the same
      cooldown as NPC contacts, and restarts it; anything else is ignored. */
  function OnControllerHit(p: Player, now: real, isHazard: bool): (r: Player)
    ensures !isHazard || !CooledDown(p, now) ==> r == p
    ensures isHazard && CooledDown(p, now) ==>
              r.hitCount == p.hitCount + 1 && r.lastHitTime == now
              && r.started == RegisterHit(p).started
  {
    if isHazard && CooledDown(p, now) then OnObstacleCollision(p).(lastHitTime := now) else p
  }

  datatype Event =
    | NpcContact(now: real)
    | HazardCollision
    | ControllerHit(now: real, isHazard: bool)

  function Step(p: Player, e: Event): Player {
    match e
    case NpcContact(now) => OnNpcContact(p, now)
    case HazardCollision => OnObstacleCollision(p)
    case ControllerHit(now, isHazard) => OnControllerHit(p, now, isHazard)
  }

  function Run(p: Player, events: seq<Event>): Player
    decreases |events|
  {
    if |events| == 0 then p else Step(Run(p, events[..|events| - 1]), events[|events| - 1])
  }

  // ---------------------------------------------------------------------
  // Cooldown

  function Contacts(p: Player, times: seq<real>): Player
    decreases |times|
  {
    if |times| == 0 then p else OnNpcContact(Contacts(p, times[..|times| - 1]), times[|times| - 1])
  }

  /** NPC contacts that all fall within one window shorter than the cooldown
      count at most once between them. */
  lemma {:induction false} ContactsWithinCooldownCountOnce(p: Player, times: seq<real>, from: real)
    requires forall i :: 0 <= i < |times| ==> from <= times[i] < from + HitCooldown
    ensures Contacts(p, times).hitCount <= p.hitCount + 1
    ensures var r := Contacts(p, times);
            r == p || (r.hitCount == p.hitCount + 1 && from <= r.lastHitTime < from + HitCooldown)
    decreases |times|
  {
    if |times| > 0 {
      var prefix := times[..|times| - 1];
      ContactsWithinCooldownCountOnce(p, prefix, from);
    }
  }

  /** NPC contacts spaced at least a cooldown apart, the first a cooldown after
      the last gated hit, are all counted. */
  lemma {:induction false} SpacedContactsAllCount(p: Player, times: seq<real>)
    requires |times| > 0 ==> CooledDown(p, times[0])
    requires forall i :: 0 < i < |times| ==> times[i] - times[i - 1] >= HitCooldown
    ensures Contacts(p, times).hitCount == p.hitCount + |times|
    ensures |times| > 0 ==> Contacts(p, times).lastHitTime == times[|times| - 1]
    decreases |times|
  {
    if |times| > 0 {
      var prefix := times[..|times| - 1];
      SpacedContactsAllCount(p, prefix);
    }
  }

  // ---------------------------------------------------------------------
  // Flashes

  /** Which flash routines have been started for a given hit count: one short
      flash per hit before the final one; from the final hit on, only the
      permanent one. */
  predicate Inv(p: Player) {
    && (p.hitCount < FinalHit ==> p.started == seq(p.hitCount, _ => Flash(2, false)))
    && (p.hitCount >= FinalHit ==> p.started == [Flash(3, true)])
  }

  lemma {:induction false} RunKeepsInv(p: Player, events: seq<Event>)
    requires Inv(p)
    ensures Inv(Run(p, events))
    ensures Run(p, events).hitCount >= p.hitCount
    decreases |events|
  {
    if |events| > 0 {
      var q := Run(p, events[..|events| - 1]);
      RunKeepsInv(p, events[..|events| - 1]);
      var r := RegisterHit(q);
      if r.hitCount < FinalHit {
        assert r.started == seq(r.hitCount, _ => Flash(2, false));
      }
    }
  }

  /** From the start, the player is permanently red exactly when at least
      three hits have been counted. */
  lemma PermanentRedIffThreeHits(events: seq<Event>)
    ensures var r := Run(Initial(), events);
            (exists k :: 0 <= k < |r.started| && r.started[k].stayRed) <==> r.hitCount >= FinalHit
  {
    RunKeepsInv(Initial(), events);
    var r := Run(Initial(), events);
    if r.hitCount >= FinalHit {
      assert r.started[0].stayRed;
    }
  }

  /** The colours one pass of the flash loop writes: red and the original
      colour, alternately, `count` times. */
  function Blinks(count: nat, original: Color): (writes: seq<Color>)
    ensures |writes| == 2 * count
    ensures forall i :: 0 <= i < |writes| ==> writes[i] == if i % 2 == 0 then Red else original
    decreases count
  {
    if count == 0 then [] else [Red, original] + Blinks(count - 1, original)
  }

  /** FlashRed: without a renderer nothing is written; otherwise the blinks,
      then red once more when the flash keeps the player red. */
  function FlashWrites(f: Flash, hasRenderer: bool, original: Color): (writes: seq<Color>)
    ensures !hasRenderer ==> writes == []
    ensures hasRenderer ==> |writes| == 2 * f.flashCount + (if f.stayRed then 1 else 0)
    ensures hasRenderer && |writes| > 0 ==> writes[0] == Red
    ensures hasRenderer && f.stayRed ==> writes[|writes| - 1] == Red
    ensures hasRenderer && !f.stayRed && f.flashCount > 0 ==> writes[|writes| - 1] == original
  {
    if !hasRenderer then []
    else Blinks(f.flashCount, original) + (if f.stayRed then [Red] else [])
  }

  /** When the colour writes of a flash's blink loop happen, in seconds from
      `start`: each blink writes red, waits, writes the original colour and
      waits again. */
  function BlinkTimes(count: nat, start: real): (times: seq<real>)
    ensures |times| == 2 * count
    ensures forall i :: 0 <= i < |times| ==> times[i] == start + i as real * FlashHalfPeriod
    decreases count
  {
    if count == 0 then []
    else [start, start + FlashHalfPeriod] + BlinkTimes(count - 1, start + 2.0 * FlashHalfPeriod)
  }

  /** The moment of every write FlashWrites lists, in seconds from the start
      of the flash: the blinks, then the final red right after the last wait. */
  function WriteTimes(f: Flash): (times: seq<real>)
    ensures |times| == |FlashWrites(f, true, Red)|
    ensures forall i :: 0 <= i < |times| ==> times[i] == i as real * FlashHalfPeriod
  {
    BlinkTimes(f.flashCount, 0.0) + (if f.stayRed then [2.0 * FlashHalfPeriod * f.flashCount as real] else [])
  }

  /** How long a flash routine runs: 0.4 s per blink. No write comes after
      its end; the final red of a stay-red flash comes exactly at the end,
      and the last write of any other non-empty flash (the original colour)
      one 0.2 s wait before it. */
  function FlashDuration(f: Flash): (d: real)
    ensures d >= 0.0 && (f.flashCount == 0 ==> d == 0.0)
    ensures forall i :: 0 <= i < |WriteTimes(f)| ==> WriteTimes(f)[i] <= d
    ensures f.stayRed ==> WriteTimes(f)[|WriteTimes(f)| - 1] == d
    ensures !f.stayRed && f.flashCount > 0 ==> WriteTimes(f)[|WriteTimes(f)| - 1] == d - FlashHalfPeriod
  {
    2.0 * FlashHalfPeriod * f.flashCount as real
  }
}
