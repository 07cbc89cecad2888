/**
 * What happens to one projectile record (source/game/projectile.cpp):
 * the record `makeprojectile` builds, `bounce`, `checklifetime` and one
 * projectile's step of `updateprojectiles`.
 *
 * Physics and world queries are inputs: the junk physics step's
 * `hasbounced` answer per 80 ms chunk, the material under the projectile,
 * whether a linear projectile is within 4 units of its target, whether
 * that target moved and whether the way ahead is clear, `isbouncing`, and
 * per entity the broad-phase and intersection tests of the direct-hit
 * search.
 */
module ProjectileTick {
  import opened Wrappers
  import opened ProjectileInfo
  import opened WeaponInfo
  import opened Damage
  import opened Explosions

  /** Kinds whose record reads the attack table: weapon projectiles and linear ones. */
  predicate NeedsAttack(kind: int)
    requires IsValidProjectile(kind)
  {
    IsWeaponProjectile(kind) || Has(Projs()[kind].flags, ProjFlag_Linear)
  }

  /** What every live projectile record satisfies. */
  predicate WellFormed(p: Projectile)
  {
    && IsValidProjectile(p.projtype)
    && p.flags == Projs()[p.projtype].flags
    && (NeedsAttack(p.projtype) ==> ValidAtk(p.atk))
    && p.bounces >= 0
    && p.offsetmillis >= 0
    && (Projs()[p.projtype].variants == 0 ==> p.variant == 0)
    && (Projs()[p.projtype].variants > 0 ==> 0 <= p.variant < Projs()[p.projtype].variants)
  }

  /**
   * The record `makeprojectile` appends: the kind's flags, the spawn
   * arguments, `id` the spawn time for a local projectile, a variant drawn
   * from `roll`, the full cosmetic offset time, the velocity scaled by the
   * speed only for bouncing kinds, and the kind's sounds.
   */
  function Spawned(owner: nat, islocal: bool, id: int, atk: int, kind: int, lifetime: int, speed: int,
                   gravity: real, elasticity: real, now: int, roll: nat): (p: Projectile)
    requires IsValidProjectile(kind) && (NeedsAttack(kind) ==> ValidAtk(atk))
    ensures WellFormed(p)
    ensures p.owner == owner && p.projtype == kind && p.islocal == islocal && p.atk == atk
    ensures p.lifetime == lifetime && p.speed == speed && p.gravity == gravity && p.elasticity == elasticity
    ensures p.flags == Projs()[kind].flags
    ensures p.id == (if islocal then now else id)
    ensures p.offsetmillis == OFFSETMILLIS
    ensures p.velScale == (if Has(Projs()[kind].flags, ProjFlag_Bounce) then speed else 1)
    ensures !p.isdestroyed && !p.isdirect && p.bounces == 0 && p.lastbounce == 0 && p.loopchan == -1
    ensures p.bouncesound == Projs()[kind].bouncesound && p.loopsound == Projs()[kind].loopsound
  {
    var p0 := Constructed().(owner := owner, projtype := kind);
    var p1 := SetFlags(p0);
    var p2 := p1.(islocal := islocal, id := if islocal then now else id, atk := atk, lifetime := lifetime,
                  speed := speed, gravity := gravity, elasticity := elasticity);
    var p3 := SetVariant(p2, roll);
    var p4 := p3.(velScale := if Has(p3.flags, ProjFlag_Bounce) then speed else 1, offsetmillis := OFFSETMILLIS);
    SetSounds(p4)
  }

  /** Whether a bounce at time `now` plays its effects: within a nonzero bounce limit and 100 ms after the last. */
  predicate BounceEffects(p: Projectile, now: int)
    requires IsValidProjectile(p.projtype)
  {
    var maxbounces := Projs()[p.projtype].maxbounces;
    !((maxbounces != 0 && p.bounces + 1 > maxbounces) || now - p.lastbounce < 100)
  }

  /** `bounce` on a projectile: the count always goes up; the time stamp moves only when effects play. */
  function Bounced(p: Projectile, now: int): (q: Projectile)
    requires IsValidProjectile(p.projtype)
    ensures q == p.(bounces := p.bounces + 1, lastbounce := q.lastbounce)
    ensures BounceEffects(p, now) ==> q.lastbounce == now
    ensures !BounceEffects(p, now) ==> q.lastbounce == p.lastbounce
    ensures WellFormed(p) ==> WellFormed(q)
  {
    if BounceEffects(p, now) then p.(bounces := p.bounces + 1, lastbounce := now)
    else p.(bounces := p.bounces + 1)
  }

  /** Two bounces that both play effects are at least 100 ms apart. */
  lemma BounceEffectsSpaced(p: Projectile, t1: int, t2: int)
    requires IsValidProjectile(p.projtype)
    requires BounceEffects(p, t1) && BounceEffects(Bounced(p, t1), t2)
    ensures t2 - t1 >= 100
  {
  }

  /** Once the count has reached a nonzero limit, no further bounce plays effects. */
  lemma BounceEffectsExhausted(p: Projectile, now: int)
    requires IsValidProjectile(p.projtype)
    requires Projs()[p.projtype].maxbounces != 0 && p.bounces >= Projs()[p.projtype].maxbounces
    ensures !BounceEffects(p, now)
    ensures !BounceEffects(Bounced(p, now), now + 100)
  {
  }

  function Min(a: int, b: int): int
  {
    if a <= b then a else b
  }

  /**
   * The junk countdown from `rtime` milliseconds left, chunk `c` next: each
   * chunk of at most 80 ms is taken off the lifetime, and the projectile is
   * marked destroyed when the lifetime goes negative or, for a bouncing
   * kind, when the physics step of that chunk reports a bounce (not asked
   * once the lifetime is negative).
   */
  function JunkCountdown(p: Projectile, rtime: int, c: nat, bounced: nat -> bool): (q: Projectile)
    ensures q == p.(lifetime := q.lifetime, isdestroyed := q.isdestroyed)
    ensures p.isdestroyed ==> q.isdestroyed
    ensures q.lifetime == p.lifetime - Max(rtime, 0)
    decreases rtime
  {
    if rtime <= 0 then p
    else
      var qtime := Min(80, rtime);
      var life := p.lifetime - qtime;
      var gone := life < 0 || (Has(p.flags, ProjFlag_Bounce) && bounced(c));
      JunkCountdown(p.(lifetime := life, isdestroyed := p.isdestroyed || gone), rtime - qtime, c + 1, bounced)
  }

  /** `checklifetime` as a function of the record. */
  function Lifetime(p: Projectile, time: int, bounced: nat -> bool): (q: Projectile)
    ensures q == p.(lifetime := q.lifetime, isdestroyed := q.isdestroyed)
    ensures p.isdestroyed ==> q.isdestroyed
  {
    if IsWeaponProjectile(p.projtype) then
      var life := p.lifetime - time;
      p.(lifetime := life, isdestroyed := p.isdestroyed || life < 0)
    else if Has(p.flags, ProjFlag_Junk) then JunkCountdown(p, time, 0, bounced)
    else p
  }

  /**
   * `checklifetime`: a weapon projectile's lifetime drops by `time` and it is
   * destroyed once negative; junk counts down in chunks of at most 80 ms that
   * add up to `time`. Only the lifetime and the destroyed flag change, and
   * the flag is never cleared.
   */
  method CheckLifetime(p: Projectile, time: int, bounced: nat -> bool) returns (q: Projectile)
    ensures q == Lifetime(p, time, bounced)
    ensures q == p.(lifetime := q.lifetime, isdestroyed := q.isdestroyed)
    ensures p.isdestroyed ==> q.isdestroyed
    ensures IsWeaponProjectile(p.projtype) ==>
      q.lifetime == p.lifetime - time && (q.isdestroyed <==> p.isdestroyed || q.lifetime < 0)
    ensures !IsWeaponProjectile(p.projtype) && Has(p.flags, ProjFlag_Junk) ==>
      q.lifetime == p.lifetime - Max(time, 0)
      && (time > 0 && q.lifetime < 0 ==> q.isdestroyed)
      && (!Has(p.flags, ProjFlag_Bounce) ==> (q.isdestroyed <==> p.isdestroyed || (time > 0 && q.lifetime < 0)))
    ensures !IsWeaponProjectile(p.projtype) && !Has(p.flags, ProjFlag_Junk) ==> q == p
  {
    q := p;
    if IsWeaponProjectile(q.projtype) {
      q := q.(lifetime := q.lifetime - time);
      if q.lifetime < 0 {
        q := q.(isdestroyed := true);
      }
    } else if Has(q.flags, ProjFlag_Junk) {
      var rtime := time;
      var c: nat := 0;
      while rtime > 0
        invariant JunkCountdown(q, rtime, c, bounced) == JunkCountdown(p, time, 0, bounced)
        invariant q == p.(lifetime := q.lifetime, isdestroyed := q.isdestroyed)
        invariant time > 0 ==> 0 <= rtime <= time
        invariant time <= 0 ==> rtime == time
        invariant q.lifetime == p.lifetime - (time - rtime)
        invariant p.isdestroyed ==> q.isdestroyed
        invariant rtime < time && q.lifetime < 0 ==> q.isdestroyed
        invariant !Has(p.flags, ProjFlag_Bounce) ==>
          (q.isdestroyed <==> p.isdestroyed || (rtime < time && q.lifetime < 0))
        decreases rtime
      {
        var qtime := Min(80, rtime);
        rtime := rtime - qtime;
        q := q.(lifetime := q.lifetime - qtime);
        if q.lifetime < 0 || (Has(q.flags, ProjFlag_Bounce) && bounced(c)) {
          q := q.(isdestroyed := true);
        }
        c := c + 1;
      }
    }
  }

  /** What the world answers about one projectile during one tick. */
  datatype TickInput = TickInput(
    near: seq<bool>,        // per entity: inside the broad-phase box of the direct-hit search
    intersects: seq<bool>,  // per entity: the projectile intersects it
    bounced: nat -> bool,   // per 80 ms chunk: the junk physics step reports a bounce
    inLava: bool,
    nearTarget: bool,       // a linear projectile is within 4 units of its target
    targetMoved: bool,      // its position differs from the recorded target
    clearAhead: bool,       // the ray towards the target is clear for at least 4 units
    isBouncing: bool,       // `isbouncing` for a bouncing projectile
    inWater: bool)

  /** The dynamic entities, and whether the game is between rounds. */
  datatype World = World(ents: seq<DynEnt>, betweenrounds: bool)

  /** The inputs cover every entity, and the owner is one of them. */
  predicate Fits(p: Projectile, inp: TickInput, w: World)
  {
    |inp.near| == |w.ents| && |inp.intersects| == |w.ents| && p.owner < |w.ents|
  }

  /** The owner's side of a damage calculation. */
  function OwnerOf(p: Projectile, w: World): Fighter
    requires p.owner < |w.ents|
  {
    w.ents[p.owner].fighter
  }

  /** Entity `j` stops a local linear projectile: not its owner, in the broad phase, and `candealdamage` accepts it. */
  predicate Stops(p: Projectile, inp: TickInput, w: World, j: int)
    requires WellFormed(p) && Has(p.flags, ProjFlag_Linear) && Fits(p, inp, w)
  {
    && 0 <= j < |w.ents| && j != p.owner && inp.near[j]
    && CanDealDamage(w.ents[j], j, p, inp.intersects[j], Attack(p.atk).damage, OwnerOf(p, w), w.betweenrounds).0
  }

  /** The first entity from `j` on that stops the projectile. */
  function FirstStop(p: Projectile, inp: TickInput, w: World, j: nat): (r: Option<nat>)
    requires WellFormed(p) && Has(p.flags, ProjFlag_Linear) && Fits(p, inp, w)
    ensures r.None? ==> forall k :: j <= k < |w.ents| ==> !Stops(p, inp, w, k)
    ensures r.Some? ==> j <= r.value < |w.ents| && Stops(p, inp, w, r.value)
                        && forall k :: j <= k < r.value ==> !Stops(p, inp, w, k)
    decreases |w.ents| - j
  {
    if j >= |w.ents| then None
    else if Stops(p, inp, w, j) then Some(j)
    else FirstStop(p, inp, w, j + 1)
  }

  /**
   * The direct-hit search of a local linear projectile: scan the entities
   * in order, skipping the owner and those outside the broad phase, and stop
   * at the first one `candealdamage` accepts, keeping the hit it hands on.
   */
  method FindDirectHit(p: Projectile, inp: TickInput, w: World) returns (hit: Option<nat>, hits: seq<HitRecord>)
    requires WellFormed(p) && Has(p.flags, ProjFlag_Linear) && Fits(p, inp, w)
    ensures hit == FirstStop(p, inp, w, 0)
    ensures hit.None? ==> hits == []
    ensures hit.Some? ==> hits == CanDealDamage(w.ents[hit.value], hit.value, p, inp.intersects[hit.value],
                                                Attack(p.atk).damage, OwnerOf(p, w), w.betweenrounds).1
  {
    hit, hits := None, [];
    var j := 0;
    while j < |w.ents|
      invariant 0 <= j <= |w.ents|
      invariant FirstStop(p, inp, w, j) == FirstStop(p, inp, w, 0)
    {
      if j != p.owner && inp.near[j] {
        var dealt := CanDealDamage(w.ents[j], j, p, inp.intersects[j], Attack(p.atk).damage, OwnerOf(p, w), w.betweenrounds);
        if dealt.0 {
          hit, hits := Some(j), dealt.1;
          return;
        }
      }
      j := j + 1;
    }
  }

  /** The direct-hit phase: a local linear projectile that something stops is destroyed as a direct hit. */
  function DirectPhase(p: Projectile, inp: TickInput, w: World): (r: (Projectile, seq<HitRecord>))
    requires WellFormed(p) && Fits(p, inp, w)
    ensures r.0 == p || r.0 == p.(isdestroyed := true, isdirect := true)
    ensures r.1 != [] ==> r.0.isdestroyed && r.0.isdirect
  {
    if Has(p.flags, ProjFlag_Linear) && p.islocal && !w.betweenrounds then
      match FirstStop(p, inp, w, 0)
      case None => (p, [])
      case Some(j) =>
        (p.(isdestroyed := true, isdirect := true),
         CanDealDamage(w.ents[j], j, p, inp.intersects[j], Attack(p.atk).damage, OwnerOf(p, w), w.betweenrounds).1)
    else (p, [])
  }

  /** How a projectile leaves its step. */
  datatype Outcome =
    | Kept        // stays in the list
    | Retargeted  // the step was cut short to re-aim at a moving target; stays in the list
    | Removed     // destroyed and taken out of the list

  datatype TickResult = TickResult(proj: Projectile, hits: seq<HitRecord>, outcome: Outcome)

  /** The re-aim case that cuts a linear impact projectile's step short. */
  predicate Reaims(p: Projectile, inp: TickInput): (r: bool)
    ensures ExactlyOne(p.flags, ProjFlag_Bounce, ProjFlag_Linear) && Has(p.flags, ProjFlag_Bounce) ==> !r
    ensures !inp.nearTarget || !inp.targetMoved || !inp.clearAhead ==> !r
  {
    Has(p.flags, ProjFlag_Linear) && Has(p.flags, ProjFlag_Impact) && inp.nearTarget && inp.targetMoved && inp.clearAhead
  }

  /** A bouncing weapon projectile is spent when it stopped bouncing or used up a nonzero bounce limit. */
  predicate Spent(p: Projectile, inp: TickInput): (r: bool)
    requires IsValidProjectile(p.projtype)
    ensures !Has(p.flags, ProjFlag_Bounce) ==> !r
    ensures Projs()[p.projtype].maxbounces == 0 && inp.isBouncing ==> !r
    ensures r ==> IsWeaponProjectile(p.projtype)
  {
    var maxbounces := Projs()[p.projtype].maxbounces;
    IsWeaponProjectile(p.projtype) && Has(p.flags, ProjFlag_Bounce)
    && (!inp.isBouncing || (maxbounces != 0 && p.bounces >= maxbounces))
  }

  /** The checks after the lifetime countdown, up to the liquid transition. */
  function Hazards(p: Projectile, inp: TickInput): (q: Projectile)
    requires IsValidProjectile(p.projtype)
    ensures q == p.(isdestroyed := q.isdestroyed)
    ensures q.isdestroyed <==> (p.isdestroyed
                               || (Has(p.flags, ProjFlag_Linear) && Has(p.flags, ProjFlag_Impact) && inp.nearTarget)
                               || Spent(p, inp)
                               || (inp.inWater && Has(p.flags, ProjFlag_Quench)))
  {
    var p1 := if Has(p.flags, ProjFlag_Linear) && Has(p.flags, ProjFlag_Impact) && inp.nearTarget
              then p.(isdestroyed := true) else p;
    var p2 := if Spent(p1, inp) then p1.(isdestroyed := true) else p1;
    if inp.inWater && Has(p2.flags, ProjFlag_Quench) then p2.(isdestroyed := true) else p2
  }

  /** The end of the step: a destroyed projectile is removed; a surviving bouncing one decays its offset time. */
  function Finish(p: Projectile, time: int, hits: seq<HitRecord>): (r: TickResult)
    ensures r.outcome == Removed <==> p.isdestroyed
    ensures r.outcome != Retargeted && r.hits == hits
    ensures r.outcome == Kept && Has(p.flags, ProjFlag_Bounce) ==> r.proj == p.(offsetmillis := Max(p.offsetmillis - time, 0))
    ensures !(r.outcome == Kept && Has(p.flags, ProjFlag_Bounce)) ==> r.proj == p
  {
    if p.isdestroyed then TickResult(p, hits, Removed)
    else if Has(p.flags, ProjFlag_Bounce) then TickResult(p.(offsetmillis := Max(p.offsetmillis - time, 0)), hits, Kept)
    else TickResult(p, hits, Kept)
  }

  /** One projectile's step of `updateprojectiles`. */
  function Tick(p: Projectile, time: int, inp: TickInput, w: World): (r: TickResult)
    requires WellFormed(p) && Fits(p, inp, w)
    ensures r.proj.owner == p.owner && r.proj.projtype == p.projtype && r.proj.flags == p.flags
    ensures r.proj.atk == p.atk && r.proj.bounces == p.bounces && r.proj.variant == p.variant
    ensures r.proj.offsetmillis >= 0
  {
    var p1 := UpdatePosition(p, time);
    var (p2, hits) := DirectPhase(p1, inp, w);
    if p2.isdestroyed then Finish(p2, time, hits)
    else
      var p3 := Lifetime(p2, time, inp.bounced);
      var p4 := if inp.inLava then p3.(isdestroyed := true) else p3;
      if Reaims(p4, inp) then TickResult(p4, hits, Retargeted)
      else Finish(Hazards(p4, inp), time, hits)
  }

  /** `updateprojectiles`' body for one projectile. */
  method TickOne(p: Projectile, time: int, inp: TickInput, w: World) returns (r: TickResult)
    requires WellFormed(p) && Fits(p, inp, w)
    ensures r == Tick(p, time, inp, w)
  {
    var q := UpdatePosition(p, time);
    ghost var p1 := q;
    var hits: seq<HitRecord> := [];
    if Has(q.flags, ProjFlag_Linear) && q.islocal && !w.betweenrounds {
      var hit;
      hit, hits := FindDirectHit(q, inp, w);
      if hit.Some? {
        q := q.(isdestroyed := true, isdirect := true);
      }
    }
    assert (q, hits) == DirectPhase(p1, inp, w);
    if q.isdestroyed {
      return Finish(q, time, hits);
    }
    q := CheckLifetime(q, time, inp.bounced);
    if inp.inLava {
      q := q.(isdestroyed := true);
    }
    assert q.projtype == p.projtype && IsValidProjectile(q.projtype);
    if Reaims(q, inp) {
      return TickResult(q, hits, Retargeted);
    }
    r := Finish(Hazards(q, inp), time, hits);
  }

  /** Well-formedness only depends on the kind, flags, attack, bounce count, offset time and variant. */
  lemma WellFormedFrame(p: Projectile, q: Projectile)
    requires WellFormed(p)
    requires q.projtype == p.projtype && q.flags == p.flags && q.atk == p.atk
    requires q.bounces == p.bounces && q.variant == p.variant && q.offsetmillis >= 0
    ensures WellFormed(q)
  {
  }

  /** A step keeps the record well formed. */
  lemma TickWellFormed(p: Projectile, time: int, inp: TickInput, w: World)
    requires WellFormed(p) && Fits(p, inp, w)
    ensures WellFormed(Tick(p, time, inp, w).proj)
  {
    WellFormedFrame(p, Tick(p, time, inp, w).proj);
  }

  /** What a step keeps is destroyed only when the step was cut short to re-aim. */
  lemma TickOutcome(p: Projectile, time: int, inp: TickInput, w: World)
    requires WellFormed(p) && Fits(p, inp, w)
    ensures Tick(p, time, inp, w).outcome == Removed ==> Tick(p, time, inp, w).proj.isdestroyed
    ensures Tick(p, time, inp, w).outcome == Kept ==> !Tick(p, time, inp, w).proj.isdestroyed
    ensures Tick(p, time, inp, w).outcome == Retargeted ==>
      Has(p.flags, ProjFlag_Linear) && Has(p.flags, ProjFlag_Impact) && !p.isdestroyed
  {
  }

  /** A bouncing weapon projectile that used up a nonzero bounce limit, or stopped bouncing, is removed. */
  lemma TickSpentRemoved(p: Projectile, time: int, inp: TickInput, w: World)
    requires WellFormed(p) && Fits(p, inp, w)
    requires IsWeaponProjectile(p.projtype) && Has(p.flags, ProjFlag_Bounce)
    requires !inp.isBouncing || (Projs()[p.projtype].maxbounces != 0 && p.bounces >= Projs()[p.projtype].maxbounces)
    ensures Tick(p, time, inp, w).outcome == Removed
  {
  }

  /** A surviving bouncing projectile's offset time counts down by `time` and stops at zero. */
  lemma TickOffsetDecays(p: Projectile, time: int, inp: TickInput, w: World)
    requires WellFormed(p) && Fits(p, inp, w) && Has(p.flags, ProjFlag_Bounce)
    ensures Tick(p, time, inp, w).outcome != Removed ==>
      Tick(p, time, inp, w).proj.offsetmillis == Max(p.offsetmillis - time, 0) >= 0
  {
  }

  /**
   * A weapon projectile whose lifetime runs out, or a quenched kind in water,
   * is removed in the same step unless the step is cut short to re-aim.
   */
  lemma TickExpiryRemoved(p: Projectile, time: int, inp: TickInput, w: World)
    requires WellFormed(p) && Fits(p, inp, w)
    requires (IsWeaponProjectile(p.projtype) && p.lifetime - time < 0) || (inp.inWater && Has(p.flags, ProjFlag_Quench))
    requires !(inp.nearTarget && inp.targetMoved && inp.clearAhead)
    ensures Tick(p, time, inp, w).outcome == Removed
  {
  }

  /** A projectile destroyed by the direct-hit phase is removed as a direct hit, whatever else the step sees. */
  lemma TickDirectHitRemoved(p: Projectile, time: int, inp: TickInput, w: World)
    requires WellFormed(p) && Fits(p, inp, w)
    requires Has(p.flags, ProjFlag_Linear) && p.islocal && !w.betweenrounds
    requires FirstStop(UpdatePosition(p, time), inp, w, 0).Some?
    ensures Tick(p, time, inp, w).outcome == Removed && Tick(p, time, inp, w).proj.isdirect
  {
  }
}
