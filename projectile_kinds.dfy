/**
 * Projectile kinds and the projectile record (source/game/projectile.h):
 * the projectile-flag bitset, the kind enumeration with its range check,
 * the constant `projs[]` table, and the record a live projectile is, with
 * the setters the spawn operation applies to it.
 */
module ProjectileInfo {
  import opened Wrappers

  /** Milliseconds over which the cosmetic muzzle offset of a new projectile decays to zero. */
  const OFFSETMILLIS: int := 500

  /** Projectile flags: one bit each, combined with `|` and tested with `&`. */
  type ProjFlags = bv32

  const ProjFlag_Weapon: ProjFlags   := 1
  const ProjFlag_Junk: ProjFlags     := 2
  const ProjFlag_Bounce: ProjFlags   := 4
  const ProjFlag_Linear: ProjFlags   := 8
  const ProjFlag_Impact: ProjFlags   := 16
  const ProjFlag_Quench: ProjFlags   := 32
  const ProjFlag_Immortal: ProjFlags := 64

  /** True when `flag` is set in `flags`. */
  predicate Has(flags: ProjFlags, flag: ProjFlags)
  {
    flags & flag != 0
  }

  /** Projectile kinds. */
  const Projectile_Grenade: int  := 0
  const Projectile_Grenade2: int := 1
  const Projectile_Rocket: int   := 2
  const Projectile_Rocket2: int  := 3
  const Projectile_Pulse: int    := 4
  const Projectile_Plasma: int   := 5
  const Projectile_Gib: int      := 6
  const Projectile_Debris: int   := 7
  const Projectile_Eject: int    := 8
  const Projectile_Bullet: int   := 9
  const Projectile_Max: int      := 10

  /** The range check `isvalidprojectile`. */
  predicate IsValidProjectile(kind: int)
  {
    kind >= 0 && kind < Projectile_Max
  }

  /** The range check accepts exactly the declared kinds, which are exactly the rows of the kind table. */
  lemma IsValidProjectileDeclared(kind: int)
    ensures IsValidProjectile(kind) <==> kind in {Projectile_Grenade, Projectile_Grenade2, Projectile_Rocket,
                                                  Projectile_Rocket2, Projectile_Pulse, Projectile_Plasma,
                                                  Projectile_Gib, Projectile_Debris, Projectile_Eject, Projectile_Bullet}
    ensures IsValidProjectile(kind) <==> 0 <= kind < |Projs()|
  {
  }

  /**
   * The sounds a projectile kind names. Their numeric ids belong to the
   * engine's sound enumeration, which is not part of this model; a -1 entry
   * of the table (no sound) is `None`, and every named sound is a valid one.
   */
  datatype Sound = BounceGrenade | BounceRocket | BounceEject | RocketLoop | PulseLoop | PistolLoop

  predicate ValidSound(s: Option<Sound>)
  {
    s.Some?
  }

  /** One row of `projs[]` (model directory and collision radius are left out). */
  datatype KindInfo = KindInfo(
    kind: int,
    flags: ProjFlags,
    bouncesound: Option<Sound>,
    loopsound: Option<Sound>,
    maxbounces: int,
    variants: int)

  /** True when exactly one of the two flags is set. */
  predicate ExactlyOne(flags: ProjFlags, a: ProjFlags, b: ProjFlags)
  {
    Has(flags, a) != Has(flags, b)
  }

  /** The projectile-kind table, indexed by kind. */
  function Projs(): (t: seq<KindInfo>)
    ensures |t| == Projectile_Max
    ensures forall k :: 0 <= k < |t| ==> t[k].kind == k
    ensures forall k :: 0 <= k < |t| ==> ExactlyOne(t[k].flags, ProjFlag_Weapon, ProjFlag_Junk)
    ensures forall k :: 0 <= k < |t| ==> ExactlyOne(t[k].flags, ProjFlag_Bounce, ProjFlag_Linear)
    ensures forall k :: 0 <= k < |t| ==> t[k].maxbounces >= 0 && t[k].variants >= 0
    ensures forall k :: 0 <= k < |t| && t[k].maxbounces != 0 ==> Has(t[k].flags, ProjFlag_Bounce)
  {
    [ KindInfo(Projectile_Grenade,  ProjFlag_Weapon | ProjFlag_Bounce,                  Some(BounceGrenade), None, 0, 0),
      KindInfo(Projectile_Grenade2, ProjFlag_Weapon | ProjFlag_Bounce | ProjFlag_Impact, Some(BounceGrenade), None, 0, 0),
      KindInfo(Projectile_Rocket,   ProjFlag_Weapon | ProjFlag_Linear | ProjFlag_Impact, None, Some(RocketLoop), 0, 0),
      KindInfo(Projectile_Rocket2,  ProjFlag_Weapon | ProjFlag_Bounce,                  Some(BounceRocket), None, 2, 0),
      KindInfo(Projectile_Pulse,    ProjFlag_Weapon | ProjFlag_Linear | ProjFlag_Quench | ProjFlag_Impact | ProjFlag_Immortal,
                                    Some(BounceRocket), Some(PulseLoop), 0, 0),
      KindInfo(Projectile_Plasma,   ProjFlag_Weapon | ProjFlag_Linear | ProjFlag_Quench | ProjFlag_Impact | ProjFlag_Immortal,
                                    Some(BounceRocket), Some(PistolLoop), 0, 0),
      KindInfo(Projectile_Gib,      ProjFlag_Junk | ProjFlag_Bounce,                    None, None, 2, 5),
      KindInfo(Projectile_Debris,   ProjFlag_Junk | ProjFlag_Bounce,                    None, None, 0, 0),
      KindInfo(Projectile_Eject,    ProjFlag_Junk | ProjFlag_Bounce,                    Some(BounceEject), None, 2, 0),
      KindInfo(Projectile_Bullet,   ProjFlag_Junk | ProjFlag_Linear,                    None, None, 0, 0) ]
  }

  /**
   * A kind is a weapon projectile when it is in range and its table row has
   * the Weapon flag; with the table as it stands these are the first six kinds.
   */
  predicate IsWeaponProjectile(kind: int): (r: bool)
    ensures r <==> Projectile_Grenade <= kind <= Projectile_Plasma
    ensures r ==> IsValidProjectile(kind)
  {
    IsValidProjectile(kind) && Has(Projs()[kind].flags, ProjFlag_Weapon)
  }

  /**
   * A live projectile. The source's record also carries position, velocity,
   * origin, target, offset vectors and a roll angle; those are geometry and
   * are not part of this model. `velScale` stands for the factor the unit
   * direction from origin to target is multiplied by at spawn.
   */
  datatype Projectile = Projectile(
    owner: nat,               // the firing actor, as an index into the dynamic entities
    projtype: int,
    flags: ProjFlags,
    islocal: bool,
    id: int,
    atk: int,
    lifetime: int,
    speed: int,
    gravity: real,
    elasticity: real,
    velScale: int,
    isdestroyed: bool,
    isdirect: bool,
    variant: int,
    bounces: int,
    offsetmillis: int,
    lastbounce: int,
    bouncesound: Option<Sound>,
    loopchan: int,
    loopsound: Option<Sound>)

  /**
   * The record as the default constructor leaves it. Fields that constructor
   * does not initialise are given 0 here; the spawn operation overwrites all
   * of them.
   */
  function Constructed(): (p: Projectile)
    ensures !p.isdestroyed && !p.isdirect
    ensures p.bounces == 0 && p.lastbounce == 0 && p.variant == 0
    ensures p.bouncesound == None && p.loopsound == None && p.loopchan == -1
  {
    Projectile(0, 0, 0, false, 0, 0, 0, 0, 0.0, 0.0, 0, false, false, 0, 0, 0, 0, None, -1, None)
  }

  /** `setflags`: the record takes its kind's flags; nothing else changes. */
  function SetFlags(p: Projectile): (q: Projectile)
    requires IsValidProjectile(p.projtype)
    ensures q == p.(flags := q.flags)
    ensures q.flags == Projs()[p.projtype].flags
    ensures Has(q.flags, ProjFlag_Weapon) <==> IsWeaponProjectile(p.projtype)
    ensures Has(q.flags, ProjFlag_Weapon) != Has(q.flags, ProjFlag_Junk)
    ensures Has(q.flags, ProjFlag_Bounce) != Has(q.flags, ProjFlag_Linear)
  {
    p.(flags := Projs()[p.projtype].flags)
  }

  /**
   * `setvariant`: a kind with cosmetic variants draws one of them; `roll`
   * stands for the engine's random draw, reduced modulo the variant count
   * as `rnd` does.
   */
  function SetVariant(p: Projectile, roll: nat): (q: Projectile)
    requires IsValidProjectile(p.projtype)
    ensures Projs()[p.projtype].variants == 0 ==> q == p
    ensures Projs()[p.projtype].variants > 0 ==>
      q == p.(variant := q.variant) && 0 <= q.variant < Projs()[p.projtype].variants
  {
    var variants := Projs()[p.projtype].variants;
    if variants > 0 then p.(variant := roll % variants) else p
  }

  /** `setsounds`: a sound field is overwritten only by a valid sound id from the kind's row. */
  function SetSounds(p: Projectile): (q: Projectile)
    requires IsValidProjectile(p.projtype)
    ensures q == p.(bouncesound := q.bouncesound, loopsound := q.loopsound)
    ensures q.bouncesound == p.bouncesound
         || (ValidSound(q.bouncesound) && q.bouncesound == Projs()[p.projtype].bouncesound)
    ensures q.loopsound == p.loopsound
         || (ValidSound(q.loopsound) && q.loopsound == Projs()[p.projtype].loopsound)
    ensures ValidSound(Projs()[p.projtype].bouncesound) ==> q.bouncesound == Projs()[p.projtype].bouncesound
    ensures ValidSound(Projs()[p.projtype].loopsound) ==> q.loopsound == Projs()[p.projtype].loopsound
  {
    var info := Projs()[p.projtype];
    var p1 := if ValidSound(info.bouncesound) then p.(bouncesound := info.bouncesound) else p;
    if ValidSound(info.loopsound) then p1.(loopsound := info.loopsound) else p1
  }

  function Max(a: int, b: int): int
  {
    if a >= b then a else b
  }

  /**
   * The integer part of `updateposition`: a linear projectile's cosmetic
   * offset time counts down by the elapsed time and stops at zero; a
   * bouncing one is left as it is (its offset decays later in the tick).
   */
  function UpdatePosition(p: Projectile, time: int): (q: Projectile)
    ensures q == p.(offsetmillis := q.offsetmillis)
    ensures Has(p.flags, ProjFlag_Linear) ==> q.offsetmillis == Max(p.offsetmillis - time, 0)
    ensures !Has(p.flags, ProjFlag_Linear) ==> q == p
    ensures Has(p.flags, ProjFlag_Linear) ==> q.offsetmillis >= 0
    ensures time >= 0 && p.offsetmillis >= 0 ==> 0 <= q.offsetmillis <= p.offsetmillis
  {
    if Has(p.flags, ProjFlag_Linear) then p.(offsetmillis := Max(p.offsetmillis - time, 0)) else p
  }
}
