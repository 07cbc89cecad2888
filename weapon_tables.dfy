/**
 * Static weapon configuration (source/game/weapon.h): hit flags, the
 * action, attack and gun enumerations with their range checks, the
 * combat constants, and the constant `attacks[]` and `guns[]` tables.
 */
module WeaponInfo {
  import opened ProjectileInfo

  /** Hit flags: context on how a target was hit; one bit each. */
  type HitFlags = bv32

  const HIT_TORSO: HitFlags    := 1
  const HIT_LEGS: HitFlags     := 2
  const HIT_HEAD: HitFlags     := 4
  const HIT_MATERIAL: HitFlags := 8
  const HIT_DIRECT: HitFlags   := 16

  /** The hit flags, in declaration order. */
  function HitFlagList(): (fs: seq<HitFlags>)
    ensures |fs| == 5
    ensures forall i :: 0 <= i < |fs| ==> fs[i] != 0 && fs[i] & (fs[i] - 1) == 0
    ensures forall i, j :: 0 <= i < |fs| && 0 <= j < |fs| && i != j ==> fs[i] & fs[j] == 0
  {
    [HIT_TORSO, HIT_LEGS, HIT_HEAD, HIT_MATERIAL, HIT_DIRECT]
  }

  /** Because the hit flags are distinct single bits, OR-ing one in never disturbs the test for another. */
  lemma HitFlagsLossless(flags: HitFlags, i: int, j: int)
    requires 0 <= i < |HitFlagList()| && 0 <= j < |HitFlagList()| && i != j
    ensures ((flags | HitFlagList()[i]) & HitFlagList()[j] != 0) == (flags & HitFlagList()[j] != 0)
  {
    OrDisjoint(flags, HitFlagList()[i], HitFlagList()[j]);
  }

  /** A hit flag OR-ed into a set always tests set. */
  lemma HitFlagSets(flags: HitFlags, i: int)
    requires 0 <= i < |HitFlagList()|
    ensures (flags | HitFlagList()[i]) & HitFlagList()[i] != 0
  {
    OrSets(flags, HitFlagList()[i]);
  }

  /** A flag OR-ed in tests set. */
  lemma OrSets(flags: HitFlags, a: HitFlags)
    requires a in HitFlagList()
    ensures (flags | a) & a != 0
  {
  }

  /** OR-ing in one flag leaves the test for a different flag as it was. */
  lemma OrDisjoint(flags: HitFlags, a: HitFlags, b: HitFlags)
    requires a in HitFlagList() && b in HitFlagList() && a != b
    ensures ((flags | a) & b != 0) == (flags & b != 0)
  {
  }

  /** Player actions. */
  const ACT_IDLE: int      := 0
  const ACT_MELEE: int     := 1
  const ACT_PRIMARY: int   := 2
  const ACT_SECONDARY: int := 3
  const NUMACTS: int       := 4

  /** The range check `validact`. */
  predicate ValidAct(act: int)
  {
    act >= 0 && act < NUMACTS
  }

  /** The range check accepts exactly the declared actions. */
  lemma ValidActDeclared(act: int)
    ensures ValidAct(act) <==> act in {ACT_IDLE, ACT_MELEE, ACT_PRIMARY, ACT_SECONDARY}
  {
  }

  /** Attacks. */
  const ATK_MELEE: int        := 0
  const ATK_MELEE2: int       := 1
  const ATK_SCATTER1: int     := 2
  const ATK_SCATTER2: int     := 3
  const ATK_SMG1: int         := 4
  const ATK_SMG2: int         := 5
  const ATK_PULSE1: int       := 6
  const ATK_PULSE2: int       := 7
  const ATK_ROCKET1: int      := 8
  const ATK_ROCKET2: int      := 9
  const ATK_RAIL1: int        := 10
  const ATK_RAIL2: int        := 11
  const ATK_GRENADE1: int     := 12
  const ATK_GRENADE2: int     := 13
  const ATK_PISTOL1: int      := 14
  const ATK_PISTOL2: int      := 15
  const ATK_PISTOL_COMBO: int := 16
  const ATK_INSTA: int        := 17
  const ATK_ZOMBIE: int       := 18
  const NUMATKS: int          := 19

  /** The range check `validatk`. */
  predicate ValidAtk(atk: int)
  {
    atk >= 0 && atk < NUMATKS
  }

  /** The range check accepts exactly the declared attacks, which are exactly the rows of the attack table. */
  lemma ValidAtkDeclared(atk: int)
    ensures ValidAtk(atk) <==> atk in {ATK_MELEE, ATK_MELEE2, ATK_SCATTER1, ATK_SCATTER2, ATK_SMG1, ATK_SMG2,
                                       ATK_PULSE1, ATK_PULSE2, ATK_ROCKET1, ATK_ROCKET2, ATK_RAIL1, ATK_RAIL2,
                                       ATK_GRENADE1, ATK_GRENADE2, ATK_PISTOL1, ATK_PISTOL2, ATK_PISTOL_COMBO,
                                       ATK_INSTA, ATK_ZOMBIE}
    ensures ValidAtk(atk) <==> 0 <= atk < |Attacks()|
  {
  }

  /** Guns. */
  const GUN_SCATTER: int := 0
  const GUN_SMG: int     := 1
  const GUN_PULSE: int   := 2
  const GUN_ROCKET: int  := 3
  const GUN_RAIL: int    := 4
  const GUN_GRENADE: int := 5
  const GUN_PISTOL: int  := 6
  const GUN_INSTA: int   := 7
  const GUN_ZOMBIE: int  := 8
  const NUMGUNS: int     := 9

  /** The range check `validgun`. */
  predicate ValidGun(gun: int)
  {
    gun >= 0 && gun < NUMGUNS
  }

  /** The range check accepts exactly the declared guns, which are exactly the rows of the gun table. */
  lemma ValidGunDeclared(gun: int)
    ensures ValidGun(gun) <==> gun in {GUN_SCATTER, GUN_SMG, GUN_PULSE, GUN_ROCKET, GUN_RAIL,
                                       GUN_GRENADE, GUN_PISTOL, GUN_INSTA, GUN_ZOMBIE}
    ensures ValidGun(gun) <==> 0 <= gun < |Guns()|
  {
  }

  /** The most rays one attack may shoot; it sizes the per-ray buffers. */
  const GUN_MAXRAYS: int := 20

  /** Divisor for damage dealt to oneself or to an ally. */
  const DAM_ALLYDIV: int := 2

  /** Explosion damage falls off with distance over this multiple of the blast radius. */
  const EXP_DISTSCALE: real := 1.5

  /**
   * One row of `attacks[]`. Animation and sound ids are presentation and
   * are left out.
   */
  datatype AttackInfo = AttackInfo(
    gun: int, action: int, projectile: int, attackdelay: int, damage: int, headshotdam: int,
    spread: int, margin: int, projspeed: int, kickamount: int, range: int, rays: int,
    hitpush: int, exprad: int, lifetime: int, use: int,
    gravity: real, elasticity: real, isloop: bool, isfullauto: bool)

  /**
   * The attack table, indexed by attack id. The two melee rows give `NULL`
   * as their gun, which the compiler reads as 0 (the scattergun).
   */
  function Attacks(): (t: seq<AttackInfo>)
    ensures |t| == NUMATKS
    ensures forall a :: 0 <= a < |t| ==> 1 <= t[a].rays <= GUN_MAXRAYS
    ensures forall a :: 0 <= a < |t| ==> t[a].projectile == -1 || IsValidProjectile(t[a].projectile)
    ensures forall a :: 0 <= a < |t| ==> ValidGun(t[a].gun) && ValidAct(t[a].action) && t[a].action != ACT_IDLE
    ensures forall a :: 0 <= a < |t| ==>
      t[a].attackdelay > 0 && t[a].damage >= 0 && t[a].headshotdam >= 0 && t[a].use >= 0 && t[a].exprad >= 0
  {
    [ // melee: default melee for all weapons
      AttackInfo(0,           ACT_MELEE,     -1,                  650,  60,  0,   0, 2,    0,  0,   14,  1,  50,  0,    0, 0, 0.0, 0.0, false, false),
      AttackInfo(0,           ACT_MELEE,     -1,                  420,  25,  0,   0, 1,    0,  0,   16,  1,  50,  0,    0, 0, 0.0, 0.0, false, false),
      // scattergun
      AttackInfo(GUN_SCATTER, ACT_PRIMARY,   Projectile_Bullet,   880,   5,  5, 260, 0, 1200, 20, 1000, 20,  60,  0,    0, 1, 0.0, 0.0, false, true),
      AttackInfo(GUN_SCATTER, ACT_SECONDARY, Projectile_Bullet,   980,   6,  5, 120, 0, 1200, 25, 1000, 10,  60,  0,    0, 1, 0.0, 0.0, false, true),
      // smg
      AttackInfo(GUN_SMG,     ACT_PRIMARY,   Projectile_Bullet,   110,  16, 14,  84, 0, 1500,  7, 1000,  1,  60,  0,    0, 1, 0.0, 0.0, false, true),
      AttackInfo(GUN_SMG,     ACT_SECONDARY, Projectile_Bullet,   160,  17, 15,  30, 0, 1500, 10, 1000,  1,  80,  0,    0, 1, 0.0, 0.0, false, true),
      // pulse
      AttackInfo(GUN_PULSE,   ACT_PRIMARY,   Projectile_Pulse,    180,  22,  0,   0, 1, 1000,  8, 2048,  1,  80, 18, 3000, 2, 0.0, 0.0, false, true),
      AttackInfo(GUN_PULSE,   ACT_SECONDARY, -1,                   80,  14,  0,   0, 0,    0,  2,  200,  1, 150,  0,    0, 1, 0.0, 0.0, true,  true),
      // rocket
      AttackInfo(GUN_ROCKET,  ACT_PRIMARY,   Projectile_Rocket,   920, 110,  0,   0, 0,  300,  0, 2048,  1, 110, 33, 5000, 1, 0.0, 0.0, false, false),
      AttackInfo(GUN_ROCKET,  ACT_SECONDARY, Projectile_Rocket2,  920, 110,  0,   0, 0,  300,  0, 2048,  1, 110, 33, 2000, 1, 0.6, 0.7, false, false),
      // railgun
      AttackInfo(GUN_RAIL,    ACT_PRIMARY,   Projectile_Bullet,  1200,  70, 30,   0, 0, 2000, 30, 5000,  1, 100,  0,    0, 1, 0.0, 0.0, false, false),
      AttackInfo(GUN_RAIL,    ACT_SECONDARY, Projectile_Bullet,  1400, 100, 10,   0, 0, 2000, 30, 5000,  1, 100,  0,    0, 1, 0.0, 0.0, false, false),
      // grenade launcher
      AttackInfo(GUN_GRENADE, ACT_PRIMARY,   Projectile_Grenade,  650,  90,  0,   0, 0,  200, 10, 2024,  1, 250, 45, 1500, 1, 0.7, 0.8, false, true),
      AttackInfo(GUN_GRENADE, ACT_SECONDARY, Projectile_Grenade2, 750,  90,  0,   0, 0,  190, 10, 2024,  1, 200, 35, 2000, 1, 1.0, 0.0, false, true),
      // pistol
      AttackInfo(GUN_PISTOL,  ACT_PRIMARY,   Projectile_Bullet,   300,  18, 17,  60, 0, 1500, 12, 1000,  1, 180,  0,    0, 1, 0.0, 0.0, false, false),
      AttackInfo(GUN_PISTOL,  ACT_SECONDARY, Projectile_Plasma,   600,  15,  0,   0, 5,  400, 15, 2048,  1, 500,  8, 2000, 2, 0.0, 0.0, false, false),
      AttackInfo(GUN_PISTOL,  ACT_SECONDARY, -1,                 1000,  80,  0,   0, 0,  400,  0, 2048,  1, 350, 50,    0, 0, 0.0, 0.0, false, false),
      // instagib
      AttackInfo(GUN_INSTA,   ACT_PRIMARY,   -1,                 1200,   1,  0,   0, 0,    0, 36, 4000,  1,   1,  0,    0, 0, 0.0, 0.0, false, true),
      // zombie
      AttackInfo(GUN_ZOMBIE,  ACT_PRIMARY,   -1,                  600, 100,  0,   0, 4,    0,  0,   15,  1,  20,  0,    0, 0, 0.0, 0.0, false, false) ]
  }

  /** The row of a valid attack id. */
  function Attack(atk: int): AttackInfo
    requires ValidAtk(atk)
  {
    Attacks()[atk]
  }

  /** One row of `guns[]` (model names, zoom and switch sound are left out). */
  datatype GunInfo = GunInfo(name: string, attacks: seq<int>)

  /** The gun table, indexed by gun id; `attacks` is indexed by action. */
  function Guns(): (t: seq<GunInfo>)
    ensures |t| == NUMGUNS
    ensures forall g :: 0 <= g < |t| ==> |t[g].name| > 0 && |t[g].attacks| == NUMACTS
    ensures forall g :: 0 <= g < |t| ==> t[g].attacks[ACT_IDLE] == -1
    ensures forall g, act :: 0 <= g < |t| && ACT_MELEE <= act < NUMACTS ==> ValidAtk(t[g].attacks[act])
    ensures forall g, act :: 0 <= g < |t| && ACT_PRIMARY <= act < NUMACTS ==>
      ValidAtk(t[g].attacks[act]) && Attacks()[t[g].attacks[act]].gun == g
  {
    [ GunInfo("scattergun", [-1, ATK_MELEE,  ATK_SCATTER1, ATK_SCATTER2]),
      GunInfo("smg",        [-1, ATK_MELEE,  ATK_SMG1,     ATK_SMG2]),
      GunInfo("pulse",      [-1, ATK_MELEE,  ATK_PULSE1,   ATK_PULSE2]),
      GunInfo("rocket",     [-1, ATK_MELEE,  ATK_ROCKET1,  ATK_ROCKET2]),
      GunInfo("railgun",    [-1, ATK_MELEE,  ATK_RAIL1,    ATK_RAIL2]),
      GunInfo("grenade",    [-1, ATK_MELEE,  ATK_GRENADE1, ATK_GRENADE2]),
      GunInfo("pistol",     [-1, ATK_MELEE,  ATK_PISTOL1,  ATK_PISTOL2]),
      GunInfo("instagun",   [-1, ATK_MELEE,  ATK_INSTA,    ATK_INSTA]),
      GunInfo("zombie",     [-1, ATK_ZOMBIE, ATK_ZOMBIE,   ATK_ZOMBIE]) ]
  }

  /** The attack a gun fires for a non-idle action. */
  function GunAttack(gun: int, act: int): (atk: int)
    requires ValidGun(gun) && ValidAct(act) && act != ACT_IDLE
    ensures ValidAtk(atk)
    ensures act != ACT_MELEE ==> Attack(atk).gun == gun
  {
    Guns()[gun].attacks[act]
  }
}
