/**
 * Damage arithmetic and hit aggregation (source/game/weapon.cpp):
 * `calcdamage`, the gating in `calcpush`, closest-target selection in
 * `intersectclosest`, the two branches of `hitscan`, and `canshoot`.
 *
 * Geometry is not modelled: whether a ray meets an entity's bounding
 * cylinder, and at what distance, is an input (`Option<Distance>` per
 * entity), as are the head and legs sub-hitbox tests. Entities are named
 * by their index in the engine's dynamic-entity list.
 */
module Damage {
  import opened Wrappers
  import opened ProjectileInfo
  import opened WeaponInfo

  /** Powerups an actor can hold; those the core never tests are `OtherPowerup`. */
  datatype Powerup = NoPowerup | DamageBoost | Haste | Armor | AmmoBoost | Invulnerability | OtherPowerup

  /** What damage calculation reads of an actor. */
  datatype Fighter = Fighter(health: int, powerup: Powerup, berserker: bool)

  /**
   * A dynamic entity as one attacker sees it: alive or not, its own status,
   * and two relations to the attacker decided elsewhere (`isally`,
   * `isinvulnerable`).
   */
  datatype DynEnt = DynEnt(alive: bool, fighter: Fighter, ally: bool, invulnerable: bool)

  /** The target of one damage calculation, with whether it is the attacker itself. */
  datatype Target = Target(who: Fighter, isActor: bool, ally: bool, invulnerable: bool)

  function TargetOf(e: DynEnt, isActor: bool): Target
  {
    Target(e.fighter, isActor, e.ally, e.invulnerable)
  }

  predicate HasFlag(flags: HitFlags, flag: HitFlags)
  {
    flags & flag != 0
  }

  /** C++ integer division, which truncates toward zero. */
  function TDiv(a: int, b: int): (q: int)
    requires b > 0
    ensures a >= 0 ==> q >= 0 && q * b <= a < q * b + b
    ensures a <= 0 ==> q <= 0 && q * b - b < a <= q * b
  {
    if a >= 0 then a / b else -((-a) / b)
  }

  /** An attack deals locational damage when it has headshot damage and does not fire a weapon projectile. */
  predicate Locational(atk: int)
    requires ValidAtk(atk)
  {
    Attack(atk).headshotdam != 0 && !IsWeaponProjectile(Attack(atk).projectile)
  }

  /** The Mayhem mutator's early return: a locational head hit kills outright. */
  predicate MayhemKill(atk: int, flags: HitFlags, mayhem: bool)
    requires ValidAtk(atk)
  {
    !HasFlag(flags, HIT_MATERIAL) && Locational(atk) && HasFlag(flags, HIT_HEAD) && mayhem
  }

  /** True when the target is shielded from this attacker (and is not the attacker). */
  predicate Shielded(target: Target)
  {
    !target.isActor && target.invulnerable
  }

  /**
   * `calcdamage`: zero for a shielded target; the target's whole health for
   * a Mayhem head shot; otherwise the headshot bonus and legs halving (for a
   * locational attack), doubling for a damage-boosted or berserker attacker,
   * division for self or ally (all skipped on a material hit), halving for an
   * armoured or berserker target, and a zero result raised to one.
   */
  function CalcDamage(damage: int, target: Target, actor: Fighter, atk: int, flags: HitFlags, mayhem: bool): (r: int)
    requires ValidAtk(atk)
    ensures Shielded(target) ==> r == 0
    ensures !Shielded(target) && MayhemKill(atk, flags, mayhem) ==> r == target.who.health
    ensures !Shielded(target) && !MayhemKill(atk, flags, mayhem) ==> r != 0
    ensures !Shielded(target) && !MayhemKill(atk, flags, mayhem) && damage >= 0 ==> r >= 1
  {
    if Shielded(target) then 0
    else if MayhemKill(atk, flags, mayhem) then target.who.health
    else
      var material := HasFlag(flags, HIT_MATERIAL);
      var d0 := if !material && Locational(atk) && HasFlag(flags, HIT_HEAD) then damage + Attack(atk).headshotdam else damage;
      var d1 := if !material && Locational(atk) && HasFlag(flags, HIT_LEGS) then TDiv(d0, 2) else d0;
      var d2 := if !material && (actor.powerup == DamageBoost || actor.berserker) then d1 * 2 else d1;
      var d3 := if !material && (target.ally || target.isActor) then TDiv(d2, DAM_ALLYDIV) else d2;
      var d4 := if target.who.powerup == Armor || target.who.berserker then TDiv(d3, 2) else d3;
      if d4 == 0 then 1 else d4
  }

  /** The result never goes negative for a non-negative base damage and a target with non-negative health. */
  lemma CalcDamageNonNegative(damage: int, target: Target, actor: Fighter, atk: int, flags: HitFlags, mayhem: bool)
    requires ValidAtk(atk) && damage >= 0 && target.who.health >= 0
    ensures CalcDamage(damage, target, actor, atk, flags, mayhem) >= 0
  {
  }

  /** Being an ally never increases the damage taken. */
  lemma CalcDamageAllyMonotone(damage: int, target: Target, actor: Fighter, atk: int, flags: HitFlags, mayhem: bool)
    requires ValidAtk(atk) && damage >= 0
    ensures CalcDamage(damage, target.(ally := true), actor, atk, flags, mayhem)
         <= CalcDamage(damage, target.(ally := false), actor, atk, flags, mayhem)
  {
  }

  /** Holding armor never increases the damage taken. */
  lemma CalcDamageArmorMonotone(damage: int, target: Target, actor: Fighter, atk: int, flags: HitFlags, mayhem: bool)
    requires ValidAtk(atk) && damage >= 0 && !target.who.berserker
    ensures CalcDamage(damage, target.(who := target.who.(powerup := Armor)), actor, atk, flags, mayhem)
         <= CalcDamage(damage, target, actor, atk, flags, mayhem)
  {
  }

  /** Invulnerability against the attacker never increases the damage taken. */
  lemma CalcDamageInvulnerableMonotone(damage: int, target: Target, actor: Fighter, atk: int, flags: HitFlags, mayhem: bool)
    requires ValidAtk(atk) && damage >= 0 && target.who.health >= 0
    ensures CalcDamage(damage, target.(invulnerable := true), actor, atk, flags, mayhem)
         <= CalcDamage(damage, target.(invulnerable := false), actor, atk, flags, mayhem)
  {
    CalcDamageNonNegative(damage, target.(invulnerable := false), actor, atk, flags, mayhem);
  }

  /**
   * Only the material, head and legs bits of the flags matter: any flags that
   * agree on those give the same damage (so the default flags used by the
   * four-argument calls do not affect their result).
   */
  lemma CalcDamageFlagsIrrelevant(damage: int, target: Target, actor: Fighter, atk: int, f: HitFlags, g: HitFlags, mayhem: bool)
    requires ValidAtk(atk)
    requires HasFlag(f, HIT_MATERIAL) == HasFlag(g, HIT_MATERIAL)
    requires HasFlag(f, HIT_HEAD) == HasFlag(g, HIT_HEAD)
    requires HasFlag(f, HIT_LEGS) == HasFlag(g, HIT_LEGS)
    ensures CalcDamage(damage, target, actor, atk, f, mayhem) == CalcDamage(damage, target, actor, atk, g, mayhem)
  {
  }

  /**
   * `calcdamage` called with its default flags, as the projectile code does.
   * The default is taken to be a torso hit; by `CalcDamageFlagsIrrelevant`
   * any default without the material, head or legs bit gives the same result.
   */
  function CalcDamageDefault(damage: int, target: Target, actor: Fighter, atk: int): (r: int)
    requires ValidAtk(atk)
    ensures Shielded(target) <==> r == 0
    ensures !Shielded(target) && damage >= 0 ==> r >= 1
    ensures r == CalcDamage(damage, target, actor, atk, HIT_TORSO, true)
  {
    CalcDamage(damage, target, actor, atk, HIT_TORSO, false)
  }

  /** A hit handed to the engine (`hit`): target, damage, ray count and flags. */
  datatype HitRecord = HitRecord(target: nat, damage: int, rays: int, flags: HitFlags)

  /** `calcpush`: between rounds nothing is hit; otherwise exactly one hit is handed on. */
  function CalcPush(damage: int, target: nat, rays: int, flags: HitFlags, betweenrounds: bool): (hs: seq<HitRecord>)
    ensures betweenrounds <==> hs == []
    ensures !betweenrounds ==> |hs| == 1 && hs[0].target == target && hs[0].damage == damage
                               && hs[0].rays == rays && hs[0].flags == flags
  {
    if betweenrounds then [] else [HitRecord(target, damage, rays, flags)]
  }

  /** A distance reported by the geometry: never negative. */
  type Distance = r: real | r >= 0.0

  /** `1e16f`, the initial best distance, as the single-precision value it is. */
  const FAR_DISTANCE: real := 10000000272564224.0

  /** An entity can be picked by a ray: not the shooter, alive, and met by the ray. */
  predicate Eligible(ents: seq<DynEnt>, shooter: int, probe: seq<Option<Distance>>, i: int)
    requires |probe| == |ents|
  {
    0 <= i < |ents| && i != shooter && ents[i].alive && probe[i].Some?
  }

  /**
   * `best` is what `intersectclosest` must pick: the first eligible entity
   * at the strictly smallest distance below the initial best distance, or
   * none when no eligible entity is that close.
   */
  predicate IsClosest(ents: seq<DynEnt>, shooter: int, probe: seq<Option<Distance>>, best: Option<nat>)
    requires |probe| == |ents|
  {
    match best
    case None =>
      forall i :: 0 <= i < |ents| && Eligible(ents, shooter, probe, i) ==> probe[i].value >= FAR_DISTANCE
    case Some(b) =>
      && Eligible(ents, shooter, probe, b)
      && probe[b].value < FAR_DISTANCE
      && (forall i :: 0 <= i < |ents| && Eligible(ents, shooter, probe, i) ==> probe[b].value <= probe[i].value)
      && (forall i :: 0 <= i < b && Eligible(ents, shooter, probe, i) ==> probe[b].value < probe[i].value)
  }

  /** At most one answer satisfies `IsClosest`. */
  lemma IsClosestUnique(ents: seq<DynEnt>, shooter: int, probe: seq<Option<Distance>>, b1: Option<nat>, b2: Option<nat>)
    requires |probe| == |ents|
    requires IsClosest(ents, shooter, probe, b1) && IsClosest(ents, shooter, probe, b2)
    ensures b1 == b2
  {
  }

  /**
   * `intersectclosest`: scan the entities in order, skipping the shooter and
   * the dead, and keep one whose distance is strictly below the best so far.
   */
  method IntersectClosest(ents: seq<DynEnt>, shooter: int, probe: seq<Option<Distance>>)
    returns (best: Option<nat>, bestdist: real)
    requires |probe| == |ents|
    ensures IsClosest(ents, shooter, probe, best)
    ensures best.None? ==> bestdist == FAR_DISTANCE
    ensures best.Some? ==> best.value < |ents| && bestdist == probe[best.value].value
  {
    best := None;
    bestdist := FAR_DISTANCE;
    var i := 0;
    while i < |ents|
      invariant 0 <= i <= |ents|
      invariant best.None? ==> bestdist == FAR_DISTANCE
      invariant best.Some? ==> Eligible(ents, shooter, probe, best.value) && best.value < i
                               && bestdist == probe[best.value].value < FAR_DISTANCE
      invariant forall k :: Eligible(ents, shooter, probe, k) && k < i ==> bestdist <= probe[k].value
      invariant best.Some? ==> forall k :: Eligible(ents, shooter, probe, k) && k < best.value ==> bestdist < probe[k].value
    {
      if i != shooter && ents[i].alive && probe[i].Some? {
        var dist := probe[i].value;
        if dist < bestdist {
          best := Some(i);
          bestdist := dist;
        }
      }
      i := i + 1;
    }
  }

  /** One ray's geometry: per-entity intersection distances and the head and legs sub-hitbox tests. */
  datatype RayProbe = RayProbe(dists: seq<Option<Distance>>, head: bool, legs: bool)

  /** How many rays hit entity `o`. */
  function Count(s: seq<Option<nat>>, o: nat): nat
    decreases |s|
  {
    if s == [] then 0 else (if s[0] == Some(o) then 1 else 0) + Count(s[1..], o)
  }

  /** The rays with every hit on `o` cleared. */
  function Clear(s: seq<Option<nat>>, o: nat): (r: seq<Option<nat>>)
    ensures |r| == |s|
    ensures forall k :: 0 <= k < |s| ==> r[k] == (if s[k] == Some(o) then None else s[k])
  {
    seq(|s|, k requires 0 <= k < |s| => if s[k] == Some(o) then None else s[k])
  }

  /**
   * The targets the deduplicating pass visits, in order of their first ray,
   * each with the number of rays that hit it.
   */
  function Groups(s: seq<Option<nat>>): (gs: seq<(nat, nat)>)
    ensures |gs| <= |s|
    ensures forall k :: 0 <= k < |gs| ==> gs[k].1 >= 1
    decreases |s|
  {
    if s == [] then []
    else if s[0].None? then Groups(s[1..])
    else [(s[0].value, 1 + Count(s[1..], s[0].value))] + Groups(Clear(s[1..], s[0].value))
  }

  /** The state `hitscan` carries from one target to the next: the running damage and flags. */
  datatype Carry = Carry(log: seq<HitRecord>, damage: int, flags: HitFlags)

  /** The bits a target of a multi-ray attack adds: head and legs, each only for a locational attack. */
  function HeadLegsMask(locational: bool, head: bool, legs: bool): (m: HitFlags)
    ensures m & !(HIT_HEAD | HIT_LEGS) == 0
    ensures (m & HIT_HEAD != 0) <==> locational && head
    ensures (m & HIT_LEGS != 0) <==> locational && legs
  {
    (if locational && head then HIT_HEAD else 0) | (if locational && legs then HIT_LEGS else 0)
  }

  /**
   * The flags for one target of a multi-ray attack: for a locational attack
   * (one with headshot damage) the last hitting ray's head and legs bits are
   * OR-ed in.
   */
  function MultiFlags(flags: HitFlags, locational: bool, head: bool, legs: bool): (r: HitFlags)
    ensures !locational ==> r == flags
    ensures (r & HIT_HEAD != 0) <==> (flags & HIT_HEAD != 0 || (locational && head))
    ensures (r & HIT_LEGS != 0) <==> (flags & HIT_LEGS != 0 || (locational && legs))
  {
    flags | HeadLegsMask(locational, head, legs)
  }

  /** The flags of a multi-ray target never lose a bit. */
  lemma MultiFlagsKeeps(flags: HitFlags, locational: bool, head: bool, legs: bool)
    ensures MultiFlags(flags, locational, head, legs) & flags == flags
  {
  }

  /** The flags of a multi-ray target differ from the previous ones in the head and legs bits only. */
  lemma MultiFlagsOthers(flags: HitFlags, locational: bool, head: bool, legs: bool)
    ensures MultiFlags(flags, locational, head, legs) & !(HIT_HEAD | HIT_LEGS) == flags & !(HIT_HEAD | HIT_LEGS)
  {
  }

  lemma OrTwice(f: HitFlags, b: HitFlags)
    ensures (f | b) | b == f | b
  {
  }

  /** Whether every group names an entity of the list. */
  predicate GroupsIn(groups: seq<(nat, nat)>, n: nat)
  {
    forall k :: 0 <= k < |groups| ==> groups[k].0 < n
  }

  /**
   * One target of the damage pass: its damage is computed from the previous
   * target's result (not from the attack's base damage), the flags
   * accumulate, and the target receives `numhits * damage`.
   */
  function DealOne(prev: Carry, g: (nat, nat), atk: int, head: bool, legs: bool,
                   ents: seq<DynEnt>, shooter: int, actor: Fighter, mayhem: bool): (c: Carry)
    requires ValidAtk(atk) && g.0 < |ents|
    ensures c.flags == MultiFlags(prev.flags, Attack(atk).headshotdam != 0, head, legs)
    ensures c.damage == CalcDamage(prev.damage, TargetOf(ents[g.0], g.0 == shooter), actor, atk, c.flags, mayhem)
    ensures c.log == prev.log + [HitRecord(g.0, g.1 * c.damage, g.1, c.flags)]
  {
    var flags := MultiFlags(prev.flags, Attack(atk).headshotdam != 0, head, legs);
    var damage := CalcDamage(prev.damage, TargetOf(ents[g.0], g.0 == shooter), actor, atk, flags, mayhem);
    Carry(prev.log + [HitRecord(g.0, g.1 * damage, g.1, flags)], damage, flags)
  }

  /** The damage pass over all the groups, in order. */
  function Deal(groups: seq<(nat, nat)>, start: Carry, atk: int, head: bool, legs: bool,
                ents: seq<DynEnt>, shooter: int, actor: Fighter, mayhem: bool): (c: Carry)
    requires ValidAtk(atk) && GroupsIn(groups, |ents|)
    ensures |c.log| == |start.log| + |groups|
    decreases |groups|
  {
    if groups == [] then start
    else
      var prev := Deal(groups[..|groups| - 1], start, atk, head, legs, ents, shooter, actor, mayhem);
      DealOne(prev, groups[|groups| - 1], atk, head, legs, ents, shooter, actor, mayhem)
  }

  /** OR-ing the same head and legs bits in again changes nothing. */
  lemma MultiFlagsIdempotent(flags: HitFlags, locational: bool, head: bool, legs: bool)
    ensures MultiFlags(MultiFlags(flags, locational, head, legs), locational, head, legs) == MultiFlags(flags, locational, head, legs)
  {
    OrTwice(flags, HeadLegsMask(locational, head, legs));
  }

  /** The records the pass has written for the first `j` groups stay as they are while it goes on. */
  lemma {:induction false} DealPrefix(groups: seq<(nat, nat)>, start: Carry, atk: int, head: bool, legs: bool,
                                      ents: seq<DynEnt>, shooter: int, actor: Fighter, mayhem: bool, j: nat)
    requires ValidAtk(atk) && GroupsIn(groups, |ents|) && j <= |groups|
    ensures GroupsIn(groups[..j], |ents|)
    ensures Deal(groups, start, atk, head, legs, ents, shooter, actor, mayhem).log[..|start.log| + j]
         == Deal(groups[..j], start, atk, head, legs, ents, shooter, actor, mayhem).log
    decreases |groups|
  {
    if j < |groups| {
      var init := groups[..|groups| - 1];
      DealPrefix(init, start, atk, head, legs, ents, shooter, actor, mayhem, j);
      assert init[..j] == groups[..j];
    } else {
      assert groups[..j] == groups;
    }
  }

  /**
   * Because every target ORs in the same head and legs bits, every target
   * of the pass carries the same flags: the first target's.
   */
  lemma {:induction false} DealFlags(groups: seq<(nat, nat)>, start: Carry, atk: int, head: bool, legs: bool,
                                     ents: seq<DynEnt>, shooter: int, actor: Fighter, mayhem: bool)
    requires ValidAtk(atk) && GroupsIn(groups, |ents|) && groups != []
    ensures Deal(groups, start, atk, head, legs, ents, shooter, actor, mayhem).flags == MultiFlags(start.flags, Attack(atk).headshotdam != 0, head, legs)
    decreases |groups|
  {
    var init := groups[..|groups| - 1];
    if init != [] {
      DealFlags(init, start, atk, head, legs, ents, shooter, actor, mayhem);
      MultiFlagsIdempotent(start.flags, Attack(atk).headshotdam != 0, head, legs);
    }
  }

  /** Multiplying by a positive count and dividing by it again gives back the per-ray value. */
  lemma MulDiv(a: int, b: int)
    requires a >= 1
    ensures (a * b) / a == b
  {
    var q, r := (a * b) / a, (a * b) % a;
    assert a * (b - q) == r;
    if b - q >= 1 {
      MulAtLeast(a, b - q);
    } else if b - q <= -1 {
      MulAtLeast(a, q - b);
    }
  }

  lemma {:induction false} MulAtLeast(a: int, x: int)
    requires a >= 1 && x >= 1
    ensures a * x >= a
    decreases x
  {
    if x > 1 {
      MulAtLeast(a, x - 1);
      assert a * x == a * (x - 1) + a;
    }
  }

  /** Record `k` of the pass is the one written when the pass reached group `k`. */
  lemma {:induction false} DealRecord(groups: seq<(nat, nat)>, start: Carry, atk: int, head: bool, legs: bool,
                                      ents: seq<DynEnt>, shooter: int, actor: Fighter, mayhem: bool, k: nat)
    requires ValidAtk(atk) && GroupsIn(groups, |ents|) && k < |groups|
    ensures GroupsIn(groups[..k + 1], |ents|)
    ensures var c := Deal(groups[..k + 1], start, atk, head, legs, ents, shooter, actor, mayhem);
            Deal(groups, start, atk, head, legs, ents, shooter, actor, mayhem).log[|start.log| + k]
            == HitRecord(groups[k].0, groups[k].1 * c.damage, groups[k].1, c.flags)
    decreases |groups|
  {
    var init := groups[..|groups| - 1];
    if k + 1 == |groups| {
      assert groups[..k + 1] == groups;
    } else {
      DealRecord(init, start, atk, head, legs, ents, shooter, actor, mayhem, k);
      assert init[..k + 1] == groups[..k + 1];
    }
  }

  /** Reaching group `k`, the pass computes its damage from the running damage, with the first target's flags. */
  lemma DealNext(groups: seq<(nat, nat)>, start: Carry, atk: int, head: bool, legs: bool,
                 ents: seq<DynEnt>, shooter: int, actor: Fighter, mayhem: bool, k: nat)
    requires ValidAtk(atk) && GroupsIn(groups, |ents|) && k < |groups|
    ensures GroupsIn(groups[..k], |ents|) && GroupsIn(groups[..k + 1], |ents|)
    ensures var c := Deal(groups[..k + 1], start, atk, head, legs, ents, shooter, actor, mayhem);
            var f := MultiFlags(start.flags, Attack(atk).headshotdam != 0, head, legs);
            && c.flags == f
            && c.damage == CalcDamage(Deal(groups[..k], start, atk, head, legs, ents, shooter, actor, mayhem).damage,
                                      TargetOf(ents[groups[k].0], groups[k].0 == shooter), actor, atk, f, mayhem)
  {
    assert groups[..k + 1][..k] == groups[..k];
    DealFlags(groups[..k + 1], start, atk, head, legs, ents, shooter, actor, mayhem);
  }

  /** Every target of the multi-ray pass carries the first target's flags. */
  lemma DealRecordFlags(groups: seq<(nat, nat)>, start: Carry, atk: int, head: bool, legs: bool,
                        ents: seq<DynEnt>, shooter: int, actor: Fighter, mayhem: bool, k: nat)
    requires ValidAtk(atk) && GroupsIn(groups, |ents|) && k < |groups|
    ensures Deal(groups, start, atk, head, legs, ents, shooter, actor, mayhem).log[|start.log| + k].flags
            == MultiFlags(start.flags, Attack(atk).headshotdam != 0, head, legs)
  {
    DealRecord(groups, start, atk, head, legs, ents, shooter, actor, mayhem, k);
    DealFlags(groups[..k + 1], start, atk, head, legs, ents, shooter, actor, mayhem);
  }

  /** The first target takes its ray count times the damage computed from the attack's starting damage. */
  lemma DealFirstDamage(groups: seq<(nat, nat)>, start: Carry, atk: int, head: bool, legs: bool,
                        ents: seq<DynEnt>, shooter: int, actor: Fighter, mayhem: bool)
    requires ValidAtk(atk) && GroupsIn(groups, |ents|) && groups != []
    ensures Deal(groups, start, atk, head, legs, ents, shooter, actor, mayhem).log[|start.log|].damage
            == groups[0].1 * CalcDamage(start.damage, TargetOf(ents[groups[0].0], groups[0].0 == shooter), actor, atk,
                                        MultiFlags(start.flags, Attack(atk).headshotdam != 0, head, legs), mayhem)
  {
    DealRecord(groups, start, atk, head, legs, ents, shooter, actor, mayhem, 0);
    DealNext(groups, start, atk, head, legs, ents, shooter, actor, mayhem, 0);
    assert groups[..0] == [];
  }

  /** Dividing a target's damage by its ray count gives back the running damage the pass had reached there. */
  lemma DealPerRay(groups: seq<(nat, nat)>, start: Carry, atk: int, head: bool, legs: bool,
                   ents: seq<DynEnt>, shooter: int, actor: Fighter, mayhem: bool, k: nat)
    requires ValidAtk(atk) && GroupsIn(groups, |ents|) && k < |groups| && groups[k].1 >= 1
    ensures GroupsIn(groups[..k + 1], |ents|)
    ensures Deal(groups, start, atk, head, legs, ents, shooter, actor, mayhem).log[|start.log| + k].damage / groups[k].1
            == Deal(groups[..k + 1], start, atk, head, legs, ents, shooter, actor, mayhem).damage
  {
    DealRecord(groups, start, atk, head, legs, ents, shooter, actor, mayhem, k);
    MulDiv(groups[k].1, Deal(groups[..k + 1], start, atk, head, legs, ents, shooter, actor, mayhem).damage);
  }

  /**
   * The damage chain of the multi-ray pass: every later target takes its ray
   * count times the damage computed from the previous target's per-ray damage.
   */
  lemma DealDamage(groups: seq<(nat, nat)>, start: Carry, atk: int, head: bool, legs: bool,
                   ents: seq<DynEnt>, shooter: int, actor: Fighter, mayhem: bool, k: nat)
    requires ValidAtk(atk) && GroupsIn(groups, |ents|) && 0 < k < |groups| && groups[k - 1].1 >= 1
    ensures var log := Deal(groups, start, atk, head, legs, ents, shooter, actor, mayhem).log;
            var n := |start.log|;
            log[n + k].damage
            == groups[k].1 * CalcDamage(log[n + k - 1].damage / groups[k - 1].1,
                                        TargetOf(ents[groups[k].0], groups[k].0 == shooter), actor, atk,
                                        MultiFlags(start.flags, Attack(atk).headshotdam != 0, head, legs), mayhem)
  {
    var log := Deal(groups, start, atk, head, legs, ents, shooter, actor, mayhem).log;
    var n := |start.log|;
    var f := MultiFlags(start.flags, Attack(atk).headshotdam != 0, head, legs);
    var t := TargetOf(ents[groups[k].0], groups[k].0 == shooter);
    DealPerRay(groups, start, atk, head, legs, ents, shooter, actor, mayhem, k - 1);
    assert k - 1 + 1 == k;
    var perRay := log[n + k - 1].damage / groups[k - 1].1;
    DealNext(groups, start, atk, head, legs, ents, shooter, actor, mayhem, k);
    var c := Deal(groups[..k + 1], start, atk, head, legs, ents, shooter, actor, mayhem);
    assert c.damage == CalcDamage(perRay, t, actor, atk, f, mayhem);
    DealRecord(groups, start, atk, head, legs, ents, shooter, actor, mayhem, k);
  }

  /** The deduplicating pass's step on a ray that hit nothing. */
  lemma {:induction false} GroupsSkip(s: seq<Option<nat>>)
    requires |s| > 0 && s[0].None?
    ensures Groups(s) == Groups(s[1..])
  {
  }

  /** The deduplicating pass's step on a ray that hit `o`. */
  lemma {:induction false} GroupsTake(s: seq<Option<nat>>, o: nat)
    requires |s| > 0 && s[0] == Some(o)
    ensures Groups(s) == [(o, 1 + Count(s[1..], o))] + Groups(Clear(s[1..], o))
  {
  }

  /** `Count` of a sequence with one more element. */
  lemma {:induction false} CountSnoc(s: seq<Option<nat>>, x: Option<nat>, o: nat)
    ensures Count(s + [x], o) == Count(s, o) + (if x == Some(o) then 1 else 0)
    decreases |s|
  {
    if s != [] {
      assert (s + [x])[1..] == s[1..] + [x];
      CountSnoc(s[1..], x, o);
    } else {
      assert (s + [x])[1..] == [];
    }
  }

  /**
   * The state of the deduplicating pass before ray `i`: the rays before it
   * are cleared, the rays from it on name entities of the list, and the
   * targets dealt with so far followed by the targets of the rays left are
   * the targets of the original rays.
   */
  ghost predicate Dedup(cur: seq<Option<nat>>, i: nat, maxrays: nat, orig: seq<Option<nat>>,
                        done: seq<(nat, nat)>, n: nat)
  {
    && i <= maxrays <= |cur|
    && (forall k :: 0 <= k < i ==> cur[k].None?)
    && (forall k :: i <= k < maxrays && cur[k].Some? ==> cur[k].value < n)
    && GroupsIn(done, n)
    && Groups(orig) == done + Groups(cur[i..maxrays])
  }

  /** At the end of the deduplicating pass every ray is cleared and the targets dealt with are all the targets. */
  lemma DedupDone(cur: seq<Option<nat>>, maxrays: nat, orig: seq<Option<nat>>, done: seq<(nat, nat)>, n: nat)
    requires Dedup(cur, maxrays, maxrays, orig, done, n)
    ensures forall k :: 0 <= k < maxrays ==> cur[k].None?
    ensures Groups(orig) == done
  {
    assert cur[maxrays..maxrays] == [];
  }

  /** A ray that hit nothing is passed over. */
  lemma DedupSkip(cur: seq<Option<nat>>, i: nat, maxrays: nat, orig: seq<Option<nat>>, done: seq<(nat, nat)>, n: nat)
    requires i < maxrays && Dedup(cur, i, maxrays, orig, done, n) && cur[i].None?
    ensures Dedup(cur, i + 1, maxrays, orig, done, n)
  {
    assert cur[i..maxrays][1..] == cur[i + 1..maxrays];
    GroupsSkip(cur[i..maxrays]);
  }

  /**
   * A ray that hit `o` starts a new target: once it and every later ray on
   * `o` are cleared, that target with the count of its rays is dealt with.
   */
  lemma DedupTake(before: seq<Option<nat>>, after: seq<Option<nat>>, i: nat, maxrays: nat, orig: seq<Option<nat>>,
                  done: seq<(nat, nat)>, n: nat, o: nat, numhits: nat)
    requires i < maxrays && Dedup(before, i, maxrays, orig, done, n) && before[i] == Some(o)
    requires |after| == |before|
    requires forall k :: 0 <= k < |after| ==>
               after[k] == (if k == i || (i < k < maxrays && before[k] == Some(o)) then None else before[k])
    requires numhits == 1 + Count(before[i + 1..maxrays], o)
    ensures o < n
    ensures Dedup(after, i + 1, maxrays, orig, done + [(o, numhits)], n)
  {
    assert before[i..maxrays][1..] == before[i + 1..maxrays];
    GroupsTake(before[i..maxrays], o);
    ClearPointwise(after[i + 1..maxrays], before[i + 1..maxrays], o);
  }

  /**
   * The deduplicating pass of a multi-ray `hitscan` over its `hits` buffer:
   * for each ray that hit, clear it and every later ray that hit the same
   * entity, counting them, then compute that target's damage and hand on the
   * hit. Afterwards every entry is cleared.
   */
  method AggregateHits(hits: array<Option<nat>>, maxrays: nat, atk: int, head: bool, legs: bool,
                       ents: seq<DynEnt>, shooter: int, actor: Fighter, mayhem: bool)
    returns (log: seq<HitRecord>)
    requires ValidAtk(atk) && maxrays <= hits.Length
    requires forall k :: 0 <= k < maxrays && hits[k].Some? ==> hits[k].value < |ents|
    modifies hits
    ensures forall k :: 0 <= k < maxrays ==> hits[k].None?
    ensures forall k :: maxrays <= k < hits.Length ==> hits[k] == old(hits[k])
    ensures GroupsIn(Groups(old(hits[..maxrays])), |ents|)
    ensures log == Deal(Groups(old(hits[..maxrays])), Carry([], Attack(atk).damage, HIT_TORSO),
                        atk, head, legs, ents, shooter, actor, mayhem).log
  {
    ghost var orig := hits[..maxrays];
    ghost var done: seq<(nat, nat)> := [];
    var c := Carry([], Attack(atk).damage, HIT_TORSO);
    ghost var start := c;
    GroupsBounded(orig, |ents|);
    assert hits[..][0..maxrays] == orig;
    var i := 0;
    while i < maxrays
      invariant Dedup(hits[..], i, maxrays, orig, done, |ents|)
      invariant forall k :: maxrays <= k < hits.Length ==> hits[k] == old(hits[k])
      invariant c == Deal(done, start, atk, head, legs, ents, shooter, actor, mayhem)
      decreases maxrays - i
    {
      c, done := DedupStep(hits, i, maxrays, c, orig, done, start, atk, head, legs, ents, shooter, actor, mayhem);
      i := i + 1;
    }
    DedupDone(hits[..], maxrays, orig, done, |ents|);
    log := c.log;
  }

  /**
   * One ray of the deduplicating pass. A ray that hit nothing is passed over.
   * A ray that hit an entity starts a new target: it and every later ray on
   * the same entity are cleared and counted, and that target is dealt with.
   */
  method DedupStep(hits: array<Option<nat>>, i: nat, maxrays: nat, c: Carry, ghost orig: seq<Option<nat>>,
                   ghost done: seq<(nat, nat)>, ghost start: Carry, atk: int, head: bool, legs: bool,
                   ents: seq<DynEnt>, shooter: int, actor: Fighter, mayhem: bool)
    returns (c': Carry, ghost done': seq<(nat, nat)>)
    requires ValidAtk(atk) && i < maxrays <= hits.Length
    requires Dedup(hits[..], i, maxrays, orig, done, |ents|)
    requires c == Deal(done, start, atk, head, legs, ents, shooter, actor, mayhem)
    modifies hits
    ensures forall k :: maxrays <= k < hits.Length ==> hits[k] == old(hits[k])
    ensures Dedup(hits[..], i + 1, maxrays, orig, done', |ents|)
    ensures c' == Deal(done', start, atk, head, legs, ents, shooter, actor, mayhem)
  {
    ghost var before := hits[..];
    if hits[i].None? {
      DedupSkip(before, i, maxrays, orig, done, |ents|);
      c', done' := c, done;
      return;
    }
    var o := hits[i].value;
    hits[i] := None;
    var numhits := ClearLater(hits, i, maxrays, o);
    DedupTake(before, hits[..], i, maxrays, orig, done, |ents|, o, numhits);
    DealSnoc(done, (o, numhits), start, atk, head, legs, ents, shooter, actor, mayhem);
    c' := DealOne(c, (o, numhits), atk, head, legs, ents, shooter, actor, mayhem);
    done' := done + [(o, numhits)];
  }

  /** The damage pass over one more target is one more step of the pass before it. */
  lemma DealSnoc(done: seq<(nat, nat)>, g: (nat, nat), start: Carry, atk: int, head: bool, legs: bool,
                 ents: seq<DynEnt>, shooter: int, actor: Fighter, mayhem: bool)
    requires ValidAtk(atk) && GroupsIn(done, |ents|) && g.0 < |ents|
    ensures GroupsIn(done + [g], |ents|)
    ensures Deal(done + [g], start, atk, head, legs, ents, shooter, actor, mayhem)
            == DealOne(Deal(done, start, atk, head, legs, ents, shooter, actor, mayhem), g, atk, head, legs, ents, shooter, actor, mayhem)
  {
    assert (done + [g])[..|done|] == done;
  }

  /**
   * The inner loop of the deduplicating pass: clear every hit on `o` after
   * ray `i`, counting them together with ray `i` itself.
   */
  method ClearLater(hits: array<Option<nat>>, i: nat, maxrays: nat, o: nat) returns (numhits: nat)
    requires i < maxrays <= hits.Length
    modifies hits
    ensures forall k :: 0 <= k < hits.Length ==>
              hits[k] == (if i < k < maxrays && old(hits[k]) == Some(o) then None else old(hits[k]))
    ensures numhits == 1 + Count(old(hits[i + 1..maxrays]), o)
  {
    ghost var before := hits[..];
    numhits := 1;
    var j := i + 1;
    while j < maxrays
      invariant i + 1 <= j <= maxrays
      invariant forall k :: 0 <= k < hits.Length ==>
                  hits[k] == (if i < k < j && before[k] == Some(o) then None else before[k])
      invariant numhits == 1 + Count(before[i + 1..j], o)
    {
      assert before[i + 1..j + 1] == before[i + 1..j] + [before[j]];
      CountSnoc(before[i + 1..j], before[j], o);
      if hits[j] == Some(o) {
        hits[j] := None;
        numhits := numhits + 1;
      }
      j := j + 1;
    }
  }

  /** A sequence that agrees with `Clear(b, o)` at every index is `Clear(b, o)`. */
  lemma ClearPointwise(a: seq<Option<nat>>, b: seq<Option<nat>>, o: nat)
    requires |a| == |b|
    requires forall k :: 0 <= k < |a| ==> a[k] == (if b[k] == Some(o) then None else b[k])
    ensures a == Clear(b, o)
  {
  }

  /** Every group names an entity some ray hit. */
  lemma {:induction false} GroupsBounded(s: seq<Option<nat>>, n: nat)
    requires forall k :: 0 <= k < |s| && s[k].Some? ==> s[k].value < n
    ensures GroupsIn(Groups(s), n)
    decreases |s|
  {
    if s == [] {
    } else if s[0].None? {
      GroupsBounded(s[1..], n);
    } else {
      GroupsBounded(Clear(s[1..], s[0].value), n);
    }
  }

  /** The targets of the groups, in order. */
  function Targets(groups: seq<(nat, nat)>): (ts: seq<nat>)
    ensures |ts| == |groups|
    ensures forall k :: 0 <= k < |groups| ==> ts[k] == groups[k].0
  {
    seq(|groups|, k requires 0 <= k < |groups| => groups[k].0)
  }

  /** Clearing `o` removes exactly the hits on `o`. */
  lemma InClear(t: seq<Option<nat>>, o: nat, p: nat)
    ensures Some(p) in Clear(t, o) <==> p != o && Some(p) in t
  {
    if Some(p) in Clear(t, o) {
      var k :| 0 <= k < |t| && Clear(t, o)[k] == Some(p);
      assert t[k] == Some(p);
    }
    if p != o && Some(p) in t {
      var k :| 0 <= k < |t| && t[k] == Some(p);
      assert Clear(t, o)[k] == Some(p);
    }
  }

  /** Clearing `o` leaves the number of hits on every other entity unchanged. */
  lemma {:induction false} CountClear(t: seq<Option<nat>>, o: nat, p: nat)
    ensures Count(Clear(t, o), p) == (if p == o then 0 else Count(t, p))
    decreases |t|
  {
    if t != [] {
      CountClear(t[1..], o, p);
      assert Clear(t, o)[1..] == Clear(t[1..], o);
    }
  }

  /** The pass visits an entity exactly when some ray hit it. */
  lemma {:induction false} GroupsCover(s: seq<Option<nat>>, p: nat)
    ensures p in Targets(Groups(s)) <==> Some(p) in s
    decreases |s|
  {
    if s == [] {
    } else if s[0].None? {
      GroupsCover(s[1..], p);
      assert s == [s[0]] + s[1..];
    } else {
      var o := s[0].value;
      var rest := Clear(s[1..], o);
      GroupsCover(rest, p);
      InClear(s[1..], o, p);
      assert Targets(Groups(s)) == [o] + Targets(Groups(rest));
      assert s == [s[0]] + s[1..];
    }
  }

  /** The pass visits no entity twice. */
  lemma {:induction false} GroupsDistinct(s: seq<Option<nat>>)
    ensures forall i, j :: 0 <= i < j < |Groups(s)| ==> Groups(s)[i].0 != Groups(s)[j].0
    decreases |s|
  {
    if s == [] {
    } else if s[0].None? {
      GroupsDistinct(s[1..]);
    } else {
      var o := s[0].value;
      var rest := Clear(s[1..], o);
      GroupsDistinct(rest);
      GroupsCover(rest, o);
      InClear(s[1..], o, o);
      var gs := Groups(s);
      assert gs == [(o, 1 + Count(s[1..], o))] + Groups(rest);
      forall i, j | 0 <= i < j < |gs|
        ensures gs[i].0 != gs[j].0
      {
        if i == 0 {
          assert gs[j].0 == Targets(Groups(rest))[j - 1];
        } else {
          assert gs[i] == Groups(rest)[i - 1] && gs[j] == Groups(rest)[j - 1];
        }
      }
    }
  }

  /** Each visited entity is credited with exactly the number of rays that hit it, at least one. */
  lemma {:induction false} GroupsCount(s: seq<Option<nat>>)
    ensures forall k :: 0 <= k < |Groups(s)| ==> Groups(s)[k].1 == Count(s, Groups(s)[k].0) >= 1
    decreases |s|
  {
    if s == [] {
    } else if s[0].None? {
      GroupsCount(s[1..]);
    } else {
      var o := s[0].value;
      var rest := Clear(s[1..], o);
      GroupsCount(rest);
      var gs := Groups(s);
      assert gs == [(o, 1 + Count(s[1..], o))] + Groups(rest);
      forall k | 0 <= k < |gs|
        ensures gs[k].1 == Count(s, gs[k].0) >= 1
      {
        var p := gs[k].0;
        if k > 0 {
          assert gs[k] == Groups(rest)[k - 1];
          assert p in Targets(Groups(rest)) by {
            assert Targets(Groups(rest))[k - 1] == p;
          }
          GroupsCover(rest, p);
          InClear(s[1..], o, p);
          CountClear(s[1..], o, p);
        }
      }
    }
  }

  /** The damage pass records each group's target and ray count, in order. */
  lemma {:induction false} DealShape(groups: seq<(nat, nat)>, start: Carry, atk: int, head: bool, legs: bool,
                                     ents: seq<DynEnt>, shooter: int, actor: Fighter, mayhem: bool)
    requires ValidAtk(atk) && GroupsIn(groups, |ents|)
    ensures var log := Deal(groups, start, atk, head, legs, ents, shooter, actor, mayhem).log;
      && log[..|start.log|] == start.log
      && forall k :: 0 <= k < |groups| ==> log[|start.log| + k].target == groups[k].0 && log[|start.log| + k].rays == groups[k].1
    decreases |groups|
  {
    if groups != [] {
      var init := groups[..|groups| - 1];
      DealShape(init, start, atk, head, legs, ents, shooter, actor, mayhem);
      var prev := Deal(init, start, atk, head, legs, ents, shooter, actor, mayhem);
      var log := Deal(groups, start, atk, head, legs, ents, shooter, actor, mayhem).log;
      assert log == prev.log + [log[|log| - 1]];
      forall k | 0 <= k < |groups|
        ensures log[|start.log| + k].target == groups[k].0 && log[|start.log| + k].rays == groups[k].1
      {
        if k < |init| {
          assert log[|start.log| + k] == prev.log[|start.log| + k];
          assert groups[k] == init[k];
        }
      }
    }
  }

  /**
   * A multi-ray attack hands on one hit per distinct entity that any ray hit,
   * none for an entity no ray hit, and credits each with the number of rays
   * that hit it.
   */
  lemma MultiRayHitsOnce(s: seq<Option<nat>>, atk: int, damage: int, head: bool, legs: bool,
                         ents: seq<DynEnt>, shooter: int, actor: Fighter, mayhem: bool)
    requires ValidAtk(atk) && GroupsIn(Groups(s), |ents|)
    ensures var log := Deal(Groups(s), Carry([], damage, HIT_TORSO), atk, head, legs, ents, shooter, actor, mayhem).log;
      && (forall k :: 0 <= k < |log| ==> log[k].rays == Count(s, log[k].target) >= 1)
      && (forall i, j :: 0 <= i < j < |log| ==> log[i].target != log[j].target)
      && (forall p: nat :: Some(p) in s <==> exists k :: 0 <= k < |log| && log[k].target == p)
  {
    var gs := Groups(s);
    var log := Deal(gs, Carry([], damage, HIT_TORSO), atk, head, legs, ents, shooter, actor, mayhem).log;
    DealShape(gs, Carry([], damage, HIT_TORSO), atk, head, legs, ents, shooter, actor, mayhem);
    forall k | 0 <= k < |log|
      ensures log[k].target == gs[k].0 && log[k].rays == gs[k].1
    {
      assert log[|Carry([], damage, HIT_TORSO).log| + k] == log[k];
    }
    HitsOnce(s, log);
  }

  /** A hit list that follows the groups one for one inherits their properties. */
  lemma HitsOnce(s: seq<Option<nat>>, log: seq<HitRecord>)
    requires |log| == |Groups(s)|
    requires forall k :: 0 <= k < |log| ==> log[k].target == Groups(s)[k].0 && log[k].rays == Groups(s)[k].1
    ensures forall k :: 0 <= k < |log| ==> log[k].rays == Count(s, log[k].target) >= 1
    ensures forall i, j :: 0 <= i < j < |log| ==> log[i].target != log[j].target
    ensures forall p: nat :: Some(p) in s <==> exists k :: 0 <= k < |log| && log[k].target == p
  {
    var gs := Groups(s);
    GroupsCount(s);
    GroupsDistinct(s);
    forall p: nat
      ensures Some(p) in s <==> exists k :: 0 <= k < |log| && log[k].target == p
    {
      GroupsCover(s, p);
      if Some(p) in s {
        var k :| 0 <= k < |gs| && Targets(gs)[k] == p;
        assert log[k].target == p;
      }
      if exists k :: 0 <= k < |log| && log[k].target == p {
        var k :| 0 <= k < |log| && log[k].target == p;
        assert Targets(gs)[k] == p;
      }
    }
  }

  /** The head and legs results of the last ray that hit anything (both false when none did). */
  function LastHit(targets: seq<Option<nat>>, probes: seq<RayProbe>): (bool, bool)
    requires |targets| <= |probes|
  {
    if targets == [] then (false, false)
    else if targets[|targets| - 1].Some? then (probes[|targets| - 1].head, probes[|targets| - 1].legs)
    else LastHit(targets[..|targets| - 1], probes)
  }

  /** The flags of a single-ray hit: head, else legs, else torso, for a locational attack. */
  function SingleFlags(atk: int, head: bool, legs: bool): (f: HitFlags)
    requires ValidAtk(atk)
    ensures f == HIT_TORSO || f == HIT_HEAD || f == HIT_LEGS
    ensures Attack(atk).headshotdam == 0 ==> f == HIT_TORSO
    ensures f == HIT_HEAD <==> Attack(atk).headshotdam != 0 && head
  {
    if Attack(atk).headshotdam != 0 then
      if head then HIT_HEAD else if legs then HIT_LEGS else HIT_TORSO
    else HIT_TORSO
  }

  /** What a single-ray `hitscan` hands on for the entity its ray picked. */
  function SingleHit(target: Option<nat>, probe: RayProbe, atk: int,
                     ents: seq<DynEnt>, shooter: int, actor: Fighter, mayhem: bool): (log: seq<HitRecord>)
    requires ValidAtk(atk) && (target.Some? ==> target.value < |ents|)
    ensures target.None? <==> log == []
    ensures target.Some? ==> |log| == 1 && log[0].target == target.value && log[0].rays == 1
                             && log[0].flags == SingleFlags(atk, probe.head, probe.legs)
    ensures target.Some? ==>
      log[0].damage == CalcDamage(Attack(atk).damage, TargetOf(ents[target.value], target.value == shooter), actor, atk,
                                  log[0].flags, mayhem)
  {
    match target
    case None => []
    case Some(o) =>
      var flags := SingleFlags(atk, probe.head, probe.legs);
      var damage := CalcDamage(Attack(atk).damage, TargetOf(ents[o], o == shooter), actor, atk, flags, mayhem);
      CalcPush(damage, o, 1, flags, false)
  }

  /**
   * `hitscan`: with several rays, pick each ray's closest entity into a
   * buffer, remember the last hitting ray's head and legs tests, and run the
   * deduplicating pass; with one ray, hit the closest entity once. Between
   * rounds nothing is hit. `targets` is each ray's pick.
   */
  method Hitscan(atk: int, ents: seq<DynEnt>, shooter: int, actor: Fighter, probes: seq<RayProbe>,
                 betweenrounds: bool, mayhem: bool)
    returns (log: seq<HitRecord>, ghost targets: seq<Option<nat>>)
    requires ValidAtk(atk) && |probes| == Attack(atk).rays
    requires forall r :: 0 <= r < |probes| ==> |probes[r].dists| == |ents|
    ensures betweenrounds ==> log == []
    ensures !betweenrounds ==> |targets| == |probes|
    ensures !betweenrounds ==> forall r :: 0 <= r < |probes| ==> IsClosest(ents, shooter, probes[r].dists, targets[r])
    ensures !betweenrounds ==> forall r :: 0 <= r < |probes| && targets[r].Some? ==> targets[r].value < |ents|
    ensures !betweenrounds && |probes| > 1 ==> GroupsIn(Groups(targets), |ents|)
    ensures !betweenrounds && |probes| > 1 ==>
      var (head, legs) := LastHit(targets, probes);
      log == Deal(Groups(targets), Carry([], Attack(atk).damage, HIT_TORSO), atk, head, legs, ents, shooter, actor, mayhem).log
    ensures !betweenrounds && |probes| == 1 ==> log == SingleHit(targets[0], probes[0], atk, ents, shooter, actor, mayhem)
  {
    targets := [];
    if betweenrounds {
      log := [];
      return;
    }
    if |probes| > 1 {
      var hits := new Option<nat>[GUN_MAXRAYS](_ => None);
      var hithead, hitlegs;
      targets, hithead, hitlegs := PickRays(hits, ents, shooter, probes);
      log := AggregateHits(hits, |probes|, atk, hithead, hitlegs, ents, shooter, actor, mayhem);
    } else {
      var o, dist := IntersectClosest(ents, shooter, probes[0].dists);
      targets := [o];
      log := SingleHit(o, probes[0], atk, ents, shooter, actor, mayhem);
    }
  }

  /**
   * The first half of `hitscan` with several rays: each ray's closest entity
   * goes into the buffer, and the head and legs tests of the last ray that
   * hit anything are kept.
   */
  method PickRays(hits: array<Option<nat>>, ents: seq<DynEnt>, shooter: int, probes: seq<RayProbe>)
    returns (targets: seq<Option<nat>>, hithead: bool, hitlegs: bool)
    requires |probes| <= hits.Length
    requires forall r :: 0 <= r < |probes| ==> |probes[r].dists| == |ents|
    modifies hits
    ensures |targets| == |probes| && hits[..|probes|] == targets
    ensures forall r :: 0 <= r < |probes| ==> IsClosest(ents, shooter, probes[r].dists, targets[r])
    ensures forall r :: 0 <= r < |probes| && targets[r].Some? ==> targets[r].value < |ents|
    ensures (hithead, hitlegs) == LastHit(targets, probes)
  {
    targets := [];
    hithead, hitlegs := false, false;
    var i := 0;
    while i < |probes|
      invariant 0 <= i <= |probes| && |targets| == i
      invariant forall k :: 0 <= k < i ==> hits[k] == targets[k]
      invariant forall r :: 0 <= r < i ==> IsClosest(ents, shooter, probes[r].dists, targets[r])
      invariant forall r :: 0 <= r < i && targets[r].Some? ==> targets[r].value < |ents|
      invariant (hithead, hitlegs) == LastHit(targets, probes)
    {
      var o, dist := IntersectClosest(ents, shooter, probes[i].dists);
      hits[i] := o;
      if o.Some? {
        hitlegs := probes[i].legs;
        hithead := probes[i].head;
      }
      assert (targets + [o])[..i] == targets;
      targets := targets + [o];
      i := i + 1;
    }
    assert hits[..|probes|] == targets;
  }

  /**
   * `canshoot`: a non-melee attack needs ammo for its gun, at least its cost;
   * a projectile that is quenched by water cannot be fired from water.
   */
  function CanShoot(atk: int, ammo: int, projectile: int, inWater: bool): (r: bool)
    requires ValidAtk(atk)
    ensures r && Attack(atk).action != ACT_MELEE ==> ammo != 0 && ammo - Attack(atk).use >= 0
    ensures Attack(atk).action != ACT_MELEE && ammo == 0 ==> !r
    ensures IsValidProjectile(projectile) && inWater && Has(Projs()[projectile].flags, ProjFlag_Quench) ==> !r
    ensures !r ==> (Attack(atk).action != ACT_MELEE && (ammo == 0 || Attack(atk).use > ammo))
                   || (IsValidProjectile(projectile) && inWater && Has(Projs()[projectile].flags, ProjFlag_Quench))
  {
    if Attack(atk).action != ACT_MELEE && (ammo == 0 || Attack(atk).use > ammo) then false
    else if IsValidProjectile(projectile) && inWater && Has(Projs()[projectile].flags, ProjFlag_Quench) then false
    else true
  }
}
