# Weapons and projectiles: a verified model

This project models the integer, table-driven part of the game's combat
code (`source/game/weapon.h`, `weapon.cpp`, `projectile.h`,
`projectile.cpp`) in Dafny and proves properties of that model.

What is covered:

- **Tables.** The hit-flag bitset, the action, attack and gun enumerations,
  the constant `attacks[]` and `guns[]` tables, the projectile-flag bitset,
  the projectile kinds and the `projs[]` table. Each table is a function
  whose contract states the well-formedness the rest of the code relies on:
  ray counts within `GUN_MAXRAYS`, valid projectile kinds, and gun and
  attack cross-references that agree.
- **Damage** (`Damage`):
  - `calcdamage`: shielding, the Mayhem head-shot kill, headshot and legs
    multipliers, the damage boost, ally division, armour halving, and the
    floor of one;
  - the `calcpush` gate;
  - closest-target selection (`intersectclosest`);
  - both branches of `hitscan`: the deduplicating pass over the per-ray
    buffer, and the single-ray hit;
  - `canshoot`.
- **Explosions** (`Explosions`): `candealdamage`, `applyradialeffect` and
  the damage part of `explodeprojectile`.
- **One projectile's step** (`ProjectileTick`): spawning a record,
  `bounce` on a record, `checklifetime` (including the 80 ms junk chunks),
  and every phase of one iteration of `updateprojectiles`:
  - the direct hit;
  - lifetime and lava;
  - the re-aim that cuts the step short;
  - spent bouncers;
  - quenching in water;
  - removal or offset decay.
- **The global projectile list** (`Projectiles.ProjectileList`), a class
  whose `items` field is the list. Its methods are `makeprojectile`,
  `spawnbouncer`, the bounce callback, `updateprojectiles` (which removes
  in place), `removeprojectiles`, `explodeeffects` and `scanprojectiles`.
  Each method is proved against a specification function: `Run` for the
  update pass, `Without` for the purge, `FirstMatch` for the explosion
  lookup.
- **Weapon handling** (`WeaponSelect.Actor`), a class with the actor's
  fields. Its methods are `gunselect`, `nextweapon`, `getweapon`/`setweapon`,
  `cycleweapon`, `weaponswitch` and the bookkeeping of `shoot`: cooldown,
  refusal, ammo, cooldown scaling and shot totals.

Geometry, physics, the material lookup and the engine's random draws are
not modelled. Each becomes an input: a distance per entity and ray, a
boolean per physics question, a number per random draw. Entities are named
by their index in the dynamic-entity list.

## Model

| member | source | states |
|---|---|---|
| WeaponInfo.ValidActDeclared | source/game/weapon.h:56 | an action passes the range check exactly when it is one of the four declared actions |
| WeaponInfo.ValidAtkDeclared | source/game/weapon.h:75 | an attack passes the range check exactly when it is one of the nineteen declared attacks, that is, exactly when it indexes a row of the attack table |
| WeaponInfo.ValidGunDeclared | source/game/weapon.h:87 | a gun passes the range check exactly when it is one of the nine declared guns, that is, exactly when it indexes a row of the gun table |
| ProjectileInfo.IsValidProjectileDeclared | source/game/projectile.h:32 | a kind passes the range check exactly when it is one of the ten declared projectile kinds, that is, exactly when it indexes a row of the kind table |
| WeaponInfo.HitFlagList | source/game/weapon.h:9-16 | every hit flag is a single bit and no two flags share a bit |
| WeaponInfo.HitFlagsLossless | source/game/weapon.h:9-16 | OR-ing one hit flag into a set leaves the test for every other flag as it was |
| WeaponInfo.HitFlagSets | source/game/weapon.h:9-16 | a hit flag OR-ed into a set always tests set |
| WeaponInfo.Attacks | source/game/weapon.h:108-139 | the attack table has one row per attack; every row fires between 1 and GUN_MAXRAYS rays, names no projectile or a valid kind, belongs to a valid gun and a non-idle action, and has positive delay and non-negative damage, headshot damage, ammo cost and radius |
| WeaponInfo.Guns | source/game/weapon.h:141-156 | the gun table has one row per gun, each with a non-empty name and one attack slot per action; the idle slot is empty, every other slot names a valid attack, and the primary and secondary attacks belong back to that gun |
| WeaponInfo.GunAttack | source/game/weapon.h:141-156 | a gun's attack for a non-idle action is a valid attack, and for a non-melee action it is an attack of that gun |
| ProjectileInfo.Projs | source/game/projectile.h:34-52 | the kind table has one row per kind, indexed by kind; each row is exactly one of weapon or junk, exactly one of bouncing or linear, has non-negative bounce limit and variant count, and has a bounce limit only when it bounces |
| ProjectileInfo.IsWeaponProjectile | source/game/projectile.h:53 | a kind is a weapon projectile exactly when it is one of the first six kinds (grenade to plasma), and such a kind is valid |
| ProjectileInfo.Constructed | source/game/projectile.h:71-75 | a freshly constructed record is neither destroyed nor direct, has no bounces, no variant and no sounds, and no loop channel |
| ProjectileInfo.SetFlags | source/game/projectile.h:121-125 | only the flags change; they become the kind's flags, so the record is a weapon projectile exactly when its kind is one, and it is exactly one of weapon/junk and of bounce/linear |
| ProjectileInfo.SetVariant | source/game/projectile.h:98-105 | a kind without variants leaves the record unchanged; otherwise only the variant changes, to one within the kind's variant count |
| ProjectileInfo.SetSounds | source/game/projectile.h:107-119 | only the two sound fields change, each only to the kind's sound and only when that sound is valid; a valid kind sound is always taken |
| ProjectileInfo.UpdatePosition | source/game/projectile.h:145-161 | only the offset time changes, and only for a linear projectile, where it counts down by the elapsed time, never below zero, and never grows |
| Damage.TDiv | source/game/weapon.cpp:312-317 | the quotient is rounded toward zero: for a non-negative dividend the largest non-negative q with q times the divisor at most the dividend, for a non-positive one the smallest non-positive q with q times the divisor at least the dividend |
| Damage.CalcDamage | source/game/weapon.cpp:297-320 | a shielded target takes nothing; a Mayhem head shot with a locational attack takes the target's whole health; any other hit deals a nonzero amount, at least one for non-negative base damage |
| Damage.CalcDamageNonNegative | source/game/weapon.cpp:297-320 | non-negative base damage against a target with non-negative health never gives negative damage |
| Damage.CalcDamageAllyMonotone | source/game/weapon.cpp:297-320 | making the target an ally never increases the damage |
| Damage.CalcDamageArmorMonotone | source/game/weapon.cpp:297-320 | giving a non-berserker target the armour powerup never increases the damage |
| Damage.CalcDamageInvulnerableMonotone | source/game/weapon.cpp:297-320 | making the target invulnerable to the attacker never increases the damage |
| Damage.CalcDamageFlagsIrrelevant | source/game/weapon.cpp:297-320 | only the material, head and legs bits of the flags affect the damage |
| Damage.CalcDamageDefault | source/game/projectile.cpp:159-173 | the four-argument call is zero exactly when the target is shielded, and at least one otherwise for non-negative base damage |
| Damage.CalcPush | source/game/weapon.cpp:322-327 | between rounds no hit is handed on; otherwise exactly one, with the given target, damage, ray count and flags |
| Damage.IsClosestUnique | source/game/weapon.cpp:673-690 | the closest-target specification admits at most one answer |
| Damage.IntersectClosest | source/game/weapon.cpp:673-690 | the pick is the first eligible entity (not the shooter, alive, met by the ray) at the strictly smallest distance below 1e16, or none when none is that close; the returned distance is the pick's |
| Damage.Clear | source/game/weapon.cpp:724-728 | the buffer keeps its length, and exactly the entries naming the entity are cleared |
| Damage.InClear | source/game/weapon.cpp:724-728 | after clearing an entity, a hit on another entity is in the buffer exactly when it was before, and none on the cleared one is |
| Damage.CountClear | source/game/weapon.cpp:724-728 | clearing an entity leaves it no hits and every other entity as many hits as before |
| Damage.DealOne | source/game/weapon.cpp:729-735 | one target's step ORs the head and legs bits into the running flags (locational attacks only), computes the damage with `calcdamage` from the running damage and those flags, and appends one hit for that target with its ray count and that count times the damage |
| Damage.Deal | source/game/weapon.cpp:719-737 | the damage pass hands on one hit per target visited |
| Damage.Groups | source/game/weapon.cpp:719-728 | the pass visits no more targets than there are rays, and credits each with at least one ray |
| Damage.HeadLegsMask | source/game/weapon.cpp:729-733 | the bits a target adds are only head and legs, head exactly when the attack is locational and the head was hit, legs likewise |
| Damage.MultiFlags | source/game/weapon.cpp:729-733 | a non-locational attack leaves the flags as they were; otherwise the head bit is set exactly when it was already set or the head was hit, and the legs bit likewise |
| Damage.MultiFlagsKeeps | source/game/weapon.cpp:729-733 | no bit already set is cleared |
| Damage.MultiFlagsOthers | source/game/weapon.cpp:729-733 | every bit other than head and legs is left as it was |
| Damage.MultiFlagsIdempotent | source/game/weapon.cpp:729-733 | applying the head and legs bits of the same ray a second time changes nothing, so the flags stop changing after the first target |
| Damage.DealPrefix | source/game/weapon.cpp:719-737 | the hits of the pass over the first j targets are the first j hits of the whole pass |
| Damage.DealFlags | source/game/weapon.cpp:729-733 | after at least one target, the running flags are the starting flags with the head and legs bits of the rays added once |
| Damage.DealRecord | source/game/weapon.cpp:734-735 | hit k of the pass is target k's, with its ray count, that count times the running damage after target k, and the running flags after target k |
| Damage.DealNext | source/game/weapon.cpp:729-734 | reaching target k, the running flags are the first target's and the running damage becomes `calcdamage` of the damage after target k-1, against target k, with those flags |
| Damage.DealRecordFlags | source/game/weapon.cpp:729-735 | every hit of the pass carries the first target's flags |
| Damage.DealPerRay | source/game/weapon.cpp:734-735 | dividing a hit's damage by its ray count gives back the running damage after that target |
| Damage.DealFirstDamage | source/game/weapon.cpp:734-735 | the first target takes its ray count times `calcdamage` of the attack's starting damage |
| Damage.DealDamage | source/game/weapon.cpp:734-735 | each later target takes its ray count times `calcdamage` of the previous target's per-ray damage, so damage is chained from target to target as the source does |
| Damage.AggregateHits | source/game/weapon.cpp:719-737 | afterwards every buffer entry of the rays is cleared and the rest of the buffer is untouched; the hits handed on are the damage pass over the targets in order of their first ray, each with its ray count |
| Damage.DedupStep | source/game/weapon.cpp:719-737 | one iteration of the deduplicating loop keeps its invariant: a ray that hit nothing is passed over; a ray that hit starts a target whose rays are all cleared and counted, and the running result becomes the damage pass over one more target |
| Damage.ClearLater | source/game/weapon.cpp:723-728 | every later entry naming the entity is cleared and nothing else changes; the count is one plus the later rays on that entity |
| Damage.GroupsBounded | source/game/weapon.cpp:719-737 | every target the pass visits is an entity some ray named |
| Damage.GroupsCover | source/game/weapon.cpp:719-737 | the pass visits an entity exactly when some ray hit it |
| Damage.GroupsDistinct | source/game/weapon.cpp:719-737 | the pass visits no entity twice |
| Damage.GroupsCount | source/game/weapon.cpp:719-737 | each visited entity is credited with exactly the number of rays that hit it, at least one |
| Damage.DealShape | source/game/weapon.cpp:719-737 | the damage pass records each group's target and ray count in order after the earlier hits |
| Damage.MultiRayHitsOnce | source/game/weapon.cpp:719-737 | a multi-ray attack hands on exactly one hit per entity any ray hit and none for others, crediting the number of rays that hit it |
| Damage.HitsOnce | source/game/weapon.cpp:719-737 | any hit list that follows the groups one for one has those three properties |
| Damage.SingleFlags | source/game/weapon.cpp:747-751 | a single-ray hit is flagged head, legs or torso; head exactly when the attack has headshot damage and the head was hit; always torso for a non-locational attack |
| Damage.SingleHit | source/game/weapon.cpp:739-764 | a single ray that picked nothing hands on nothing; otherwise one hit of one ray on the picked entity with the single-ray flags, dealing `calcdamage` of the attack's damage against that entity with those flags |
| Damage.PickRays | source/game/weapon.cpp:704-718 | each ray's buffer entry is that ray's closest entity, and the kept head and legs tests are those of the last ray that hit |
| Damage.Hitscan | source/game/weapon.cpp:697-765 | between rounds nothing is hit; otherwise each ray picks its closest entity, several rays hand on the deduplicating damage pass over those picks, and one ray hands on its single hit |
| Damage.CanShoot | source/game/weapon.cpp:767-782 | a non-melee attack is allowed only with nonzero ammo covering its cost, and a quenchable projectile is never fired from water; a refusal is always one of these two reasons |
| Explosions.CanDealDamage | source/game/projectile.cpp:159-173 | the projectile is stopped exactly when not between rounds and the entity is alive and met; only a weapon projectile then hands on one direct torso hit on that entity with the default-flag damage |
| Explosions.RadialFlags | source/game/projectile.cpp:258-270 | a radial hit is always a torso hit, and a direct one exactly when the projectile struck the entity |
| Explosions.RadialHit | source/game/projectile.cpp:258-270 | an entity takes one radial hit exactly when it is alive and strictly inside the attack's blast radius, dealing the default-flag `calcdamage` of its fall-off damage |
| Explosions.BlastPass | source/game/projectile.cpp:281-287 | the radial pass over n entities hits at most n of them |
| Explosions.BlastPassHits | source/game/projectile.cpp:272-288 | the radial pass hits only blasted entities among those it visited, once each, in increasing entity order, with one ray, the radial flags and the default-flag `calcdamage` of that entity's fall-off damage |
| Explosions.BlastPassCovers | source/game/projectile.cpp:272-288 | the radial pass hits every blasted entity it visits |
| Explosions.Explode | source/game/projectile.cpp:272-288 | nothing is hit between rounds or for a remote projectile; otherwise the hits are exactly the blasted entities, in entity order, each with one ray and the radial flags of the projectile's direct mark |
| ProjectileTick.Spawned | source/game/projectile.cpp:32-86 | a new record is well formed and takes its kind's flags and sounds, full offset time, the given owner, attack, lifetime, speed, gravity and elasticity, and the spawn time as id when local |
| ProjectileTick.Bounced | source/game/projectile.cpp:111-123 | a bounce always raises the count by one and moves the time stamp exactly when its effects play; well-formedness is kept |
| ProjectileTick.BounceEffectsSpaced | source/game/projectile.cpp:111-123 | two bounces that both play effects are at least 100 ms apart |
| ProjectileTick.BounceEffectsExhausted | source/game/projectile.cpp:111-123 | once a nonzero bounce limit is reached no further bounce plays effects |
| ProjectileTick.JunkCountdown | source/game/projectile.cpp:461-473 | the junk countdown takes exactly the elapsed time off the lifetime, changes nothing but lifetime and the destroyed flag, and never clears that flag |
| ProjectileTick.Lifetime | source/game/projectile.cpp:452-474 | the lifetime check changes only the lifetime and the destroyed flag, and never clears that flag |
| ProjectileTick.CheckLifetime | source/game/projectile.cpp:452-474 | a weapon projectile loses the elapsed time and is destroyed exactly when its lifetime goes negative; junk loses the elapsed time (none for negative time) and is destroyed when it runs out, and a non-bouncing junk only then; other kinds are untouched |
| ProjectileTick.FirstStop | source/game/projectile.cpp:500-510 | the entity found is the first, from the given index on, that stops the projectile; none means no entity does |
| ProjectileTick.FindDirectHit | source/game/projectile.cpp:493-512 | the direct-hit scan returns the first stopping entity and exactly the hit `candealdamage` hands on for it |
| ProjectileTick.DirectPhase | source/game/projectile.cpp:493-512 | the direct-hit phase leaves the record alone or marks it destroyed and direct, and any hit implies the latter |
| ProjectileTick.Reaims | source/game/projectile.cpp:520-529 | a bouncing projectile never re-aims, and neither does one whose target is not near, did not move, or is not clear ahead |
| ProjectileTick.Spent | source/game/projectile.cpp:531-541 | only a bouncing weapon projectile can be spent, and one with no bounce limit only when it stops bouncing |
| ProjectileTick.Hazards | source/game/projectile.cpp:513-541 | only the destroyed flag changes; it is set exactly when already set, in lava, out of bounces or no longer bouncing for a bouncing weapon projectile, or in water for a quenchable kind |
| ProjectileTick.Finish | source/game/projectile.cpp:546-564 | a projectile is removed exactly when destroyed; a surviving bouncing one counts its offset time down, never below zero |
| ProjectileTick.Tick | source/game/projectile.cpp:483-572 | a step never changes owner, kind, flags, attack, bounce count or variant, and leaves a non-negative offset time |
| ProjectileTick.TickOne | source/game/projectile.cpp:485-571 | the loop body for one projectile computes the step `Tick` |
| ProjectileTick.TickWellFormed | source/game/projectile.cpp:483-572 | a step keeps the record well formed |
| ProjectileTick.TickOutcome | source/game/projectile.cpp:520-557 | a removed projectile is destroyed, a kept one is intact, and a step cut short by the re-aim is a linear impact projectile |
| ProjectileTick.TickSpentRemoved | source/game/projectile.cpp:531-541 | a bouncing weapon projectile that stopped bouncing or used up a nonzero bounce limit is removed |
| ProjectileTick.TickOffsetDecays | source/game/projectile.cpp:560-564 | a surviving bouncing projectile's offset time counts down by the elapsed time, never below zero |
| ProjectileTick.TickExpiryRemoved | source/game/projectile.cpp:513-529 | an expired weapon projectile, or a quenchable one in water, is removed unless the step is cut short by the re-aim |
| ProjectileTick.TickDirectHitRemoved | source/game/projectile.cpp:493-512 | a local linear projectile that some entity stops is removed as a direct hit whatever else the step sees |
| Projectiles.Steps | source/game/projectile.cpp:486-571 | the pass takes one step per projectile visited |
| Projectiles.StepsAt | source/game/projectile.cpp:486-571 | the k-th step of the pass is the k-th projectile's own tick |
| Projectiles.Collect | source/game/projectile.cpp:546-564 | the pass keeps at most one record per step |
| Projectiles.CollectSnoc | source/game/projectile.cpp:546-564 | collecting one more step appends exactly that step's survivor, hits and explosion to what the earlier steps left |
| Projectiles.Run | source/game/projectile.cpp:483-572 | the pass over the first n projectiles keeps at most n of them |
| Projectiles.RunStep | source/game/projectile.cpp:483-572 | the pass over one more projectile extends the earlier pass by that projectile's step alone: its survivor, its hits, and its explosion |
| Projectiles.RunExplodedDestroyed | source/game/projectile.cpp:546-557 | every projectile the pass explodes is a destroyed weapon projectile |
| Projectiles.RunKeptAlive | source/game/projectile.cpp:520-529 | a projectile survives the pass destroyed only when its step was cut short to re-aim a linear impact projectile |
| Projectiles.DirectHitBlast | source/game/projectile.cpp:546-551 | a step that scores a direct hit explodes its projectile; the direct hit is a torso-and-direct hit, and the blast, which spares no entity, hits the struck entity again with the torso and direct flags whenever the entity is in it |
| Projectiles.CollectCount | source/game/projectile.cpp:546-557 | no projectile is both kept and exploded |
| Projectiles.Without | source/game/projectile.cpp:722-736 | the purge never lengthens the list |
| Projectiles.WithoutOwner | source/game/projectile.cpp:722-736 | after the purge the owner has no projectile left |
| Projectiles.WithoutKeeps | source/game/projectile.cpp:722-736 | the purge keeps every other owner's projectile as often as the list held it |
| Projectiles.WithoutAppend | source/game/projectile.cpp:722-736 | purging a concatenation is purging each part, so the survivors keep their relative order |
| Projectiles.WithoutNothing | source/game/projectile.cpp:722-736 | a list without the owner's projectiles is left exactly as it was |
| Projectiles.RemoteMatch | source/game/projectile.cpp:306-309 | the combo matches the owner's remote projectile with the event's id whatever its attack; any other event also needs the projectile's attack to be the event's |
| Projectiles.ExplodingAttack | source/game/projectile.cpp:293-301 | every attack whose remote explosion event removes a projectile has a blast radius |
| Projectiles.Triggers | source/game/projectile.cpp:604-605 | only a weapon projectile is set off, and only by one of the three pistol attacks |
| Projectiles.FirstMatch | source/game/projectile.cpp:303-315 | the index found is the first from the given one that a remote explosion event matches; none means none matches |
| Projectiles.ScanSteps | source/game/projectile.cpp:594-595 | the combo scan takes between 1 and 200 steps, and twice the distance, truncated, when that is in range |
| Projectiles.Settle | source/game/projectile.cpp:546-564 | one in-place step of the update loop: the part before the index gains the survivor, the rest is untouched, and well-formedness is kept |
| Projectiles.StepsOf | source/game/projectile.cpp:486-571 | results that are, one by one, the ticks of the first projectiles are exactly the steps of the pass |
| Projectiles.UpdateStep | source/game/projectile.cpp:486-571 | one iteration of the update loop ticks the next original projectile, keeps what was collected equal to the specification's collection of one more step, and keeps every record well-formed |
| Projectiles.ProjectileList.constructor | source/game/projectile.cpp:30 | the list starts empty |
| Projectiles.ProjectileList.Make | source/game/projectile.cpp:32-86 | one freshly spawned record is appended and nothing else changes |
| Projectiles.ProjectileList.SpawnBouncer | source/game/projectile.cpp:574-588 | one local junk record is appended, with no attack, a lifetime of 400 ms or between 1000 and 1999 ms, a speed between 20 and 119, and a gravity of 0.3 plus the random scale (drawn below 0.8), and an elasticity of 0.4 for ejected casings and 0.6 otherwise |
| Projectiles.ProjectileList.Bounce | source/game/projectile.cpp:111-123 | a non-projectile changes nothing; a projectile's record becomes its bounced record, and effects play exactly when due |
| Projectiles.ProjectileList.Update | source/game/projectile.cpp:483-572 | after the in-place update loop the list, the hits and the explosions are exactly those of the specification pass `Run` |
| Projectiles.ProjectileList.RemoveAll | source/game/projectile.cpp:722-736 | with no owner the list is emptied; otherwise it becomes the purge `Without`, which by its lemmas leaves none of the owner's and all of the others' |
| Projectiles.ProjectileList.RemoveAt | source/game/projectile.cpp:312 | the record at the index is removed, the others keep their order, and well-formedness is kept |
| Projectiles.ProjectileList.ExplodeEffects | source/game/projectile.cpp:290-320 | a local event or a non-exploding attack changes nothing; otherwise the first matching projectile, if any, is removed and reported, retagged when the event is the combo |
| Projectiles.ProjectileList.Scan | source/game/projectile.cpp:590-620 | nothing happens between rounds; otherwise the bolt found is the first by step and then by index that the shot sets off, and it is removed and reported as a combo; when none is found no bolt qualifies and the list is unchanged |
| WeaponSelect.Select | source/game/weapon.cpp:35-47 | the gun changes exactly when a different gun is asked for at least 100 ms after the last switch, and then the switch is stamped and the last attack forgotten; otherwise nothing changes |
| WeaponSelect.SelectThrottled | source/game/weapon.cpp:35-47 | any request within 100 ms of a switch is ignored |
| WeaponSelect.SelectIdempotent | source/game/weapon.cpp:35-47 | asking again for the gun already held changes nothing |
| WeaponSelect.Cyc | source/game/weapon.cpp:49-60 | walking the gun ring always lands on a valid gun |
| WeaponSelect.FirstStocked | source/game/weapon.cpp:49-60 | the ring search stops at the first gun that may be taken, or after a full turn |
| WeaponSelect.Dir | source/game/weapon.cpp:52 | the ring is walked forward for a non-negative direction and backward otherwise |
| WeaponSelect.NextGun | source/game/weapon.cpp:49-60 | the gun `nextweapon` lands on is valid |
| WeaponSelect.NextGunForced | source/game/weapon.cpp:49-60 | forced, the neighbouring gun is taken whatever its ammo |
| WeaponSelect.NextGunStays | source/game/weapon.cpp:49-60 | unforced, with no other gun stocked, the current gun is kept |
| WeaponSelect.NextGunFinds | source/game/weapon.cpp:49-60 | unforced, when some other gun has ammo, the result is a different gun with ammo |
| WeaponSelect.CycHits | source/game/weapon.cpp:49-60 | the ring walk reaches any gun within one turn |
| WeaponSelect.CycLeaves | source/game/weapon.cpp:49-60 | the ring walk does not return to its start within one turn |
| WeaponSelect.Position | source/game/weapon.cpp:85-86 | the index found is the first occurrence of the gun from the given index on; -1 means it does not occur |
| WeaponSelect.CycleTarget | source/game/weapon.cpp:87-95 | the entry found is the first, in cycle order from the offset, that names a valid gun which may be taken (stocked, or any gun when forced); none means no remaining entry does |
| WeaponSelect.CycleFindsAny | source/game/weapon.cpp:87-95 | when any entry of the list may be taken, the cycle finds one, wherever it starts |
| WeaponSelect.SwitchOrder | source/game/weapon.cpp:105-134 | the fallback order has six valid guns |
| WeaponSelect.SwitchPick | source/game/weapon.cpp:105-134 | the place found is the first in the fallback order holding another gun with ammo, or six when none does |
| WeaponSelect.SwitchTarget | source/game/weapon.cpp:105-134 | the fallback is the current gun or a fallback gun with ammo |
| WeaponSelect.SwitchTargetBest | source/game/weapon.cpp:105-134 | the fallback keeps the current gun exactly when no other fallback gun has ammo, and otherwise every better fallback gun is empty or current |
| WeaponSelect.Lower | source/game/weapon.cpp:69 | ASCII upper-case letters are lowered and everything else is kept |
| WeaponSelect.NamePrefix | source/game/weapon.cpp:68-69 | the empty request begins every name and a name begins itself; a request longer than the name never matches |
| WeaponSelect.FirstNamed | source/game/weapon.cpp:68-69 | the gun found is the lowest from the given index on whose name the request begins, ignoring case; -1 means none |
| WeaponSelect.GetWeapon | source/game/weapon.cpp:63-72 | a digit-led name is parsed as a number; any other name picks the lowest gun whose name it begins, ignoring case, and -1 exactly when there is none |
| WeaponSelect.GetWeaponOwnName | source/game/weapon.cpp:63-72 | every gun is found by its own name |
| WeaponSelect.ShotDelay | source/game/weapon.cpp:847-850 | the cooldown is the attack's delay, halved (within one) with haste or as berserker, and never shorter than that for an AI pistol |
| WeaponSelect.Actor.GunSelect | source/game/weapon.cpp:35-47 | the selection becomes `Select` of the old one and the firing state is untouched |
| WeaponSelect.Actor.NextWeapon | source/game/weapon.cpp:49-60 | a dead actor changes nothing; otherwise the selection becomes `Select` of `NextGun` |
| WeaponSelect.Actor.SetWeapon | source/game/weapon.cpp:74-79 | a live actor asks for the named gun when it exists and may be taken; otherwise nothing changes |
| WeaponSelect.Actor.CycleSearch | source/game/weapon.cpp:87-95 | the search loop, wrapping round the list from the offset, returns exactly the cycle's target for the actor's current ammunition |
| WeaponSelect.Actor.CycleWeapon | source/game/weapon.cpp:82-96 | a dead actor or an empty list changes nothing; otherwise the actor asks for the cycle's target, if any |
| WeaponSelect.Actor.WeaponSwitch | source/game/weapon.cpp:105-134 | a dead actor changes nothing; otherwise the actor asks for `SwitchTarget` |
| WeaponSelect.Actor.Refuse | source/game/weapon.cpp:793-803 | the state becomes `RefusedFrom` the state before: ammunition, trigger and shot total untouched; the local player pauses 600 ms, forgets the last attack and, alive with an empty gun, falls back; other actors are untouched |
| WeaponSelect.Actor.Spend | source/game/weapon.cpp:804-851 | for an attack the gun can afford, the state becomes `FiredFrom` the state before: only the selected gun's ammo drops, by the attack's use unless ammo is boosted; a single-shot attack ends; the cooldown is `ShotDelay`; the shot total grows by damage times rays |
| WeaponSelect.Actor.Shoot | source/game/weapon.cpp:784-853 | nothing happens during the cooldown; an idle actor only clears the cooldown; otherwise (cooldown over, actor attacking) the shot is always either fired or refused, the action is stamped, and the attack fires exactly when `CanShoot` allows it; the spending and refusal effects are stated in full |
| WeaponSelect.Actor.Attempt | source/game/weapon.cpp:790-853 | the action is stamped, and the gun's attack for the action fires exactly when `CanShoot` allows it, else it is refused |

## Left out

- Rendering, sounds played, particles, decals, light and model selection: presentation only.
- Vector geometry is not modelled. Ray and bounding-cylinder intersection, distances, the broad-phase rejection, and the fall-off of radial damage with distance are inputs.
- Physics (`isbouncing`, `hasbounced` during the junk countdown, `liquidtransition`, `raycubepos`) and the material lookup are boolean inputs per projectile and step.
- Network messages (`addmsg`) are left out; the hits they carry are the modelled results.
- Random draws (`rnd`, `rndscale`) are parameters.
- Console commands and their registration are left out; their handlers are the modelled methods.
- Projectiles are records held by value in the list, not pointers. The source never lets a pointer escape the list, so an index stands for the projectile.
- `setradius` is not modelled, because the collision radius is float geometry.
- `parseint` of the engine is not part of this model; `GetWeapon` takes it as a function parameter.
- Kickback, recoil and the shortening of the shot's range in `shoot` are float geometry, and are left out.
- The `hitscan` or projectile spawn that `shoot` triggers is modelled by `Hitscan` and `ProjectileList.Make` and is not chained inside `Actor.Shoot`.
- The default flags of the four-argument `calcdamage` call are taken to be a torso hit, because the header that declares the default is not part of this model; `CalcDamageFlagsIrrelevant` shows any default without the material, head or legs bit gives the same result.
- WeaponSelect.ShotDelay: the AI pistol delay is computed in floating point in the source; the model uses exact integer truncation of the same fraction.
- Projectiles.ProjectileList.Scan: the bolt found is removed from the list and reported; its explosion is then a separate call.
- Explosions.Explode: the hits it returns are applied by the caller; the damage a hit deals comes from the fall-off input.
- Projectiles.ProjectileList.Update: the blast of each projectile it reports as exploded is `Explode` of that record with no spared entity, the record's own locality and the attack's damage; the caller sets it off as a separate call, and `DirectHitBlast` states what it does to a directly struck entity.
- `collidewithentity` (source/game/projectile.cpp:125-129), the physics callback that marks a bouncing projectile as direct when it collides with an entity, is not modelled, because the physics collision that invokes it is not part of this model; a record is marked direct only by the direct-hit phase of `Tick`.
- Alive state, powerup, role, AI skill and whether the actor is the local player are fixed fields of `Actor`, because the weapon code only reads them.
- Bounces reported by physics during a step are applied through `ProjectileList.Bounce` and are not folded into `Tick`.
- Zoom and the switch sound in `gunselect` are presentation and are left out.
- WeaponSelect.Actor.constructor: the actor's initial weapon state is set up by the entity code, which is not part of this model; the constructor only makes the class usable, and states no property of the source.
- Projectiles.ProjectileList.Update and Projectiles.ProjectileList.ExplodeEffects: the explosion debris that `addexplosioneffects` appends to the list during the pass, for rocket and scattergun attacks outside water (source/game/projectile.cpp:240-253), is not modelled, so the list never grows during the pass.
