/**
 * Which entities a projectile damages (source/game/projectile.cpp):
 * `candealdamage` for a direct hit, and the gating and per-entity loop of
 * `explodeprojectile` with `applyradialeffect`.
 *
 * The broad-phase rejection test, the intersection test, the distance of
 * each entity from the blast and the fall-off damage at that distance are
 * geometry and are inputs here.
 */
module Explosions {
  import opened Wrappers
  import opened ProjectileInfo
  import opened WeaponInfo
  import opened Damage

  /**
   * `candealdamage`: nothing between rounds or against a dead entity or one
   * the projectile does not intersect; otherwise the projectile connects,
   * and a weapon projectile hands on one direct torso hit.
   */
  function CanDealDamage(e: DynEnt, i: nat, p: Projectile, intersects: bool, damage: int,
                         actor: Fighter, betweenrounds: bool): (r: (bool, seq<HitRecord>))
    requires ValidAtk(p.atk)
    ensures r.0 <==> !betweenrounds && e.alive && intersects
    ensures |r.1| <= 1
    ensures r.1 != [] <==> r.0 && IsWeaponProjectile(p.projtype)
    ensures r.1 != [] ==> r.1[0].target == i && r.1[0].rays == 1 && r.1[0].flags == HIT_TORSO | HIT_DIRECT
    ensures r.1 != [] ==> r.1[0].damage == CalcDamageDefault(damage, TargetOf(e, i == p.owner), actor, p.atk)
  {
    if betweenrounds || !e.alive then (false, [])
    else if !intersects then (false, [])
    else if IsWeaponProjectile(p.projtype) then
      var cdamage := CalcDamageDefault(damage, TargetOf(e, i == p.owner), actor, p.atk);
      (true, [HitRecord(i, cdamage, 1, HIT_TORSO | HIT_DIRECT)])
    else (true, [])
  }

  /** What the blast needs to know of each entity: broad-phase rejection, distance and fall-off damage. */
  datatype BlastProbe = BlastProbe(rejected: bool, dist: Distance, radiusdamage: int)

  /** The flags of a radial hit: torso, plus direct when the projectile struck the entity. */
  function RadialFlags(isdirect: bool): (f: HitFlags)
    ensures f & HIT_TORSO != 0
    ensures (f & HIT_DIRECT != 0) <==> isdirect
  {
    if isdirect then HIT_TORSO | HIT_DIRECT else HIT_TORSO
  }

  /** `applyradialeffect`: a live entity strictly inside the blast radius takes one hit. */
  function RadialHit(e: DynEnt, i: nat, probe: BlastProbe, owner: nat, actor: Fighter, atk: int, isdirect: bool): (hs: seq<HitRecord>)
    requires ValidAtk(atk)
    ensures hs != [] <==> e.alive && probe.dist < Attack(atk).exprad as real
    ensures |hs| <= 1
    ensures hs != [] ==> hs[0].target == i && hs[0].rays == 1 && hs[0].flags == RadialFlags(isdirect)
    ensures hs != [] ==> hs[0].damage == CalcDamageDefault(probe.radiusdamage, TargetOf(e, i == owner), actor, atk)
  {
    if !e.alive then []
    else if probe.dist < Attack(atk).exprad as real then
      [HitRecord(i, CalcDamageDefault(probe.radiusdamage, TargetOf(e, i == owner), actor, atk), 1, RadialFlags(isdirect))]
    else []
  }

  /** An entity the blast hits: not rejected, not the spared one, alive and inside the radius. */
  predicate Blasted(ents: seq<DynEnt>, probes: seq<BlastProbe>, safe: Option<nat>, atk: int, i: int)
    requires ValidAtk(atk) && |probes| == |ents|
  {
    0 <= i < |ents| && !probes[i].rejected && safe != Some(i) && ents[i].alive
    && probes[i].dist < Attack(atk).exprad as real
  }

  /** The radial pass over the first `n` entities, in entity order. */
  function BlastPass(ents: seq<DynEnt>, probes: seq<BlastProbe>, safe: Option<nat>, n: nat,
                     owner: nat, actor: Fighter, atk: int, isdirect: bool): (hs: seq<HitRecord>)
    requires ValidAtk(atk) && |probes| == |ents| && n <= |ents|
    ensures |hs| <= n
  {
    if n == 0 then []
    else
      var prev := BlastPass(ents, probes, safe, n - 1, owner, actor, atk, isdirect);
      if probes[n - 1].rejected || safe == Some(n - 1) then prev
      else prev + RadialHit(ents[n - 1], n - 1, probes[n - 1], owner, actor, atk, isdirect)
  }

  /**
   * The radial pass hits only blasted entities, each once, in entity order,
   * with the blast's flags.
   */
  lemma {:induction false} BlastPassHits(ents: seq<DynEnt>, probes: seq<BlastProbe>, safe: Option<nat>, n: nat,
                                         owner: nat, actor: Fighter, atk: int, isdirect: bool, hs: seq<HitRecord>)
    requires ValidAtk(atk) && |probes| == |ents| && n <= |ents|
    requires hs == BlastPass(ents, probes, safe, n, owner, actor, atk, isdirect)
    ensures forall k :: 0 <= k < |hs| ==> hs[k].target < n && Blasted(ents, probes, safe, atk, hs[k].target)
    ensures forall k :: 0 <= k < |hs| ==> hs[k].rays == 1 && hs[k].flags == RadialFlags(isdirect)
    ensures forall k :: 0 <= k < |hs| && hs[k].target < |ents| ==>
              hs[k].damage == CalcDamageDefault(probes[hs[k].target].radiusdamage,
                                                TargetOf(ents[hs[k].target], hs[k].target == owner), actor, atk)
    ensures forall k, l :: 0 <= k < l < |hs| ==> hs[k].target < hs[l].target
  {
    if n > 0 {
      var prev := BlastPass(ents, probes, safe, n - 1, owner, actor, atk, isdirect);
      BlastPassHits(ents, probes, safe, n - 1, owner, actor, atk, isdirect, prev);
      if !(probes[n - 1].rejected || safe == Some(n - 1)) {
        var r := RadialHit(ents[n - 1], n - 1, probes[n - 1], owner, actor, atk, isdirect);
        assert hs == prev + r;
        forall k | 0 <= k < |hs|
          ensures hs[k].target < n && Blasted(ents, probes, safe, atk, hs[k].target)
        {
          if k >= |prev| {
            assert hs[k] == r[0];
          } else {
            assert hs[k] == prev[k];
          }
        }
      }
    }
  }

  /** Every blasted entity among the first `n` is hit by the radial pass. */
  lemma {:induction false} BlastPassCovers(ents: seq<DynEnt>, probes: seq<BlastProbe>, safe: Option<nat>, n: nat,
                                           owner: nat, actor: Fighter, atk: int, isdirect: bool, hs: seq<HitRecord>)
    requires ValidAtk(atk) && |probes| == |ents| && n <= |ents|
    requires hs == BlastPass(ents, probes, safe, n, owner, actor, atk, isdirect)
    ensures forall i :: 0 <= i < n && Blasted(ents, probes, safe, atk, i) ==> exists k :: 0 <= k < |hs| && hs[k].target == i
  {
    if n > 0 {
      var prev := BlastPass(ents, probes, safe, n - 1, owner, actor, atk, isdirect);
      BlastPassCovers(ents, probes, safe, n - 1, owner, actor, atk, isdirect, prev);
      if !(probes[n - 1].rejected || safe == Some(n - 1)) {
        var r := RadialHit(ents[n - 1], n - 1, probes[n - 1], owner, actor, atk, isdirect);
        assert hs == prev + r;
        forall i | 0 <= i < n && Blasted(ents, probes, safe, atk, i)
          ensures exists k :: 0 <= k < |hs| && hs[k].target == i
        {
          if i == n - 1 {
            assert hs[|prev|].target == i;
          } else {
            var k :| 0 <= k < |prev| && prev[k].target == i;
            assert hs[k].target == i;
          }
        }
      }
    }
  }

  /**
   * `explodeprojectile`'s damage: nothing between rounds or for a remote
   * projectile; otherwise the radial pass over every dynamic entity except
   * the spared one.
   */
  function Explode(p: Projectile, ents: seq<DynEnt>, probes: seq<BlastProbe>, safe: Option<nat>,
                   actor: Fighter, islocal: bool, betweenrounds: bool): (hs: seq<HitRecord>)
    requires ValidAtk(p.atk) && |probes| == |ents|
    ensures betweenrounds || !islocal ==> hs == []
    ensures forall k :: 0 <= k < |hs| ==> Blasted(ents, probes, safe, p.atk, hs[k].target)
    ensures forall k, l :: 0 <= k < l < |hs| ==> hs[k].target < hs[l].target
    ensures forall k :: 0 <= k < |hs| ==> hs[k].rays == 1 && hs[k].flags == RadialFlags(p.isdirect)
    ensures !betweenrounds && islocal ==>
      forall i :: Blasted(ents, probes, safe, p.atk, i) ==> exists k :: 0 <= k < |hs| && hs[k].target == i
  {
    if betweenrounds || !islocal then []
    else
      var hs := BlastPass(ents, probes, safe, |ents|, p.owner, actor, p.atk, p.isdirect);
      BlastPassHits(ents, probes, safe, |ents|, p.owner, actor, p.atk, p.isdirect, hs);
      BlastPassCovers(ents, probes, safe, |ents|, p.owner, actor, p.atk, p.isdirect, hs);
      hs
  }
}
