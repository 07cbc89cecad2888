/**
 * The global projectile list (source/game/projectile.cpp): spawning,
 * bounce callbacks, the per-frame update pass that removes in place, the
 * owner purge, the remote-explosion lookup and the plasma-combo scan.
 *
 * Projectiles are records held by value in `items`, in the list's order;
 * the source holds pointers, but none escapes the list, so a record at an
 * index stands for the projectile there.
 */
module Projectiles {
  import opened Wrappers
  import opened ProjectileInfo
  import opened WeaponInfo
  import opened Damage
  import opened ProjectileTick
  import opened Explosions

  /** A physics entity handed to the bounce callback: a projectile at an index of the list, or anything else. */
  datatype PhysEnt = ProjectileEnt(index: nat) | OtherEnt

  /** The inputs of an update pass cover the list, one per projectile, and every projectile is well formed. */
  predicate AllFit(ps: seq<Projectile>, ins: seq<TickInput>, w: World)
  {
    |ins| == |ps| && forall k :: 0 <= k < |ps| ==> WellFormed(ps[k]) && Fits(ps[k], ins[k], w)
  }

  /** What an update pass produces: the surviving records, the direct hits, and the projectiles that explode. */
  datatype Pass = Pass(kept: seq<Projectile>, hits: seq<HitRecord>, exploded: seq<Projectile>)

  /** The record a step leaves in the list: none when the projectile is removed. */
  function Survivor(r: TickResult): seq<Projectile>
  {
    if r.outcome == Removed then [] else [r.proj]
  }

  /** The projectile a step explodes: a removed weapon projectile. */
  function Exploded(r: TickResult): seq<Projectile>
  {
    if r.outcome == Removed && IsWeaponProjectile(r.proj.projtype) then [r.proj] else []
  }

  /** The step each of the first `n` projectiles of a list takes, in order. */
  function Steps(ps: seq<Projectile>, ins: seq<TickInput>, n: nat, time: int, w: World): (rs: seq<TickResult>)
    requires AllFit(ps, ins, w) && n <= |ps|
    ensures |rs| == n
  {
    if n == 0 then [] else Steps(ps, ins, n - 1, time, w) + [Tick(ps[n - 1], time, ins[n - 1], w)]
  }

  /** Each entry of `Steps` is that projectile's own step. */
  lemma {:induction false} StepsAt(ps: seq<Projectile>, ins: seq<TickInput>, n: nat, time: int, w: World, k: nat)
    requires AllFit(ps, ins, w) && k < n <= |ps|
    ensures Steps(ps, ins, n, time, w)[k] == Tick(ps[k], time, ins[k], w)
  {
    if k < n - 1 {
      StepsAt(ps, ins, n - 1, time, w, k);
    }
  }

  /**
   * What a sequence of steps leaves: the records of the projectiles that
   * were not removed, in order, the direct hits, and the removed weapon
   * projectiles, which explode.
   */
  function Collect(rs: seq<TickResult>): (r: Pass)
    ensures |r.kept| <= |rs|
  {
    if rs == [] then Pass([], [], [])
    else
      var prev := Collect(rs[..|rs| - 1]);
      var last := rs[|rs| - 1];
      Pass(prev.kept + Survivor(last), prev.hits + last.hits, prev.exploded + Exploded(last))
  }

  /**
   * The update pass over the first `n` projectiles of a list: every one
   * takes one step in order; those whose step removes them are dropped (a
   * weapon projectile's removal is an explosion), the others stay in their
   * order with their new state. The whole pass is `n == |ps|`.
   */
  function Run(ps: seq<Projectile>, ins: seq<TickInput>, n: nat, time: int, w: World): (r: Pass)
    requires AllFit(ps, ins, w) && n <= |ps|
    ensures |r.kept| <= n
  {
    Collect(Steps(ps, ins, n, time, w))
  }

  /** The pass over one more projectile is the pass before it extended by that projectile's step. */
  lemma RunStep(ps: seq<Projectile>, ins: seq<TickInput>, k: nat, time: int, w: World)
    requires AllFit(ps, ins, w) && k < |ps|
    ensures var prev, r := Run(ps, ins, k, time, w), Tick(ps[k], time, ins[k], w);
            Run(ps, ins, k + 1, time, w) == Pass(prev.kept + Survivor(r), prev.hits + r.hits, prev.exploded + Exploded(r))
  {
    assert Steps(ps, ins, k + 1, time, w)[..k] == Steps(ps, ins, k, time, w);
  }

  /** Every projectile a sequence of steps explodes is a destroyed weapon projectile, when every removal destroys. */
  lemma {:induction false} CollectExploded(rs: seq<TickResult>)
    requires forall k :: 0 <= k < |rs| && rs[k].outcome == Removed ==> rs[k].proj.isdestroyed
    ensures forall e :: e in Collect(rs).exploded ==> e.isdestroyed && IsWeaponProjectile(e.projtype)
  {
    if rs != [] {
      CollectExploded(rs[..|rs| - 1]);
    }
  }

  /** Every projectile an update pass explodes is a destroyed weapon projectile. */
  lemma RunExplodedDestroyed(ps: seq<Projectile>, ins: seq<TickInput>, n: nat, time: int, w: World)
    requires AllFit(ps, ins, w) && n <= |ps|
    ensures forall e :: e in Run(ps, ins, n, time, w).exploded ==> e.isdestroyed && IsWeaponProjectile(e.projtype)
  {
    var rs := Steps(ps, ins, n, time, w);
    forall k | 0 <= k < n
      ensures rs[k].outcome == Removed ==> rs[k].proj.isdestroyed
    {
      StepsAt(ps, ins, n, time, w, k);
      TickOutcome(ps[k], time, ins[k], w);
    }
    CollectExploded(rs);
  }

  /** A survivor of a sequence of steps is destroyed only when it was kept by a re-aiming step of a linear impact projectile. */
  lemma {:induction false} CollectKeptAlive(rs: seq<TickResult>)
    requires forall k :: 0 <= k < |rs| && rs[k].outcome == Kept ==> !rs[k].proj.isdestroyed
    requires forall k :: 0 <= k < |rs| && rs[k].outcome == Retargeted ==>
               Has(rs[k].proj.flags, ProjFlag_Linear) && Has(rs[k].proj.flags, ProjFlag_Impact)
    ensures forall q :: q in Collect(rs).kept && q.isdestroyed ==>
              Has(q.flags, ProjFlag_Linear) && Has(q.flags, ProjFlag_Impact)
  {
    if rs != [] {
      CollectKeptAlive(rs[..|rs| - 1]);
    }
  }

  /**
   * A projectile survives an update pass destroyed only when its step was
   * cut short to re-aim a linear impact projectile; every other survivor is
   * intact.
   */
  lemma RunKeptAlive(ps: seq<Projectile>, ins: seq<TickInput>, n: nat, time: int, w: World)
    requires AllFit(ps, ins, w) && n <= |ps|
    ensures forall q :: q in Run(ps, ins, n, time, w).kept && q.isdestroyed ==>
              Has(q.flags, ProjFlag_Linear) && Has(q.flags, ProjFlag_Impact)
  {
    var rs := Steps(ps, ins, n, time, w);
    forall k | 0 <= k < n
      ensures rs[k].outcome == Kept ==> !rs[k].proj.isdestroyed
      ensures rs[k].outcome == Retargeted ==>
                Has(rs[k].proj.flags, ProjFlag_Linear) && Has(rs[k].proj.flags, ProjFlag_Impact)
    {
      StepsAt(ps, ins, n, time, w, k);
      TickOutcome(ps[k], time, ins[k], w);
    }
    CollectKeptAlive(rs);
  }

  /**
   * A step that scores a direct hit explodes its projectile, and that blast,
   * set off with no entity spared as the update pass does, hits the struck
   * entity a second time, as a direct radial hit, whenever the entity is in it.
   */
  lemma DirectHitBlast(p: Projectile, time: int, inp: TickInput, w: World, probes: seq<BlastProbe>, actor: Fighter)
    requires WellFormed(p) && Fits(p, inp, w) && |probes| == |w.ents|
    requires Tick(p, time, inp, w).hits != []
    requires Blasted(w.ents, probes, None, p.atk, Tick(p, time, inp, w).hits[0].target)
    ensures var r := Tick(p, time, inp, w);
            Exploded(r) == [r.proj] && r.hits[0].flags == HIT_TORSO | HIT_DIRECT
    ensures var r := Tick(p, time, inp, w);
            var hs := Explode(r.proj, w.ents, probes, None, actor, r.proj.islocal, w.betweenrounds);
            exists k :: 0 <= k < |hs| && hs[k] == HitRecord(r.hits[0].target, hs[k].damage, 1, HIT_TORSO | HIT_DIRECT)
  {
    var r := Tick(p, time, inp, w);
    var e := r.proj;
    assert e.isdirect && e.islocal && !w.betweenrounds && r.outcome == Removed;
    var hs := Explode(e, w.ents, probes, None, actor, e.islocal, w.betweenrounds);
    var k :| 0 <= k < |hs| && hs[k].target == r.hits[0].target;
    assert hs[k] == HitRecord(r.hits[0].target, hs[k].damage, 1, HIT_TORSO | HIT_DIRECT);
  }

  /** No step both keeps and explodes its projectile: together they are at most the steps taken. */
  lemma {:induction false} CollectCount(rs: seq<TickResult>)
    ensures |Collect(rs).kept| + |Collect(rs).exploded| <= |rs|
  {
    if rs != [] {
      CollectCount(rs[..|rs| - 1]);
    }
  }

  /** The projectiles of a list not owned by `o`, in order. */
  function Without(ps: seq<Projectile>, o: nat): (r: seq<Projectile>)
    ensures |r| <= |ps|
    decreases |ps|
  {
    if ps == [] then []
    else
      var n := |ps| - 1;
      Without(ps[..n], o) + (if ps[n].owner == o then [] else [ps[n]])
  }

  /** After the purge no projectile of the owner is left. */
  lemma {:induction false} WithoutOwner(ps: seq<Projectile>, o: nat)
    ensures forall q :: q in Without(ps, o) ==> q.owner != o
    decreases |ps|
  {
    if ps != [] {
      WithoutOwner(ps[..|ps| - 1], o);
    }
  }

  /** The purge keeps every other owner's projectiles, each as often as the list held it. */
  lemma {:induction false} WithoutKeeps(ps: seq<Projectile>, o: nat)
    ensures forall q: Projectile :: q.owner != o ==> multiset(Without(ps, o))[q] == multiset(ps)[q]
    decreases |ps|
  {
    if ps != [] {
      var n := |ps| - 1;
      var pre, last := ps[..n], ps[n];
      WithoutKeeps(pre, o);
      assert ps == pre + [last];
      var kept := if last.owner == o then [] else [last];
      assert multiset(Without(ps, o)) == multiset(Without(pre, o)) + multiset(kept);
      assert multiset(ps) == multiset(pre) + multiset{last};
    }
  }

  /** The purge works element by element, so the survivors keep their relative order. */
  lemma {:induction false} WithoutAppend(a: seq<Projectile>, b: seq<Projectile>, o: nat)
    ensures Without(a + b, o) == Without(a, o) + Without(b, o)
    decreases |b|
  {
    if b == [] {
      assert a + b == a;
    } else {
      var n := |b| - 1;
      var ab := a + b;
      WithoutAppend(a, b[..n], o);
      assert ab[..|ab| - 1] == a + b[..n] && ab[|ab| - 1] == b[n];
      assert Without(ab, o) == Without(a + b[..n], o) + (if b[n].owner == o then [] else [b[n]]);
    }
  }

  /** A list holding no projectile of the owner is left exactly as it was. */
  lemma {:induction false} WithoutNothing(ps: seq<Projectile>, o: nat)
    requires forall q :: q in ps ==> q.owner != o
    ensures Without(ps, o) == ps
    decreases |ps|
  {
    if ps != [] {
      var n := |ps| - 1;
      WithoutNothing(ps[..n], o);
      assert ps == ps[..n] + [ps[n]];
    }
  }

  /** The projectile matched by a remote explosion event: remote, same owner and id, and same attack unless the event is the combo. */
  predicate RemoteMatch(p: Projectile, atk: int, d: nat, id: int): (r: bool)
    ensures atk == ATK_PISTOL_COMBO ==> (r <==> p.owner == d && p.id == id && !p.islocal)
    ensures atk != ATK_PISTOL_COMBO && r ==> p.atk == atk
  {
    p.owner == d && p.id == id && !p.islocal && (atk == ATK_PISTOL_COMBO || p.atk == atk)
  }

  /** The attacks whose remote explosion events remove a projectile. */
  predicate ExplodingAttack(atk: int): (r: bool)
    ensures r ==> ValidAtk(atk) && Attack(atk).exprad > 0
  {
    atk == ATK_ROCKET2 || atk == ATK_GRENADE1 || atk == ATK_GRENADE2 || atk == ATK_PULSE1
    || atk == ATK_ROCKET1 || atk == ATK_PISTOL2 || atk == ATK_PISTOL_COMBO
  }

  /** The first projectile from index `j` on that a remote explosion event matches. */
  function FirstMatch(ps: seq<Projectile>, atk: int, d: nat, id: int, j: nat): (r: Option<nat>)
    ensures r.None? ==> forall k :: j <= k < |ps| ==> !RemoteMatch(ps[k], atk, d, id)
    ensures r.Some? ==> j <= r.value < |ps| && RemoteMatch(ps[r.value], atk, d, id)
                        && forall k :: j <= k < r.value ==> !RemoteMatch(ps[k], atk, d, id)
    decreases |ps| - j
  {
    if j >= |ps| then None
    else if RemoteMatch(ps[j], atk, d, id) then Some(j)
    else FirstMatch(ps, atk, d, id, j + 1)
  }

  /** The step count of the combo scan: twice the distance, truncated, kept within [1, 200]. */
  function ScanSteps(dist: Distance): (n: int)
    ensures 1 <= n <= 200
    ensures 1 <= (dist * 2.0).Floor <= 200 ==> n == (dist * 2.0).Floor
  {
    var n := (dist * 2.0).Floor;
    if n < 1 then 1 else if n > 200 then 200 else n
  }

  /**
   * A plasma bolt the combo scan sets off at step `s`: owned by the shooter
   * or by an AI, the shot is a pistol attack, and the bolt is within its
   * attack's margin of the step's point (`near`).
   */
  predicate Triggers(p: Projectile, s: int, i: int, d: nat, atk: int, isAI: nat -> bool, near: (int, int) -> bool): (r: bool)
    requires ValidAtk(atk)
    ensures r ==> IsWeaponProjectile(p.projtype)
    ensures r ==> atk == ATK_PISTOL1 || atk == ATK_PISTOL2 || atk == ATK_PISTOL_COMBO
  {
    p.projtype == Projectile_Plasma && (p.owner == d || isAI(p.owner))
    && Attack(atk).gun == GUN_PISTOL && near(s, i)
  }

  /**
   * The in-place step of the update loop at index `i`: a removed projectile
   * is erased and the index stays; a surviving one is overwritten by its new
   * state and the index moves past it.
   */
  method Settle(ps: seq<Projectile>, i: nat, r: TickResult) returns (qs: seq<Projectile>, j: nat)
    requires i < |ps|
    ensures j <= |qs| && |qs| - j == |ps| - i - 1
    ensures qs[..j] == ps[..i] + Survivor(r)
    ensures qs[j..] == ps[i + 1..]
    ensures (forall k :: 0 <= k < |ps| ==> WellFormed(ps[k])) && WellFormed(r.proj) ==>
            forall k :: 0 <= k < |qs| ==> WellFormed(qs[k])
  {
    if r.outcome == Removed {
      qs, j := ps[..i] + ps[i + 1..], i;
      assert qs[..j] == ps[..i];
    } else {
      qs, j := ps[i := r.proj], i + 1;
      assert qs[..j] == ps[..i] + [r.proj];
    }
  }

  /** The results `rs` are, one by one, the steps of the first projectiles. */
  ghost predicate Ticked(ps: seq<Projectile>, ins: seq<TickInput>, rs: seq<TickResult>, time: int, w: World)
  {
    AllFit(ps, ins, w) && |rs| <= |ps| && forall j {:trigger rs[j]} :: 0 <= j < |rs| ==> rs[j] == Tick(ps[j], time, ins[j], w)
  }

  /** A sequence of results that are, one for one, the steps of a list's first projectiles is those steps. */
  lemma {:induction false} StepsOf(ps: seq<Projectile>, ins: seq<TickInput>, rs: seq<TickResult>, time: int, w: World)
    requires Ticked(ps, ins, rs, time, w)
    ensures rs == Steps(ps, ins, |rs|, time, w)
  {
    var ss := Steps(ps, ins, |rs|, time, w);
    forall k | 0 <= k < |rs|
      ensures rs[k] == ss[k]
    {
      StepsAt(ps, ins, |rs|, time, w, k);
    }
  }

  /** Collecting one more step extends what the steps before it left by that step's survivor, hits and explosion. */
  lemma CollectSnoc(rs: seq<TickResult>, r: TickResult)
    ensures var prev := Collect(rs);
            Collect(rs + [r]) == Pass(prev.kept + Survivor(r), prev.hits + r.hits, prev.exploded + Exploded(r))
  {
    assert (rs + [r])[..|rs|] == rs;
  }

  /** Results that are the steps of a list's first `|rs|` projectiles, followed by the next one's step, are the steps of one more. */
  lemma StepsSnoc(ps: seq<Projectile>, ins: seq<TickInput>, rs: seq<TickResult>, r: TickResult, time: int, w: World)
    requires Ticked(ps, ins, rs, time, w) && |rs| < |ps|
    requires r == Tick(ps[|rs|], time, ins[|rs|], w)
    ensures Ticked(ps, ins, rs + [r], time, w)
  {
    forall j | 0 <= j < |rs| + 1
      ensures (rs + [r])[j] == Tick(ps[j], time, ins[j], w)
    {
      if j < |rs| {
        assert (rs + [r])[j] == rs[j];
      }
    }
  }

  /**
   * One iteration of the update loop at index `i`, the `k`-th projectile of
   * the original list: step it, collect its hits and explosion, and settle
   * the list in place. The steps taken so far (`rs`) grow by that step.
   */
  method UpdateStep(ghost orig: seq<Projectile>, inputs: seq<TickInput>, k: nat, time: int, w: World,
                    ps: seq<Projectile>, i: nat, hits: seq<HitRecord>, exploded: seq<Projectile>, ghost rs: seq<TickResult>)
    returns (ps': seq<Projectile>, i': nat, hits': seq<HitRecord>, exploded': seq<Projectile>, ghost rs': seq<TickResult>)
    requires AllFit(orig, inputs, w) && k < |orig| && i < |ps|
    requires |ps| - i == |orig| - k && ps[i..] == orig[k..]
    requires |rs| == k && Pass(ps[..i], hits, exploded) == Collect(rs)
    requires Ticked(orig, inputs, rs, time, w)
    requires forall j :: 0 <= j < |ps| ==> WellFormed(ps[j])
    ensures i' <= |ps'| && |ps'| - i' == |orig| - (k + 1) && ps'[i'..] == orig[k + 1..]
    ensures |rs'| == k + 1 && Pass(ps'[..i'], hits', exploded') == Collect(rs')
    ensures Ticked(orig, inputs, rs', time, w)
    ensures forall j :: 0 <= j < |ps'| ==> WellFormed(ps'[j])
  {
    assert ps[i] == orig[k] && ps[i + 1..] == orig[k + 1..];
    var r := TickOne(ps[i], time, inputs[k], w);
    TickWellFormed(ps[i], time, inputs[k], w);
    rs' := rs + [r];
    CollectSnoc(rs, r);
    StepsSnoc(orig, inputs, rs, r, time, w);
    hits', exploded' := hits + r.hits, exploded + Exploded(r);
    ps', i' := Settle(ps, i, r);
  }

  class ProjectileList {
    var items: seq<Projectile>

    predicate Valid()
      reads this
    {
      forall k :: 0 <= k < |items| ==> WellFormed(items[k])
    }

    constructor ()
      ensures Valid() && items == []
    {
      items := [];
    }

    /** `makeprojectile`: append one freshly built record. */
    method Make(owner: nat, islocal: bool, id: int, atk: int, kind: int, lifetime: int, speed: int,
                gravity: real, elasticity: real, now: int, roll: nat)
      requires Valid() && IsValidProjectile(kind) && (NeedsAttack(kind) ==> ValidAtk(atk))
      modifies this
      ensures Valid()
      ensures items == old(items) + [Spawned(owner, islocal, id, atk, kind, lifetime, speed, gravity, elasticity, now, roll)]
    {
      var p := Spawned(owner, islocal, id, atk, kind, lifetime, speed, gravity, elasticity, now, roll);
      items := items + [p];
    }

    /**
     * `spawnbouncer`: a local debris, gib or ejected-casing projectile with no
     * attack. `lifeRoll`, `speedRoll`, `gravityScale` and `variantRoll` stand
     * for the engine's random draws; the gravity scale is drawn below 0.8.
     */
    method SpawnBouncer(d: nat, kind: int, now: int, lifeRoll: nat, speedRoll: nat, gravityScale: real, variantRoll: nat)
      requires Valid()
      requires kind == Projectile_Gib || kind == Projectile_Debris || kind == Projectile_Eject
      requires 0.0 <= gravityScale < 0.8
      modifies this
      ensures Valid()
      ensures items == old(items) + [Spawned(d, true, 0, -1, kind,
                                             if kind == Projectile_Debris then 400 else lifeRoll % 1000 + 1000,
                                             speedRoll % 100 + 20, 0.3 + gravityScale,
                                             if kind == Projectile_Eject then 0.4 else 0.6, now, variantRoll)]
    {
      var elasticity := if kind == Projectile_Eject then 0.4 else 0.6;
      var lifetime := if kind == Projectile_Debris then 400 else lifeRoll % 1000 + 1000;
      Make(d, true, 0, -1, kind, lifetime, speedRoll % 100 + 20, 0.3 + gravityScale, elasticity, now, variantRoll);
    }

    /** `bounce`: ignore anything but a projectile; count the bounce and, when due, play its effects. */
    method Bounce(ent: PhysEnt, now: int) returns (effects: bool)
      requires Valid() && (ent.ProjectileEnt? ==> ent.index < |items|)
      modifies this
      ensures Valid()
      ensures ent.OtherEnt? ==> items == old(items) && !effects
      ensures ent.ProjectileEnt? ==>
        items == old(items)[ent.index := Bounced(old(items)[ent.index], now)]
        && effects == BounceEffects(old(items)[ent.index], now)
    {
      match ent
      case OtherEnt =>
        effects := false;
      case ProjectileEnt(i) =>
        var p := items[i].(bounces := items[i].bounces + 1);
        var maxbounces := Projs()[p.projtype].maxbounces;
        if (maxbounces != 0 && p.bounces > maxbounces) || now - p.lastbounce < 100 {
          effects := false;
        } else {
          effects := true;
          p := p.(lastbounce := now);
        }
        items := items[i := p];
    }

    /**
     * `updateprojectiles`: step every projectile once, in order, removing
     * destroyed ones in place and moving on without advancing the index.
     * `inputs[k]` is what the world answers for the projectile that was at
     * index `k` when the pass began.
     */
    method Update(time: int, inputs: seq<TickInput>, w: World) returns (hits: seq<HitRecord>, exploded: seq<Projectile>)
      requires Valid() && AllFit(items, inputs, w)
      modifies this
      ensures Valid()
      ensures items == Run(old(items), inputs, |old(items)|, time, w).kept
      ensures hits == Run(old(items), inputs, |old(items)|, time, w).hits
      ensures exploded == Run(old(items), inputs, |old(items)|, time, w).exploded
    {
      ghost var orig := items;
      ghost var rs: seq<TickResult> := [];
      hits, exploded := [], [];
      var i, k := 0, 0;
      while i < |items|
        invariant 0 <= k <= |orig| && 0 <= i <= |items|
        invariant |items| - i == |orig| - k
        invariant items[i..] == orig[k..]
        invariant AllFit(orig, inputs, w)
        invariant |rs| == k && Pass(items[..i], hits, exploded) == Collect(rs)
        invariant Ticked(orig, inputs, rs, time, w)
        invariant Valid()
        decreases |orig| - k
      {
        items, i, hits, exploded, rs := UpdateStep(orig, inputs, k, time, w, items, i, hits, exploded, rs);
        k := k + 1;
      }
      assert k == |orig| && items[..i] == items;
      StepsOf(orig, inputs, rs, time, w);
    }

    /** `removeprojectiles`: with no owner, empty the list; otherwise remove that owner's projectiles in place. */
    method RemoveAll(owner: Option<nat>)
      requires Valid()
      modifies this
      ensures Valid()
      ensures owner.None? ==> items == []
      ensures owner.Some? ==> items == Without(old(items), owner.value)
    {
      if owner.None? {
        items := [];
        return;
      }
      var o := owner.value;
      ghost var orig := items;
      var i := 0;
      ghost var k := 0;
      while i < |items|
        invariant 0 <= k <= |orig| && 0 <= i <= |items|
        invariant |items| - i == |orig| - k
        invariant items[i..] == orig[k..]
        invariant items[..i] == Without(orig[..k], o)
        invariant Valid()
        decreases |orig| - k
      {
        assert items[i] == orig[k];
        assert orig[..k + 1][..k] == orig[..k];
        if items[i].owner == o {
          items := items[..i] + items[i + 1..];
        } else {
          i := i + 1;
        }
        k := k + 1;
      }
      assert orig[..k] == orig;
    }

    /** `vector::remove` at an index: the record there is taken out and the others keep their order. */
    method RemoveAt(i: nat)
      requires Valid() && i < |items|
      modifies this
      ensures Valid() && items == old(items)[..i] + old(items)[i + 1..]
    {
      items := items[..i] + items[i + 1..];
      assert forall k :: 0 <= k < |items| ==> items[k] == old(items)[if k < i then k else k + 1];
    }

    /**
     * `explodeeffects`: for a remote event of an exploding attack, remove the
     * first matching projectile (a combo event retags it to the combo
     * attack first) and report it; its explosion is remote, so it deals no
     * damage here. Any other event changes nothing.
     */
    method ExplodeEffects(atk: int, d: nat, islocal: bool, id: int) returns (gone: Option<Projectile>)
      requires Valid()
      modifies this
      ensures Valid()
      ensures islocal || !ExplodingAttack(atk) ==> items == old(items) && gone == None
      ensures !islocal && ExplodingAttack(atk) && FirstMatch(old(items), atk, d, id, 0).None? ==>
        items == old(items) && gone == None
      ensures !islocal && ExplodingAttack(atk) && FirstMatch(old(items), atk, d, id, 0).Some? ==>
        var m := FirstMatch(old(items), atk, d, id, 0).value;
        items == old(items)[..m] + old(items)[m + 1..]
        && gone == Some(if atk == ATK_PISTOL_COMBO then old(items)[m].(atk := atk) else old(items)[m])
    {
      gone := None;
      if islocal || !ExplodingAttack(atk) {
        return;
      }
      var i := 0;
      while i < |items|
        invariant 0 <= i <= |items| && items == old(items)
        invariant FirstMatch(items, atk, d, id, i) == FirstMatch(items, atk, d, id, 0)
      {
        var p := items[i];
        if p.owner == d && p.id == id && !p.islocal {
          if atk == ATK_PISTOL_COMBO {
            p := p.(atk := atk);
          } else if p.atk != atk {
            i := i + 1;
            continue;
          }
          gone := Some(p);
          RemoveAt(i);
          return;
        }
        i := i + 1;
      }
    }

    /**
     * `scanprojectiles`: between rounds nothing happens; otherwise walk the
     * shot in `ScanSteps(dist)` steps and, at each step, look along the list
     * for a plasma bolt the shot sets off. The first one found is retagged to
     * the combo attack, removed and reported, and the scan succeeds. `step`
     * and `index` name where it was found.
     */
    method Scan(d: nat, atk: int, dist: Distance, isAI: nat -> bool, near: (int, int) -> bool, betweenrounds: bool)
      returns (found: bool, combo: Option<Projectile>, ghost step: int, ghost index: int)
      requires Valid() && ValidAtk(atk)
      modifies this
      ensures Valid()
      ensures betweenrounds ==> !found
      ensures !found ==> items == old(items) && combo == None
      ensures !found && !betweenrounds ==>
        forall s, i :: 0 <= s < ScanSteps(dist) && 0 <= i < |old(items)| ==> !Triggers(old(items)[i], s, i, d, atk, isAI, near)
      ensures found ==>
        && 0 <= step < ScanSteps(dist) && 0 <= index < |old(items)|
        && Triggers(old(items)[index], step, index, d, atk, isAI, near)
        && (forall s, i :: 0 <= s < step && 0 <= i < |old(items)| ==> !Triggers(old(items)[i], s, i, d, atk, isAI, near))
        && (forall i :: 0 <= i < index ==> !Triggers(old(items)[i], step, i, d, atk, isAI, near))
        && items == old(items)[..index] + old(items)[index + 1..]
        && combo == Some(old(items)[index].(atk := ATK_PISTOL_COMBO))
    {
      found, combo, step, index := false, None, 0, 0;
      if betweenrounds {
        return;
      }
      var steps := ScanSteps(dist);
      var s := 0;
      while s < steps
        invariant 0 <= s <= steps && items == old(items)
        invariant forall s', i :: 0 <= s' < s && 0 <= i < |items| ==> !Triggers(items[i], s', i, d, atk, isAI, near)
      {
        var i := 0;
        while i < |items|
          invariant 0 <= i <= |items| && items == old(items)
          invariant forall s', i' :: 0 <= s' < s && 0 <= i' < |items| ==> !Triggers(items[i'], s', i', d, atk, isAI, near)
          invariant forall i' :: 0 <= i' < i ==> !Triggers(items[i'], s, i', d, atk, isAI, near)
        {
          var p := items[i];
          if p.projtype != Projectile_Plasma || (d != p.owner && !isAI(p.owner)) {
            i := i + 1;
            continue;
          }
          if Attack(atk).gun == GUN_PISTOL && near(s, i) {
            combo := Some(p.(atk := ATK_PISTOL_COMBO));
            items := items[..i] + items[i + 1..];
            found, step, index := true, s, i;
            return;
          }
          i := i + 1;
        }
        s := s + 1;
      }
    }
  }
}
