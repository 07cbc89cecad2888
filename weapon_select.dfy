/**
 * Weapon selection and fire gating (source/game/weapon.cpp): the switch
 * throttle, the cyclic next-weapon and cycle-list searches, the fixed
 * fallback priority, lookup by name, and the cooldown and ammo bookkeeping
 * of a shot.
 */
module WeaponSelect {
  import opened Wrappers
  import opened ProjectileInfo
  import opened WeaponInfo
  import opened Damage

  /** The part of an actor that switching guns touches. */
  datatype Selection = Selection(gun: int, lastswitch: int, lastattack: int)

  /**
   * `gunselect`: asking for the gun already held, or asking within 100 ms of
   * the last switch, changes nothing; otherwise the gun is taken, the switch
   * time stamped and the last attack forgotten.
   */
  function Select(s: Selection, gun: int, now: int): (r: Selection)
    ensures (r.gun != s.gun) <==> (gun != s.gun && now - s.lastswitch >= 100)
    ensures r.gun == s.gun ==> r == s
    ensures r.gun != s.gun ==> r.gun == gun && r.lastswitch == now && r.lastattack == -1
  {
    if gun == s.gun || now - s.lastswitch < 100 then s
    else Selection(gun, now, -1)
  }

  /** A switch holds for 100 ms: any request in that window after a switch is ignored. */
  lemma SelectThrottled(s: Selection, g1: int, t1: int, g2: int, t2: int)
    requires Select(s, g1, t1).gun != s.gun && t2 < t1 + 100
    ensures Select(Select(s, g1, t1), g2, t2) == Select(s, g1, t1)
  {
  }

  /** Once the gun asked for is held, asking for it again changes nothing. */
  lemma SelectIdempotent(s: Selection, gun: int, t1: int, t2: int)
    requires Select(s, gun, t1).gun == gun
    ensures Select(Select(s, gun, t1), gun, t2) == Select(s, gun, t1)
  {
  }

  /** A gun may be taken by a search: it is forced, or it has ammo. */
  predicate Stocked(ammo: seq<int>, gun: int, force: bool)
    requires ValidGun(gun) && |ammo| == NUMGUNS
  {
    force || ammo[gun] != 0
  }

  /** The gun `k` steps of `d` after `g` around the gun ring. */
  function Cyc(g: int, d: int, k: nat): (r: int)
    requires ValidGun(g) && d >= 0
    ensures ValidGun(r)
  {
    if k == 0 then g else (Cyc(g, d, k - 1) + d) % NUMGUNS
  }

  /** Within one turn, the gun `k` steps of `d` after `g`, wrapping past the ends of the ring at most once. */
  function Near(g: int, d: int, k: nat): int
    requires d == 1 || d == NUMGUNS - 1
  {
    if d == 1 then (if g + k < NUMGUNS then g + k else g + k - NUMGUNS)
    else (if g - k >= 0 then g - k else g - k + NUMGUNS)
  }

  /** Within one turn, stepping around the ring needs no remainder beyond a single wrap. */
  lemma {:induction false} CycNear(g: int, d: int, k: nat)
    requires ValidGun(g) && (d == 1 || d == NUMGUNS - 1) && k <= NUMGUNS
    ensures Cyc(g, d, k) == Near(g, d, k)
  {
    if k > 0 {
      CycNear(g, d, k - 1);
      ModOnce(Cyc(g, d, k - 1) + d, NUMGUNS);
    }
  }

  /** The first step count from `k` on at which the ring search stops; a full turn when none stops earlier. */
  function FirstStocked(g: int, ammo: seq<int>, d: int, force: bool, k: nat): (r: nat)
    requires ValidGun(g) && |ammo| == NUMGUNS && d >= 0 && 1 <= k <= NUMGUNS
    ensures k <= r <= NUMGUNS
    ensures forall j: nat :: k <= j < r ==> !Stocked(ammo, Cyc(g, d, j), force)
    ensures r < NUMGUNS ==> Stocked(ammo, Cyc(g, d, r), force)
    decreases NUMGUNS - k
  {
    if k == NUMGUNS || Stocked(ammo, Cyc(g, d, k), force) then k
    else FirstStocked(g, ammo, d, force, k + 1)
  }

  /** The step `nextweapon` walks the ring by: one back for a negative direction, one forward otherwise. */
  function Dir(dir: int): (d: int)
    ensures d == 1 || d == NUMGUNS - 1
    ensures (d == 1) <==> dir >= 0
  {
    if dir < 0 then NUMGUNS - 1 else 1
  }

  /** The gun `nextweapon` lands on: the first stocked gun around the ring, or the current one after a full turn. */
  function NextGun(g: int, ammo: seq<int>, d: int, force: bool): (r: int)
    requires ValidGun(g) && |ammo| == NUMGUNS && d >= 0
    ensures ValidGun(r)
  {
    Cyc(g, d, FirstStocked(g, ammo, d, force, 1))
  }

  /** Forced, `nextweapon` takes the neighbouring gun whatever its ammo. */
  lemma NextGunForced(g: int, ammo: seq<int>, d: int)
    requires ValidGun(g) && |ammo| == NUMGUNS && d >= 0
    ensures NextGun(g, ammo, d, true) == (g + d) % NUMGUNS
  {
    assert Stocked(ammo, Cyc(g, d, 1), true);
    assert FirstStocked(g, ammo, d, true, 1) == 1;
    assert Cyc(g, d, 1) == (Cyc(g, d, 0) + d) % NUMGUNS;
  }

  /** Unforced, with no other gun stocked, `nextweapon` keeps the current gun. */
  lemma NextGunStays(g: int, ammo: seq<int>, d: int)
    requires ValidGun(g) && |ammo| == NUMGUNS && (d == 1 || d == NUMGUNS - 1)
    requires forall h :: 0 <= h < NUMGUNS && h != g ==> ammo[h] == 0
    ensures NextGun(g, ammo, d, false) == g
  {
    var k := FirstStocked(g, ammo, d, false, 1);
    CycNear(g, d, k);
    if k < NUMGUNS {
      assert false;
    }
  }

  /** Unforced, when some other gun has ammo, `nextweapon` moves to a different gun that has ammo. */
  lemma NextGunFinds(g: int, ammo: seq<int>, dir: int, h: int)
    requires ValidGun(g) && |ammo| == NUMGUNS && ValidGun(h) && h != g && ammo[h] != 0
    ensures NextGun(g, ammo, Dir(dir), false) != g
    ensures ammo[NextGun(g, ammo, Dir(dir), false)] != 0
  {
    var d := Dir(dir);
    var k0: nat := if d == 1 then (if h > g then h - g else h - g + NUMGUNS)
                   else (if g > h then g - h else g - h + NUMGUNS);
    CycHits(g, d, k0, h);
    var k := FirstStocked(g, ammo, d, false, 1);
    CycLeaves(g, d, k);
  }

  /** Within one turn, the ring walk reaches `h` after the step count that separates it from `g`. */
  lemma CycHits(g: int, d: int, k: nat, h: int)
    requires ValidGun(g) && ValidGun(h) && (d == 1 || d == NUMGUNS - 1)
    requires k == if d == 1 then (if h > g then h - g else h - g + NUMGUNS)
                  else (if g > h then g - h else g - h + NUMGUNS)
    ensures Cyc(g, d, k) == h
  {
    CycNear(g, d, k);
  }

  /** Within one turn, the ring walk does not come back to where it started. */
  lemma CycLeaves(g: int, d: int, k: nat)
    requires ValidGun(g) && (d == 1 || d == NUMGUNS - 1) && 1 <= k < NUMGUNS
    ensures Cyc(g, d, k) != g
  {
    CycNear(g, d, k);
  }

  /** The first index from `i` on where `g` occurs in `list`, or -1. */
  function Position(list: seq<int>, g: int, i: nat): (r: int)
    requires i <= |list|
    ensures r == -1 ==> forall j :: i <= j < |list| ==> list[j] != g
    ensures r != -1 ==> i <= r < |list| && list[r] == g && forall j :: i <= j < r ==> list[j] != g
    decreases |list| - i
  {
    if i == |list| then -1
    else if list[i] == g then i
    else Position(list, g, i + 1)
  }

  /** The entry of a cycle list tried at try `i`, counting from `offset`. */
  function CycleEntry(list: seq<int>, offset: nat, i: nat): int
    requires |list| > 0
  {
    list[(i + offset) % |list|]
  }

  /** The first entry from try `i` on of a cycle list that names a gun which may be taken. */
  function CycleTarget(list: seq<int>, offset: nat, ammo: seq<int>, force: bool, i: nat): (r: Option<int>)
    requires |list| > 0 && |ammo| == NUMGUNS && i <= |list|
    ensures r.None? ==> forall j :: i <= j < |list| ==>
              !(ValidGun(CycleEntry(list, offset, j)) && Stocked(ammo, CycleEntry(list, offset, j), force))
    ensures r.Some? ==> ValidGun(r.value) && Stocked(ammo, r.value, force) && r.value in list
    ensures r.Some? ==>
      exists k :: (i <= k < |list| && r.value == CycleEntry(list, offset, k)
                   && forall j :: i <= j < k ==>
                        !(ValidGun(CycleEntry(list, offset, j)) && Stocked(ammo, CycleEntry(list, offset, j), force)))
    decreases |list| - i
  {
    if i == |list| then None
    else
      var gun := CycleEntry(list, offset, i);
      if ValidGun(gun) && Stocked(ammo, gun, force) then Some(gun)
      else CycleTarget(list, offset, ammo, force, i + 1)
  }

  /** A remainder by `n` of a number below `2 n` is the number, less `n` once it reaches `n`. */
  lemma ModOnce(x: int, n: int)
    requires 0 < n && 0 <= x < 2 * n
    ensures x % n == if x < n then x else x - n
  {
    if x >= n {
      assert x == n * 1 + (x - n);
    }
  }

  /** Every entry of a cycle list is tried in one pass, wherever the pass starts. */
  lemma {:induction false} CycleFindsAny(list: seq<int>, offset: nat, ammo: seq<int>, force: bool, t: nat)
    requires |list| > 0 && |ammo| == NUMGUNS && offset <= |list| && t < |list|
    requires ValidGun(list[t]) && Stocked(ammo, list[t], force)
    ensures CycleTarget(list, offset, ammo, force, 0).Some?
  {
    var n := |list|;
    var j := if t >= offset then t - offset else t + n - offset;
    if offset == n {
      j := t;
    }
    ModOnce(j + offset, n);
    assert CycleEntry(list, offset, j) == list[t];
  }

  /** The guns `weaponswitch` falls back to, best first. */
  function SwitchOrder(): (o: seq<int>)
    ensures |o| == 6 && forall j :: 0 <= j < |o| ==> ValidGun(o[j])
  {
    [GUN_SCATTER, GUN_SMG, GUN_PULSE, GUN_ROCKET, GUN_RAIL, GUN_GRENADE]
  }

  /** The first place from `i` on in the fallback order holding a gun other than `s` that has ammo; 6 when none does. */
  function SwitchPick(s: int, ammo: seq<int>, i: nat): (r: nat)
    requires |ammo| == NUMGUNS && i <= 6
    ensures i <= r <= 6
    ensures forall j :: i <= j < r ==> SwitchOrder()[j] == s || ammo[SwitchOrder()[j]] == 0
    ensures r < 6 ==> SwitchOrder()[r] != s && ammo[SwitchOrder()[r]] != 0
    decreases 6 - i
  {
    if i == 6 then 6
    else if SwitchOrder()[i] != s && ammo[SwitchOrder()[i]] != 0 then i
    else SwitchPick(s, ammo, i + 1)
  }

  /** The gun `weaponswitch` asks for: the best fallback gun other than the current one that has ammo, else the current one. */
  function SwitchTarget(s: int, ammo: seq<int>): (r: int)
    requires |ammo| == NUMGUNS
    ensures r == s || (r in SwitchOrder() && ammo[r] != 0)
  {
    var k := SwitchPick(s, ammo, 0);
    if k < 6 then SwitchOrder()[k] else s
  }

  /** The fallback never asks for a gun without ammo, and asks for the current gun only when no other fallback gun has ammo. */
  lemma SwitchTargetBest(s: int, ammo: seq<int>)
    requires |ammo| == NUMGUNS
    ensures SwitchTarget(s, ammo) == s <==> forall j :: 0 <= j < 6 ==> SwitchOrder()[j] == s || ammo[SwitchOrder()[j]] == 0
    ensures SwitchTarget(s, ammo) != s ==>
      forall j :: 0 <= j < 6 && SwitchOrder()[j] == SwitchTarget(s, ammo) ==>
        forall i :: 0 <= i < j ==> SwitchOrder()[i] == s || ammo[SwitchOrder()[i]] == 0
  {
    var k := SwitchPick(s, ammo, 0);
    if k < 6 {
      forall j | 0 <= j < 6 && SwitchOrder()[j] == SwitchTarget(s, ammo)
        ensures forall i :: 0 <= i < j ==> SwitchOrder()[i] == s || ammo[SwitchOrder()[i]] == 0
      {
        assert SwitchOrder()[j] == SwitchOrder()[k];
        assert j == k;
      }
    }
  }

  /** ASCII lower-casing, as `strncasecmp` compares. */
  function Lower(c: char): (l: char)
    ensures 'A' <= c <= 'Z' ==> l as int == c as int + 32
    ensures !('A' <= c <= 'Z') ==> l == c
  {
    if 'A' <= c <= 'Z' then (c as int + 32) as char else c
  }

  /** `name` begins `gunName`, ignoring ASCII case. */
  predicate NamePrefix(name: string, gunName: string): (r: bool)
    ensures name == [] ==> r
    ensures name == gunName ==> r
    ensures r ==> |name| <= |gunName|
  {
    |name| <= |gunName| && forall j :: 0 <= j < |name| ==> Lower(name[j]) == Lower(gunName[j])
  }

  /** The first gun from `i` on whose name begins with `name`, or -1. */
  function FirstNamed(name: string, i: nat): (r: int)
    requires i <= NUMGUNS
    ensures r == -1 ==> forall g :: i <= g < NUMGUNS ==> !NamePrefix(name, Guns()[g].name)
    ensures r != -1 ==> i <= r < NUMGUNS && NamePrefix(name, Guns()[r].name)
                        && forall g :: i <= g < r ==> !NamePrefix(name, Guns()[g].name)
    decreases NUMGUNS - i
  {
    if i == NUMGUNS then -1
    else if NamePrefix(name, Guns()[i].name) then i
    else FirstNamed(name, i + 1)
  }

  predicate IsDigit(c: char)
  {
    '0' <= c <= '9'
  }

  /**
   * `getweapon`: a name led by a digit is read as a number by the engine's
   * integer parser (`parseInt`); any other name picks the lowest gun whose
   * name it begins, ignoring case, or -1. The empty name begins every name.
   */
  function GetWeapon(name: string, parseInt: string -> int): (r: int)
    ensures |name| > 0 && IsDigit(name[0]) ==> r == parseInt(name)
    ensures !(|name| > 0 && IsDigit(name[0])) ==>
      && (r == -1 <==> forall g :: 0 <= g < NUMGUNS ==> !NamePrefix(name, Guns()[g].name))
      && (r != -1 ==> ValidGun(r) && NamePrefix(name, Guns()[r].name)
                      && forall g :: 0 <= g < r ==> !NamePrefix(name, Guns()[g].name))
  {
    if |name| > 0 && IsDigit(name[0]) then parseInt(name) else FirstNamed(name, 0)
  }

  /** Every gun is found by its own name. */
  lemma GetWeaponOwnName(g: int, parseInt: string -> int)
    requires ValidGun(g)
    ensures GetWeapon(Guns()[g].name, parseInt) == g
  {
    var name := Guns()[g].name;
    assert !IsDigit(name[0]);
    forall h | 0 <= h < g
      ensures !NamePrefix(name, Guns()[h].name)
    {
      var other := Guns()[h].name;
      // every name differs from each earlier one in its first or its second letter
      var j := if name[0] == other[0] then 1 else 0;
      assert Lower(name[j]) != Lower(other[j]);
    }
  }

  /** The outcome of `shoot`. */
  datatype ShotResult =
    | NotReady          // still cooling down
    | Idle              // not attacking
    | Refused(atk: int) // the attack cannot be made (no ammo, or quenched in water)
    | Fired(atk: int)

  /**
   * The cooldown after a shot: the attack's delay, halved (truncating) with
   * haste or as a berserker; an AI holding the pistol waits longer by the
   * truncated fraction `((101 - skill) + roll) / 100` of that, `roll` being
   * the engine's random draw below `111 - skill`.
   */
  function ShotDelay(atk: int, hasted: bool, aiPistol: bool, skill: int, roll: int): (w: int)
    requires ValidAtk(atk)
    ensures !hasted && !aiPistol ==> w == Attack(atk).attackdelay
    ensures hasted && !aiPistol ==> 2 * w <= Attack(atk).attackdelay <= 2 * w + 1
    ensures aiPistol && (101 - skill) + roll >= 0 ==>
      w >= (if hasted then Attack(atk).attackdelay / 2 else Attack(atk).attackdelay) >= 0
  {
    var base := if hasted then Attack(atk).attackdelay / 2 else Attack(atk).attackdelay;
    if aiPistol then base + TDiv(Scaled(base, (101 - skill) + roll), 100) else base
  }

  /** A product, with its sign when both factors are non-negative. */
  function Scaled(a: int, b: int): (p: int)
    ensures a >= 0 && b >= 0 ==> p >= 0
  {
    a * b
  }

  /** An actor as weapon handling sees it. Status decided elsewhere (alive, powerup, role, AI skill) is fixed here. */
  class Actor {
    const alive: bool
    const powerup: Powerup
    const berserker: bool
    const ai: bool
    const skill: int
    const isSelf: bool    // this actor is the local player
    const ammo: array<int>
    var gunselect: int
    var lastswitch: int
    var lastattack: int
    var lastaction: int
    var gunwait: int
    var attacking: int
    var totalshots: int

    predicate Valid()
      reads this
    {
      ammo.Length == NUMGUNS && ValidGun(gunselect) && ValidAct(attacking)
    }

    function Sel(): Selection
      reads this
    {
      Selection(gunselect, lastswitch, lastattack)
    }

    /** The firing state, which switching guns leaves alone. */
    function Firing(): (int, int, int, int)
      reads this
    {
      (lastaction, gunwait, attacking, totalshots)
    }

    constructor (alive: bool, powerup: Powerup, berserker: bool, ai: bool, skill: int, isSelf: bool,
                 stock: seq<int>, gun: int)
      requires |stock| == NUMGUNS && ValidGun(gun)
      ensures Valid() && fresh(ammo) && ammo[..] == stock
      ensures this.alive == alive && this.powerup == powerup && this.berserker == berserker
      ensures this.ai == ai && this.skill == skill && this.isSelf == isSelf
      ensures Sel() == Selection(gun, 0, -1) && Firing() == (0, 0, ACT_IDLE, 0)
    {
      this.alive, this.powerup, this.berserker := alive, powerup, berserker;
      this.ai, this.skill, this.isSelf := ai, skill, isSelf;
      ammo := new int[NUMGUNS](i requires 0 <= i < NUMGUNS => stock[i]);
      gunselect, lastswitch, lastattack := gun, 0, -1;
      lastaction, gunwait, attacking, totalshots := 0, 0, ACT_IDLE, 0;
    }

    /** `gunselect` on this actor. */
    method GunSelect(gun: int, now: int)
      requires Valid() && ValidGun(gun)
      modifies this
      ensures Valid() && Firing() == old(Firing())
      ensures Sel() == Select(old(Sel()), gun, now)
    {
      if gun == gunselect || now - lastswitch < 100 {
        return;
      }
      gunselect := gun;
      lastswitch := now;
      lastattack := -1;
    }

    /** `nextweapon`: walk the gun ring from the current gun and ask for the first gun that may be taken. */
    method NextWeapon(dir: int, force: bool, now: int)
      requires Valid()
      modifies this
      ensures Valid() && Firing() == old(Firing())
      ensures !alive ==> Sel() == old(Sel())
      ensures alive ==> Sel() == Select(old(Sel()), NextGun(old(gunselect), ammo[..], Dir(dir), force), now)
    {
      if !alive {
        return;
      }
      var d := if dir < 0 then NUMGUNS - 1 else 1;
      var gun := gunselect;
      var i := 0;
      while i < NUMGUNS
        invariant 0 <= i <= NUMGUNS && gun == Cyc(gunselect, d, i)
        invariant forall k: nat :: 1 <= k <= i ==> !Stocked(ammo[..], Cyc(gunselect, d, k), force)
      {
        gun := (gun + d) % NUMGUNS;
        if force || ammo[gun] != 0 {
          assert Stocked(ammo[..], Cyc(gunselect, d, i + 1), force);
          break;
        }
        i := i + 1;
      }
      assert gun == NextGun(gunselect, ammo[..], d, force);
      if gun != gunselect {
        GunSelect(gun, now);
      }
    }

    /** `setweapon`: look a gun up by name and ask for it if it exists and may be taken. */
    method SetWeapon(name: string, force: bool, parseInt: string -> int, now: int)
      requires Valid()
      modifies this
      ensures Valid() && Firing() == old(Firing())
      ensures var gun := GetWeapon(name, parseInt);
              if alive && ValidGun(gun) && (force || ammo[gun] != 0)
              then Sel() == Select(old(Sel()), gun, now)
              else Sel() == old(Sel())
    {
      var gun := GetWeapon(name, parseInt);
      if !alive || !ValidGun(gun) {
        return;
      }
      if force || ammo[gun] != 0 {
        GunSelect(gun, now);
      }
    }

    /**
     * `cycleweapon`: start just after the current gun's first place in the
     * list (at the head when it is absent) and ask for the first entry, going
     * round once, that names a gun which may be taken.
     */
    method CycleWeapon(list: seq<int>, force: bool, now: int)
      requires Valid()
      modifies this
      ensures Valid() && Firing() == old(Firing())
      ensures !alive || |list| == 0 ==> Sel() == old(Sel())
      ensures alive && |list| > 0 ==>
        var t := CycleTarget(list, Position(list, old(gunselect), 0) + 1, ammo[..], force, 0);
        if t.Some? then Sel() == Select(old(Sel()), t.value, now) else Sel() == old(Sel())
    {
      var n := |list|;
      if n <= 0 || !alive {
        return;
      }
      var offset := 0;
      var i := 0;
      while i < n
        invariant 0 <= i <= n && offset == 0
        invariant Position(list, gunselect, i) == Position(list, gunselect, 0)
      {
        if list[i] == gunselect {
          offset := i + 1;
          break;
        }
        i := i + 1;
      }
      assert offset == Position(list, gunselect, 0) + 1;
      var t := CycleSearch(list, offset, force);
      if t.Some? {
        GunSelect(t.value, now);
      }
    }

    /** The second loop of `cycleweapon`: try the entries from `offset` on, wrapping round, for a gun that may be taken. */
    method CycleSearch(list: seq<int>, offset: nat, force: bool) returns (t: Option<int>)
      requires Valid() && |list| > 0
      ensures t == CycleTarget(list, offset, ammo[..], force, 0)
    {
      var n := |list|;
      var i := 0;
      while i < n
        invariant 0 <= i <= n
        invariant CycleTarget(list, offset, ammo[..], force, i) == CycleTarget(list, offset, ammo[..], force, 0)
      {
        var gun := list[(i + offset) % n];
        if 0 <= gun < NUMGUNS && (force || ammo[gun] != 0) {
          return Some(gun);
        }
        i := i + 1;
      }
      return None;
    }

    /** `weaponswitch`: ask for the best fallback gun other than the current one that has ammo. */
    method WeaponSwitch(now: int)
      requires Valid()
      modifies this
      ensures Valid() && Firing() == old(Firing())
      ensures !alive ==> Sel() == old(Sel())
      ensures alive ==> Sel() == Select(old(Sel()), SwitchTarget(old(gunselect), ammo[..]), now)
    {
      if !alive {
        return;
      }
      var s := gunselect;
      if s != GUN_SCATTER && ammo[GUN_SCATTER] != 0 {
        s := GUN_SCATTER;
      } else if s != GUN_SMG && ammo[GUN_SMG] != 0 {
        s := GUN_SMG;
      } else if s != GUN_PULSE && ammo[GUN_PULSE] != 0 {
        s := GUN_PULSE;
      } else if s != GUN_ROCKET && ammo[GUN_ROCKET] != 0 {
        s := GUN_ROCKET;
      } else if s != GUN_RAIL && ammo[GUN_RAIL] != 0 {
        s := GUN_RAIL;
      } else if s != GUN_GRENADE && ammo[GUN_GRENADE] != 0 {
        s := GUN_GRENADE;
      }
      assert s == SwitchTarget(gunselect, ammo[..]);
      GunSelect(s, now);
    }

    /** A refused attack by the local player: a 600 ms pause, and a fallback switch when the gun is empty. */
    method Refuse(now: int)
      requires Valid()
      modifies this
      ensures Valid() && lastaction == old(lastaction)
      ensures RefusedFrom(old(lastattack), old(gunselect), old(lastswitch), old(ammo[..]), old(attacking), old(totalshots),
                          old(gunwait), now)
    {
      if isSelf {
        gunwait := 600;
        lastattack := -1;
        if ammo[gunselect] == 0 {
          WeaponSwitch(now);
        }
      }
    }

    /**
     * A made attack: spend its ammo from the selected gun (not with the ammo
     * powerup), end a single-shot attack, set the cooldown and add the
     * attack's full damage to the shot total.
     */
    method Spend(atk: int, roll: int)
      requires Valid() && ValidAtk(atk) && lastattack == atk
      requires Attack(atk).action != ACT_MELEE ==> ammo[gunselect] >= Attack(atk).use
      modifies this, ammo
      ensures Valid() && lastaction == old(lastaction)
      ensures FiredFrom(atk, old(gunselect), old(lastswitch), old(ammo[..]), old(attacking), old(totalshots), roll)
    {
      var info := Attack(atk);
      ghost var ammo0 := ammo[..];
      if powerup != AmmoBoost {
        ammo[gunselect] := ammo[gunselect] - info.use;
      }
      assert ammo[..] == ammo0[gunselect := ammo0[gunselect] - (if powerup == AmmoBoost then 0 else info.use)];
      if !info.isfullauto {
        attacking := ACT_IDLE;
      }
      var wait := info.attackdelay;
      if powerup == Haste || berserker {
        wait := wait / 2;
      }
      if gunselect == GUN_PISTOL && ai {
        wait := wait + TDiv(Scaled(wait, (101 - skill) + roll), 100);
      }
      assert wait == ShotDelay(atk, powerup == Haste || berserker, gunselect == GUN_PISTOL && ai, skill, roll);
      gunwait := wait;
      totalshots := totalshots + info.damage * info.rays;
    }

    /**
     * The state a made attack `atk` leaves, given the gun, switch time,
     * ammunition, trigger and shot total before it: the attack is recorded, the selected
     * gun, which for a ranged attack held at least the attack's use, loses
     * that use (not with the ammo powerup), a single-shot attack ends,
     * the cooldown is the attack's delay and the shot total grows by the
     * attack's full damage.
     */
    ghost predicate FiredFrom(atk: int, gun0: int, lastswitch0: int, ammo0: seq<int>, attacking0: int, totalshots0: int, roll: int)
      reads this, ammo
    {
      && ValidAtk(atk) && 0 <= gun0 < |ammo0|
      && Sel() == Selection(gun0, lastswitch0, atk)
      && ammo[..] == ammo0[gun0 := ammo0[gun0] - (if powerup == AmmoBoost then 0 else Attack(atk).use)]
      && (Attack(atk).action != ACT_MELEE ==> ammo0[gun0] >= Attack(atk).use)
      && attacking == (if Attack(atk).isfullauto then attacking0 else ACT_IDLE)
      && gunwait == ShotDelay(atk, powerup == Haste || berserker, gunselect == GUN_PISTOL && ai, skill, roll)
      && totalshots == totalshots0 + Attack(atk).damage * Attack(atk).rays
    }

    /**
     * The state a refused attack `atk` leaves: ammunition, trigger and shot
     * total are untouched; another actor only records the attack; the local
     * player records none, waits 600 ms and, out of ammunition and alive,
     * switches weapon.
     */
    ghost predicate RefusedFrom(atk: int, gun0: int, lastswitch0: int, ammo0: seq<int>, attacking0: int, totalshots0: int,
                                gunwait0: int, now: int)
      reads this, ammo
    {
      && |ammo0| == NUMGUNS && 0 <= gun0 < NUMGUNS
      && ammo[..] == ammo0 && attacking == attacking0 && totalshots == totalshots0
      && (!isSelf ==> Sel() == Selection(gun0, lastswitch0, atk) && gunwait == gunwait0)
      && (isSelf && (ammo0[gun0] != 0 || !alive) ==> Sel() == Selection(gun0, lastswitch0, -1) && gunwait == 600)
      && (isSelf && ammo0[gun0] == 0 && alive ==>
            Sel() == Select(Selection(gun0, lastswitch0, -1), SwitchTarget(gun0, ammo0), now) && gunwait == 600)
    }

    /**
     * The bookkeeping of `shoot`: wait out the cooldown, then, when
     * attacking, stamp the action and make the selected gun's attack for the
     * current action if it can be made. A refused attack costs the local
     * player a 600 ms pause and, with an empty gun, a fallback switch. A
     * made attack spends its ammo (not with the ammo powerup), ends a
     * single-shot attack, and sets the cooldown. `inWater` and `roll` stand
     * for the material lookup and the AI delay draw.
     */
    method Shoot(now: int, inWater: bool, roll: int) returns (r: ShotResult)
      requires Valid()
      modifies this, ammo
      ensures Valid()
      ensures now - old(lastaction) < old(gunwait) ==>
        r == NotReady && Sel() == old(Sel()) && Firing() == old(Firing()) && ammo[..] == old(ammo[..])
      ensures now - old(lastaction) >= old(gunwait) && old(attacking) == ACT_IDLE ==>
        r == Idle && Sel() == old(Sel()) && Firing() == old(Firing()).(1 := 0) && ammo[..] == old(ammo[..])
      ensures r.Fired? || r.Refused? <==>
        && now - old(lastaction) >= old(gunwait) && old(attacking) != ACT_IDLE
      ensures r.Fired? || r.Refused? ==>
        && now - old(lastaction) >= old(gunwait) && old(attacking) != ACT_IDLE
        && r.atk == GunAttack(old(gunselect), old(attacking)) && lastaction == now
      ensures r.Fired? <==>
        && now - old(lastaction) >= old(gunwait) && old(attacking) != ACT_IDLE
        && CanShoot(GunAttack(old(gunselect), old(attacking)), old(ammo[gunselect]),
                    Attack(GunAttack(old(gunselect), old(attacking))).projectile, inWater)
      ensures r.Fired? ==> FiredFrom(r.atk, old(gunselect), old(lastswitch), old(ammo[..]), old(attacking), old(totalshots), roll)
      ensures r.Refused? ==> RefusedFrom(r.atk, old(gunselect), old(lastswitch), old(ammo[..]), old(attacking), old(totalshots), 0, now)
    {
      var attacktime := now - lastaction;
      if attacktime < gunwait {
        return NotReady;
      }
      gunwait := 0;
      if attacking == ACT_IDLE {
        return Idle;
      }
      r := Attempt(now, inWater, roll);
    }

    /** The part of `shoot` past the cooldown and the attacking check: stamp the action, then refuse or make the attack. */
    method Attempt(now: int, inWater: bool, roll: int) returns (r: ShotResult)
      requires Valid() && attacking != ACT_IDLE && gunwait == 0
      modifies this, ammo
      ensures Valid() && (r.Fired? || r.Refused?) && lastaction == now
      ensures r.atk == GunAttack(old(gunselect), old(attacking))
      ensures r.Fired? <==> CanShoot(r.atk, old(ammo[gunselect]), Attack(r.atk).projectile, inWater)
      ensures r.Fired? ==> FiredFrom(r.atk, old(gunselect), old(lastswitch), old(ammo[..]), old(attacking), old(totalshots), roll)
      ensures r.Refused? ==> RefusedFrom(r.atk, old(gunselect), old(lastswitch), old(ammo[..]), old(attacking), old(totalshots), old(gunwait), now)
    {
      var gun, act := gunselect, attacking;
      var atk := GunAttack(gun, act);
      var projectile := Attack(atk).projectile;
      lastaction := now;
      lastattack := atk;
      if !CanShoot(atk, ammo[gun], projectile, inWater) {
        Refuse(now);
        return Refused(atk);
      }
      Spend(atk, roll);
      return Fired(atk);
    }
  }
}
