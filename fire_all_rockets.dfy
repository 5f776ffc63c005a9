/**
 * The burst-fire special skill state (`FireAllRockets`): on entry it loads
 * four shots and a zeroed stopwatch; each fixed tick fires at most one shot
 * when the stopwatch has run out, and once no shot remains the authoritative
 * side moves on to `Rearm`. The rocket it fires (projectile, muzzle effect,
 * muzzle, damage coefficient, force) comes from the normal or the Alt
 * primary, whichever the body had selected on entry.
 *
 * Aim rays, spread angles and damage products are not modelled: each shot is
 * recorded with the projectiles it spawns and whether spread was applied.
 */
module FireAllRocketsState {
  import opened Common

  /** `baseShotCount`. */
  const BaseShotCount: int := 4

  /** The primary skill definitions the state compares against. */
  datatype SkillDef = FireRocketSkillDef | FireRocketAltSkillDef | OtherSkillDef(id: nat)

  /** The static tuning of a primary rocket state (`FireRocket` or `FireRocketAlt`), defined outside this model. */
  datatype RocketProfile = RocketProfile(
    projectilePrefab: nat,
    effectPrefab: nat,
    muzzleString: string,
    damageCoefficient: real,
    force: real)

  /** One `ProjectileManager.FireProjectile` call. */
  datatype Projectile = Projectile(prefab: nat, spread: bool, damageCoefficient: real, force: real, crit: bool)

  /** One `SimpleMuzzleFlash` call. */
  datatype MuzzleFlash = MuzzleFlash(effectPrefab: nat, muzzle: string)

  /** One `FireProjectile` call: the projectiles it spawns and its muzzle flash. */
  datatype Shot = Shot(projectiles: seq<Projectile>, flash: Option<MuzzleFlash>)

  /** The state the state machine is told to move to. */
  datatype NextState = Rearm

  // ---------------------------------------------------------------------------
  // The selectors

  /** `FireRocketAltSkillDef` is kept only when a skill locator shows it as the primary. */
  function SelectPrimary(hasSkillLocator: bool, primarySkillDef: SkillDef): (s: SkillDef)
    ensures s == FireRocketSkillDef || s == FireRocketAltSkillDef
    ensures s == FireRocketAltSkillDef <==> hasSkillLocator && primarySkillDef == FireRocketAltSkillDef
  {
    if hasSkillLocator && primarySkillDef == FireRocketAltSkillDef then FireRocketAltSkillDef else FireRocketSkillDef
  }

  function GetProjectilePrefab(selected: SkillDef, fireRocket: RocketProfile, fireRocketAlt: RocketProfile): (r: nat)
    ensures r == fireRocketAlt.projectilePrefab || r == fireRocket.projectilePrefab
    ensures selected == FireRocketAltSkillDef ==> r == fireRocketAlt.projectilePrefab
    ensures selected != FireRocketAltSkillDef ==> r == fireRocket.projectilePrefab
  {
    if selected == FireRocketAltSkillDef then fireRocketAlt.projectilePrefab else fireRocket.projectilePrefab
  }

  function GetEffectPrefab(selected: SkillDef, fireRocket: RocketProfile, fireRocketAlt: RocketProfile): (r: nat)
    ensures r == fireRocketAlt.effectPrefab || r == fireRocket.effectPrefab
    ensures selected == FireRocketAltSkillDef ==> r == fireRocketAlt.effectPrefab
    ensures selected != FireRocketAltSkillDef ==> r == fireRocket.effectPrefab
  {
    if selected == FireRocketAltSkillDef then fireRocketAlt.effectPrefab else fireRocket.effectPrefab
  }

  function GetMuzzleString(selected: SkillDef, fireRocket: RocketProfile, fireRocketAlt: RocketProfile): (r: string)
    ensures r == fireRocketAlt.muzzleString || r == fireRocket.muzzleString
    ensures selected == FireRocketAltSkillDef ==> r == fireRocketAlt.muzzleString
    ensures selected != FireRocketAltSkillDef ==> r == fireRocket.muzzleString
  {
    if selected == FireRocketAltSkillDef then fireRocketAlt.muzzleString else fireRocket.muzzleString
  }

  function GetDamageCoefficient(selected: SkillDef, fireRocket: RocketProfile, fireRocketAlt: RocketProfile): (r: real)
    ensures r == fireRocketAlt.damageCoefficient || r == fireRocket.damageCoefficient
    ensures selected == FireRocketAltSkillDef ==> r == fireRocketAlt.damageCoefficient
    ensures selected != FireRocketAltSkillDef ==> r == fireRocket.damageCoefficient
  {
    if selected == FireRocketAltSkillDef then fireRocketAlt.damageCoefficient else fireRocket.damageCoefficient
  }

  function GetForce(selected: SkillDef, fireRocket: RocketProfile, fireRocketAlt: RocketProfile): (r: real)
    ensures r == fireRocketAlt.force || r == fireRocket.force
    ensures selected == FireRocketAltSkillDef ==> r == fireRocketAlt.force
    ensures selected != FireRocketAltSkillDef ==> r == fireRocket.force
  {
    if selected == FireRocketAltSkillDef then fireRocketAlt.force else fireRocket.force
  }

  /** The profile the five selectors assemble together. */
  function Selected(selected: SkillDef, fireRocket: RocketProfile, fireRocketAlt: RocketProfile): RocketProfile
  {
    RocketProfile(
      GetProjectilePrefab(selected, fireRocket, fireRocketAlt),
      GetEffectPrefab(selected, fireRocket, fireRocketAlt),
      GetMuzzleString(selected, fireRocket, fireRocketAlt),
      GetDamageCoefficient(selected, fireRocket, fireRocketAlt),
      GetForce(selected, fireRocket, fireRocketAlt))
  }

  /** The selectors never mix the two primaries: all five come from Alt exactly when Alt is selected. */
  lemma SelectorsAgree(selected: SkillDef, fireRocket: RocketProfile, fireRocketAlt: RocketProfile)
    ensures Selected(selected, fireRocket, fireRocketAlt) == if selected == FireRocketAltSkillDef then fireRocketAlt else fireRocket
  {
  }

  // ---------------------------------------------------------------------------
  // The tick as a function of the state

  /** What the state reads but never writes. */
  datatype Env = Env(
    isAuthority: bool,
    hasSkillLocator: bool,
    pocketICBM: bool,          // the Pocket ICBM configuration switch
    moreMissileCount: nat,     // MoreMissile items of the body (0 without body or inventory)
    hasMuzzleEffect: bool,     // `FireRocket.effectPrefab` is set
    fireRocket: RocketProfile,
    fireRocketAlt: RocketProfile)

  /** What the state writes. */
  datatype Burst = Burst(
    selected: SkillDef,
    isCrit: bool,
    delayBetweenShots: real,
    fireStopwatch: real,
    shotsRemaining: int,
    shots: seq<Shot>,
    nextState: Option<NextState>)

  /** `OnEnter`: four shots, the stopwatch at zero, the primary selected. */
  function Enter(e: Env, primarySkillDef: SkillDef, isCrit: bool, delayBetweenShots: real): (b: Burst)
    ensures b.shotsRemaining == BaseShotCount && b.fireStopwatch == 0.0 && b.shots == [] && b.nextState == None
    ensures b.selected == FireRocketAltSkillDef <==> e.hasSkillLocator && primarySkillDef == FireRocketAltSkillDef
    ensures b.isCrit == isCrit && b.delayBetweenShots == delayBetweenShots
  {
    Burst(SelectPrimary(e.hasSkillLocator, primarySkillDef), isCrit, delayBetweenShots, 0.0, BaseShotCount, [], None)
  }

  /** The projectiles a shot spawns: three with Pocket ICBM and MoreMissile, else one, none without authority. */
  function ProjectileCount(e: Env): nat
  {
    if !e.isAuthority then 0 else if e.pocketICBM && e.moreMissileCount > 0 then 3 else 1
  }

  /** The shot fired while `shotsRemaining` shots remain. */
  function ShotFor(e: Env, selected: SkillDef, isCrit: bool, shotsRemaining: int): (s: Shot)
    ensures |s.projectiles| == ProjectileCount(e)
    ensures forall p :: p in s.projectiles ==> p == s.projectiles[0]
    ensures forall p :: p in s.projectiles ==> p.force == Selected(selected, e.fireRocket, e.fireRocketAlt).force * 0.25
    ensures s.flash.Some? <==> e.hasMuzzleEffect
    ensures s.flash.Some? ==>
      && s.flash.value.effectPrefab == Selected(selected, e.fireRocket, e.fireRocketAlt).effectPrefab
      && s.flash.value.muzzle == Selected(selected, e.fireRocket, e.fireRocketAlt).muzzleString
  {
    var p := Projectile(
      GetProjectilePrefab(selected, e.fireRocket, e.fireRocketAlt),
      shotsRemaining != BaseShotCount,
      GetDamageCoefficient(selected, e.fireRocket, e.fireRocketAlt),
      GetForce(selected, e.fireRocket, e.fireRocketAlt) * 0.25,
      isCrit);
    var flash := if e.hasMuzzleEffect
      then Some(MuzzleFlash(GetEffectPrefab(selected, e.fireRocket, e.fireRocketAlt), GetMuzzleString(selected, e.fireRocket, e.fireRocketAlt)))
      else None;
    Shot(seq(ProjectileCount(e), _ => p), flash)
  }

  /**
   * A shot spawns three projectiles with Pocket ICBM and MoreMissile, one
   * otherwise, none without authority; all of them take spread unless the
   * shot is the burst's first, and all use the selected primary's rocket.
   */
  lemma ShotShape(e: Env, selected: SkillDef, isCrit: bool, shotsRemaining: int)
    ensures var s := ShotFor(e, selected, isCrit, shotsRemaining);
      && (|s.projectiles| == 3 <==> e.isAuthority && e.pocketICBM && e.moreMissileCount > 0)
      && (|s.projectiles| == 0 <==> !e.isAuthority)
      && |s.projectiles| <= 3
      && forall p :: p in s.projectiles ==>
           && (p.spread <==> shotsRemaining != BaseShotCount)
           && p.prefab == Selected(selected, e.fireRocket, e.fireRocketAlt).projectilePrefab
           && p.damageCoefficient == Selected(selected, e.fireRocket, e.fireRocketAlt).damageCoefficient
           && p.crit == isCrit
  {
  }

  /** `FireProjectile` on the state. */
  function Fire(e: Env, b: Burst): (r: Burst)
    ensures |r.shots| == |b.shots| + 1 && r.shots[..|b.shots|] == b.shots
    ensures r.shots[|b.shots|] == ShotFor(e, b.selected, b.isCrit, b.shotsRemaining)
    ensures r.shotsRemaining == b.shotsRemaining - 1
    ensures r.(shots := b.shots, shotsRemaining := b.shotsRemaining) == b
  {
    b.(shots := b.shots + [ShotFor(e, b.selected, b.isCrit, b.shotsRemaining)], shotsRemaining := b.shotsRemaining - 1)
  }

  /** `FixedUpdate` with a tick of length `dt`. */
  function Tick(e: Env, b: Burst, dt: real): (r: Burst)
    ensures r.selected == b.selected && r.isCrit == b.isCrit && r.delayBetweenShots == b.delayBetweenShots
    ensures r.shotsRemaining < b.shotsRemaining <==> b.fireStopwatch <= 0.0 && b.shotsRemaining > 0
    ensures b.shotsRemaining - 1 <= r.shotsRemaining <= b.shotsRemaining
    ensures |r.shots| == |b.shots| + (b.shotsRemaining - r.shotsRemaining) && r.shots[..|b.shots|] == b.shots
    ensures b.fireStopwatch > 0.0 ==> r.fireStopwatch == b.fireStopwatch - dt
    ensures b.fireStopwatch <= 0.0 ==> r.fireStopwatch == b.fireStopwatch + b.delayBetweenShots - dt
    ensures r.nextState == (if e.isAuthority && e.hasSkillLocator && r.shotsRemaining <= 0 then Some(Rearm) else b.nextState)
  {
    var due := b.fireStopwatch <= 0.0;
    var fired := if due && b.shotsRemaining > 0 then Fire(e, b) else b;
    var timed := fired.(fireStopwatch := (if due then b.fireStopwatch + b.delayBetweenShots else b.fireStopwatch) - dt);
    if e.isAuthority && e.hasSkillLocator && timed.shotsRemaining <= 0 then timed.(nextState := Some(Rearm)) else timed
  }

  /** A run of ticks of the given lengths. */
  function Run(e: Env, b: Burst, dts: seq<real>): Burst
    decreases |dts|
  {
    if dts == [] then b else Run(e, Tick(e, b, dts[0]), dts[1..])
  }

  /**
   * The state keeps: between 0 and 4 shots left, one recorded shot for each
   * one spent, shot k fired exactly as the k-th shot of the burst (so only
   * the first is without spread), and Rearm only once shots are exhausted.
   */
  ghost predicate Inv(e: Env, b: Burst)
  {
    && 0 <= b.shotsRemaining <= BaseShotCount
    && |b.shots| == BaseShotCount - b.shotsRemaining
    && (forall k :: 0 <= k < |b.shots| ==> b.shots[k] == ShotFor(e, b.selected, b.isCrit, BaseShotCount - k))
    && (b.nextState.Some? ==> b.shotsRemaining == 0)
  }

  // ---------------------------------------------------------------------------
  // Properties of the burst

  /** Entering loads a full burst that keeps the invariant. */
  lemma EnterInv(e: Env, primarySkillDef: SkillDef, isCrit: bool, delayBetweenShots: real)
    ensures Inv(e, Enter(e, primarySkillDef, isCrit, delayBetweenShots))
  {
  }

  /** A tick keeps the invariant and fires at most one shot, exactly when one is due and left. */
  lemma TickInv(e: Env, b: Burst, dt: real)
    requires Inv(e, b)
    ensures Inv(e, Tick(e, b, dt))
    ensures Tick(e, b, dt).shots == b.shots + if b.fireStopwatch <= 0.0 && b.shotsRemaining > 0
      then [ShotFor(e, b.selected, b.isCrit, b.shotsRemaining)] else []
  {
    var b' := Tick(e, b, dt);
    if b.fireStopwatch <= 0.0 && b.shotsRemaining > 0 {
      assert b'.shots == b.shots + [ShotFor(e, b.selected, b.isCrit, b.shotsRemaining)];
      forall k | 0 <= k < |b'.shots| ensures b'.shots[k] == ShotFor(e, b'.selected, b'.isCrit, BaseShotCount - k) {
        if k < |b.shots| {
          assert b'.shots[k] == b.shots[k];
        }
      }
    }
  }

  /** No run of ticks fires more than the four shots of a burst, however long. */
  lemma {:induction false} RunInv(e: Env, b: Burst, dts: seq<real>)
    requires Inv(e, b)
    ensures Inv(e, Run(e, b, dts))
    ensures |Run(e, b, dts).shots| <= BaseShotCount
    decreases |dts|
  {
    if dts != [] {
      TickInv(e, b, dts[0]);
      RunInv(e, Tick(e, b, dts[0]), dts[1..]);
    }
  }

  /** The first tick after entry fires the first shot at once, without spread. */
  lemma FirstTickFires(e: Env, primarySkillDef: SkillDef, isCrit: bool, delayBetweenShots: real, dt: real)
    ensures var b := Enter(e, primarySkillDef, isCrit, delayBetweenShots);
      && Tick(e, b, dt).shots == [ShotFor(e, b.selected, isCrit, BaseShotCount)]
      && (forall p :: p in Tick(e, b, dt).shots[0].projectiles ==> !p.spread)
      && Tick(e, b, dt).fireStopwatch == delayBetweenShots - dt
  {
  }

  /**
   * A tick requests Rearm exactly when the body has authority and a skill
   * locator and no shot remains after it; without either, never.
   */
  lemma RearmExactlyWhenSpent(e: Env, b: Burst, dt: real)
    requires b.nextState == None
    ensures Tick(e, b, dt).nextState == Some(Rearm)
      <==> e.isAuthority && e.hasSkillLocator && Tick(e, b, dt).shotsRemaining <= 0
  {
  }

  function Min(a: int, b: int): int
  {
    if a <= b then a else b
  }

  /**
   * When every tick is at least as long as the delay between shots, every
   * tick is due: n ticks fire min(n, shots left) shots.
   */
  lemma {:induction false} FastTicksFireEveryTick(e: Env, b: Burst, dts: seq<real>)
    requires b.fireStopwatch <= 0.0 && b.shotsRemaining >= 0
    requires forall i :: 0 <= i < |dts| ==> dts[i] >= b.delayBetweenShots
    ensures |Run(e, b, dts).shots| == |b.shots| + Min(|dts|, b.shotsRemaining)
    ensures Run(e, b, dts).shotsRemaining == b.shotsRemaining - Min(|dts|, b.shotsRemaining)
    decreases |dts|
  {
    if dts != [] {
      var b' := Tick(e, b, dts[0]);
      assert b'.delayBetweenShots == b.delayBetweenShots;
      assert forall i :: 0 <= i < |dts[1..]| ==> dts[1..][i] == dts[i + 1];
      FastTicksFireEveryTick(e, b', dts[1..]);
    }
  }

  // ---------------------------------------------------------------------------
  // The skill state

  class FireAllRockets {
    const isAuthority: bool
    const hasSkillLocator: bool
    const pocketICBM: bool
    const moreMissileCount: nat
    const hasMuzzleEffect: bool
    const fireRocket: RocketProfile
    const fireRocketAlt: RocketProfile

    var selectedPrimarySkill: SkillDef
    var isCrit: bool
    var fireStopwatch: real
    var delayBetweenShots: real
    var shotsRemaining: int
    /** The shots fired so far. */
    var shots: seq<Shot>
    /** The state handed to `outer.SetNextState`, if any. */
    var nextState: Option<NextState>

    function Environment(): Env
    {
      Env(isAuthority, hasSkillLocator, pocketICBM, moreMissileCount, hasMuzzleEffect, fireRocket, fireRocketAlt)
    }

    function State(): Burst
      reads this
    {
      Burst(selectedPrimarySkill, isCrit, delayBetweenShots, fireStopwatch, shotsRemaining, shots, nextState)
    }

    /**
     * `OnEnter`. `delayBetweenShots` is `baseDelayBetweenShots / attackSpeedStat`
     * and `isCrit` the crit roll, both computed by the caller.
     */
    constructor OnEnter(isAuthority: bool, hasSkillLocator: bool, pocketICBM: bool, moreMissileCount: nat,
                        hasMuzzleEffect: bool, fireRocket: RocketProfile, fireRocketAlt: RocketProfile,
                        primarySkillDef: SkillDef, isCrit: bool, delayBetweenShots: real)
      ensures Environment() == Env(isAuthority, hasSkillLocator, pocketICBM, moreMissileCount, hasMuzzleEffect, fireRocket, fireRocketAlt)
      ensures State() == Enter(Environment(), primarySkillDef, isCrit, delayBetweenShots)
      ensures Inv(Environment(), State())
    {
      this.isAuthority := isAuthority;
      this.hasSkillLocator := hasSkillLocator;
      this.pocketICBM := pocketICBM;
      this.moreMissileCount := moreMissileCount;
      this.hasMuzzleEffect := hasMuzzleEffect;
      this.fireRocket := fireRocket;
      this.fireRocketAlt := fireRocketAlt;
      fireStopwatch := 0.0;
      this.delayBetweenShots := delayBetweenShots;
      shotsRemaining := BaseShotCount;
      this.isCrit := isCrit;
      shots := [];
      nextState := None;
      selectedPrimarySkill := SelectPrimary(hasSkillLocator, primarySkillDef);
    }

    /** One fixed tick of length `fixedDeltaTime`. */
    method FixedUpdate(fixedDeltaTime: real)
      modifies this
      ensures State() == Tick(Environment(), old(State()), fixedDeltaTime)
      ensures old(Inv(Environment(), State())) ==> Inv(Environment(), State())
    {
      ghost var b := State();
      if fireStopwatch <= 0.0 {
        fireStopwatch := fireStopwatch + delayBetweenShots;
        if shotsRemaining > 0 {
          FireProjectile();
        }
      }
      fireStopwatch := fireStopwatch - fixedDeltaTime;

      if isAuthority {
        if hasSkillLocator {
          if shotsRemaining <= 0 {
            nextState := Some(Rearm);
            if Inv(Environment(), b) {
              TickInv(Environment(), b, fixedDeltaTime);
            }
            return;
          }
        }
      }
      if Inv(Environment(), b) {
        TickInv(Environment(), b, fixedDeltaTime);
      }
    }

    /** Spawns this shot's projectiles (with authority), flashes the muzzle and spends one shot. */
    method FireProjectile()
      modifies this`shots, this`shotsRemaining
      ensures shots == old(shots) + [ShotFor(Environment(), selectedPrimarySkill, isCrit, old(shotsRemaining))]
      ensures shotsRemaining == old(shotsRemaining) - 1
    {
      var projectiles: seq<Projectile> := [];
      var p := Projectile(
        GetProjectilePrefab(selectedPrimarySkill, fireRocket, fireRocketAlt),
        shotsRemaining != BaseShotCount,
        GetDamageCoefficient(selectedPrimarySkill, fireRocket, fireRocketAlt),
        GetForce(selectedPrimarySkill, fireRocket, fireRocketAlt) * 0.25,
        isCrit);
      if isAuthority {
        if pocketICBM && moreMissileCount > 0 {
          for i := 0 to 3
            invariant projectiles == seq(i, _ => p)
          {
            projectiles := projectiles + [p];
          }
        } else {
          projectiles := [p];
        }
      }
      assert projectiles == seq(ProjectileCount(Environment()), _ => p);
      var flash: Option<MuzzleFlash> := None;
      if hasMuzzleEffect {
        flash := Some(MuzzleFlash(
          GetEffectPrefab(selectedPrimarySkill, fireRocket, fireRocketAlt),
          GetMuzzleString(selectedPrimarySkill, fireRocket, fireRocketAlt)));
      }
      shots := shots + [Shot(projectiles, flash)];
      shotsRemaining := shotsRemaining - 1;
    }
  }
}
