/**
 * The spoon melee utility state (`ComicallyLargeSpoon`): a zero-damage
 * overlap attack only detects a hit; the first hit of a swing fires one
 * fixed blast around the user, and a swing that hit nothing refunds one
 * utility stock on exit.
 */
module ComicallyLargeSpoonState {
  import opened DamageTypes
  import opened Skills

  datatype Vector3 = Vector3(x: real, y: real, z: real)

  const Zero := Vector3(0.0, 0.0, 0.0)

  datatype FalloffModel = NoFalloff | Linear | SweetSpot

  datatype DamageColorIndex = DefaultColor | OtherColor(index: nat)

  /** The fields of a `BlastAttack` the spoon sets; its position is the body's core position, not modelled. */
  datatype BlastAttack = BlastAttack(
    attacker: nat,
    inflictor: nat,
    attackerFiltering: AttackerFiltering,
    baseDamage: real,
    baseForce: real,
    bonusForce: Vector3,
    canRejectForce: bool,
    crit: bool,
    damageColorIndex: DamageColorIndex,
    damageType: set<DamageFlag>,
    falloffModel: FalloffModel,
    procCoefficient: real,
    radius: real,
    teamIndex: int,
    moddedTypes: set<ModdedDamageType>)

  /** The overlap attack settings chosen in `OnEnter` (timings, sounds and effects are not modelled). */
  datatype OverlapSettings = OverlapSettings(
    damageType: set<DamageFlag>,
    damageCoefficient: real,
    procCoefficient: real,
    pushForce: real,
    bonusForce: Vector3)

  /** `blastDamageCoefficient`. */
  const BlastDamageCoefficient: real := 10.0

  /** The calls into the engine the state makes. */
  datatype Event = FireBlast(blast: BlastAttack) | SpawnExplosionEffect(scale: real)

  /** The overlap only detects the hit: it deals no damage, no proc and no force. */
  function SpoonOverlap(): (o: OverlapSettings)
    ensures o.damageType == Generic && o.damageCoefficient == 0.0 && o.procCoefficient == 0.0
    ensures o.pushForce == 0.0 && o.bonusForce == Zero
  {
    OverlapSettings(Generic, 0.0, 0.0, 0.0, Zero)
  }

  /** The three modded damage types added to the spoon blast, one call at a time. */
  function SpoonModdedTypes(): set<ModdedDamageType>
  {
    ({} + {ScaleForceToMass}) + {SlamDunk} + {MarketGarden}
  }

  /**
   * The spoon blast of a user with the given object, damage stat and team:
   * radius 10, force 2400, ten times the damage stat, stunning, never hitting
   * its user, proc 1, never critical.
   */
  function SpoonBlast(user: nat, damageStat: real, team: int): (ba: BlastAttack)
    ensures ba.attacker == user && ba.inflictor == user && ba.attackerFiltering == NeverHitSelf
    ensures ba.radius == 10.0 && ba.baseForce == 2400.0 && ba.bonusForce == Zero && ba.canRejectForce
    ensures ba.baseDamage == 10.0 * damageStat
    ensures ba.damageType == {Stun1s} && ba.procCoefficient == 1.0 && !ba.crit
    ensures ba.damageColorIndex == DefaultColor && ba.falloffModel == NoFalloff
    ensures ba.teamIndex == team
    ensures forall t :: t in ba.moddedTypes <==> t == ScaleForceToMass || t == SlamDunk || t == MarketGarden
  {
    BlastAttack(
      user, user, NeverHitSelf, BlastDamageCoefficient * damageStat, 2400.0, Zero, true, false,
      DefaultColor, {Stun1s}, NoFalloff, 1.0, 10.0, team, SpoonModdedTypes())
  }

  /** What one hit fires: the blast, then its explosion effect scaled to the blast radius. */
  function BlastEvents(user: nat, damageStat: real, team: int): (es: seq<Event>)
    ensures |es| == 2 && es[0].FireBlast? && es[0].blast == SpoonBlast(user, damageStat, team)
    ensures es[1] == SpawnExplosionEffect(10.0)
  {
    var ba := SpoonBlast(user, damageStat, team);
    [FireBlast(ba), SpawnExplosionEffect(ba.radius)]
  }

  /** The number of blasts in a trace. */
  function BlastCount(es: seq<Event>): nat
  {
    if es == [] then 0 else (if es[0].FireBlast? then 1 else 0) + BlastCount(es[1..])
  }

  /** A swing fires exactly one blast when it fires any. */
  lemma OneBlastPerSwing(user: nat, damageStat: real, team: int)
    ensures BlastCount(BlastEvents(user, damageStat, team)) == 1
  {
    var es := BlastEvents(user, damageStat, team);
    assert es[0].FireBlast? && !es[1].FireBlast?;
    assert es[1..][1..] == [];
    assert BlastCount(es[1..][1..]) == 0;
    assert BlastCount(es[1..]) == 0;
  }

  class ComicallyLargeSpoon {
    /** The user's object, damage stat and team. */
    const user: nat
    const damageStat: real
    const team: int
    const isAuthority: bool
    /** Whether the body has a `characterBody` and a `skillLocator`. */
    const hasCharacterBody: bool
    const hasSkillLocator: bool

    var overlap: OverlapSettings
    /** The one-shot latch: set by the first hit of the swing. */
    var firedExplosion: bool
    var utilityStock: int
    const utilityMaxStock: int
    var trace: seq<Event>

    /** No blast before the latch is set, and afterwards at most the one blast. */
    ghost predicate Valid()
      reads this
    {
      && (!firedExplosion ==> trace == [])
      && (trace == [] || trace == BlastEvents(user, damageStat, team))
    }

    /** `OnEnter`: the overlap settings and a cleared latch. */
    constructor OnEnter(user: nat, damageStat: real, team: int, isAuthority: bool, hasCharacterBody: bool,
                        hasSkillLocator: bool, utilityStock: int, utilityMaxStock: int)
      ensures Valid()
      ensures overlap == SpoonOverlap() && !firedExplosion && trace == []
      ensures this.user == user && this.damageStat == damageStat && this.team == team
      ensures this.isAuthority == isAuthority && this.hasCharacterBody == hasCharacterBody
      ensures this.hasSkillLocator == hasSkillLocator
      ensures this.utilityStock == utilityStock && this.utilityMaxStock == utilityMaxStock
    {
      this.user := user;
      this.damageStat := damageStat;
      this.team := team;
      this.isAuthority := isAuthority;
      this.hasCharacterBody := hasCharacterBody;
      this.hasSkillLocator := hasSkillLocator;
      this.utilityStock := utilityStock;
      this.utilityMaxStock := utilityMaxStock;
      firedExplosion := false;
      trace := [];
      overlap := SpoonOverlap();
    }

    /**
     * A hit: the first one sets the latch and, when there is a body, fires
     * the blast; the latch is set even without a body.
     */
    method OnHitEnemyAuthority()
      requires Valid()
      modifies this`firedExplosion, this`trace
      ensures Valid()
      ensures firedExplosion
      ensures trace == old(trace) + if !old(firedExplosion) && hasCharacterBody then BlastEvents(user, damageStat, team) else []
      ensures BlastCount(trace) <= 1
    {
      if !firedExplosion {
        firedExplosion := true;
        if hasCharacterBody {
          var ba := SpoonBlast(user, damageStat, team);
          trace := trace + [FireBlast(ba)];
          trace := trace + [SpawnExplosionEffect(ba.radius)];
        }
      }
      OneBlastPerSwing(user, damageStat, team);
    }

    /** Leaving the state refunds one utility stock when the swing never hit. */
    method OnExit()
      modifies this`utilityStock
      ensures utilityStock == if isAuthority && !firedExplosion && hasSkillLocator
        then RefundOneStock(old(utilityStock), utilityMaxStock) else old(utilityStock)
      ensures old(utilityStock) <= utilityMaxStock ==> utilityStock <= utilityMaxStock
    {
      if isAuthority && !firedExplosion && hasSkillLocator && utilityStock < utilityMaxStock {
        utilityStock := utilityStock + 1;
      }
    }
  }
}
