/**
 * The damage descriptors the core inspects or produces: the game's flag enum
 * `DamageType` (a set of flags; `Generic` is the empty set) and the mod's own
 * modded damage types (`RocketSurvivor.DamageTypes`).
 */
module DamageTypes {

  /** One bit of the game's `DamageType` flag enum; only `Silent` and `Stun1s` are inspected. */
  datatype DamageFlag = Silent | Stun1s | OtherFlag(bit: nat)

  /** `DamageType.Generic`: no flag set. */
  const Generic: set<DamageFlag> := {}

  /** The mod's modded damage types; any type the core never names is `OtherModded`. */
  datatype ModdedDamageType =
    | ScaleForceToMass
    | AirborneBonus
    | MarkForAirshot
    | SlamDunk
    | MarketGarden
    | OtherModded(id: nat)

  /** `BlastAttack.attackerFiltering`: whether a blast may hit the body that fired it. */
  datatype AttackerFiltering = NeverHitSelf | HitSelfAllowed
}
