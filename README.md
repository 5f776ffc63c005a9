# Rocket survivor: rocket tracker, burst fire and spoon melee

A Dafny model of three small state machines of the Rocket survivor mod:

- **The rocket tracker** (`RocketTrackerComponent`). It keeps an ordered list of live rocket objects and a cached "a rocket is available" flag. The server tick purges destroyed rockets and recomputes the flag. A remote detonation visits every tracked rocket. For each one it decides, from the components the rocket carries, whether to knock its owner back and whether to fire a blast, and then destroys it. The result reports whether anything was visited. A client whose detonation finds nothing hears the fail cue and gets one secondary stock back, up to the maximum.
- **The burst-fire special** (`FireAllRockets`). It is a countdown scheduler: four shots, at most one per fixed tick once the stopwatch has run out, then a move to `Rearm`. Small selectors pick the normal or the Alt primary's rocket.
- **The spoon melee utility** (`ComicallyLargeSpoon`). A latch lets each swing fire at most one blast, with fixed parameters. A swing that hit nothing refunds one utility stock on exit.

Files:

- `common.dfy`: `Option`.
- `damage_types.dfy`: the game's damage flags and the mod's modded damage types.
- `skills.dfy`: the guarded one-stock refund of a skill slot.
- `rocket_tracker.dfy`: module `RocketTracker`. The detonation trace is a pure function, and the lemmas about it sit next to the class `RocketTrackerComponent`.
- `fire_all_rockets.dfy`: module `FireAllRocketsState`. The pure selectors, the tick as a function `Tick` on a `Burst` record with the lemmas about runs of ticks, and the class `FireAllRockets`, whose `FixedUpdate` is proved to perform `Tick`.
- `comically_large_spoon.dfy`: module `ComicallyLargeSpoonState`. The constant blast and overlap records and the class `ComicallyLargeSpoon`.

How the world is abstracted:

- A rocket is a `Handle`. The world is the set of alive handles plus a `Components` record per handle. The record says which of ProjectileController, ProjectileImpactExplosion, ProjectileDamage, TeamFilter, BlastJumpComponent and FlakShotgunComponent the rocket has, whether the controller has an owner, the damage flags, and the modded damage types its holder has. A handle that is not alive stands for a null or destroyed object.
- Every call into the engine is an event appended to a trace: the blast jump, the explosion effect, the flak burst, the blast attack, `Destroy`, the sound cues, the spawned projectiles and the muzzle flash.
- Authority (`hasAuthority` / `isAuthority`) and the presence of a skill locator or character body are plain booleans.
- The attack-speed-scaled delay and the crit roll are passed to `OnEnter` by the caller. The tick length is a parameter of `FixedUpdate`. Stopwatch values are `real`.

Facts about the code that shape the model:

- The tracker keeps one rocket list. It has no capacity limit, and no entry is ever evicted.
- Detonation succeeds for every visited rocket, armed or not. Success does not depend on any effect being applied.
- `Destroy` removes the handle from the alive set at once; the engine defers it to the end of the frame. The final list after a detonation is stated as the purge of the old list against the new alive set. In the game the entries leave the list at the next tick.

## Model

| member | source | states |
|---|---|---|
| `RocketTracker.Purge` | HenryMod/Components/RocketTrackerComponent.cs:44 | The purged list keeps each alive handle exactly as often as it occurred and drops every dead one; it is never longer |
| `RocketTracker.PurgeAppend` | HenryMod/Components/RocketTrackerComponent.cs:44 | Purging splits over concatenation, so the kept entries stay in list order |
| `RocketTracker.PurgeKeepsLive` | HenryMod/Components/RocketTrackerComponent.cs:44 | A list whose entries are all alive is left unchanged |
| `RocketTracker.PurgeOnlyLive` | HenryMod/Components/RocketTrackerComponent.cs:44 | Every entry left after the purge is alive and came from the list |
| `RocketTracker.RocketTrackerComponent.Awake` | HenryMod/Components/RocketTrackerComponent.cs:21-28 | A new tracker has an empty list, the flag cleared and no events |
| `RocketTracker.RocketTrackerComponent.FixedUpdate` | HenryMod/Components/RocketTrackerComponent.cs:30-36 | The server tick purges the list and sets the flag to whether entries remain |
| `RocketTracker.RocketTrackerComponent.UpdateRocketAvailable` | HenryMod/Components/RocketTrackerComponent.cs:39-51 | The list becomes its purge against the alive set; afterwards the flag equals "the list is non-empty"; nothing else changes |
| `RocketTracker.RocketTrackerComponent.IsRocketAvailable` | HenryMod/Components/RocketTrackerComponent.cs:53-56 | Returns the stored flag and changes nothing |
| `RocketTracker.RocketTrackerComponent.AddRocket` | HenryMod/Components/RocketTrackerComponent.cs:58-61 | The handle is appended at the end (duplicates and dead handles allowed); the flag is not touched |
| `RocketTracker.RocketTrackerComponent.DetonateRocket` | HenryMod/Components/RocketTrackerComponent.cs:63-146 | Result is true iff the flag was set and the list non-empty. With the flag set, the trace grows by every entry's detonation events in list order and every entry leaves the alive set. With it clear, no event and no entity changes. Either way, the list is purged and the flag recomputed |
| `RocketTracker.RocketTrackerComponent.DetonateAll` | HenryMod/Components/RocketTrackerComponent.cs:71-140 | The loop reports success iff the list is non-empty, appends the detonation events of every entry in list order, and removes every entry from the alive set |
| `RocketTracker.RocketTrackerComponent.DetonateEntity` | HenryMod/Components/RocketTrackerComponent.cs:73-138 | One loop iteration appends exactly that rocket's knockback, effect, flak and blast events followed by its destruction, and removes it from the alive set |
| `RocketTracker.EffectEvents` | HenryMod/Components/RocketTrackerComponent.cs:79-135 | One rocket's effects before its destruction: at most four events (jump, effect, flak, blast), all concerning that rocket, none a destruction or a sound |
| `RocketTracker.EntityEvents` | HenryMod/Components/RocketTrackerComponent.cs:73-138 | One loop iteration ends with the rocket's `Destroy`, and no earlier event of it destroys anything |
| `RocketTracker.DetonationEvents` | HenryMod/Components/RocketTrackerComponent.cs:71-140 | A pass has at least one event per entry, and every event it makes concerns an entry of the list; none is a sound cue |
| `RocketTracker.EntityEventsEndInDestroy` | HenryMod/Components/RocketTrackerComponent.cs:73-139 | Every event of one iteration concerns its rocket; the rocket is destroyed last and exactly once, whatever components it has |
| `RocketTracker.BlastJumpIff` | HenryMod/Components/RocketTrackerComponent.cs:79-87 | The self-knockback happens iff the rocket has controller, impact explosion and blast jump component |
| `RocketTracker.FireBlastIff` | HenryMod/Components/RocketTrackerComponent.cs:90-135 | A blast is fired iff controller, impact explosion, team filter, damage and owner are all present. Every fired blast has the controller's owner as attacker and inflictor, never hits that owner, and takes the rocket's crit roll, force rejection and team. It carries the rocket's damage type and its modded types intersected with {ScaleForceToMass, AirborneBonus, MarkForAirshot} |
| `RocketTracker.CopiedModdedTypesIsIntersection` | HenryMod/Components/RocketTrackerComponent.cs:112-118 | The three membership tests copy exactly the held types among the three |
| `RocketTracker.JumpPrecedesBlast` | HenryMod/Components/RocketTrackerComponent.cs:81-90 | When a rocket both jumps and blasts, the jump event comes before the blast event |
| `RocketTracker.ExplosionEffectIff` | HenryMod/Components/RocketTrackerComponent.cs:120-133 | An effect is spawned iff the rocket is armed. It is the concussion variant iff the damage has both Silent and Stun1s. A flak burst happens iff armed with a flak component. The spawned effect is the same with or without that component |
| `RocketTracker.DestroyedInListOrder` | HenryMod/Components/RocketTrackerComponent.cs:71-140 | The handles destroyed by a pass are exactly the list, in list order, once per entry |
| `RocketTracker.BlastsOnlyFromArmedEntries` | HenryMod/Components/RocketTrackerComponent.cs:71-136 | Every blast of a pass belongs to an armed entry of the list |
| `RocketTracker.Refund` | HenryMod/Components/RocketTrackerComponent.cs:148-166 | The refund adds one stock iff the client has authority, a skill locator and stock below the maximum. Otherwise the stock is unchanged; it never exceeds a maximum it was within |
| `RocketTracker.RefundAsWritten` | HenryMod/Components/RocketTrackerComponent.cs:148-156 | The refund as written throws iff the client has authority and no skill locator. Otherwise it adds one stock iff the client has authority and stock is below the maximum |
| `RocketTracker.RefundAsWrittenThrowsWithoutLocator` | HenryMod/Components/RocketTrackerComponent.cs:152 | As written, an authoritative client without skill locator dereferences it; the short-circuit refund leaves the stock unchanged |
| `RocketTracker.RefundAsWrittenAgreesElsewhere` | HenryMod/Components/RocketTrackerComponent.cs:148-156 | Without authority, or with a skill locator, the written and the short-circuit refund agree |
| `RocketTracker.RocketTrackerComponent.RpcAddSecondaryStock` | HenryMod/Components/RocketTrackerComponent.cs:148-156 | The secondary stock becomes its refund; nothing else changes |
| `RocketTracker.RocketTrackerComponent.RpcAddSpecialStock` | HenryMod/Components/RocketTrackerComponent.cs:158-166 | The special stock becomes its refund; nothing else changes |
| `RocketTracker.RocketTrackerComponent.ServerDetonateRocket` | HenryMod/Components/RocketTrackerComponent.cs:175-186 | Detonates, then emits the success cue iff detonation succeeded, else the fail cue. The secondary stock is refunded only on failure |
| `RocketTracker.RocketTrackerComponent.CmdDetonateRocket` | HenryMod/Components/RocketTrackerComponent.cs:168-172 | The client command has the server detonation's effect |
| `Skills.RefundOneStock` | HenryMod/Components/RocketTrackerComponent.cs:152-155 | One stock is added iff stock is below the maximum, so a stock within its maximum stays within it |
| `FireAllRocketsState.SelectPrimary` | HenryMod/SkillStates/RocketSurvivor/Special/FireAllRockets.cs:21-28 | The selection is FireRocket or FireRocketAlt, and FireRocketAlt iff a skill locator shows it as the primary |
| `FireAllRocketsState.GetProjectilePrefab` | HenryMod/SkillStates/RocketSurvivor/Special/FireAllRockets.cs:124-134 | The projectile prefab is the Alt rocket's iff Alt is selected, otherwise the normal rocket's |
| `FireAllRocketsState.GetEffectPrefab` | HenryMod/SkillStates/RocketSurvivor/Special/FireAllRockets.cs:136-146 | The muzzle effect is the Alt rocket's iff Alt is selected, otherwise the normal rocket's |
| `FireAllRocketsState.GetMuzzleString` | HenryMod/SkillStates/RocketSurvivor/Special/FireAllRockets.cs:148-158 | The muzzle name is the Alt rocket's iff Alt is selected, otherwise the normal rocket's |
| `FireAllRocketsState.GetDamageCoefficient` | HenryMod/SkillStates/RocketSurvivor/Special/FireAllRockets.cs:161-171 | The damage coefficient is the Alt rocket's iff Alt is selected, otherwise the normal rocket's |
| `FireAllRocketsState.GetForce` | HenryMod/SkillStates/RocketSurvivor/Special/FireAllRockets.cs:173-183 | The force is the Alt rocket's iff Alt is selected, otherwise the normal rocket's |
| `FireAllRocketsState.SelectorsAgree` | HenryMod/SkillStates/RocketSurvivor/Special/FireAllRockets.cs:124-183 | Projectile, effect, muzzle, damage coefficient and force all come from Alt iff Alt is selected, otherwise all from the normal rocket |
| `FireAllRocketsState.Enter` | HenryMod/SkillStates/RocketSurvivor/Special/FireAllRockets.cs:13-31 | Entry loads 4 shots, a zero stopwatch, no shot fired and no next state, with the given crit roll and delay. Alt is selected iff a skill locator shows it as the primary |
| `FireAllRocketsState.ShotFor` | HenryMod/SkillStates/RocketSurvivor/Special/FireAllRockets.cs:59-122 | A shot spawns `ProjectileCount` identical projectiles with a quarter of the selected rocket's force. It flashes the muzzle iff the muzzle effect is set, with the selected rocket's effect and muzzle |
| `FireAllRocketsState.Fire` | HenryMod/SkillStates/RocketSurvivor/Special/FireAllRockets.cs:59-122 | Firing appends exactly the shot for the current count, keeps the earlier shots, spends one shot and changes nothing else |
| `FireAllRocketsState.Tick` | HenryMod/SkillStates/RocketSurvivor/Special/FireAllRockets.cs:35-57 | A tick spends a shot iff the stopwatch has run out and shots remain, recording one new shot after the old ones. The stopwatch is recharged by the delay only when it had run out, and falls by the tick. Rearm is requested when the body has authority and a skill locator and no shot remains; otherwise the next state is unchanged. Selection, crit roll and delay never change |
| `FireAllRocketsState.ShotShape` | HenryMod/SkillStates/RocketSurvivor/Special/FireAllRockets.cs:59-109 | A shot spawns 3 projectiles with Pocket ICBM and MoreMissile, else 1, and none without authority. Each projectile takes spread iff the shot is not the burst's first, and uses the selected rocket |
| `FireAllRocketsState.EnterInv` | HenryMod/SkillStates/RocketSurvivor/Special/FireAllRockets.cs:13-31 | Entering loads a full burst of `baseShotCount` (4) shots that satisfies the burst invariant |
| `FireAllRocketsState.TickInv` | HenryMod/SkillStates/RocketSurvivor/Special/FireAllRockets.cs:35-57 | A tick keeps the invariant. The invariant: 0..4 shots left, one recorded shot per shot spent, shot k fired as the k-th shot, Rearm only when spent. A tick appends exactly one shot iff the stopwatch has run out and shots remain, otherwise none |
| `FireAllRocketsState.RunInv` | HenryMod/SkillStates/RocketSurvivor/Special/FireAllRockets.cs:39-44 | Any run of ticks keeps the invariant and so fires at most four shots |
| `FireAllRocketsState.FirstTickFires` | HenryMod/SkillStates/RocketSurvivor/Special/FireAllRockets.cs:16-18 | The first tick after entry fires the first shot at once, without spread, and leaves the stopwatch at delay minus tick |
| `FireAllRocketsState.RearmExactlyWhenSpent` | HenryMod/SkillStates/RocketSurvivor/Special/FireAllRockets.cs:46-55 | From a state with no next state, a tick moves to Rearm iff the body has authority and a skill locator and no shot remains after it. Without authority or without a skill locator it never does |
| `FireAllRocketsState.FastTicksFireEveryTick` | HenryMod/SkillStates/RocketSurvivor/Special/FireAllRockets.cs:39-44 | When every tick is at least the delay long, n ticks from a due stopwatch fire min(n, shots left) shots |
| `FireAllRocketsState.FireAllRockets.OnEnter` | HenryMod/SkillStates/RocketSurvivor/Special/FireAllRockets.cs:13-31 | The constructed state is the `Enter` state (4 shots, stopwatch 0, primary selected) and satisfies the burst invariant |
| `FireAllRocketsState.FireAllRockets.FixedUpdate` | HenryMod/SkillStates/RocketSurvivor/Special/FireAllRockets.cs:35-57 | The new state is `Tick` of the old one, and the burst invariant is preserved |
| `FireAllRocketsState.FireAllRockets.FireProjectile` | HenryMod/SkillStates/RocketSurvivor/Special/FireAllRockets.cs:59-122 | Appends exactly the shot for the current shot count and decrements the count by one, with or without authority |
| `ComicallyLargeSpoonState.SpoonOverlap` | HenryMod/SkillStates/RocketSurvivor/Utility/ComicallyLargeSpoon.cs:17-21 | The overlap attack deals Generic damage with zero coefficient, zero proc and zero force |
| `ComicallyLargeSpoonState.SpoonBlast` | HenryMod/SkillStates/RocketSurvivor/Utility/ComicallyLargeSpoon.cs:65-86 | The blast has radius 10, base force 2400, damage 10 × damage stat, damage type Stun1s, never hits self, proc 1, no crit and the user's team. Its modded types are exactly {ScaleForceToMass, SlamDunk, MarketGarden} |
| `ComicallyLargeSpoonState.BlastEvents` | HenryMod/SkillStates/RocketSurvivor/Utility/ComicallyLargeSpoon.cs:88-90 | A firing hit fires the spoon blast and then spawns its explosion effect at scale 10, the blast radius |
| `ComicallyLargeSpoonState.OneBlastPerSwing` | HenryMod/SkillStates/RocketSurvivor/Utility/ComicallyLargeSpoon.cs:88-90 | A firing hit produces exactly one blast |
| `ComicallyLargeSpoonState.ComicallyLargeSpoon.OnEnter` | HenryMod/SkillStates/RocketSurvivor/Utility/ComicallyLargeSpoon.cs:11-41 | The state starts with the zero-damage overlap, the latch clear and no blast |
| `ComicallyLargeSpoonState.ComicallyLargeSpoon.OnHitEnemyAuthority` | HenryMod/SkillStates/RocketSurvivor/Utility/ComicallyLargeSpoon.cs:55-93 | After any hit the latch is set. A blast and its effect are added only by the first hit, and only when a body exists. A bodiless first hit still suppresses every later blast; a swing never holds more than one blast |
| `ComicallyLargeSpoonState.ComicallyLargeSpoon.OnExit` | HenryMod/SkillStates/RocketSurvivor/Utility/ComicallyLargeSpoon.cs:95-102 | One utility stock is added iff authority, no hit, a skill locator and stock below maximum. A stock within its maximum stays within it |

## Left out

- Networking (`[SyncVar]`, `[Server]`, `[Command]`, `[ClientRpc]`, `NetworkServer.active`): one authoritative object with direct calls is modelled. The inactive-server early returns are not.
- `DetonateRocket` requires every listed rocket to be alive when the flag is set. Looking up components on a destroyed object is engine-defined behaviour.
- Unity's deferred destruction: `Destroy` removes the handle from the alive set at once (see above).
- Float numerics and geometry are left out. That covers the blast's damage, force and radius products with `Mathf.Max` and the `bjc.aoe`/`bjc.force` scaling. It also covers aim rays, the rotation of `aimRay2`, `ApplySpread` and the attack-speed division. Only whether spread is applied is recorded.
- The three-iteration loop of `FireProjectile` is kept as a loop that appends projectiles. Only the direction it rotates is dropped.
- The external calls, recorded only as trace events: `BlastAttack.Fire`, `EffectManager`, `ProjectileManager.FireProjectile`, `FireFlakProjectiles`, `BlastJump`, and the muzzle flash. Animations, sounds other than the detonation cues, and `StartAimMode` are left out.
- The tracker's blast event records attacker, inflictor, attacker filtering, crit, force rejection, team, damage type and modded types. Its position, its falloff model (always `None`), its proc chain mask (always default), its damage colour and its float fields (damage, force, bonus force, proc coefficient, radius) are left out.
- `FireAllRockets` reads the holder's MoreMissile count, the skill locator and authority once, at entry. The source reads the item count again on every shot. A count that changes in the middle of a burst is not modelled, and the burst invariant relies on the count staying fixed.
- The inherited `BaseState` / `BaseMeleeAttack` behaviour (`base.OnEnter`, `base.FixedUpdate`, `base.OnHitEnemyAuthority`, `base.OnExit`): that code is not part of this model. So are the ModifyStats hook and the melee timings, sound and effect strings of `OnEnter`.
- `GetMinimumInterruptPriority` (a constant `Pain` in both states): no behaviour to state.
- The `FireRocket` / `FireRocketAlt` tuning constants are parameters (`RocketProfile`). Their files are not part of this model.
- `GenericSkill.AddOneStock` is modelled as adding one to the stock. Its recharge bookkeeping is not part of this model.
- HenryMod/Modules/States.cs: pure registration of entity states, no behaviour.
- The tracker has one list, with no capacity limit and no eviction, so neither is modelled.

## Findings

| source | as written | input that shows it | evidently intended | confidence | as-written member | corrected member |
|---|---|---|---|---|---|---|
| HenryMod/Components/RocketTrackerComponent.cs:152 (and :162) | `skillLocator & skillLocator.secondary.stock < ...` uses the non-short-circuit `&`, so both operands are evaluated and a missing skill locator is dereferenced | `hasAuthority` true and no `SkillLocator` on the body: a `NullReferenceException` instead of a refund that does nothing | `&&`, so that without a skill locator the refund is skipped | medium, not executed | `RocketTracker.RefundAsWritten` (shown by `RocketTracker.RefundAsWrittenThrowsWithoutLocator`) | `RocketTracker.Refund` |
