/**
 * The rocket tracker of a Rocket survivor (`RocketTrackerComponent`): an
 * ordered list of live rocket objects, a cached "a rocket is available" flag
 * recomputed on the server tick, the remote detonation of every tracked
 * rocket, and the one-stock refund when a detonation finds nothing.
 *
 * The game world is abstracted to the set of handles whose objects are alive
 * and a component record per handle; every call into the engine (blast jump,
 * effect, flak, blast attack, destruction, sound) is an event of a trace.
 */
module RocketTracker {
  import opened DamageTypes
  import opened Skills

  /** A reference to a rocket's game object. A handle that is not alive stands for a null or destroyed object. */
  type Handle = nat

  /** The components a rocket object carries, as far as detonation inspects them. */
  datatype Components = Components(
    pc: bool,                            // ProjectileController
    pie: bool,                           // ProjectileImpactExplosion
    pd: bool,                            // ProjectileDamage
    tf: bool,                            // TeamFilter
    bjc: bool,                           // BlastJumpComponent
    hasOwner: bool,                      // the controller's owner is set
    owner: Handle,                       // ProjectileController.owner, when set
    crit: bool,                          // ProjectileDamage.crit
    canRejectForce: bool,                // ProjectileImpactExplosion.canRejectForce
    teamIndex: int,                      // TeamFilter.teamIndex
    damageFlags: set<DamageFlag>,        // ProjectileDamage.damageType
    moddedTypes: set<ModdedDamageType>,  // held by the modded damage type holder; empty when it is absent
    fsc: bool                            // FlakShotgunComponent
  )

  /** An object that carries none of the inspected components. */
  const NoComponents := Components(false, false, false, false, false, false, 0, false, false, 0, {}, {}, false)

  /** The two explosion effects of the remote detonation. */
  datatype ExplosionKind = AirDetExplosion | AirDetConcExplosion

  /**
   * The calls into the engine that the core makes, in the order it makes them.
   * A blast records the fields of its `BlastAttack` that are not float
   * products of the rocket's tuning.
   */
  datatype Event =
    | BlastJump(h: Handle)
    | SpawnEffect(h: Handle, kind: ExplosionKind)
    | FireFlak(h: Handle)
    | FireBlast(
        h: Handle,
        attacker: Handle,
        inflictor: Handle,
        attackerFiltering: AttackerFiltering,
        crit: bool,
        canRejectForce: bool,
        teamIndex: int,
        damageType: set<DamageFlag>,
        moddedTypes: set<ModdedDamageType>)
    | Destroy(h: Handle)
    | Sound(ok: bool)

  /** The modded damage types a detonation blast carries over from its rocket. */
  const AirDetModdedTypes: set<ModdedDamageType> := {ScaleForceToMass, AirborneBonus, MarkForAirshot}

  function ComponentsOf(components: map<Handle, Components>, h: Handle): Components
  {
    if h in components then components[h] else NoComponents
  }

  /** The rocket pushes its owner away (self-knockback). */
  predicate Jumps(c: Components)
  {
    c.pc && c.pie && c.bjc
  }

  /** The rocket is armed: a blast attack is built and fired for it. */
  predicate Armed(c: Components)
  {
    c.pc && c.pie && c.tf && c.pd && c.hasOwner
  }

  /** The concussion variant is chosen when the rocket deals both Silent and Stun1s damage. */
  function ExplosionEffect(flags: set<DamageFlag>): ExplosionKind
  {
    if Silent in flags && Stun1s in flags then AirDetConcExplosion else AirDetExplosion
  }

  /** The three membership tests that copy modded damage types onto the blast. */
  function CopiedModdedTypes(held: set<ModdedDamageType>): set<ModdedDamageType>
  {
    (if ScaleForceToMass in held then {ScaleForceToMass} else {})
    + (if AirborneBonus in held then {AirborneBonus} else {})
    + (if MarkForAirshot in held then {MarkForAirshot} else {})
  }

  /** The effect of detonating one rocket, before its destruction. */
  function EffectEvents(h: Handle, c: Components): (es: seq<Event>)
    ensures |es| <= 4
    ensures forall e :: e in es ==> !e.Destroy? && !e.Sound? && e.h == h
  {
    if c.pc && c.pie then
      (if c.bjc then [BlastJump(h)] else [])
      + (if c.tf && c.pd && c.hasOwner then
           [SpawnEffect(h, ExplosionEffect(c.damageFlags))]
           + (if c.fsc then [FireFlak(h)] else [])
           + [FireBlast(h, c.owner, c.owner, NeverHitSelf, c.crit, c.canRejectForce, c.teamIndex,
                        c.damageFlags, CopiedModdedTypes(c.moddedTypes))]
         else [])
    else []
  }

  /** Everything one iteration of the detonation loop does. */
  function EntityEvents(h: Handle, c: Components): (es: seq<Event>)
    ensures |es| >= 1 && es[|es| - 1] == Destroy(h)
    ensures forall i :: 0 <= i < |es| - 1 ==> !es[i].Destroy?
  {
    EffectEvents(h, c) + [Destroy(h)]
  }

  /** The events of detonating every entry of `list`, in list order. */
  function DetonationEvents(list: seq<Handle>, components: map<Handle, Components>): (es: seq<Event>)
    ensures |es| >= |list|
    ensures forall e :: e in es ==> !e.Sound? && e.h in list
    decreases |list|
  {
    if list == [] then []
    else
      var last := list[|list| - 1];
      DetonationEvents(list[..|list| - 1], components) + EntityEvents(last, ComponentsOf(components, last))
  }

  /** The handles a trace destroys, in order. */
  function Destroyed(es: seq<Event>): seq<Handle>
  {
    if es == [] then []
    else (if es[0].Destroy? then [es[0].h] else []) + Destroyed(es[1..])
  }

  /** The set of entries of a list. */
  function Elems(list: seq<Handle>): set<Handle>
  {
    set h | h in list
  }

  /**
   * `RemoveAll(item => item == null)`: the entries whose object is still
   * alive, in their original order, each as often as it occurred.
   */
  function Purge(list: seq<Handle>, alive: set<Handle>): (r: seq<Handle>)
    ensures |r| <= |list|
    ensures forall h :: multiset(r)[h] == if h in alive then multiset(list)[h] else 0
  {
    if list == [] then []
    else
      assert list == [list[0]] + list[1..];
      (if list[0] in alive then [list[0]] else []) + Purge(list[1..], alive)
  }

  // ---------------------------------------------------------------------------
  // Properties of the purge

  /** Purging splits over concatenation, so the kept entries stay in their order. */
  lemma {:induction false} PurgeAppend(a: seq<Handle>, b: seq<Handle>, alive: set<Handle>)
    ensures Purge(a + b, alive) == Purge(a, alive) + Purge(b, alive)
  {
    if a == [] {
      assert a + b == b;
    } else {
      assert (a + b)[0] == a[0];
      assert (a + b)[1..] == a[1..] + b;
      PurgeAppend(a[1..], b, alive);
    }
  }

  /** A list whose entries are all alive is left as it is. */
  lemma {:induction false} PurgeKeepsLive(list: seq<Handle>, alive: set<Handle>)
    requires forall h :: h in list ==> h in alive
    ensures Purge(list, alive) == list
  {
    if list != [] {
      assert list == [list[0]] + list[1..];
      PurgeKeepsLive(list[1..], alive);
    }
  }

  /** A purged list holds no destroyed entry. */
  lemma PurgeOnlyLive(list: seq<Handle>, alive: set<Handle>)
    ensures forall h :: h in Purge(list, alive) ==> h in alive && h in list
  {
    var r := Purge(list, alive);
    forall h | h in r ensures h in alive && h in list {
      assert multiset(r)[h] > 0;
    }
  }

  // ---------------------------------------------------------------------------
  // Properties of one detonation

  /** Every event of one iteration concerns its entry, and the entry is destroyed last, exactly once. */
  lemma {:induction false} EntityEventsEndInDestroy(h: Handle, c: Components)
    ensures var es := EntityEvents(h, c);
      && es[|es| - 1] == Destroy(h)
      && (forall e :: e in es ==> !e.Sound? && e.h == h)
      && Destroyed(es) == [h]
  {
    var fx := EffectEvents(h, c);
    NoDestroyInEffects(fx, h, c);
    DestroyedAppend(fx, [Destroy(h)]);
    assert Destroyed([Destroy(h)]) == [h] + Destroyed([]);
  }

  lemma NoDestroyInEffects(fx: seq<Event>, h: Handle, c: Components)
    requires fx == EffectEvents(h, c)
    ensures Destroyed(fx) == []
  {
    assert forall e :: e in fx ==> !e.Destroy?;
    NoDestroyNothingDestroyed(fx);
  }

  lemma {:induction false} NoDestroyNothingDestroyed(es: seq<Event>)
    requires forall e :: e in es ==> !e.Destroy?
    ensures Destroyed(es) == []
  {
    if es != [] {
      assert es[0] in es;
      assert forall e :: e in es[1..] ==> e in es;
      NoDestroyNothingDestroyed(es[1..]);
    }
  }

  lemma {:induction false} DestroyedAppend(a: seq<Event>, b: seq<Event>)
    ensures Destroyed(a + b) == Destroyed(a) + Destroyed(b)
  {
    if a == [] {
      assert a + b == b;
    } else {
      assert (a + b)[0] == a[0];
      assert (a + b)[1..] == a[1..] + b;
      DestroyedAppend(a[1..], b);
    }
  }

  /** The self-knockback happens exactly for a rocket with controller, impact explosion and blast jump component. */
  lemma BlastJumpIff(h: Handle, c: Components)
    ensures BlastJump(h) in EntityEvents(h, c) <==> Jumps(c)
  {
    if c.pc && c.pie && c.bjc {
      assert EntityEvents(h, c)[0] == BlastJump(h);
    }
  }

  /**
   * A blast is fired exactly for an armed rocket. It is the owner's blast,
   * never hits the owner, takes the rocket's crit roll, force rejection and
   * team, and carries the rocket's damage type and the rocket's modded types
   * among the three copied ones.
   */
  lemma FireBlastIff(h: Handle, c: Components)
    ensures var blast := FireBlast(h, c.owner, c.owner, NeverHitSelf, c.crit, c.canRejectForce, c.teamIndex,
                                   c.damageFlags, c.moddedTypes * AirDetModdedTypes);
      && (blast in EntityEvents(h, c) <==> Armed(c))
      && (forall e :: e in EntityEvents(h, c) && e.FireBlast? ==> Armed(c) && e == blast)
  {
    CopiedModdedTypesIsIntersection(c.moddedTypes);
  }

  /** Copying by three membership tests keeps exactly the held types among the three. */
  lemma CopiedModdedTypesIsIntersection(held: set<ModdedDamageType>)
    ensures CopiedModdedTypes(held) == held * AirDetModdedTypes
  {
    var r := CopiedModdedTypes(held);
    forall t ensures t in r <==> t in held * AirDetModdedTypes {
      assert t in AirDetModdedTypes <==> t == ScaleForceToMass || t == AirborneBonus || t == MarkForAirshot;
    }
  }

  /** When a rocket both jumps and blasts, the jump comes first. */
  lemma JumpPrecedesBlast(h: Handle, c: Components)
    ensures var es := EntityEvents(h, c);
      forall i, j :: 0 <= i < |es| && 0 <= j < |es| && es[i].BlastJump? && es[j].FireBlast? ==> i < j
  {
  }

  /**
   * An armed rocket spawns one explosion effect, the concussion variant
   * exactly when its damage is both Silent and Stun1s. A flak shotgun
   * component adds a flak burst after the effect and does not change it.
   */
  lemma ExplosionEffectIff(h: Handle, c: Components)
    ensures var es := EntityEvents(h, c);
      && (exists k :: SpawnEffect(h, k) in es) == Armed(c)
      && (forall e :: e in es && e.SpawnEffect? ==>
            (e.kind == AirDetConcExplosion <==> Silent in c.damageFlags && Stun1s in c.damageFlags))
      && (FireFlak(h) in es <==> Armed(c) && c.fsc)
      && (forall k :: SpawnEffect(h, k) in es <==> SpawnEffect(h, k) in EntityEvents(h, c.(fsc := !c.fsc)))
  {
    if Armed(c) {
      assert SpawnEffect(h, ExplosionEffect(c.damageFlags)) in EntityEvents(h, c);
    }
  }

  // ---------------------------------------------------------------------------
  // Properties of a whole detonation pass

  /** The loop destroys every entry exactly once per occurrence, in list order. */
  lemma {:induction false} DestroyedInListOrder(list: seq<Handle>, components: map<Handle, Components>)
    ensures Destroyed(DetonationEvents(list, components)) == list
    decreases |list|
  {
    if list != [] {
      var init, last := list[..|list| - 1], list[|list| - 1];
      DestroyedInListOrder(init, components);
      DestroyedAppend(DetonationEvents(init, components), EntityEvents(last, ComponentsOf(components, last)));
      EntityEventsEndInDestroy(last, ComponentsOf(components, last));
      assert list == init + [last];
    }
  }

  /** Every blast of a pass belongs to an armed entry of the list. */
  lemma {:induction false} BlastsOnlyFromArmedEntries(list: seq<Handle>, components: map<Handle, Components>)
    ensures forall e :: e in DetonationEvents(list, components) && e.FireBlast? ==>
      e.h in list && Armed(ComponentsOf(components, e.h))
    decreases |list|
  {
    if list != [] {
      var init, last := list[..|list| - 1], list[|list| - 1];
      BlastsOnlyFromArmedEntries(init, components);
      FireBlastIff(last, ComponentsOf(components, last));
      EntityEventsEndInDestroy(last, ComponentsOf(components, last));
      assert forall x :: x in init ==> x in list;
    }
  }

  /** One more iteration of the loop extends the trace by that entry's events and destroys it. */
  lemma DetonationEventsStep(list: seq<Handle>, i: nat, components: map<Handle, Components>)
    requires i < |list|
    ensures DetonationEvents(list[..i + 1], components)
         == DetonationEvents(list[..i], components) + EntityEvents(list[i], ComponentsOf(components, list[i]))
    ensures Elems(list[..i + 1]) == Elems(list[..i]) + {list[i]}
  {
    assert list[..i + 1] == list[..i] + [list[i]];
    assert list[..i + 1][..i] == list[..i];
  }

  /** Regrouping the trace after one iteration, stated apart to keep the loop's proof small. */
  lemma TraceStep(t: seq<Event>, done: seq<Event>, next: seq<Event>)
    ensures (t + done) + next == t + (done + next)
  {
  }

  // ---------------------------------------------------------------------------
  // Refunds

  /** `RpcAddSecondaryStock` / `RpcAddSpecialStock` with the locator test short-circuiting. */
  function Refund(hasAuthority: bool, hasSkillLocator: bool, stock: int, maxStock: int): (r: int)
    ensures r != stock <==> hasAuthority && hasSkillLocator && stock < maxStock
    ensures r == stock || r == stock + 1
    ensures stock <= maxStock ==> r <= maxStock
  {
    if !hasAuthority then stock
    else if hasSkillLocator then RefundOneStock(stock, maxStock)
    else stock
  }

  /** The outcome of the refund as the source writes it: it may throw. */
  datatype RefundOutcome = Stock(stock: int) | NullReference

  /**
   * The refund as written: `skillLocator & skillLocator.secondary.stock < ...`
   * evaluates both operands of the non-short-circuit `&`, so a missing skill
   * locator is dereferenced.
   */
  function RefundAsWritten(hasAuthority: bool, hasSkillLocator: bool, stock: int, maxStock: int): (r: RefundOutcome)
    ensures r == NullReference <==> hasAuthority && !hasSkillLocator
    ensures r.Stock? ==> (r.stock == stock + 1 <==> hasAuthority && stock < maxStock)
    ensures r.Stock? ==> r.stock == stock || r.stock == stock + 1
  {
    if !hasAuthority then Stock(stock)
    else if !hasSkillLocator then NullReference
    else Stock(RefundOneStock(stock, maxStock))
  }

  /** The written refund throws for an authoritative body without skill locator, where the intended one does nothing. */
  lemma RefundAsWrittenThrowsWithoutLocator(stock: int, maxStock: int)
    ensures RefundAsWritten(true, false, stock, maxStock) == NullReference
    ensures Refund(true, false, stock, maxStock) == stock
  {
  }

  /** Everywhere else the written refund and the intended one agree. */
  lemma RefundAsWrittenAgreesElsewhere(hasAuthority: bool, hasSkillLocator: bool, stock: int, maxStock: int)
    requires !hasAuthority || hasSkillLocator
    ensures RefundAsWritten(hasAuthority, hasSkillLocator, stock, maxStock) == Stock(Refund(hasAuthority, hasSkillLocator, stock, maxStock))
  {
  }

  /** A detonation request from a client succeeds exactly when the flag was set and a rocket was tracked. */
  predicate Succeeds(rocketAvailable: bool, list: seq<Handle>)
  {
    rocketAvailable && |list| > 0
  }

  // ---------------------------------------------------------------------------
  // The component

  class RocketTrackerComponent {
    /** The tracked rockets, oldest first; duplicates and dead entries may occur. */
    var rocketList: seq<Handle>
    /** The replicated `_rocketAvailable` flag. */
    var rocketAvailable: bool

    /** The world: the alive objects and the components of each. */
    var alive: set<Handle>
    var components: map<Handle, Components>
    /** Calls made into the engine. */
    var trace: seq<Event>

    /** The owning body: network authority, skill locator and the secondary and special stocks. */
    var hasAuthority: bool
    var hasSkillLocator: bool
    var secondaryStock: int
    var secondaryMaxStock: int
    var specialStock: int
    var specialMaxStock: int

    /** `Awake`: an empty list and the flag cleared. */
    constructor Awake(alive: set<Handle>, components: map<Handle, Components>, hasAuthority: bool, hasSkillLocator: bool,
                      secondaryStock: int, secondaryMaxStock: int, specialStock: int, specialMaxStock: int)
      ensures rocketList == [] && !rocketAvailable && trace == []
      ensures this.alive == alive && this.components == components
      ensures this.hasAuthority == hasAuthority && this.hasSkillLocator == hasSkillLocator
      ensures this.secondaryStock == secondaryStock && this.secondaryMaxStock == secondaryMaxStock
      ensures this.specialStock == specialStock && this.specialMaxStock == specialMaxStock
    {
      rocketList := [];
      rocketAvailable := false;
      this.alive := alive;
      this.components := components;
      trace := [];
      this.hasAuthority := hasAuthority;
      this.hasSkillLocator := hasSkillLocator;
      this.secondaryStock := secondaryStock;
      this.secondaryMaxStock := secondaryMaxStock;
      this.specialStock := specialStock;
      this.specialMaxStock := specialMaxStock;
    }

    /** The server tick. */
    method FixedUpdate()
      modifies this`rocketList, this`rocketAvailable
      ensures rocketList == Purge(old(rocketList), alive)
      ensures rocketAvailable == (|rocketList| > 0)
    {
      UpdateRocketAvailable();
    }

    /** Drops the destroyed entries and recomputes the flag; the only writer of the flag. */
    method UpdateRocketAvailable()
      modifies this`rocketList, this`rocketAvailable
      ensures rocketList == Purge(old(rocketList), alive)
      ensures rocketAvailable == (|rocketList| > 0)
    {
      var newRocketAvailable := false;
      rocketList := Purge(rocketList, alive);
      if |rocketList| > 0 {
        newRocketAvailable := true;
      }
      if newRocketAvailable != rocketAvailable {
        rocketAvailable := newRocketAvailable;
      }
    }

    /** The last computed flag; changes nothing. */
    method IsRocketAvailable() returns (r: bool)
      ensures r == rocketAvailable
    {
      r := rocketAvailable;
    }

    /** Appends a rocket, duplicates and dead handles included; the flag waits for the next tick. */
    method AddRocket(rocket: Handle)
      modifies this`rocketList
      ensures rocketList == old(rocketList) + [rocket]
      ensures rocketAvailable == old(rocketAvailable)
    {
      rocketList := rocketList + [rocket];
    }

    /**
     * Detonates and destroys every tracked rocket if the flag is set, then
     * purges and recomputes the flag. Succeeds for every visited entry,
     * armed or not.
     */
    method DetonateRocket() returns (detonatedSuccessfully: bool)
      requires rocketAvailable ==> forall h :: h in rocketList ==> h in alive
      modifies this`rocketList, this`rocketAvailable, this`alive, this`trace
      ensures detonatedSuccessfully == Succeeds(old(rocketAvailable), old(rocketList))
      ensures trace == old(trace) + if old(rocketAvailable) then DetonationEvents(old(rocketList), components) else []
      ensures alive == if old(rocketAvailable) then old(alive) - Elems(old(rocketList)) else old(alive)
      ensures rocketList == Purge(old(rocketList), alive)
      ensures rocketAvailable == (|rocketList| > 0)
    {
      detonatedSuccessfully := false;
      var available := IsRocketAvailable();
      if available {
        detonatedSuccessfully := DetonateAll(rocketList);
      }
      UpdateRocketAvailable();
    }

    /** The `foreach` loop of the detonation: every entry of `list` in turn. */
    method DetonateAll(list: seq<Handle>) returns (detonatedSuccessfully: bool)
      modifies this`alive, this`trace
      ensures detonatedSuccessfully == (|list| > 0)
      ensures trace == old(trace) + DetonationEvents(list, components)
      ensures alive == old(alive) - Elems(list)
    {
      detonatedSuccessfully := false;
      for i := 0 to |list|
        invariant trace == old(trace) + DetonationEvents(list[..i], components)
        invariant alive == old(alive) - Elems(list[..i])
        invariant detonatedSuccessfully == (i > 0)
      {
        var toDetonate := list[i];
        ghost var done := DetonationEvents(list[..i], components);
        DetonateEntity(toDetonate);
        detonatedSuccessfully := true;
        DetonationEventsStep(list, i, components);
        ghost var next := EntityEvents(toDetonate, ComponentsOf(components, toDetonate));
        TraceStep(old(trace), done, next);
      }
      assert list[..|list|] == list;
    }

    /** One iteration of the detonation loop: knockback, blast, then destruction of the rocket. */
    method DetonateEntity(toDetonate: Handle)
      modifies this`alive, this`trace
      ensures trace == old(trace) + EntityEvents(toDetonate, ComponentsOf(components, toDetonate))
      ensures alive == old(alive) - {toDetonate}
    {
      var c := ComponentsOf(components, toDetonate);
      var fx: seq<Event> := [];
      if c.pc && c.pie {
        // self-knockback first
        if c.bjc {
          fx := fx + [BlastJump(toDetonate)];
        }
        // blast attack second
        if c.tf && c.pd && c.hasOwner {
          var modded := CopiedModdedTypes(c.moddedTypes);
          var effect := ExplosionEffect(c.damageFlags);
          fx := fx + [SpawnEffect(toDetonate, effect)];
          if c.fsc {
            fx := fx + [FireFlak(toDetonate)];
          }
          fx := fx + [FireBlast(toDetonate, c.owner, c.owner, NeverHitSelf, c.crit, c.canRejectForce, c.teamIndex,
                                c.damageFlags, modded)];
        }
      }
      assert fx == EffectEvents(toDetonate, c);
      trace := trace + fx + [Destroy(toDetonate)];
      alive := alive - {toDetonate};
    }

    /** The client's secondary stock is refunded by one, up to its maximum. */
    method RpcAddSecondaryStock()
      modifies this`secondaryStock
      ensures secondaryStock == Refund(hasAuthority, hasSkillLocator, old(secondaryStock), secondaryMaxStock)
    {
      if !hasAuthority {
        return;
      }
      if hasSkillLocator && secondaryStock < secondaryMaxStock {
        secondaryStock := secondaryStock + 1;
      }
    }

    /** The client's special stock is refunded by one, up to its maximum. */
    method RpcAddSpecialStock()
      modifies this`specialStock
      ensures specialStock == Refund(hasAuthority, hasSkillLocator, old(specialStock), specialMaxStock)
    {
      if !hasAuthority {
        return;
      }
      if hasSkillLocator && specialStock < specialMaxStock {
        specialStock := specialStock + 1;
      }
    }

    /** The client's detonation request, carried to the server. */
    method CmdDetonateRocket()
      requires rocketAvailable ==> forall h :: h in rocketList ==> h in alive
      modifies this`rocketList, this`rocketAvailable, this`alive, this`trace, this`secondaryStock
      ensures var ok := Succeeds(old(rocketAvailable), old(rocketList));
        && trace == old(trace) + (if old(rocketAvailable) then DetonationEvents(old(rocketList), components) else []) + [Sound(ok)]
        && secondaryStock == if ok then old(secondaryStock) else Refund(hasAuthority, hasSkillLocator, old(secondaryStock), secondaryMaxStock)
      ensures alive == if old(rocketAvailable) then old(alive) - Elems(old(rocketList)) else old(alive)
      ensures rocketList == Purge(old(rocketList), alive)
      ensures rocketAvailable == (|rocketList| > 0)
    {
      ServerDetonateRocket();
    }

    /** Detonates, plays the success or fail cue, and on failure refunds one secondary stock. */
    method ServerDetonateRocket()
      requires rocketAvailable ==> forall h :: h in rocketList ==> h in alive
      modifies this`rocketList, this`rocketAvailable, this`alive, this`trace, this`secondaryStock
      ensures var ok := Succeeds(old(rocketAvailable), old(rocketList));
        && trace == old(trace) + (if old(rocketAvailable) then DetonationEvents(old(rocketList), components) else []) + [Sound(ok)]
        && secondaryStock == if ok then old(secondaryStock) else Refund(hasAuthority, hasSkillLocator, old(secondaryStock), secondaryMaxStock)
      ensures alive == if old(rocketAvailable) then old(alive) - Elems(old(rocketList)) else old(alive)
      ensures rocketList == Purge(old(rocketList), alive)
      ensures rocketAvailable == (|rocketList| > 0)
    {
      var success := DetonateRocket();
      trace := trace + [Sound(success)];
      if !success {
        RpcAddSecondaryStock();
      }
    }
  }
}
