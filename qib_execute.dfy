/**
 * `executeBehavior`: the walk over an effect tree. It reads the two timer
 * maps, the entity's behaviour name and the player; it changes nothing of the
 * interpreter's own state except that a `Wait` appends to the delay queue.
 * Its result is therefore the entries it appends and the events it causes.
 */
module QibExecute {
  import opened Java32
  import opened QibTypes

  /** The entries appended to the delay queue and the events, in order. */
  datatype Outcome = Outcome(scheduled: seq<Pending>, events: seq<Event>)

  const Nothing := Outcome([], [])

  /** Doing `a` and then `b`. */
  function Then(a: Outcome, b: Outcome): Outcome
  {
    Outcome(a.scheduled + b.scheduled, a.events + b.events)
  }

  /** The value of a player predicate. */
  function Holds(p: Player, c: Condition): bool
  {
    match c
    case IsGliding => p.fallFlying
    case IsRiptiding => p.autoSpinAttack
    case IsInAir => !p.onGround
    case IsOnGround => p.onGround
    case IsInWater => p.inWater
    case IsInWaterOrRain => p.inWaterOrRain
  }

  /**
   * The timer a `Stay` reads: the timer of the entity's behaviour type when
   * `global`, otherwise the entity's own timer; an absent timer reads as 0.
   */
  function TimeSpent(w: World, t: Timers, entity: EntityId, global: bool): int32
  {
    if global then
      if entity in w.tags && w.tags[entity] in t.types then t.types[w.tags[entity]] else 0
    else
      if entity in t.entities then t.entities[entity] else 0
  }

  /** A well-formed outcome of running an effect for `entity`. */
  predicate WellFormed(o: Outcome, entity: EntityId)
  {
    && (forall ev | ev in o.events :: ev.Action? && ev.action.IsLeaf())
    && (forall p | p in o.scheduled :: p.entity == entity)
  }

  /**
   * Runs `effect` for `entity`. The outcome holds only leaf actions (never a
   * server notification), every entry it schedules belongs to `entity`, and a
   * tree without a `Wait` schedules nothing.
   */
  function Execute(w: World, t: Timers, entity: EntityId, effect: Effect): (r: Outcome)
    ensures WellFormed(r, entity)
    ensures !HasWait(effect) ==> r.scheduled == []
    decreases effect
  {
    match effect
    case Multiple(es) => ExecuteAll(w, t, entity, es)
    case Stay(ticks, global, f) =>
      if TimeSpent(w, t, entity, global) >= ticks then Execute(w, t, entity, f) else Nothing
    case Wait(ticks, f) => Outcome([Pending(ticks, entity, f)], [])
    case Conditional(c, value, f) =>
      if Holds(w.player, c) == value then Execute(w, t, entity, f) else Nothing
    case _ => Outcome([], [Action(effect)])
  }

  /** Runs `es` left to right. */
  function ExecuteAll(w: World, t: Timers, entity: EntityId, es: seq<Effect>): (r: Outcome)
    ensures WellFormed(r, entity)
    ensures (forall i | 0 <= i < |es| :: !HasWait(es[i])) ==> r.scheduled == []
    decreases es
  {
    if es == [] then Nothing
    else Then(Execute(w, t, entity, es[0]), ExecuteAll(w, t, entity, es[1..]))
  }

  /**
   * A trigger: the notification to the server, then the effect. Its only
   * notification is the first event.
   */
  function Trigger(w: World, t: Timers, b: string, kind: TriggerType, entity: EntityId, f: Effect): (r: Outcome)
    ensures r.events != [] && r.events[0] == Packet(b, kind, entity)
    ensures forall ev | ev in r.events && ev.Packet? :: ev == Packet(b, kind, entity)
    ensures forall p | p in r.scheduled :: p.entity == entity
  {
    var o := Execute(w, t, entity, f);
    Outcome(o.scheduled, [Packet(b, kind, entity)] + o.events)
  }

  lemma ThenAssociative(a: Outcome, b: Outcome, c: Outcome)
    ensures Then(Then(a, b), c) == Then(a, Then(b, c))
  {
    assert (a.scheduled + b.scheduled) + c.scheduled == a.scheduled + (b.scheduled + c.scheduled);
    assert (a.events + b.events) + c.events == a.events + (b.events + c.events);
  }

  lemma NothingIsNeutral(a: Outcome)
    ensures Then(a, Nothing) == a && Then(Nothing, a) == a
  {
    assert a.scheduled + [] == a.scheduled && a.events + [] == a.events;
    assert [] + a.scheduled == a.scheduled && [] + a.events == a.events;
  }

  /** `Multiple` over a concatenation is the first part's outcome followed by the second's. */
  lemma {:induction false} ExecuteAllAppend(w: World, t: Timers, entity: EntityId, a: seq<Effect>, b: seq<Effect>)
    ensures ExecuteAll(w, t, entity, a + b) == Then(ExecuteAll(w, t, entity, a), ExecuteAll(w, t, entity, b))
    decreases a
  {
    if a == [] {
      assert a + b == b;
      NothingIsNeutral(ExecuteAll(w, t, entity, b));
    } else {
      assert (a + b)[0] == a[0];
      assert (a + b)[1..] == a[1..] + b;
      var head := Execute(w, t, entity, a[0]);
      ExecuteAllAppend(w, t, entity, a[1..], b);
      assert ExecuteAll(w, t, entity, a + b)
          == Then(head, Then(ExecuteAll(w, t, entity, a[1..]), ExecuteAll(w, t, entity, b)));
      ThenAssociative(head, ExecuteAll(w, t, entity, a[1..]), ExecuteAll(w, t, entity, b));
    }
  }

  /** A `Multiple` of one effect behaves as that effect. */
  lemma ExecuteAllSingle(w: World, t: Timers, entity: EntityId, f: Effect)
    ensures ExecuteAll(w, t, entity, [f]) == Execute(w, t, entity, f)
  {
    assert [f][1..] == [];
    NothingIsNeutral(Execute(w, t, entity, f));
  }

  /** Nesting `Multiple`s does not change the outcome: the trace of a `Multiple` is the concatenation of its children's. */
  lemma MultipleFlattens(w: World, t: Timers, entity: EntityId, a: seq<Effect>, b: seq<Effect>)
    ensures Execute(w, t, entity, Multiple([Multiple(a), Multiple(b)])) == Execute(w, t, entity, Multiple(a + b))
  {
    var two := [Multiple(a), Multiple(b)];
    assert two[0] == Multiple(a) && two[1..] == [Multiple(b)];
    ExecuteAllSingle(w, t, entity, Multiple(b));
    assert ExecuteAll(w, t, entity, two) == Then(ExecuteAll(w, t, entity, a), ExecuteAll(w, t, entity, b));
    ExecuteAllAppend(w, t, entity, a, b);
  }

  /** A `Wait` of `n` ticks appends exactly one entry with counter `n` and runs nothing now. */
  lemma WaitSchedulesOne(w: World, t: Timers, entity: EntityId, n: int32, f: Effect)
    ensures Execute(w, t, entity, Wait(n, f)) == Outcome([Pending(n, entity, f)], [])
  {
  }

  /** `Stay` runs its effect exactly when the chosen timer has reached `ticks`. */
  lemma StayRunsIffTimeSpent(w: World, t: Timers, entity: EntityId, ticks: int32, global: bool, f: Effect)
    ensures TimeSpent(w, t, entity, global) >= ticks ==> Execute(w, t, entity, Stay(ticks, global, f)) == Execute(w, t, entity, f)
    ensures TimeSpent(w, t, entity, global) < ticks ==> Execute(w, t, entity, Stay(ticks, global, f)) == Nothing
  {
  }

  /** Testing IS_IN_AIR for `v` is testing IS_ON_GROUND for `!v`. */
  lemma InAirIsNotOnGround(w: World, t: Timers, entity: EntityId, v: bool, f: Effect)
    ensures Execute(w, t, entity, Conditional(IsInAir, v, f)) == Execute(w, t, entity, Conditional(IsOnGround, !v, f))
  {
  }

  /** Of a `Conditional` for `true` and one for `false` on the same predicate, exactly one runs its effect. */
  lemma ConditionalPartition(w: World, t: Timers, entity: EntityId, c: Condition, f: Effect)
    ensures Execute(w, t, entity, Multiple([Conditional(c, true, f), Conditional(c, false, f)])) == Execute(w, t, entity, f)
  {
    var two := [Conditional(c, true, f), Conditional(c, false, f)];
    assert two[0] == Conditional(c, true, f) && two[1..] == [Conditional(c, false, f)];
    ExecuteAllSingle(w, t, entity, Conditional(c, false, f));
    var o := Execute(w, t, entity, f);
    NothingIsNeutral(o);
    if Holds(w.player, c) {
      assert Execute(w, t, entity, Conditional(c, true, f)) == o;
      assert Execute(w, t, entity, Conditional(c, false, f)) == Nothing;
    } else {
      assert Execute(w, t, entity, Conditional(c, true, f)) == Nothing;
      assert Execute(w, t, entity, Conditional(c, false, f)) == o;
    }
    assert ExecuteAll(w, t, entity, two) == Then(Execute(w, t, entity, two[0]), Execute(w, t, entity, two[1]));
  }
}
