/**
 * The qib behaviour module: the interpreter's state as a class whose methods
 * update it in place, each proved to do what the matching specification
 * function says.
 */
module QibBehavior {
  import opened Java32
  import opened QibTypes
  import opened QibExecute
  import opened QibTick
  import opened QibCollisions
  import opened QibJump

  /**
   * The world-tick handler: nothing at all when no behaviours are defined;
   * otherwise `tickEffects` and then, unless that ended in the iterator's
   * exception, `checkForCollisions`.
   */
  function WorldTicked(w: World, s: State, es: seq<EntityId>, order: seq<EntityId>): Ticked
  {
    if |w.behaviors| == 0 then Ticked(s, [], false)
    else
      var te := TickEffects(w, s);
      if te.crashed then te
      else
        var c := Collided(w, te.state, es, order);
        Ticked(c.state, te.events + c.events, false)
  }

  /** A world tick keeps every fired jump among the remembered entities. */
  lemma WorldTickKeepsJumpsRemembered(w: World, s: State, es: seq<EntityId>, order: seq<EntityId>)
    requires JumpsRemembered(s)
    requires |w.behaviors| > 0 ==> Enumerates(order, Leaving(TickEffects(w, s).state, es))
    ensures JumpsRemembered(WorldTicked(w, s, es, order).state)
  {
    if |w.behaviors| > 0 {
      TickEffectsTimers(w, s);
      CollidedState(w, TickEffects(w, s).state, es, order);
    }
  }

  /**
   * Between two countdown passes the queue only grows at the end: a world
   * tick that completes leaves the queue of its own pass followed by what
   * `checkForCollisions` appended, so the entries of the pass keep their
   * places (as `QibTick.PassLinked` assumes).
   */
  lemma WorldTickKeepsQueueOrder(w: World, s: State, es: seq<EntityId>, order: seq<EntityId>)
    requires |w.behaviors| > 0 && !WorldTicked(w, s, es, order).crashed
    ensures TickQueue(w, AdvanceTimers(s.timers), s.pending).pending <= WorldTicked(w, s, es, order).state.pending
  {
    CollidedAppends(w, TickEffects(w, s).state, es, order);
  }

  /** The next key of a hash set's iterator: some element, in an order the model does not fix. */
  method NextKey(remaining: set<EntityId>) returns (e: EntityId)
    requires |remaining| > 0
    ensures e in remaining
  {
    // Without this dead branch Dafny, run with --warn-contradictory-assumptions,
    // cannot pick an element; the requires rules the branch out.
    if forall x :: x !in remaining {
      assert false;
    }
    e :| e in remaining;
  }

  class QibBehaviorModule {
    var collidingWithTypes: map<string, int32>
    var collidingWithEntities: map<EntityId, int32>
    var triggeredJump: set<EntityId>
    var pending: seq<Pending>

    /** The four fields as one value. */
    function Snapshot(): State
      reads this
    {
      State(Timers(collidingWithTypes, collidingWithEntities), triggeredJump, pending)
    }

    ghost predicate Valid()
      reads this
    {
      JumpsRemembered(Snapshot())
    }

    constructor ()
      ensures Valid()
      ensures Snapshot() == State(Timers(map[], map[]), {}, [])
    {
      collidingWithTypes := map[];
      collidingWithEntities := map[];
      triggeredJump := {};
      pending := [];
    }

    /** `tickEffects`. */
    method TickEffects(w: World) returns (events: seq<Event>, crashed: bool)
      requires Valid()
      modifies this
      ensures Valid()
      ensures Ticked(Snapshot(), events, crashed) == QibTick.TickEffects(w, old(Snapshot()))
    {
      TickEffectsTimers(w, Snapshot());
      collidingWithTypes := IncrementAll(collidingWithTypes);
      collidingWithEntities := IncrementAll(collidingWithEntities);
      var r := CountDownPending(w);
      events, crashed := r.events, r.crashed;
    }

    /** The loop of `tickEffects` over the delay queue, with the timers already advanced. */
    method CountDownPending(w: World) returns (r: TickResult)
      modifies this`pending
      ensures pending == r.pending
      ensures r == TickQueue(w, Timers(collidingWithTypes, collidingWithEntities), old(pending))
    {
      var t := Timers(collidingWithTypes, collidingWithEntities);
      ghost var ps := pending;
      ghost var j := 0;
      var i := 0;
      var events := [];
      while i < |pending|
        invariant 0 <= i <= j <= |ps|
        invariant |pending| == i + (|ps| - j)
        invariant pending[i..] == ps[j..]
        invariant TickQueue(w, t, ps) == Prepend(pending[..i], events, TickQueue(w, t, ps[j..]))
        decreases |pending| - i
      {
        var p := pending[i];
        assert p == ps[j];
        if Dec(p.counter) > 0 {
          KeepStep(w, t, ps, j, pending[..i], events);
          pending := pending[i := p.(counter := Dec(p.counter))];
          assert pending[..i + 1] == pending[..i] + [Decremented(p)];
          i, j := i + 1, j + 1;
        } else {
          ghost var kept := pending[..i];
          pending := pending[..i] + pending[i + 1..];
          assert pending[..i] == kept && pending[i..] == ps[j + 1..];
          var o := Execute(w, t, p.entity, p.effect);
          if o.scheduled != [] {
            // The iterator's next `next()` throws: the pass ends here.
            CrashStep(w, t, ps, j, kept, events);
            pending := pending + o.scheduled;
            return TickResult(pending, events + o.events, true);
          }
          FireStep(w, t, ps, j, kept, events);
          events := events + o.events;
          j := j + 1;
        }
      }
      assert ps[j..] == [];
      assert pending[..i] == pending;
      return TickResult(pending, events, false);
    }

    /** `checkForCollisions`, given the entities the spatial lookup found. */
    method CheckForCollisions(w: World, entities: seq<EntityId>) returns (events: seq<Event>, ghost order: seq<EntityId>)
      requires Valid()
      modifies this
      ensures Valid()
      ensures Enumerates(order, Leaving(old(Snapshot()), entities))
      ensures Progress(Snapshot(), events) == Collided(w, old(Snapshot()), entities, order)
    {
      ghost var s0 := Snapshot();
      var colliding;
      colliding, events := EnterLoop(w, entities);
      ghost var p1 := Pass(Snapshot(), colliding, events);
      EnterPassState(w, Pass(s0, [], []), entities);
      events, order := LeaveLoop(w, entities, colliding, events);
      assert (set x | x in p1.state.timers.entities && x !in entities) == Leaving(s0, entities);
      collidingWithTypes := map b | b in collidingWithTypes && b in colliding :: collidingWithTypes[b];
      CollidedState(w, s0, entities, order);
    }

    /** The first loop of `checkForCollisions`, over the touched entities. */
    method EnterLoop(w: World, entities: seq<EntityId>) returns (colliding: seq<string>, events: seq<Event>)
      modifies this
      ensures Pass(Snapshot(), colliding, events) == EnterPass(w, Pass(old(Snapshot()), [], []), entities)
    {
      ghost var s0 := Snapshot();
      colliding, events := [], [];
      var i := 0;
      while i < |entities|
        invariant 0 <= i <= |entities|
        invariant Pass(Snapshot(), colliding, events) == EnterPass(w, Pass(s0, [], []), entities[..i])
      {
        var e := entities[i];
        assert entities[..i + 1][..i] == entities[..i];
        if e in w.tags && w.tags[e] in w.behaviors {
          var b := w.tags[e];
          var d := w.behaviors[b];
          var t := Timers(collidingWithTypes, collidingWithEntities);
          var enter := Nothing;
          if d.triggerEnterLeaveOnSwitch || b !in collidingWithTypes {
            if d.onEnter.Some? {
              enter := Trigger(w, t, b, Enter, e, d.onEnter.value);
            }
          }
          var inside := Nothing;
          if d.whileInside.Some? {
            inside := Trigger(w, t, b, Inside, e, d.whileInside.value);
          }
          events := events + (enter.events + inside.events);
          pending := pending + (enter.scheduled + inside.scheduled);
          colliding := colliding + [b];
          collidingWithTypes := PutIfAbsent(collidingWithTypes, b);
          collidingWithEntities := PutIfAbsent(collidingWithEntities, e);
        }
        i := i + 1;
      }
      assert entities[..i] == entities;
    }

    /** The second loop of `checkForCollisions`, over the remembered entities in hash-set order. */
    method LeaveLoop(w: World, entities: seq<EntityId>, colliding: seq<string>, events0: seq<Event>)
      returns (events: seq<Event>, ghost order: seq<EntityId>)
      modifies this
      ensures Enumerates(order, set x | x in old(collidingWithEntities) && x !in entities)
      ensures Pass(Snapshot(), colliding, events) == LeavePass(w, Pass(old(Snapshot()), colliding, events0), order)
    {
      ghost var p1 := Pass(Snapshot(), colliding, events0);
      events := events0;
      var remaining := collidingWithEntities.Keys;
      order := [];
      while |remaining| > 0
        invariant remaining <= p1.state.timers.entities.Keys
        invariant Enumerates(order, set x | x in p1.state.timers.entities && x !in remaining && x !in entities)
        invariant Pass(Snapshot(), colliding, events) == LeavePass(w, p1, order)
        decreases remaining
      {
        var e := NextKey(remaining);
        remaining := remaining - {e};
        if e !in entities {
          collidingWithEntities := collidingWithEntities - {e};
          triggeredJump := triggeredJump - {e};
          if e in w.tags && w.tags[e] in w.behaviors {
            var b := w.tags[e];
            var d := w.behaviors[b];
            if d.triggerEnterLeaveOnSwitch || b !in colliding {
              if d.onLeave.Some? {
                var o := Trigger(w, Timers(collidingWithTypes, collidingWithEntities), b, Leave, e, d.onLeave.value);
                events := events + o.events;
                pending := pending + o.scheduled;
              }
            }
          }
          ghost var before := order;
          order := order + [e];
          assert order[..|order| - 1] == before;
        }
      }
    }

    /** `onPlayerJump`. */
    method OnPlayerJump(w: World) returns (events: seq<Event>, ghost order: seq<EntityId>)
      requires Valid()
      modifies this
      ensures Valid()
      ensures !JumpBlocked(w.player) ==> Enumerates(order, old(collidingWithEntities.Keys))
      ensures Progress(Snapshot(), events) == Jumped(w, old(Snapshot()), order)
    {
      events, order := [], [];
      if w.player.autoSpinAttack {
        return;
      }
      if w.player.inVehicle {
        return;
      }
      ghost var g := Progress(Snapshot(), []);
      var remaining := collidingWithEntities.Keys;
      while |remaining| > 0
        invariant remaining <= g.state.timers.entities.Keys
        invariant Enumerates(order, g.state.timers.entities.Keys - remaining)
        invariant Progress(Snapshot(), events) == JumpPass(w, g, order)
        decreases remaining
      {
        var e := NextKey(remaining);
        remaining := remaining - {e};
        ghost var before := order;
        order := order + [e];
        assert order[..|order| - 1] == before;
        if e in triggeredJump {
          continue;
        }
        if e !in w.tags || w.tags[e] !in w.behaviors {
          continue;
        }
        var b := w.tags[e];
        var d := w.behaviors[b];
        if d.onJump.Some? {
          var o := Trigger(w, Timers(collidingWithTypes, collidingWithEntities), b, Jump, e, d.onJump.value);
          events := events + o.events;
          pending := pending + o.scheduled;
          triggeredJump := triggeredJump + {e};
        }
      }
      JumpAgainFiresNothing(w, g.state, order, order);
    }

    /** The world-tick handler, given the entities the spatial lookup finds after `tickEffects`. */
    method OnWorldTick(w: World, entities: seq<EntityId>) returns (events: seq<Event>, crashed: bool, ghost order: seq<EntityId>)
      requires Valid()
      modifies this
      ensures Valid()
      ensures |w.behaviors| == 0 ==> Snapshot() == old(Snapshot()) && events == [] && !crashed
      ensures |w.behaviors| > 0 && !crashed ==> Enumerates(order, Leaving(QibTick.TickEffects(w, old(Snapshot())).state, entities))
      ensures Ticked(Snapshot(), events, crashed) == WorldTicked(w, old(Snapshot()), entities, order)
    {
      events, crashed, order := [], false, [];
      if |w.behaviors| == 0 {
        return;
      }
      events, crashed := TickEffects(w);
      if crashed {
        return;
      }
      var more;
      more, order := CheckForCollisions(w, entities);
      events := events + more;
    }
  }
}
