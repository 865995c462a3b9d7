/**
 * `checkForCollisions`: a pass over the entities the player touches now (in
 * the order the host's spatial lookup gives them), then a pass over the
 * remembered entities in hash-set order that forgets the ones no longer
 * touched, then pruning of the per-type timers.
 */
module QibCollisions {
  import opened Wrappers
  import opened Java32
  import opened QibTypes
  import opened QibExecute

  /** The state during a pass, the behaviour types collided with so far and the events so far. */
  datatype Pass = Pass(state: State, colliding: seq<string>, events: seq<Event>)

  /** `Map.putIfAbsent` with a fresh counter. */
  function PutIfAbsent<K>(m: map<K, int32>, k: K): (r: map<K, int32>)
    ensures r.Keys == m.Keys + {k}
    ensures forall j | j in m :: r[j] == m[j]
    ensures k !in m ==> r[k] == 0
  {
    if k in m then m else m[k := 0]
  }

  /** The entity's `onEnter` fires now: it has one and either its definition fires on every switch or its type is not yet timed. */
  predicate EnterFiresNow(w: World, types: map<string, int32>, e: EntityId)
  {
    && Known(w, e)
    && w.behaviors[w.tags[e]].onEnter.Some?
    && (w.behaviors[w.tags[e]].triggerEnterLeaveOnSwitch || w.tags[e] !in types)
  }

  /** One entity of the first loop. */
  function EnterStep(w: World, p: Pass, e: EntityId): Pass
  {
    if !Known(w, e) then p
    else
      var b := w.tags[e];
      var d := w.behaviors[b];
      var t := p.state.timers;
      var enter := if EnterFiresNow(w, t.types, e) then Trigger(w, t, b, Enter, e, d.onEnter.value) else Nothing;
      var inside := if d.whileInside.Some? then Trigger(w, t, b, Inside, e, d.whileInside.value) else Nothing;
      var o := Then(enter, inside);
      Pass(
        State(Timers(PutIfAbsent(t.types, b), PutIfAbsent(t.entities, e)), p.state.triggeredJump, p.state.pending + o.scheduled),
        p.colliding + [b],
        p.events + o.events)
  }

  /** The first loop over the touched entities `es`, in order. */
  function EnterPass(w: World, p: Pass, es: seq<EntityId>): Pass
    decreases |es|
  {
    if es == [] then p
    else EnterStep(w, EnterPass(w, p, es[..|es| - 1]), es[|es| - 1])
  }

  /** The behaviour types of the entities of `es` that carry a known behaviour, in order. */
  function KnownTypes(w: World, es: seq<EntityId>): seq<string>
    decreases |es|
  {
    if es == [] then []
    else
      var e := es[|es| - 1];
      KnownTypes(w, es[..|es| - 1]) + (if Known(w, e) then [w.tags[e]] else [])
  }

  /** The entities of `es` that carry a known behaviour. */
  function KnownEntities(w: World, es: seq<EntityId>): set<EntityId>
  {
    set e | e in es && Known(w, e)
  }

  lemma {:induction false} KnownTypesMembers(w: World, es: seq<EntityId>, b: string)
    ensures b in KnownTypes(w, es) <==> exists i | 0 <= i < |es| :: Known(w, es[i]) && w.tags[es[i]] == b
    decreases |es|
  {
    if es != [] {
      var front := es[..|es| - 1];
      KnownTypesMembers(w, front, b);
      if b in KnownTypes(w, front) {
        var i :| 0 <= i < |front| && Known(w, front[i]) && w.tags[front[i]] == b;
        assert es[i] == front[i];
      }
      if exists i | 0 <= i < |es| :: Known(w, es[i]) && w.tags[es[i]] == b {
        var i :| 0 <= i < |es| && Known(w, es[i]) && w.tags[es[i]] == b;
        if i < |es| - 1 {
          assert front[i] == es[i];
        }
      }
    }
  }

  /**
   * The first loop only adds timers, at 0, for the types and entities with a
   * known behaviour; it never resets a timer and does not touch the jump set;
   * the types collided with are those of the known entities, in order.
   */
  lemma {:induction false} EnterPassState(w: World, p: Pass, es: seq<EntityId>)
    ensures EnterPass(w, p, es).state.timers.types.Keys == p.state.timers.types.Keys + (set b | b in KnownTypes(w, es))
    ensures forall b | b in p.state.timers.types :: EnterPass(w, p, es).state.timers.types[b] == p.state.timers.types[b]
    ensures forall b | b in EnterPass(w, p, es).state.timers.types && b !in p.state.timers.types :: EnterPass(w, p, es).state.timers.types[b] == 0
    ensures EnterPass(w, p, es).state.timers.entities.Keys == p.state.timers.entities.Keys + KnownEntities(w, es)
    ensures forall e | e in p.state.timers.entities :: EnterPass(w, p, es).state.timers.entities[e] == p.state.timers.entities[e]
    ensures forall e | e in EnterPass(w, p, es).state.timers.entities && e !in p.state.timers.entities :: EnterPass(w, p, es).state.timers.entities[e] == 0
    ensures EnterPass(w, p, es).state.triggeredJump == p.state.triggeredJump
    ensures EnterPass(w, p, es).colliding == p.colliding + KnownTypes(w, es)
    decreases |es|
  {
    if es != [] {
      var front := es[..|es| - 1];
      var e := es[|es| - 1];
      EnterPassState(w, p, front);
      assert KnownEntities(w, es) == KnownEntities(w, front) + (if Known(w, e) then {e} else {});
    }
  }

  /**
   * The `onEnter` of the `i`-th touched entity fires: it has a known behaviour
   * with an `onEnter`, and either the definition fires on every switch or its
   * type was neither timed before the pass nor the type of an earlier known
   * entity of the pass.
   */
  predicate EntersAt(w: World, types: map<string, int32>, es: seq<EntityId>, i: nat)
    requires i < |es|
  {
    && Known(w, es[i])
    && w.behaviors[w.tags[es[i]]].onEnter.Some?
    && (w.behaviors[w.tags[es[i]]].triggerEnterLeaveOnSwitch
        || (w.tags[es[i]] !in types && w.tags[es[i]] !in KnownTypes(w, es[..i])))
  }

  /** The events of one step: the enter trigger (if it fires) and then the inside trigger (if any). */
  lemma EnterStepReports(w: World, p: Pass, x: EntityId, b: string, e: EntityId)
    ensures Packet(b, Enter, e) in EnterStep(w, p, x).events
        <==> Packet(b, Enter, e) in p.events || (x == e && EnterFiresNow(w, p.state.timers.types, e) && w.tags[e] == b)
    ensures Packet(b, Inside, e) in EnterStep(w, p, x).events
        <==> Packet(b, Inside, e) in p.events || (x == e && Known(w, e) && w.tags[e] == b && w.behaviors[b].whileInside.Some?)
    ensures forall ev | ev in EnterStep(w, p, x).events && ev !in p.events && ev.Packet? :: ev.kind == Enter || ev.kind == Inside
  {
  }

  /**
   * The first loop reports `onEnter` for a touched entity exactly where
   * `EntersAt` holds: so, unless the definition fires on every switch, only
   * the first known entity of a type that was not timed before reports it.
   */
  lemma {:induction false} EnterReported(w: World, p: Pass, es: seq<EntityId>, b: string, e: EntityId)
    ensures Packet(b, Enter, e) in EnterPass(w, p, es).events
        <==> Packet(b, Enter, e) in p.events
             || exists i | 0 <= i < |es| :: es[i] == e && EntersAt(w, p.state.timers.types, es, i) && w.tags[e] == b
    decreases |es|
  {
    if es != [] {
      var n := |es| - 1;
      var front := es[..n];
      var q := EnterPass(w, p, front);
      EnterReported(w, p, front, b, e);
      EnterPassState(w, p, front);
      EnterStepReports(w, q, es[n], b, e);
      assert es[..n] == front;
      assert forall i | 0 <= i < n :: es[i] == front[i] && es[..i] == front[..i];
      if Known(w, es[n]) {
        KnownTypesMembers(w, front, w.tags[es[n]]);
        assert EnterFiresNow(w, q.state.timers.types, es[n]) <==> EntersAt(w, p.state.timers.types, es, n);
      }
      if Packet(b, Enter, e) in EnterPass(w, p, es).events && Packet(b, Enter, e) !in p.events {
        if Packet(b, Enter, e) in q.events {
          var i :| 0 <= i < n && front[i] == e && EntersAt(w, p.state.timers.types, front, i) && w.tags[e] == b;
          assert EntersAt(w, p.state.timers.types, es, i);
        } else {
          assert EntersAt(w, p.state.timers.types, es, n);
        }
      }
      if exists i | 0 <= i < |es| :: es[i] == e && EntersAt(w, p.state.timers.types, es, i) && w.tags[e] == b {
        var i :| 0 <= i < |es| && es[i] == e && EntersAt(w, p.state.timers.types, es, i) && w.tags[e] == b;
        if i < n {
          assert EntersAt(w, p.state.timers.types, front, i);
        }
      }
    }
  }

  /** Unless the definition fires on every switch, a later entity of the same type never reports `onEnter` in the same pass. */
  lemma FirstOfTypeOnly(w: World, types: map<string, int32>, es: seq<EntityId>, i: nat, j: nat)
    requires i < j < |es| && Known(w, es[i]) && Known(w, es[j]) && w.tags[es[i]] == w.tags[es[j]]
    requires !w.behaviors[w.tags[es[j]]].triggerEnterLeaveOnSwitch
    ensures !EntersAt(w, types, es, j)
  {
    assert es[..j][i] == es[i];
    KnownTypesMembers(w, es[..j], w.tags[es[j]]);
  }

  /** The first loop reports `whileInside` for every touched entity with a known behaviour that has one. */
  lemma {:induction false} InsideReported(w: World, p: Pass, es: seq<EntityId>, b: string, e: EntityId)
    ensures Packet(b, Inside, e) in EnterPass(w, p, es).events
        <==> Packet(b, Inside, e) in p.events
             || (e in es && Known(w, e) && w.tags[e] == b && w.behaviors[b].whileInside.Some?)
    decreases |es|
  {
    if es != [] {
      var n := |es| - 1;
      InsideReported(w, p, es[..n], b, e);
      EnterStepReports(w, EnterPass(w, p, es[..n]), es[n], b, e);
      assert es == es[..n] + [es[n]];
    }
  }

  /** The first loop reports nothing but enter and inside triggers. */
  lemma {:induction false} EnterPassKinds(w: World, p: Pass, es: seq<EntityId>)
    ensures forall ev | ev in EnterPass(w, p, es).events && ev !in p.events && ev.Packet? :: ev.kind == Enter || ev.kind == Inside
    ensures p.events <= EnterPass(w, p, es).events
    decreases |es|
  {
    if es != [] {
      var n := |es| - 1;
      EnterPassKinds(w, p, es[..n]);
      EnterStepReports(w, EnterPass(w, p, es[..n]), es[n], "", 0);
    }
  }

  /** The `onLeave` of a forgotten entity fires: it has a known behaviour with an `onLeave`, and either the definition fires on every switch or its type was not collided with in this pass. */
  predicate LeaveFires(w: World, colliding: seq<string>, e: EntityId)
  {
    && Known(w, e)
    && w.behaviors[w.tags[e]].onLeave.Some?
    && (w.behaviors[w.tags[e]].triggerEnterLeaveOnSwitch || w.tags[e] !in colliding)
  }

  /**
   * One remembered entity that is no longer touched: forgotten first (timer
   * and jump mark), then its `onLeave`, which thus sees no entity timer.
   */
  function LeaveStep(w: World, p: Pass, e: EntityId): Pass
  {
    var t := Timers(p.state.timers.types, p.state.timers.entities - {e});
    var s := State(t, p.state.triggeredJump - {e}, p.state.pending);
    if LeaveFires(w, p.colliding, e) then
      var o := Trigger(w, t, w.tags[e], Leave, e, w.behaviors[w.tags[e]].onLeave.value);
      Pass(s.(pending := s.pending + o.scheduled), p.colliding, p.events + o.events)
    else
      Pass(s, p.colliding, p.events)
  }

  /** The second loop, over the entities that leave, in the hash set's order `order`. */
  function LeavePass(w: World, p: Pass, order: seq<EntityId>): Pass
    decreases |order|
  {
    if order == [] then p
    else LeaveStep(w, LeavePass(w, p, order[..|order| - 1]), order[|order| - 1])
  }

  /** The second loop forgets exactly the entities it visits and changes no other timer. */
  lemma {:induction false} LeavePassState(w: World, p: Pass, order: seq<EntityId>)
    ensures LeavePass(w, p, order).state.timers.entities == p.state.timers.entities - (set e | e in order)
    ensures LeavePass(w, p, order).state.triggeredJump == p.state.triggeredJump - (set e | e in order)
    ensures LeavePass(w, p, order).state.timers.types == p.state.timers.types
    ensures LeavePass(w, p, order).colliding == p.colliding
    decreases |order|
  {
    if order != [] {
      var n := |order| - 1;
      LeavePassState(w, p, order[..n]);
      assert (set e | e in order) == (set e | e in order[..n]) + {order[n]} by {
        assert order == order[..n] + [order[n]];
      }
    }
  }

  /**
   * The second loop reports `onLeave` for a visited entity exactly when
   * `LeaveFires` holds; the order of the hash set does not matter to which
   * entities report.
   */
  lemma {:induction false} LeaveReported(w: World, p: Pass, order: seq<EntityId>, b: string, e: EntityId)
    ensures Packet(b, Leave, e) in LeavePass(w, p, order).events
        <==> Packet(b, Leave, e) in p.events || (e in order && LeaveFires(w, p.colliding, e) && w.tags[e] == b)
    decreases |order|
  {
    if order != [] {
      var n := |order| - 1;
      LeaveReported(w, p, order[..n], b, e);
      LeavePassState(w, p, order[..n]);
      assert order == order[..n] + [order[n]];
    }
  }

  /**
   * An `onLeave` runs after the entity's timer is removed: a non-global
   * `Stay` of at least one tick as its `onLeave` reads that timer as 0, so the
   * step reports the leave and neither runs nor schedules anything more.
   */
  lemma LeaveSeesNoEntityTime(w: World, p: Pass, e: EntityId, ticks: int32, f: Effect)
    requires ticks > 0 && LeaveFires(w, p.colliding, e)
    requires w.behaviors[w.tags[e]].onLeave == Some(Stay(ticks, false, f))
    ensures LeaveStep(w, p, e).events == p.events + [Packet(w.tags[e], Leave, e)]
    ensures LeaveStep(w, p, e).state.pending == p.state.pending
  {
    var t := Timers(p.state.timers.types, p.state.timers.entities - {e});
    assert TimeSpent(w, t, e, false) == 0;
  }

  /** `retainAll`: keep only the type timers of the types collided with in this pass. */
  function RetainColliding(p: Pass): (r: Pass)
    ensures r.state.timers.types.Keys == p.state.timers.types.Keys * (set b | b in p.colliding)
    ensures forall b | b in r.state.timers.types :: r.state.timers.types[b] == p.state.timers.types[b]
  {
    var types := p.state.timers.types;
    p.(state := p.state.(timers := p.state.timers.(types := map b | b in types && b in p.colliding :: types[b])))
  }

  /** The entities that leave: remembered before the pass and not touched now. */
  function Leaving(s: State, es: seq<EntityId>): set<EntityId>
  {
    set e | e in s.timers.entities && e !in es
  }

  /** `checkForCollisions` on the whole state; `order` is the hash set's order of `Leaving(s, es)`. */
  function Collided(w: World, s: State, es: seq<EntityId>, order: seq<EntityId>): Progress
  {
    var p := RetainColliding(LeavePass(w, EnterPass(w, Pass(s, [], []), es), order));
    Progress(p.state, p.events)
  }

  /** The second loop reports nothing but leave triggers. */
  lemma {:induction false} LeavePassKinds(w: World, p: Pass, order: seq<EntityId>)
    ensures forall ev | ev in LeavePass(w, p, order).events && ev !in p.events && ev.Packet? :: ev.kind == Leave
    ensures p.events <= LeavePass(w, p, order).events
    decreases |order|
  {
    if order != [] {
      LeavePassKinds(w, p, order[..|order| - 1]);
    }
  }

  /**
   * After `checkForCollisions` the remembered entities are those touched now
   * that were remembered or carry a known behaviour, with their timers kept
   * and new ones at 0; the timed types are exactly the types collided with in
   * this pass; the leaving entities lose their jump mark.
   */
  lemma CollidedState(w: World, s: State, es: seq<EntityId>, order: seq<EntityId>)
    requires Enumerates(order, Leaving(s, es))
    ensures Collided(w, s, es, order).state.timers.entities.Keys
         == (s.timers.entities.Keys * (set e | e in es)) + KnownEntities(w, es)
    ensures forall e | e in Collided(w, s, es, order).state.timers.entities ::
              Collided(w, s, es, order).state.timers.entities[e] == if e in s.timers.entities then s.timers.entities[e] else 0
    ensures Collided(w, s, es, order).state.timers.types.Keys == (set b | b in KnownTypes(w, es))
    ensures forall b | b in Collided(w, s, es, order).state.timers.types ::
              Collided(w, s, es, order).state.timers.types[b] == if b in s.timers.types then s.timers.types[b] else 0
    ensures Collided(w, s, es, order).state.triggeredJump == s.triggeredJump - Leaving(s, es)
    ensures JumpsRemembered(s) ==> JumpsRemembered(Collided(w, s, es, order).state)
  {
    var p0 := Pass(s, [], []);
    var p1 := EnterPass(w, p0, es);
    EnterPassState(w, p0, es);
    LeavePassState(w, p1, order);
    assert (set e | e in order) == Leaving(s, es) by {
      forall x | x in Leaving(s, es) ensures x in order {
      }
    }
  }

  /** The first loop only appends to the queue, and only entries of touched entities. */
  lemma {:induction false} EnterPassAppends(w: World, p: Pass, es: seq<EntityId>)
    ensures p.state.pending <= EnterPass(w, p, es).state.pending
    ensures forall i | |p.state.pending| <= i < |EnterPass(w, p, es).state.pending| ::
              EnterPass(w, p, es).state.pending[i].entity in es
    decreases |es|
  {
    if es != [] {
      var n := |es| - 1;
      EnterPassAppends(w, p, es[..n]);
      var q := EnterPass(w, p, es[..n]);
      var r := EnterPass(w, p, es);
      assert r.state.pending[..|q.state.pending|] == q.state.pending;
      forall i | |p.state.pending| <= i < |r.state.pending| ensures r.state.pending[i].entity in es {
        if i < |q.state.pending| {
          assert r.state.pending[i] == q.state.pending[i];
          assert q.state.pending[i].entity in es[..n];
        } else {
          assert r.state.pending[i] in r.state.pending[|q.state.pending|..];
        }
      }
    }
  }

  /** The second loop only appends to the queue, and only entries of the entities it visits. */
  lemma {:induction false} LeavePassAppends(w: World, p: Pass, order: seq<EntityId>)
    ensures p.state.pending <= LeavePass(w, p, order).state.pending
    ensures forall i | |p.state.pending| <= i < |LeavePass(w, p, order).state.pending| ::
              LeavePass(w, p, order).state.pending[i].entity in order
    decreases |order|
  {
    if order != [] {
      var n := |order| - 1;
      LeavePassAppends(w, p, order[..n]);
      var q := LeavePass(w, p, order[..n]);
      var r := LeavePass(w, p, order);
      assert r.state.pending[..|q.state.pending|] == q.state.pending;
      forall i | |p.state.pending| <= i < |r.state.pending| ensures r.state.pending[i].entity in order {
        if i < |q.state.pending| {
          assert r.state.pending[i] == q.state.pending[i];
          assert q.state.pending[i].entity in order[..n];
        } else {
          assert r.state.pending[i] in r.state.pending[|q.state.pending|..];
        }
      }
    }
  }

  /**
   * `checkForCollisions` keeps the delay queue as it was, in order, and only
   * appends to it; every entry it appends belongs to a touched entity or to
   * one that leaves.
   */
  lemma CollidedAppends(w: World, s: State, es: seq<EntityId>, order: seq<EntityId>)
    ensures s.pending <= Collided(w, s, es, order).state.pending
    ensures forall i | |s.pending| <= i < |Collided(w, s, es, order).state.pending| ::
              Collided(w, s, es, order).state.pending[i].entity in es
              || Collided(w, s, es, order).state.pending[i].entity in order
  {
    var p0 := Pass(s, [], []);
    var p1 := EnterPass(w, p0, es);
    EnterPassAppends(w, p0, es);
    LeavePassAppends(w, p1, order);
    var r := Collided(w, s, es, order).state.pending;
    forall i | |s.pending| <= i < |r| ensures r[i].entity in es || r[i].entity in order {
      if i < |p1.state.pending| {
        assert r[i] == p1.state.pending[i];
      }
    }
  }

  /**
   * After `checkForCollisions` only touched entities keep a jump mark: an
   * entity that was not touched has left and may fire its jump again once it
   * is touched and remembered anew.
   */
  lemma CollidedJumpsTouched(w: World, s: State, es: seq<EntityId>, order: seq<EntityId>)
    requires JumpsRemembered(s) && Enumerates(order, Leaving(s, es))
    ensures Collided(w, s, es, order).state.triggeredJump <= (set e | e in es)
  {
    CollidedState(w, s, es, order);
  }

  /**
   * The notifications of `checkForCollisions`, entity by entity: enter where
   * `EntersAt` holds, inside for every touched entity with a known behaviour
   * that has `whileInside`, leave for every leaving entity where `LeaveFires`
   * holds against the types collided with in this pass.
   */
  lemma CollidedReports(w: World, s: State, es: seq<EntityId>, order: seq<EntityId>, b: string, e: EntityId)
    requires Enumerates(order, Leaving(s, es))
    ensures Packet(b, Enter, e) in Collided(w, s, es, order).events
        <==> exists i | 0 <= i < |es| :: es[i] == e && EntersAt(w, s.timers.types, es, i) && w.tags[e] == b
    ensures Packet(b, Inside, e) in Collided(w, s, es, order).events
        <==> e in es && Known(w, e) && w.tags[e] == b && w.behaviors[b].whileInside.Some?
    ensures Packet(b, Leave, e) in Collided(w, s, es, order).events
        <==> e in Leaving(s, es) && LeaveFires(w, KnownTypes(w, es), e) && w.tags[e] == b
  {
    var p0 := Pass(s, [], []);
    var p1 := EnterPass(w, p0, es);
    EnterPassState(w, p0, es);
    EnterReported(w, p0, es, b, e);
    InsideReported(w, p0, es, b, e);
    EnterPassKinds(w, p0, es);
    LeaveReported(w, p1, order, b, e);
    LeavePassKinds(w, p1, order);
  }
}
