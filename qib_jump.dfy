/**
 * `onPlayerJump`: each remembered entity, in hash-set order, fires its
 * `onJump` at most once until it is forgotten.
 */
module QibJump {
  import opened QibTypes
  import opened QibExecute

  /** Jumps are ignored during a riptide spin attack or while riding a vehicle. */
  predicate JumpBlocked(p: Player)
  {
    p.autoSpinAttack || p.inVehicle
  }

  /** The entity's `onJump` fires: it has not fired since the entity was last remembered, and its known behaviour has one. */
  predicate JumpFires(w: World, s: State, e: EntityId)
  {
    && e !in s.triggeredJump
    && Known(w, e)
    && w.behaviors[w.tags[e]].onJump.Some?
  }

  /** One remembered entity. */
  function JumpStep(w: World, g: Progress, e: EntityId): Progress
  {
    if JumpFires(w, g.state, e) then
      var o := Trigger(w, g.state.timers, w.tags[e], Jump, e, w.behaviors[w.tags[e]].onJump.value);
      Progress(
        State(g.state.timers, g.state.triggeredJump + {e}, g.state.pending + o.scheduled),
        g.events + o.events)
    else g
  }

  /** The loop over the remembered entities in the hash set's order `order`. */
  function JumpPass(w: World, g: Progress, order: seq<EntityId>): Progress
    decreases |order|
  {
    if order == [] then g
    else JumpStep(w, JumpPass(w, g, order[..|order| - 1]), order[|order| - 1])
  }

  /** `onPlayerJump` on the whole state; `order` is the hash set's order of the remembered entities. */
  function Jumped(w: World, s: State, order: seq<EntityId>): Progress
  {
    if JumpBlocked(w.player) then Progress(s, [])
    else JumpPass(w, Progress(s, []), order)
  }

  /** How many notifications of kind `kind` name entity `e`. */
  function Reports(evs: seq<Event>, kind: TriggerType, e: EntityId): nat
    decreases |evs|
  {
    if evs == [] then 0
    else
      var ev := evs[|evs| - 1];
      Reports(evs[..|evs| - 1], kind, e) + (if ev.Packet? && ev.kind == kind && ev.entity == e then 1 else 0)
  }

  lemma {:induction false} ReportsAppend(a: seq<Event>, b: seq<Event>, kind: TriggerType, e: EntityId)
    ensures Reports(a + b, kind, e) == Reports(a, kind, e) + Reports(b, kind, e)
    decreases |b|
  {
    if b == [] {
      assert a + b == a;
    } else {
      var n := |b| - 1;
      assert (a + b)[..|a + b| - 1] == a + b[..n];
      assert (a + b)[|a + b| - 1] == b[n];
      ReportsAppend(a, b[..n], kind, e);
    }
  }

  /** A trigger reports itself once and nothing else. */
  lemma {:induction false} ReportsOfTrigger(w: World, t: Timers, b: string, kind: TriggerType, x: EntityId, f: Effect, k: TriggerType, e: EntityId)
    ensures Reports(Trigger(w, t, b, kind, x, f).events, k, e) == if k == kind && e == x then 1 else 0
  {
    var evs := Trigger(w, t, b, kind, x, f).events;
    assert evs == [evs[0]] + evs[1..];
    ReportsAppend([evs[0]], evs[1..], k, e);
    assert [evs[0]][..0] == [];
    NoReports(evs[1..], k, e);
  }

  lemma {:induction false} NoReports(evs: seq<Event>, k: TriggerType, e: EntityId)
    requires forall ev | ev in evs :: !ev.Packet?
    ensures Reports(evs, k, e) == 0
    decreases |evs|
  {
    if evs != [] {
      NoReports(evs[..|evs| - 1], k, e);
    }
  }

  /**
   * The loop changes no timer; it marks exactly the entities whose `onJump`
   * fires, and reports each of those once and no other entity.
   */
  lemma {:induction false} JumpPassEffect(w: World, g: Progress, order: seq<EntityId>, e: EntityId)
    ensures JumpPass(w, g, order).state.timers == g.state.timers
    ensures JumpPass(w, g, order).state.triggeredJump
         == g.state.triggeredJump + (set x | x in order && JumpFires(w, g.state, x))
    ensures Reports(JumpPass(w, g, order).events, Jump, e)
         == Reports(g.events, Jump, e) + (if e in order && JumpFires(w, g.state, e) then 1 else 0)
    decreases |order|
  {
    if order != [] {
      var n := |order| - 1;
      var front := order[..n];
      var x := order[n];
      var q := JumpPass(w, g, front);
      JumpPassEffect(w, g, front, e);
      assert order == front + [x];
      assert JumpFires(w, q.state, x) <==> JumpFires(w, g.state, x) && x !in front;
      if JumpFires(w, q.state, x) {
        var o := Trigger(w, q.state.timers, w.tags[x], Jump, x, w.behaviors[w.tags[x]].onJump.value);
        ReportsAppend(q.events, o.events, Jump, e);
        ReportsOfTrigger(w, q.state.timers, w.tags[x], Jump, x, w.behaviors[w.tags[x]].onJump.value, Jump, e);
      }
    }
  }

  /** The loop only appends to the queue, and only entries of the entities it visits. */
  lemma {:induction false} JumpPassAppends(w: World, g: Progress, order: seq<EntityId>)
    ensures g.state.pending <= JumpPass(w, g, order).state.pending
    ensures forall i | |g.state.pending| <= i < |JumpPass(w, g, order).state.pending| ::
              JumpPass(w, g, order).state.pending[i].entity in order
    decreases |order|
  {
    if order != [] {
      var n := |order| - 1;
      JumpPassAppends(w, g, order[..n]);
      var q := JumpPass(w, g, order[..n]);
      var r := JumpPass(w, g, order);
      assert r.state.pending[..|q.state.pending|] == q.state.pending;
      forall i | |g.state.pending| <= i < |r.state.pending| ensures r.state.pending[i].entity in order {
        if i < |q.state.pending| {
          assert r.state.pending[i] == q.state.pending[i];
          assert q.state.pending[i].entity in order[..n];
        } else {
          assert r.state.pending[i] in r.state.pending[|q.state.pending|..];
        }
      }
    }
  }

  /**
   * `onPlayerJump` keeps the delay queue as it was, in order, and only appends
   * to it; every entry it appends belongs to a remembered entity it visited.
   */
  lemma JumpedAppends(w: World, s: State, order: seq<EntityId>)
    ensures s.pending <= Jumped(w, s, order).state.pending
    ensures forall i | |s.pending| <= i < |Jumped(w, s, order).state.pending| ::
              Jumped(w, s, order).state.pending[i].entity in order
  {
    if !JumpBlocked(w.player) {
      JumpPassAppends(w, Progress(s, []), order);
    }
  }

  /** `onPlayerJump` reports a jump for an entity at most once. */
  lemma JumpAtMostOnce(w: World, s: State, order: seq<EntityId>, e: EntityId)
    ensures Reports(Jumped(w, s, order).events, Jump, e) <= 1
  {
    if !JumpBlocked(w.player) {
      JumpPassEffect(w, Progress(s, []), order, e);
    }
  }

  /** When no entity of `order` fires, the loop changes nothing. */
  lemma {:induction false} JumpPassQuiet(w: World, g: Progress, order: seq<EntityId>)
    requires forall i | 0 <= i < |order| :: !JumpFires(w, g.state, order[i])
    ensures JumpPass(w, g, order) == g
    decreases |order|
  {
    if order != [] {
      JumpPassQuiet(w, g, order[..|order| - 1]);
    }
  }

  /**
   * A second jump, with the same definitions and tags and no collision pass in
   * between, fires nothing: every entity that could fire did so and is marked.
   * It also keeps every fired jump among the remembered entities.
   */
  lemma JumpAgainFiresNothing(w: World, s: State, order1: seq<EntityId>, order2: seq<EntityId>)
    requires Enumerates(order1, s.timers.entities.Keys)
    requires Enumerates(order2, s.timers.entities.Keys)
    ensures Jumped(w, Jumped(w, s, order1).state, order2) == Progress(Jumped(w, s, order1).state, [])
    ensures JumpsRemembered(s) ==> JumpsRemembered(Jumped(w, s, order1).state)
  {
    if !JumpBlocked(w.player) {
      var g := Progress(s, []);
      var r := JumpPass(w, g, order1);
      JumpPassEffect(w, g, order1, 0);
      var keys := s.timers.entities.Keys;
      forall i | 0 <= i < |order2| ensures !JumpFires(w, r.state, order2[i]) {
        var x := order2[i];
        assert x in keys;
        assert x in order1;
      }
      JumpPassQuiet(w, Progress(r.state, []), order2);
    }
  }
}
