/**
 * `tickEffects`: every collision timer goes up by one, then the delay queue
 * is counted down in order and the entries that fall due are removed and run.
 */
module QibTick {
  import opened Java32
  import opened QibTypes
  import opened QibExecute

  /** Every value of `m` incremented (with 32-bit wrap-around); the keys stay the same. */
  function IncrementAll<K>(m: map<K, int32>): (r: map<K, int32>)
    ensures r.Keys == m.Keys
    ensures forall k | k in m && m[k] as int < MaxInt :: r[k] as int == m[k] as int + 1
    ensures forall k | k in m && m[k] as int == MaxInt :: r[k] as int == MinInt
  {
    map k | k in m :: Inc(m[k])
  }

  /** Both timer maps advanced by one tick. */
  function AdvanceTimers(t: Timers): (r: Timers)
    ensures r.types.Keys == t.types.Keys && r.entities.Keys == t.entities.Keys
  {
    Timers(IncrementAll(t.types), IncrementAll(t.entities))
  }

  /**
   * The queue after a pass, the events the fired entries caused, and whether
   * the pass ended in a ConcurrentModificationException: an entry that fires
   * and appends to the queue while the queue is being iterated makes the
   * iterator's next `next()` call throw, which ends the pass at once.
   */
  datatype TickResult = TickResult(pending: seq<Pending>, events: seq<Event>, crashed: bool)

  /** `r`, preceded by entries already kept and events already caused. */
  function Prepend(kept: seq<Pending>, events: seq<Event>, r: TickResult): TickResult
  {
    TickResult(kept + r.pending, events + r.events, r.crashed)
  }

  /** The entry's counter is at most zero after one more decrement. */
  predicate IsDue(p: Pending)
  {
    Dec(p.counter) <= 0
  }

  /** The entry with its counter decremented. */
  function Decremented(p: Pending): Pending
  {
    p.(counter := Dec(p.counter))
  }

  /** What running a due entry does. */
  function Fire(w: World, t: Timers, p: Pending): Outcome
  {
    Execute(w, t, p.entity, p.effect)
  }

  /** The countdown pass over the delay queue, front to back. */
  function TickQueue(w: World, t: Timers, ps: seq<Pending>): (r: TickResult)
    decreases |ps|
  {
    if ps == [] then TickResult([], [], false)
    else if !IsDue(ps[0]) then Prepend([Decremented(ps[0])], [], TickQueue(w, t, ps[1..]))
    else
      var o := Fire(w, t, ps[0]);
      if o.scheduled != [] then TickResult(ps[1..] + o.scheduled, o.events, true)
      else Prepend([], o.events, TickQueue(w, t, ps[1..]))
  }

  /** The entries that are not due, in their order, each with its counter decremented. */
  function Survivors(ps: seq<Pending>): (r: seq<Pending>)
    ensures |r| <= |ps|
  {
    if ps == [] then []
    else (if IsDue(ps[0]) then [] else [Decremented(ps[0])]) + Survivors(ps[1..])
  }

  /** The events of the due entries, run in queue order. */
  function DueEvents(w: World, t: Timers, ps: seq<Pending>): seq<Event>
  {
    if ps == [] then []
    else (if IsDue(ps[0]) then Fire(w, t, ps[0]).events else []) + DueEvents(w, t, ps[1..])
  }

  /**
   * The entry a `Wait` of `n` ticks appends (with `n` above MIN_VALUE) falls
   * due on the max(n, 1)-th pass after it was appended and on no earlier one:
   * on the `k`-th pass it holds the counter it started with, decremented by
   * the `k - 1` passes it survived.
   */
  lemma WaitDueOnPass(n: int32, e: EntityId, f: Effect, k: nat)
    requires n as int > MinInt
    requires 1 <= k <= (if n > 0 then n as int else 1)
    ensures IsDue(Pending(Countdown(n, k - 1), e, f)) <==> k == (if n > 0 then n as int else 1)
  {
    CountdownReachesZero(n, k);
    CountdownReachesZero(n, k - 1);
  }

  /** No due entry among `ps` reaches a `Wait` when it runs. */
  predicate NoDueWait(w: World, t: Timers, ps: seq<Pending>)
  {
    forall i | 0 <= i < |ps| && IsDue(ps[i]) :: Fire(w, t, ps[i]).scheduled == []
  }

  /**
   * When no due entry schedules anything, the pass completes: exactly the due
   * entries are removed and run, in queue order, and every other entry
   * survives, decremented, in its original relative order.
   */
  lemma {:induction false} TickQueueCompletes(w: World, t: Timers, ps: seq<Pending>)
    requires NoDueWait(w, t, ps)
    ensures TickQueue(w, t, ps) == TickResult(Survivors(ps), DueEvents(w, t, ps), false)
    decreases |ps|
  {
    if ps != [] {
      assert NoDueWait(w, t, ps[1..]) by {
        forall i | 0 <= i < |ps[1..]| && IsDue(ps[1..][i]) ensures Fire(w, t, ps[1..][i]).scheduled == [] {
          assert ps[1..][i] == ps[i + 1];
        }
      }
      TickQueueCompletes(w, t, ps[1..]);
      if IsDue(ps[0]) {
        assert Fire(w, t, ps[0]).scheduled == [];
      }
    }
  }

  /** `Survivors` and `DueEvents` of a non-empty prefix, split after its first entry. */
  lemma PrefixSplit(w: World, t: Timers, ps: seq<Pending>, i: nat)
    requires 0 < i <= |ps|
    ensures Survivors(ps[..i]) == (if IsDue(ps[0]) then [] else [Decremented(ps[0])]) + Survivors(ps[1..][..i - 1])
    ensures DueEvents(w, t, ps[..i]) == (if IsDue(ps[0]) then Fire(w, t, ps[0]).events else []) + DueEvents(w, t, ps[1..][..i - 1])
  {
    assert ps[..i][0] == ps[0];
    assert ps[..i][1..] == ps[1..][..i - 1];
  }

  /** A prefix of a queue with no due `Wait` has none either. */
  lemma NoDueWaitTail(w: World, t: Timers, ps: seq<Pending>, i: nat)
    requires 0 < i <= |ps|
    requires NoDueWait(w, t, ps[..i])
    ensures NoDueWait(w, t, ps[1..][..i - 1])
    ensures IsDue(ps[0]) ==> Fire(w, t, ps[0]).scheduled == []
  {
    var middle := ps[1..][..i - 1];
    forall j | 0 <= j < |middle| && IsDue(middle[j]) ensures Fire(w, t, middle[j]).scheduled == [] {
      assert middle[j] == ps[..i][j + 1];
    }
    assert ps[..i][0] == ps[0];
  }

  /**
   * When the first due entry that reaches a `Wait` is at index `i`, the pass
   * stops after running it: the entries before it are handled as usual, it is
   * removed, the entries after it are left untouched (not decremented), and
   * what it scheduled is appended at the end.
   */
  lemma {:induction false} TickQueueCrashes(w: World, t: Timers, ps: seq<Pending>, i: nat)
    requires i < |ps| && IsDue(ps[i]) && Fire(w, t, ps[i]).scheduled != []
    requires NoDueWait(w, t, ps[..i])
    ensures TickQueue(w, t, ps) == TickResult(
      Survivors(ps[..i]) + ps[i + 1..] + Fire(w, t, ps[i]).scheduled,
      DueEvents(w, t, ps[..i]) + Fire(w, t, ps[i]).events,
      true)
    decreases i
  {
    if i == 0 {
      assert ps[..0] == [];
      assert Survivors([]) == [] && DueEvents(w, t, []) == [];
    } else {
      var rest := ps[1..];
      NoDueWaitTail(w, t, ps, i);
      assert rest[i - 1] == ps[i];
      TickQueueCrashes(w, t, rest, i - 1);
      assert rest[i - 1 + 1..] == ps[i + 1..];
      CrashBehindFront(w, t, ps, i);
    }
  }

  /** The front entry of a queue that crashes later is handled as usual before the crash. */
  lemma CrashBehindFront(w: World, t: Timers, ps: seq<Pending>, i: nat)
    requires 0 < i < |ps|
    requires IsDue(ps[0]) ==> Fire(w, t, ps[0]).scheduled == []
    requires TickQueue(w, t, ps[1..]) == TickResult(
      Survivors(ps[1..][..i - 1]) + ps[i + 1..] + Fire(w, t, ps[i]).scheduled,
      DueEvents(w, t, ps[1..][..i - 1]) + Fire(w, t, ps[i]).events,
      true)
    ensures TickQueue(w, t, ps) == TickResult(
      Survivors(ps[..i]) + ps[i + 1..] + Fire(w, t, ps[i]).scheduled,
      DueEvents(w, t, ps[..i]) + Fire(w, t, ps[i]).events,
      true)
  {
    PrefixSplit(w, t, ps, i);
    var o := Fire(w, t, ps[i]);
    var s := Survivors(ps[1..][..i - 1]);
    var e := DueEvents(w, t, ps[1..][..i - 1]);
    var d := if IsDue(ps[0]) then [] else [Decremented(ps[0])];
    var f := if IsDue(ps[0]) then Fire(w, t, ps[0]).events else [];
    assert TickQueue(w, t, ps) == Prepend(d, f, TickQueue(w, t, ps[1..]));
    PrependCrashed(d, f, s, ps[i + 1..], o.scheduled, e, o.events);
  }

  /** Entries kept and events caused before a pass that crashes go in front of its queue and its events. */
  lemma PrependCrashed(kept: seq<Pending>, events: seq<Event>, s: seq<Pending>, tail: seq<Pending>, added: seq<Pending>,
                       e: seq<Event>, fired: seq<Event>)
    ensures Prepend(kept, events, TickResult(s + tail + added, e + fired, true))
         == TickResult((kept + s) + tail + added, (events + e) + fired, true)
  {
  }

  /** A pass completes exactly when no due entry reaches a `Wait`. */
  lemma {:induction false} CompletesIffNoDueWait(w: World, t: Timers, ps: seq<Pending>)
    ensures !TickQueue(w, t, ps).crashed <==> NoDueWait(w, t, ps)
    decreases |ps|
  {
    if ps != [] {
      CompletesIffNoDueWait(w, t, ps[1..]);
      assert forall i | 0 <= i < |ps[1..]| :: ps[1..][i] == ps[i + 1];
      if NoDueWait(w, t, ps[1..]) && (IsDue(ps[0]) ==> Fire(w, t, ps[0]).scheduled == []) {
        forall i | 0 <= i < |ps| && IsDue(ps[i]) ensures Fire(w, t, ps[i]).scheduled == [] {
          if i > 0 {
            assert ps[i] == ps[1..][i - 1];
          }
        }
      }
    }
  }

  lemma {:induction false} SurvivorsAppend(a: seq<Pending>, b: seq<Pending>)
    ensures Survivors(a + b) == Survivors(a) + Survivors(b)
    decreases |a|
  {
    if a == [] {
      assert a + b == b;
    } else {
      assert (a + b)[0] == a[0] && (a + b)[1..] == a[1..] + b;
      SurvivorsAppend(a[1..], b);
    }
  }

  lemma {:induction false} DueEventsAppend(w: World, t: Timers, a: seq<Pending>, b: seq<Pending>)
    ensures DueEvents(w, t, a + b) == DueEvents(w, t, a) + DueEvents(w, t, b)
    decreases |a|
  {
    if a == [] {
      assert a + b == b;
    } else {
      assert (a + b)[0] == a[0] && (a + b)[1..] == a[1..] + b;
      DueEventsAppend(w, t, a[1..], b);
    }
  }

  /** The queue split around its entry `j`. */
  lemma SplitAt(w: World, t: Timers, ps: seq<Pending>, j: nat)
    requires j < |ps|
    ensures Survivors(ps) == Survivors(ps[..j]) + Survivors([ps[j]]) + Survivors(ps[j + 1..])
    ensures DueEvents(w, t, ps) == DueEvents(w, t, ps[..j]) + DueEvents(w, t, [ps[j]]) + DueEvents(w, t, ps[j + 1..])
  {
    assert ps == ps[..j] + ([ps[j]] + ps[j + 1..]);
    SurvivorsAppend(ps[..j], [ps[j]] + ps[j + 1..]);
    SurvivorsAppend([ps[j]], ps[j + 1..]);
    DueEventsAppend(w, t, ps[..j], [ps[j]] + ps[j + 1..]);
    DueEventsAppend(w, t, [ps[j]], ps[j + 1..]);
  }

  /**
   * In a pass that completes, an entry that is not due lands, decremented,
   * right after the survivors of the entries before it.
   */
  lemma SurvivorLands(w: World, t: Timers, ps: seq<Pending>, j: nat)
    requires j < |ps| && !IsDue(ps[j]) && !TickQueue(w, t, ps).crashed
    ensures |Survivors(ps[..j])| < |TickQueue(w, t, ps).pending|
    ensures TickQueue(w, t, ps).pending[|Survivors(ps[..j])|] == Decremented(ps[j])
  {
    CompletesIffNoDueWait(w, t, ps);
    TickQueueCompletes(w, t, ps);
    SplitAt(w, t, ps, j);
    assert [ps[j]][1..] == [];
  }

  /**
   * In a pass that completes, a due entry is removed and run: the survivors
   * close up around it and its events come between those of the due entries
   * before and after it.
   */
  lemma DueEntryRuns(w: World, t: Timers, ps: seq<Pending>, j: nat)
    requires j < |ps| && IsDue(ps[j]) && !TickQueue(w, t, ps).crashed
    ensures TickQueue(w, t, ps).pending == Survivors(ps[..j]) + Survivors(ps[j + 1..])
    ensures TickQueue(w, t, ps).events == DueEvents(w, t, ps[..j]) + Fire(w, t, ps[j]).events + DueEvents(w, t, ps[j + 1..])
  {
    CompletesIffNoDueWait(w, t, ps);
    TickQueueCompletes(w, t, ps);
    SplitAt(w, t, ps, j);
    var one := [ps[j]];
    assert one[0] == ps[j] && one[1..] == [];
    assert Survivors(one) == [];
    assert DueEvents(w, t, one) == Fire(w, t, ps[j]).events;
  }

  /** How many passes a `Wait` of `n` ticks waits: max(n, 1). */
  function PassesOf(n: int32): nat
  {
    if n > 0 then n as nat else 1
  }

  /**
   * One pass in a run: pass `k` completes, the queue at the start of pass
   * `k + 1` begins with what it left (the collision and jump handlers only
   * append), and `idx` follows the survivor's place.
   */
  predicate PassLinked(ws: seq<World>, ts: seq<Timers>, qs: seq<seq<Pending>>, idx: seq<nat>, k: nat)
    requires k + 1 < |qs| && |ws| == |ts| == |qs| == |idx|
  {
    && !TickQueue(ws[k], ts[k], qs[k]).crashed
    && idx[k] <= |qs[k]|
    && TickQueue(ws[k], ts[k], qs[k]).pending <= qs[k + 1]
    && idx[k + 1] == |Survivors(qs[k][..idx[k]])|
  }

  lemma {:induction false} EntryAfterPasses(ws: seq<World>, ts: seq<Timers>, qs: seq<seq<Pending>>, idx: seq<nat>, n: int32, e: EntityId, f: Effect, k: nat)
    requires n as int > MinInt
    requires |ws| == |ts| == |qs| == |idx| == PassesOf(n)
    requires idx[0] < |qs[0]| && qs[0][idx[0]] == Pending(n, e, f)
    requires forall j | 0 <= j < |qs| - 1 :: PassLinked(ws, ts, qs, idx, j)
    requires k < |qs|
    ensures idx[k] < |qs[k]| && qs[k][idx[k]] == Pending(Countdown(n, k), e, f)
    decreases k
  {
    if k > 0 {
      EntryAfterPasses(ws, ts, qs, idx, n, e, f, k - 1);
      WaitDueOnPass(n, e, f, k);
      assert PassLinked(ws, ts, qs, idx, k - 1);
      SurvivorLands(ws[k - 1], ts[k - 1], qs[k - 1], idx[k - 1]);
    }
  }

  /**
   * The entry a `Wait` of `n` ticks (above MIN_VALUE) appends fires on the
   * max(n, 1)-th pass over the queue. `qs[k]` is the queue at the start of
   * pass `k`, with `ts[k]` and `ws[k]` the timers and the world of that pass;
   * every earlier pass completes and the entry is at `idx[k]`. On each pass
   * the entry holds its counter decremented once per pass survived; it is
   * due on the last pass and on no earlier one, and if that pass completes
   * it is removed and run there.
   */
  lemma WaitFiresOnPass(ws: seq<World>, ts: seq<Timers>, qs: seq<seq<Pending>>, idx: seq<nat>, n: int32, e: EntityId, f: Effect)
    requires n as int > MinInt
    requires |ws| == |ts| == |qs| == |idx| == PassesOf(n)
    requires idx[0] < |qs[0]| && qs[0][idx[0]] == Pending(n, e, f)
    requires forall j | 0 <= j < |qs| - 1 :: PassLinked(ws, ts, qs, idx, j)
    ensures forall k | 0 <= k < |qs| :: idx[k] < |qs[k]| && qs[k][idx[k]] == Pending(Countdown(n, k), e, f)
    ensures forall k | 0 <= k < |qs| :: idx[k] < |qs[k]| && (IsDue(qs[k][idx[k]]) <==> k == |qs| - 1)
    ensures var last := |qs| - 1;
      !TickQueue(ws[last], ts[last], qs[last]).crashed ==>
        && TickQueue(ws[last], ts[last], qs[last]).pending == Survivors(qs[last][..idx[last]]) + Survivors(qs[last][idx[last] + 1..])
        && TickQueue(ws[last], ts[last], qs[last]).events
           == DueEvents(ws[last], ts[last], qs[last][..idx[last]]) + Execute(ws[last], ts[last], e, f).events
              + DueEvents(ws[last], ts[last], qs[last][idx[last] + 1..])
  {
    forall k | 0 <= k < |qs|
      ensures idx[k] < |qs[k]| && qs[k][idx[k]] == Pending(Countdown(n, k), e, f)
      ensures IsDue(qs[k][idx[k]]) <==> k == |qs| - 1
    {
      EntryAfterPasses(ws, ts, qs, idx, n, e, f, k);
      WaitDueOnPass(n, e, f, k + 1);
    }
    var last := |qs| - 1;
    if !TickQueue(ws[last], ts[last], qs[last]).crashed {
      DueEntryRuns(ws[last], ts[last], qs[last], idx[last]);
    }
  }

  /** One step of the loop over the queue: an entry that is not due is kept, decremented. */
  lemma KeepStep(w: World, t: Timers, ps: seq<Pending>, j: nat, kept: seq<Pending>, events: seq<Event>)
    requires j < |ps| && !IsDue(ps[j])
    requires TickQueue(w, t, ps) == Prepend(kept, events, TickQueue(w, t, ps[j..]))
    ensures TickQueue(w, t, ps) == Prepend(kept + [Decremented(ps[j])], events, TickQueue(w, t, ps[j + 1..]))
  {
    assert ps[j..][1..] == ps[j + 1..];
  }

  /** One step of the loop over the queue: a due entry that schedules nothing is removed and run. */
  lemma FireStep(w: World, t: Timers, ps: seq<Pending>, j: nat, kept: seq<Pending>, events: seq<Event>)
    requires j < |ps| && IsDue(ps[j]) && Fire(w, t, ps[j]).scheduled == []
    requires TickQueue(w, t, ps) == Prepend(kept, events, TickQueue(w, t, ps[j..]))
    ensures TickQueue(w, t, ps) == Prepend(kept, events + Fire(w, t, ps[j]).events, TickQueue(w, t, ps[j + 1..]))
  {
    assert ps[j..][1..] == ps[j + 1..];
    var o := Fire(w, t, ps[j]);
    var r := TickQueue(w, t, ps[j + 1..]);
    assert TickQueue(w, t, ps[j..]) == Prepend([], o.events, r);
    assert events + (o.events + r.events) == (events + o.events) + r.events;
  }

  /** One step of the loop over the queue: a due entry that schedules something ends the pass. */
  lemma CrashStep(w: World, t: Timers, ps: seq<Pending>, j: nat, kept: seq<Pending>, events: seq<Event>)
    requires j < |ps| && IsDue(ps[j]) && Fire(w, t, ps[j]).scheduled != []
    requires TickQueue(w, t, ps) == Prepend(kept, events, TickQueue(w, t, ps[j..]))
    ensures TickQueue(w, t, ps)
         == TickResult(kept + ps[j + 1..] + Fire(w, t, ps[j]).scheduled, events + Fire(w, t, ps[j]).events, true)
  {
    assert ps[j..][1..] == ps[j + 1..];
    var o := Fire(w, t, ps[j]);
    assert TickQueue(w, t, ps[j..]) == TickResult(ps[j + 1..] + o.scheduled, o.events, true);
    assert kept + (ps[j + 1..] + o.scheduled) == kept + ps[j + 1..] + o.scheduled;
  }

  /** The result of `tickEffects` on the whole state. */
  datatype Ticked = Ticked(state: State, events: seq<Event>, crashed: bool)

  function TickEffects(w: World, s: State): Ticked
  {
    var t := AdvanceTimers(s.timers);
    var r := TickQueue(w, t, s.pending);
    Ticked(State(t, s.triggeredJump, r.pending), r.events, r.crashed)
  }

  /**
   * `tickEffects` advances every timer by exactly one and keeps both key sets;
   * it leaves the jump set alone, so it keeps every fired jump remembered.
   */
  lemma TickEffectsTimers(w: World, s: State)
    ensures TickEffects(w, s).state.timers.types.Keys == s.timers.types.Keys
    ensures TickEffects(w, s).state.timers.entities.Keys == s.timers.entities.Keys
    ensures forall b | b in s.timers.types :: TickEffects(w, s).state.timers.types[b] == Inc(s.timers.types[b])
    ensures forall e | e in s.timers.entities :: TickEffects(w, s).state.timers.entities[e] == Inc(s.timers.entities[e])
    ensures TickEffects(w, s).state.triggeredJump == s.triggeredJump
    ensures JumpsRemembered(s) ==> JumpsRemembered(TickEffects(w, s).state)
  {
  }
}
