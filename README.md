# Qib behaviour interpreter, modelled in Dafny

This project models the qib behaviour module of the Noxesium client mod
(`QibBehaviorModule.java`). Qibs are interaction entities that carry the name
of a behaviour. The server defines each behaviour with four optional effects:
`onEnter`, `whileInside`, `onLeave` and `onJump`. It also sets a
`triggerEnterLeaveOnSwitch` flag. Once per world tick, the module:

1. advances its collision timers;
2. counts down its delay queue and runs the effects that fall due;
3. compares the entities the player touches now with the ones it remembers,
   and fires enter, while-inside and leave behaviours with per-type and
   per-entity debouncing.

When the player jumps, each remembered entity fires its jump behaviour at most
once until the player leaves it.

The model keeps the module's four fields as a class,
`QibBehavior.QibBehaviorModule`:

- `collidingWithTypes`: a timer per behaviour type;
- `collidingWithEntities`: a timer per entity;
- `triggeredJump`: the entities that have fired their jump;
- `pending`: the delay queue.

Its methods (`TickEffects`, `CheckForCollisions`, `OnPlayerJump` and
`OnWorldTick`) change these fields in place with the source's loops. Each
method is proved equal to a specification function over a `State` value:
`QibTick.TickEffects`, `QibCollisions.Collided`, `QibJump.Jumped` and
`QibBehavior.WorldTicked`. The lemmas prove the module's promises about those
functions.

`executeBehavior` walks an effect tree. It changes none of the module's state
except that a `Wait` appends to the queue. It is modelled as the function
`QibExecute.Execute`, which returns the entries it appends and the events it
causes. The host is abstracted as follows:

- The server notification and each leaf action on the player become `Event`s.
- The behaviour definitions, the behaviour name on each entity and the
  player's predicates are a `World` value passed to every call.
- The entities found by the spatial lookup are a sequence passed to
  `CheckForCollisions`.

`AtomicInteger` counters are Java `int`s with wrap-around (`Java32.Inc`,
`Java32.Dec`).

Some behaviour of the code shows only once it is written out. The model keeps
it as written:

- An `onLeave` runs after the entity's timer has been removed. A non-global
  `Stay` of one tick or more inside `onLeave` therefore never runs its effect
  (`QibCollisions.LeaveSeesNoEntityTime`).
- A `Wait` of `Integer.MIN_VALUE` ticks wraps to `MAX_VALUE` on its first
  countdown, so it does not fire at once (`Java32.CountdownFromMinWraps`).
- Suppose a queued effect reaches a `Wait` while the queue is being counted
  down. It appends to the list under iteration, so the iterator's next
  `next()` throws `ConcurrentModificationException`. The rest of the queue is
  not counted down, and `checkForCollisions` does not run that tick. The model
  returns this as `crashed`, with the partial state Java leaves behind
  (`QibTick.TickQueueCrashes`).
- A `HashMap` or `HashSet` iterates in an unspecified order. The leave loop and
  the jump loop take that order as a ghost `order` that lists the set. Every
  property is stated per entity, so it holds for any order.

## Model

The lemmas below are stated about the following specification functions.
Each one follows the source line for line:

- `QibTick.TickQueue` is the countdown pass over the queue, including the stop on `ConcurrentModificationException` (lines 97-105).
- `QibTick.TickEffects` is the whole of `tickEffects` (lines 92-106).
- `QibCollisions.EnterStep` and `QibCollisions.EnterPass` are the first loop of `checkForCollisions` (lines 126-152).
- `QibCollisions.LeaveStep` and `QibCollisions.LeavePass` are its second loop (lines 154-182).
- `QibCollisions.Collided` is the whole of `checkForCollisions` (lines 111-186).
- `QibJump.JumpStep`, `QibJump.JumpPass` and `QibJump.Jumped` are `onPlayerJump` (lines 62-87).
- `QibBehavior.WorldTicked` is the world-tick handler (lines 42-49).
- `QibExecute.Holds` is the predicate switch of a `Conditional` (lines 210-217).
- `QibExecute.TimeSpent` is the timer a `Stay` reads (lines 199-200).

All lines are in `fabric/src/main/java/com/noxcrew/noxesium/feature/entity/QibBehaviorModule.java`.

| member | source | states |
|---|---|---|
| `QibBehavior.QibBehaviorModule.OnWorldTick` | fabric/src/main/java/com/noxcrew/noxesium/feature/entity/QibBehaviorModule.java:42-49 | with no behaviours defined the tick changes nothing and reports nothing; otherwise it is `tickEffects` followed by `checkForCollisions` unless the first ended in the iterator's exception |
| `QibBehavior.WorldTickKeepsJumpsRemembered` | fabric/src/main/java/com/noxcrew/noxesium/feature/entity/QibBehaviorModule.java:42-49 | a world tick keeps every entity in `triggeredJump` among the remembered colliding entities |
| `QibExecute.Trigger` | fabric/src/main/java/com/noxcrew/noxesium/feature/entity/QibBehaviorModule.java:55-57 | a trigger reports (behaviour, kind, entity) to the server first and reports nothing else |
| `QibBehavior.QibBehaviorModule.OnPlayerJump` | fabric/src/main/java/com/noxcrew/noxesium/feature/entity/QibBehaviorModule.java:62-87 | nothing happens while riptiding or in a vehicle; otherwise the loop visits every remembered entity once, in some order, and the new state and events are `Jumped` for that order |
| `QibJump.JumpPassEffect` | fabric/src/main/java/com/noxcrew/noxesium/feature/entity/QibBehaviorModule.java:69-86 | the jump loop changes no timer, adds to `triggeredJump` exactly the entities whose `onJump` fires (not yet triggered, known behaviour, non-null `onJump`), and reports a jump for each of them once and for no other entity |
| `QibJump.JumpAtMostOnce` | fabric/src/main/java/com/noxcrew/noxesium/feature/entity/QibBehaviorModule.java:70-71 | one jump reports at most one jump notification per entity |
| `QibJump.JumpAgainFiresNothing` | fabric/src/main/java/com/noxcrew/noxesium/feature/entity/QibBehaviorModule.java:69-86 | a second jump without leaving fires nothing and changes nothing; the jump set stays within the remembered entities |
| `QibJump.JumpedAppends` | fabric/src/main/java/com/noxcrew/noxesium/feature/entity/QibBehaviorModule.java:81-84 | `onPlayerJump` keeps the old queue in order and only appends to it, and each appended entry belongs to a remembered entity it visited |
| `QibBehavior.QibBehaviorModule.TickEffects` | fabric/src/main/java/com/noxcrew/noxesium/feature/entity/QibBehaviorModule.java:92-106 | the fields after `tickEffects` and its events are `QibTick.TickEffects` of the fields before |
| `QibBehavior.QibBehaviorModule.CountDownPending` | fabric/src/main/java/com/noxcrew/noxesium/feature/entity/QibBehaviorModule.java:97-105 | the in-place iterator loop over `pending` (decrement, remove, run, or stop on the exception) computes `TickQueue` of the old queue |
| `QibTick.IncrementAll` | fabric/src/main/java/com/noxcrew/noxesium/feature/entity/QibBehaviorModule.java:94-95 | every timer goes up by exactly one (MAX_VALUE wraps to MIN_VALUE) and the key set is unchanged |
| `QibTick.TickEffectsTimers` | fabric/src/main/java/com/noxcrew/noxesium/feature/entity/QibBehaviorModule.java:93-95 | `tickEffects` keeps the keys of both timer maps, increments every value, leaves the jump set alone and keeps it remembered |
| `Java32.Inc` | fabric/src/main/java/com/noxcrew/noxesium/feature/entity/QibBehaviorModule.java:94-95 | `incrementAndGet` yields the `int` congruent to x + 1 modulo 2^32 |
| `Java32.Dec` | fabric/src/main/java/com/noxcrew/noxesium/feature/entity/QibBehaviorModule.java:100 | `decrementAndGet` yields the `int` congruent to x - 1 modulo 2^32 |
| `QibTick.TickQueueCompletes` | fabric/src/main/java/com/noxcrew/noxesium/feature/entity/QibBehaviorModule.java:97-105 | when no due entry reaches a `Wait`, exactly the entries whose decremented counter is at most 0 are removed and run, in queue order; all others survive decremented in their relative order |
| `QibTick.TickQueueCrashes` | fabric/src/main/java/com/noxcrew/noxesium/feature/entity/QibBehaviorModule.java:97-104 | when the first due entry that reaches a `Wait` is at index i, the entries before i are handled normally, entry i is removed and run, later entries are untouched and its new entries are appended; the pass ends in the exception |
| `Java32.CountdownReachesZero` | fabric/src/main/java/com/noxcrew/noxesium/feature/entity/QibBehaviorModule.java:100 | a counter starting at c (above MIN_VALUE) stays positive for max(c,1)-1 decrements and is at most 0 after max(c,1) |
| `QibTick.WaitFiresOnPass` | fabric/src/main/java/com/noxcrew/noxesium/feature/entity/QibBehaviorModule.java:97-105 | over consecutive passes that complete, with the queue only growing at the end between them, the entry a `Wait` of n appends holds n decremented once per pass survived, is due on the max(n,1)-th pass and on no earlier one, and if that pass completes it is removed there and its effect's events come between those of the due entries before and after it |
| `QibTick.CompletesIffNoDueWait` | fabric/src/main/java/com/noxcrew/noxesium/feature/entity/QibBehaviorModule.java:97-105 | a countdown pass ends without the iterator's exception iff no due entry reaches a `Wait` |
| `QibTick.SurvivorLands` | fabric/src/main/java/com/noxcrew/noxesium/feature/entity/QibBehaviorModule.java:97-105 | in a pass that completes, an entry that is not due stays, decremented, right after the survivors of the entries before it |
| `QibTick.DueEntryRuns` | fabric/src/main/java/com/noxcrew/noxesium/feature/entity/QibBehaviorModule.java:100-103 | in a pass that completes, a due entry is removed and the survivors close up around it, and its events come between those of the due entries before and after it |
| `QibExecute.WaitSchedulesOne` | fabric/src/main/java/com/noxcrew/noxesium/feature/entity/QibBehaviorModule.java:206-208 | a `Wait` appends exactly one entry with counter n and runs nothing now |
| `QibBehavior.QibBehaviorModule.CheckForCollisions` | fabric/src/main/java/com/noxcrew/noxesium/feature/entity/QibBehaviorModule.java:111-186 | the leave loop visits every leaving entity once, in some order, and the new fields and events are `Collided` for that order |
| `QibBehavior.QibBehaviorModule.EnterLoop` | fabric/src/main/java/com/noxcrew/noxesium/feature/entity/QibBehaviorModule.java:125-152 | the loop over the touched entities computes `EnterPass` |
| `QibBehavior.QibBehaviorModule.LeaveLoop` | fabric/src/main/java/com/noxcrew/noxesium/feature/entity/QibBehaviorModule.java:154-182 | the iterator loop over the remembered entities visits each leaving entity once and computes `LeavePass` for that order |
| `QibCollisions.PutIfAbsent` | fabric/src/main/java/com/noxcrew/noxesium/feature/entity/QibBehaviorModule.java:150-151 | adds the key with a new counter at 0 and leaves existing timers unchanged |
| `QibCollisions.EnterPassState` | fabric/src/main/java/com/noxcrew/noxesium/feature/entity/QibBehaviorModule.java:126-152 | the first loop adds timers at 0 only for known entities and their types, never resets a timer, leaves the jump set alone, and collects the known types in order |
| `QibCollisions.EnterReported` | fabric/src/main/java/com/noxcrew/noxesium/feature/entity/QibBehaviorModule.java:136-142 | `onEnter` is reported for the i-th touched entity iff it has a known behaviour with `onEnter` and either the switch flag is set or its type was not timed before the pass and no earlier known entity had that type |
| `QibCollisions.FirstOfTypeOnly` | fabric/src/main/java/com/noxcrew/noxesium/feature/entity/QibBehaviorModule.java:137-150 | without the switch flag, only the first known entity of a type fires `onEnter` in a pass |
| `QibCollisions.InsideReported` | fabric/src/main/java/com/noxcrew/noxesium/feature/entity/QibBehaviorModule.java:144-148 | `whileInside` is reported for every touched entity with a known behaviour that has one, on every pass |
| `QibCollisions.LeavePassState` | fabric/src/main/java/com/noxcrew/noxesium/feature/entity/QibBehaviorModule.java:160-164 | the leave loop removes exactly the visited entities from the entity timers and from `triggeredJump`, and changes no type timer |
| `QibCollisions.LeaveReported` | fabric/src/main/java/com/noxcrew/noxesium/feature/entity/QibBehaviorModule.java:166-181 | `onLeave` is reported for a visited entity iff it still has a known behaviour with `onLeave` and either the switch flag is set or its type is not among this pass's colliding types |
| `QibCollisions.LeaveSeesNoEntityTime` | fabric/src/main/java/com/noxcrew/noxesium/feature/entity/QibBehaviorModule.java:161-179 | a leave step whose `onLeave` is a non-global `Stay` of one tick or more reports the leave and does nothing more, because it runs after the entity's timer is removed |
| `QibCollisions.RetainColliding` | fabric/src/main/java/com/noxcrew/noxesium/feature/entity/QibBehaviorModule.java:185 | the type timers keep exactly the keys among this pass's colliding types, with their values |
| `QibCollisions.CollidedState` | fabric/src/main/java/com/noxcrew/noxesium/feature/entity/QibBehaviorModule.java:111-186 | afterwards the remembered entities are the touched ones that were remembered or carry a known behaviour (old timers kept, new at 0); the timed types are exactly this pass's colliding types; leaving entities lose their jump mark |
| `QibCollisions.CollidedJumpsTouched` | fabric/src/main/java/com/noxcrew/noxesium/feature/entity/QibBehaviorModule.java:154-164 | after `checkForCollisions` only entities touched now keep a jump mark, so an entity that left can fire its jump again once touched anew |
| `QibCollisions.CollidedReports` | fabric/src/main/java/com/noxcrew/noxesium/feature/entity/QibBehaviorModule.java:124-182 | entity by entity, and for any hash-set order: which enter, inside and leave notifications `checkForCollisions` sends |
| `QibCollisions.CollidedAppends` | fabric/src/main/java/com/noxcrew/noxesium/feature/entity/QibBehaviorModule.java:140-179 | `checkForCollisions` keeps the old queue in order and only appends to it, and each appended entry belongs to a touched entity or to one that leaves |
| `QibBehavior.WorldTickKeepsQueueOrder` | fabric/src/main/java/com/noxcrew/noxesium/feature/entity/QibBehaviorModule.java:42-49 | after a world tick that completes, the queue begins with the queue the countdown pass left, so entries keep their places until the next pass |
| `QibExecute.Execute` | fabric/src/main/java/com/noxcrew/noxesium/feature/entity/QibBehaviorModule.java:191-272 | running an effect tree yields only leaf actions, never a notification; every entry it appends belongs to the entity; a tree without `Wait` appends nothing |
| `QibExecute.ExecuteAll` | fabric/src/main/java/com/noxcrew/noxesium/feature/entity/QibBehaviorModule.java:193-197 | running children in order keeps those properties, and children without `Wait` append nothing |
| `QibExecute.ExecuteAllAppend` | fabric/src/main/java/com/noxcrew/noxesium/feature/entity/QibBehaviorModule.java:193-197 | `Multiple` runs its children left to right: the outcome for a + b is a's outcome followed by b's |
| `QibExecute.MultipleFlattens` | fabric/src/main/java/com/noxcrew/noxesium/feature/entity/QibBehaviorModule.java:193-197 | nesting `Multiple`s does not change the trace |
| `QibExecute.StayRunsIffTimeSpent` | fabric/src/main/java/com/noxcrew/noxesium/feature/entity/QibBehaviorModule.java:198-205 | `Stay` runs its effect iff the chosen timer is at least `ticks`, and otherwise does nothing |
| `QibExecute.InAirIsNotOnGround` | fabric/src/main/java/com/noxcrew/noxesium/feature/entity/QibBehaviorModule.java:213-214 | testing IS_IN_AIR for v is testing IS_ON_GROUND for not v |
| `QibExecute.ConditionalPartition` | fabric/src/main/java/com/noxcrew/noxesium/feature/entity/QibBehaviorModule.java:209-223 | of the two `Conditional`s on one predicate with values true and false, exactly one runs its effect |

## Left out

- Server notifications: `sendPacket` is network I/O. Each call is a `Packet(behaviour, kind, entity)` event.
- Spatial lookup: the entities `SpatialInteractionEntityTree.findEntities` returns for the player's bounding box are an input sequence of `CheckForCollisions`.
- Leaf actions: sounds, potion effects, `move`, `push` and `setDeltaMovement` are host calls on the player. Each is an `Action` event carrying the leaf effect.
- `SetVelocityYawPitch`: the degree-to-radian conversion, sine, cosine and clamping are floating-point work on the host. The model records only the event.
- Player state: the predicates a `Conditional` reads are a snapshot per call. A leaf action inside the same tick can change them on the host (`move` can change `onGround`), and the model does not capture that.
- Player identity: a queued entry stores the player object it was created with. The model runs it against the current player.
- Entity state: each entity's behaviour name is read from `World.tags` at every call. The entity objects themselves, their ids and their other data are not modelled.
- `QibEffect`, `ServerRules` and `ExtraEntityData` are not part of this model. The effect variants and their fields are taken from how `executeBehavior` uses them. The `default` branch that throws `IllegalStateException` cannot be reached for these variants, so it is left out.
- What the host does with the `ConcurrentModificationException` after the tick is not modelled. The model stops the tick and returns `crashed` with the state as Java leaves it.
- Hash iteration order: the order of the leave loop and the jump loop is left open, as a ghost `order` that lists the iterated set. The event traces of those loops are fixed only up to that order.
- The mod-loader registration in `NoxesiumFabricMod.java` is not modelled; its only logic is a one-shot `initialized` flag. The boss-bar mixin and the action-bar record hold no interpreter logic and are not modelled either.
