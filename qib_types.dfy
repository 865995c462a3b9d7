/**
 * The values the qib interpreter works on: effect trees, behaviour
 * definitions, the player predicates it reads, the entries of its delay queue
 * and the events it produces for the host.
 */
module QibTypes {
  import opened Wrappers
  import opened Java32

  /** An interaction entity, by identity. */
  type EntityId = int

  /** The player predicates a `Conditional` effect can test. */
  datatype Condition = IsGliding | IsRiptiding | IsInAir | IsOnGround | IsInWater | IsInWaterOrRain

  /** The variants of a qib effect. The last seven are leaf actions on the player. */
  datatype Effect =
    | Multiple(effects: seq<Effect>)
    | Stay(ticks: int32, global: bool, effect: Effect)
    | Wait(ticks: int32, effect: Effect)
    | Conditional(condition: Condition, value: bool, effect: Effect)
    | PlaySound(soundNamespace: string, path: string, volume: real, pitch: real)
    | GivePotionEffect(effectNamespace: string, path: string, duration: int32, amplifier: int32,
                       ambient: bool, visible: bool, showIcon: bool)
    | RemovePotionEffect(effectNamespace: string, path: string)
    | Move(x: real, y: real, z: real)
    | AddVelocity(x: real, y: real, z: real)
    | SetVelocity(x: real, y: real, z: real)
    | SetVelocityYawPitch(yaw: real, pitch: real, yawRelative: bool, pitchRelative: bool,
                          strength: real, limit: real)
  {
    /** A leaf action: a host call on the player, with no nested effect. */
    predicate IsLeaf() {
      !(Multiple? || Stay? || Wait? || Conditional?)
    }
  }

  /** True if a `Wait` occurs anywhere in the tree. */
  predicate HasWait(e: Effect)
  {
    match e
    case Multiple(es) => exists i | 0 <= i < |es| :: HasWait(es[i])
    case Stay(_, _, f) => HasWait(f)
    case Wait(_, _) => true
    case Conditional(_, _, f) => HasWait(f)
    case _ => false
  }

  /** The state of the local player as the interpreter reads it. */
  datatype Player = Player(
    fallFlying: bool,
    autoSpinAttack: bool,
    onGround: bool,
    inWater: bool,
    inWaterOrRain: bool,
    inVehicle: bool)

  /** A behaviour definition: four optional (nullable) effects and the switch flag. */
  datatype Behavior = Behavior(
    onEnter: Option<Effect>,
    whileInside: Option<Effect>,
    onLeave: Option<Effect>,
    onJump: Option<Effect>,
    triggerEnterLeaveOnSwitch: bool)

  /** The kind of trigger reported to the server. */
  datatype TriggerType = Enter | Inside | Leave | Jump

  /**
   * What the interpreter does outside itself: a notification to the server
   * naming behaviour, trigger kind and entity, or a leaf action on the player.
   */
  datatype Event =
    | Packet(behavior: string, kind: TriggerType, entity: EntityId)
    | Action(action: Effect)

  /** An entry of the delay queue: its countdown, the entity it belongs to and the effect to run. */
  datatype Pending = Pending(counter: int32, entity: EntityId, effect: Effect)

  /**
   * What the host supplies at a call: the behaviour definitions currently set
   * by the server, the qib behaviour name attached to each entity that has one,
   * and the player.
   */
  datatype World = World(behaviors: map<string, Behavior>, tags: map<EntityId, string>, player: Player)

  /** The entity carries a behaviour name and that name is among the definitions. */
  predicate Known(w: World, e: EntityId)
  {
    e in w.tags && w.tags[e] in w.behaviors
  }

  /** The two timer maps: ticks spent inside per behaviour type and per entity. */
  datatype Timers = Timers(types: map<string, int32>, entities: map<EntityId, int32>)

  /** All the state the interpreter keeps between calls. */
  datatype State = State(timers: Timers, triggeredJump: set<EntityId>, pending: seq<Pending>)

  /** A state together with the events that produced it. */
  datatype Progress = Progress(state: State, events: seq<Event>)

  /** `order` lists every element of `s` exactly once: one possible iteration order of a hash set. */
  predicate Enumerates(order: seq<EntityId>, s: set<EntityId>)
  {
    && (forall i, j | 0 <= i < j < |order| :: order[i] != order[j])
    && (forall i | 0 <= i < |order| :: order[i] in s)
    && (forall x | x in s :: x in order)
  }

  /** Every entity that has fired its jump is still remembered as colliding. */
  predicate JumpsRemembered(s: State)
  {
    s.triggeredJump <= s.timers.entities.Keys
  }
}
