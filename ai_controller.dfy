/**
 * The enemy AI tick. A live agent runs exactly one behaviour per frame, in
 * strict priority: attack the player (when aggravated and able to attack),
 * else stay suspicious (cancel the current action) while the player was seen
 * recently, else patrol its path. Then its three timers advance by the frame
 * time. A dead agent does nothing at all.
 *
 * Engine queries are per-tick inputs: the distance to the player, the
 * fighter's `CanAttack(player)`, the distance to the current waypoint, the
 * random dwell draw and the sphere-query hits (as the AIController found on
 * each hit, null for a hit without one). The calls into the fighter, the
 * action scheduler and the mover are recorded in a command log.
 */
module AIControl {
  import opened Basics
  import opened AIPath
  import Attributes

  /** The calls an agent makes into its other components. */
  datatype Command =
    | AttackPlayer
    | CancelCurrentAction
    | StartMoveAction(destination: Vec3, speedFraction: real)

  datatype Behaviour = Attack | Suspicion | Patrol

  /** The serialized settings, the path's waypoint positions (None without a path) and the start position. */
  datatype Settings = Settings(
    chaseDistance: real,
    suspicionTime: real,
    aggroCooldownTime: real,
    waypointTolerance: real,
    minDwellTime: real,
    maxDwellTime: real,
    defaultSpeedFraction: real,
    waypoints: Option<seq<Vec3>>,
    defaultPosition: Vec3)

  /** What an agent's tick reads and writes. */
  datatype AgentState = AgentState(
    timeSinceLastSawPlayer: Timer,
    timeSinceArrivedAtWaypoint: Timer,
    timeSinceAggrevated: Timer,
    currentWaypointIndex: int,
    waypointDwellTime: real)

  /** The per-tick inputs; `selfHit` says whether the agent's own sphere query found the agent itself. */
  datatype Tick = Tick(
    deltaTime: real,
    distanceToPlayer: real,
    canAttackPlayer: bool,
    distanceToWaypoint: real,
    dwellDraw: real,
    selfHit: bool)

  /** A path has at least one waypoint and the index points at one of them. */
  predicate IndexValid(cfg: Settings, s: AgentState) {
    cfg.waypoints.Some? ==> 0 <= s.currentWaypointIndex < |cfg.waypoints.value|
  }

  predicate IsAggrevated(cfg: Settings, s: AgentState, distanceToPlayer: real) {
    distanceToPlayer < cfg.chaseDistance || s.timeSinceAggrevated.Below(cfg.aggroCooldownTime)
  }

  function Choose(cfg: Settings, s: AgentState, t: Tick): Behaviour {
    if IsAggrevated(cfg, s, t.distanceToPlayer) && t.canAttackPlayer then Attack
    else if s.timeSinceLastSawPlayer.Below(cfg.suspicionTime) then Suspicion
    else Patrol
  }

  /** Arrival at the current waypoint: strictly within the tolerance, and only with a path. */
  predicate Arrives(cfg: Settings, t: Tick) {
    cfg.waypoints.Some? && t.distanceToWaypoint < cfg.waypointTolerance
  }

  /** The state after the chosen behaviour and before the timers advance. */
  function Behave(cfg: Settings, s: AgentState, t: Tick): AgentState
    requires IndexValid(cfg, s)
  {
    match Choose(cfg, s, t)
    case Attack =>
      s.(timeSinceLastSawPlayer := Reset,
         timeSinceAggrevated := if t.selfHit then Reset else s.timeSinceAggrevated)
    case Suspicion => s
    case Patrol =>
      if Arrives(cfg, t) then
        s.(timeSinceArrivedAtWaypoint := Reset,
           currentWaypointIndex := GetNextIndex(s.currentWaypointIndex, |cfg.waypoints.value|),
           waypointDwellTime := t.dwellDraw)
      else s.(waypointDwellTime := t.dwellDraw)
  }

  function AdvanceTimers(s: AgentState, dt: real): AgentState {
    s.(timeSinceLastSawPlayer := s.timeSinceLastSawPlayer.Advance(dt),
       timeSinceArrivedAtWaypoint := s.timeSinceArrivedAtWaypoint.Advance(dt),
       timeSinceAggrevated := s.timeSinceAggrevated.Advance(dt))
  }

  /** One live tick. */
  function Step(cfg: Settings, s: AgentState, t: Tick): AgentState
    requires IndexValid(cfg, s)
  {
    AdvanceTimers(Behave(cfg, s, t), t.deltaTime)
  }

  /** Where patrol heads: the (possibly advanced) current waypoint, or the start position without a path. */
  function Destination(cfg: Settings, s: AgentState): Vec3
    requires IndexValid(cfg, s)
  {
    if cfg.waypoints.Some? then cfg.waypoints.value[s.currentWaypointIndex] else cfg.defaultPosition
  }

  /** The commands of one live tick. */
  function Commands(cfg: Settings, s: AgentState, t: Tick): seq<Command>
    requires IndexValid(cfg, s)
  {
    match Choose(cfg, s, t)
    case Attack => [AttackPlayer]
    case Suspicion => [CancelCurrentAction]
    case Patrol =>
      var b := Behave(cfg, s, t);
      if b.timeSinceArrivedAtWaypoint.Exceeds(b.waypointDwellTime)
      then [StartMoveAction(Destination(cfg, b), cfg.defaultSpeedFraction)]
      else []
  }

  lemma GetNextIndexInRange(cfg: Settings, s: AgentState, t: Tick)
    requires IndexValid(cfg, s)
    ensures IndexValid(cfg, Behave(cfg, s, t))
  {
    if cfg.waypoints.Some? {
      NextIndexInRange(s.currentWaypointIndex, |cfg.waypoints.value|);
    }
  }

  /** A tick keeps the waypoint index on the path. */
  lemma StepKeepsIndexValid(cfg: Settings, s: AgentState, t: Tick)
    requires IndexValid(cfg, s)
    ensures IndexValid(cfg, Step(cfg, s, t))
  {
    GetNextIndexInRange(cfg, s, t);
  }

  /**
   * Exactly one behaviour runs, and it is told by its command: an attack
   * exactly when aggravated and able to attack; otherwise suspicion exactly
   * while the player was seen less than `suspicionTime` ago; otherwise
   * patrol, which issues at most one move and never attacks or cancels.
   */
  lemma OneBehaviourPerTick(cfg: Settings, s: AgentState, t: Tick)
    requires IndexValid(cfg, s)
    ensures Commands(cfg, s, t) == [AttackPlayer] <==>
      (t.distanceToPlayer < cfg.chaseDistance || s.timeSinceAggrevated.Below(cfg.aggroCooldownTime)) && t.canAttackPlayer
    ensures Commands(cfg, s, t) == [CancelCurrentAction] <==>
      !((t.distanceToPlayer < cfg.chaseDistance || s.timeSinceAggrevated.Below(cfg.aggroCooldownTime)) && t.canAttackPlayer)
      && s.timeSinceLastSawPlayer.Below(cfg.suspicionTime)
    ensures |Commands(cfg, s, t)| <= 1
  {
  }

  /** All three timers grow by the same frame time on every live tick, whichever behaviour ran. */
  lemma TimersAdvanceTogether(cfg: Settings, s: AgentState, t: Tick)
    requires IndexValid(cfg, s)
    ensures var b := Behave(cfg, s, t);
      var r := Step(cfg, s, t);
      && r.timeSinceLastSawPlayer == b.timeSinceLastSawPlayer.Advance(t.deltaTime)
      && r.timeSinceArrivedAtWaypoint == b.timeSinceArrivedAtWaypoint.Advance(t.deltaTime)
      && r.timeSinceAggrevated == b.timeSinceAggrevated.Advance(t.deltaTime)
    ensures Choose(cfg, s, t) == Suspicion ==> Step(cfg, s, t) == AdvanceTimers(s, t.deltaTime)
  {
  }

  /** The timers at the start: all at infinity. */
  function Fresh(): AgentState {
    AgentState(Infinite, Infinite, Infinite, 0, 0.0)
  }

  /**
   * A fresh agent is not aggravated by the cooldown, is not suspicious, and
   * with the player out of chase range it patrols and moves at once, without
   * dwelling, unless it is already at its first waypoint.
   */
  lemma FreshAgentPatrolsWithoutDwelling(cfg: Settings, t: Tick)
    requires cfg.waypoints.Some? ==> |cfg.waypoints.value| > 0
    requires t.distanceToPlayer >= cfg.chaseDistance
    requires !Arrives(cfg, t)
    ensures !Fresh().timeSinceAggrevated.Below(cfg.aggroCooldownTime)
    ensures !Fresh().timeSinceLastSawPlayer.Below(cfg.suspicionTime)
    ensures Choose(cfg, Fresh(), t) == Patrol
    ensures Commands(cfg, Fresh(), t) == [StartMoveAction(Destination(cfg, Fresh()), cfg.defaultSpeedFraction)]
  {
  }

  /**
   * Once aggravated by another agent (its cooldown timer reset to 0), the
   * agent counts as aggravated at any distance until the elapsed time reaches
   * the cooldown.
   */
  lemma AggravationLastsForCooldown(cfg: Settings, s: AgentState, elapsed: real, distanceToPlayer: real)
    requires s.timeSinceAggrevated == Reset.Advance(elapsed)
    requires elapsed < cfg.aggroCooldownTime
    ensures IsAggrevated(cfg, s, distanceToPlayer)
  {
  }

  /**
   * After an attack tick of a frame time shorter than the suspicion time, a
   * tick on which the agent does not attack is a suspicion tick.
   */
  lemma SuspicionFollowsAttack(cfg: Settings, s: AgentState, t1: Tick, t2: Tick)
    requires IndexValid(cfg, s)
    requires Choose(cfg, s, t1) == Attack
    requires t1.deltaTime < cfg.suspicionTime
    requires Choose(cfg, Step(cfg, s, t1), t2) != Attack
    ensures Choose(cfg, Step(cfg, s, t1), t2) == Suspicion
  {
  }

  /**
   * On a patrol tick the arrival timer restarts exactly on arrival, the index
   * then moves on by `GetNextIndex`, and a move is issued only when the
   * arrival timer is above the freshly drawn dwell time; so a non-negative
   * dwell draw means no move on the arrival tick itself.
   */
  lemma PatrolArrival(cfg: Settings, s: AgentState, t: Tick)
    requires IndexValid(cfg, s)
    requires Choose(cfg, s, t) == Patrol
    ensures Behave(cfg, s, t).waypointDwellTime == t.dwellDraw
    ensures Arrives(cfg, t) ==>
      Behave(cfg, s, t).timeSinceArrivedAtWaypoint == Reset &&
      Behave(cfg, s, t).currentWaypointIndex == GetNextIndex(s.currentWaypointIndex, |cfg.waypoints.value|)
    ensures !Arrives(cfg, t) ==>
      Behave(cfg, s, t).timeSinceArrivedAtWaypoint == s.timeSinceArrivedAtWaypoint &&
      Behave(cfg, s, t).currentWaypointIndex == s.currentWaypointIndex
    ensures Arrives(cfg, t) && t.dwellDraw >= 0.0 ==> Commands(cfg, s, t) == []
    ensures cfg.waypoints.None? ==>
      Commands(cfg, s, t) == [] ||
      Commands(cfg, s, t) == [StartMoveAction(cfg.defaultPosition, cfg.defaultSpeedFraction)]
  {
  }

  /** The frame expression of the sphere-query hits. */
  function Agents(hits: seq<AIController?>): set<AIController>
  {
    set h: AIController | h in hits
  }

  class AIController {
    const chaseDistance: real
    const suspicionTime: real
    const aggroCooldownTime: real
    const waypointTolerance: real
    const minDwellTime: real
    const maxDwellTime: real
    const defaultSpeedFraction: real
    const waypoints: Option<seq<Vec3>>
    const defaultPosition: Vec3
    const health: Attributes.Health

    var timeSinceLastSawPlayer: Timer
    var timeSinceArrivedAtWaypoint: Timer
    var timeSinceAggrevated: Timer
    var currentWaypointIndex: int
    var waypointDwellTime: real
    var commands: seq<Command>

    function Config(): Settings {
      Settings(chaseDistance, suspicionTime, aggroCooldownTime, waypointTolerance,
               minDwellTime, maxDwellTime, defaultSpeedFraction, waypoints, defaultPosition)
    }

    function State(): AgentState
      reads this
    {
      AgentState(timeSinceLastSawPlayer, timeSinceArrivedAtWaypoint, timeSinceAggrevated,
                 currentWaypointIndex, waypointDwellTime)
    }

    ghost predicate Valid()
      reads this
    {
      (waypoints.Some? ==> |waypoints.value| > 0) && IndexValid(Config(), State())
    }

    /** A new agent: the three timers at infinity, the first waypoint, no commands yet. */
    constructor (cfg: Settings, health: Attributes.Health)
      requires cfg.waypoints.Some? ==> |cfg.waypoints.value| > 0
      ensures Valid() && Config() == cfg && this.health == health
      ensures State() == Fresh() && commands == []
    {
      chaseDistance := cfg.chaseDistance;
      suspicionTime := cfg.suspicionTime;
      aggroCooldownTime := cfg.aggroCooldownTime;
      waypointTolerance := cfg.waypointTolerance;
      minDwellTime := cfg.minDwellTime;
      maxDwellTime := cfg.maxDwellTime;
      defaultSpeedFraction := cfg.defaultSpeedFraction;
      waypoints := cfg.waypoints;
      defaultPosition := cfg.defaultPosition;
      this.health := health;
      timeSinceLastSawPlayer := Infinite;
      timeSinceArrivedAtWaypoint := Infinite;
      timeSinceAggrevated := Infinite;
      currentWaypointIndex := 0;
      waypointDwellTime := 0.0;
      commands := [];
    }

    /** Restarts the aggravation cooldown and changes nothing else. */
    method Aggrevate()
      modifies this`timeSinceAggrevated
      ensures timeSinceAggrevated == Reset
    {
      timeSinceAggrevated := Reset;
    }

    method UpdateTimers(deltaTime: real)
      modifies this
      ensures State() == AdvanceTimers(old(State()), deltaTime)
      ensures commands == old(commands)
    {
      timeSinceLastSawPlayer := timeSinceLastSawPlayer.Advance(deltaTime);
      timeSinceArrivedAtWaypoint := timeSinceArrivedAtWaypoint.Advance(deltaTime);
      timeSinceAggrevated := timeSinceAggrevated.Advance(deltaTime);
    }

    /** Aggravates every agent the sphere query found, aggravated already or not; hits without one are skipped. */
    static method AggrevateNearbyUnits(hits: seq<AIController?>)
      modifies Agents(hits)
      ensures forall h :: h in Agents(hits) ==>
        h.State() == old(h.State()).(timeSinceAggrevated := Reset) && h.commands == old(h.commands)
    {
      var i := 0;
      while i < |hits|
        invariant 0 <= i <= |hits|
        invariant forall j :: 0 <= j < i && hits[j] != null ==> hits[j].timeSinceAggrevated == Reset
        invariant forall h :: h in Agents(hits) ==>
          h.State() == old(h.State()).(timeSinceAggrevated := h.timeSinceAggrevated) && h.commands == old(h.commands)
        invariant forall h :: h in Agents(hits) && h !in hits[..i] ==> h.timeSinceAggrevated == old(h.timeSinceAggrevated)
      {
        var target := hits[i];
        if target != null {
          target.Aggrevate();
        }
        i := i + 1;
      }
    }

    /** Advances the patrol when at the current waypoint, draws a dwell time and moves once the dwell is over. */
    method DefaultBehaviour(distanceToWaypoint: real, dwellDraw: real)
      requires Valid()
      modifies this
      ensures Valid()
      ensures var t := Tick(0.0, 0.0, false, distanceToWaypoint, dwellDraw, false);
        var moves := if timeSinceArrivedAtWaypoint.Exceeds(waypointDwellTime)
                     then [StartMoveAction(Destination(Config(), State()), defaultSpeedFraction)] else [];
        && State() == (if Arrives(Config(), t) then
                         old(State()).(timeSinceArrivedAtWaypoint := Reset,
                                       currentWaypointIndex := GetNextIndex(old(currentWaypointIndex), |waypoints.value|),
                                       waypointDwellTime := dwellDraw)
                       else old(State()).(waypointDwellTime := dwellDraw))
        && commands == old(commands) + moves
    {
      var nextPosition := defaultPosition;
      if waypoints.Some? {
        if distanceToWaypoint < waypointTolerance {
          timeSinceArrivedAtWaypoint := Reset;
          NextIndexInRange(currentWaypointIndex, |waypoints.value|);
          currentWaypointIndex := GetNextIndex(currentWaypointIndex, |waypoints.value|);
        }
        nextPosition := waypoints.value[currentWaypointIndex];
      }
      waypointDwellTime := dwellDraw;
      if timeSinceArrivedAtWaypoint.Exceeds(waypointDwellTime) {
        commands := commands + [StartMoveAction(nextPosition, defaultSpeedFraction)];
      }
    }

    /**
     * `Update`: nothing happens to a dead agent (not even its timers);
     * otherwise the agent's state and commands follow `Step` and `Commands`,
     * and on an attack tick every other agent in the hits is aggravated.
     */
    method Update(deltaTime: real, distanceToPlayer: real, canAttackPlayer: bool,
                  distanceToWaypoint: real, dwellDraw: real, hits: seq<AIController?>)
      requires Valid()
      requires FloatRangeDraw(minDwellTime, maxDwellTime, dwellDraw)
      modifies this, Agents(hits)
      ensures Valid()
      ensures old(health.hasDied) ==>
        State() == old(State()) && commands == old(commands) &&
        forall h :: h in Agents(hits) ==> h.State() == old(h.State()) && h.commands == old(h.commands)
      ensures !old(health.hasDied) ==>
        var t := Tick(deltaTime, distanceToPlayer, canAttackPlayer, distanceToWaypoint, dwellDraw, this in hits);
        && State() == Step(Config(), old(State()), t)
        && commands == old(commands) + Commands(Config(), old(State()), t)
        && forall h :: h in Agents(hits) && h != this ==>
             h.commands == old(h.commands) &&
             h.State() == (if Choose(Config(), old(State()), t) == Attack
                           then old(h.State()).(timeSinceAggrevated := Reset) else old(h.State()))
    {
      if health.IsDead() {
        return;
      }
      ghost var t := Tick(deltaTime, distanceToPlayer, canAttackPlayer, distanceToWaypoint, dwellDraw, this in hits);
      if IsAggrevated(Config(), State(), distanceToPlayer) && canAttackPlayer {
        timeSinceLastSawPlayer := Reset;
        commands := commands + [AttackPlayer];
        AggrevateNearbyUnits(hits);
      } else if timeSinceLastSawPlayer.Below(suspicionTime) {
        commands := commands + [CancelCurrentAction];
      } else {
        DefaultBehaviour(distanceToWaypoint, dwellDraw);
      }
      assert State() == Behave(Config(), old(State()), t);
      GetNextIndexInRange(Config(), old(State()), t);
      UpdateTimers(deltaTime);
    }
  }
}
