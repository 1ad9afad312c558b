/**
 Unit commands as an AI sends them: a raw command is sorted by topic into one of many structs, and from the
 struct a command for the unit is built anew. On the way the parameters take a normal form.
 */
module CommandCodec {
  import opened Sequences
  import opened Conversions

  // ids below 0 are build orders

  const CMD_STOP := 0
  const CMD_WAIT := 5
  const CMD_TIMEWAIT := 6
  const CMD_DEATHWAIT := 7
  const CMD_SQUADWAIT := 8
  const CMD_GATHERWAIT := 9
  const CMD_MOVE := 10
  const CMD_PATROL := 15
  const CMD_FIGHT := 16
  const CMD_ATTACK := 20
  const CMD_GUARD := 25
  const CMD_GROUPADD := 36
  const CMD_GROUPCLEAR := 37
  const CMD_REPAIR := 40
  const CMD_FIRE_STATE := 45
  const CMD_MOVE_STATE := 50
  const CMD_SETBASE := 55
  const CMD_SELFD := 65
  const CMD_LOAD_UNITS := 75
  const CMD_LOAD_ONTO := 76
  const CMD_UNLOAD_UNITS := 80
  const CMD_UNLOAD_UNIT := 81
  const CMD_ONOFF := 85
  const CMD_RECLAIM := 90
  const CMD_CLOAK := 95
  const CMD_STOCKPILE := 100
  const CMD_MANUALFIRE := 105
  const CMD_RESTORE := 110
  const CMD_REPEAT := 115
  const CMD_TRAJECTORY := 120
  const CMD_RESURRECT := 125
  const CMD_CAPTURE := 130
  const CMD_AUTOREPAIRLEVEL := 135
  const CMD_IDLEMODE := 145

  const UNIT_COMMAND_BUILD_NO_FACING := -1

  // ---- commands ----

  datatype Pos = Pos(x: real, y: real, z: real)

  /** RawCommand. options is one byte. */
  datatype RawCommand = RawCommand(id: int, timeOut: int, options: int, params: seq<real>)

  /** Command, with the parameters in one sequence whether they are stored in place or in the pool. */
  datatype UnitCommand = UnitCommand(id: int, aiId: int, timeOut: int, tag: int, options: int, params: seq<real>)

  /** ToRawCommand. */
  function ToRaw(c: UnitCommand): RawCommand {
    RawCommand(c.id, c.timeOut, c.options, c.params)
  }

  /** The topics of the AI interface that concern units. */
  datatype Topic =
    | StopTopic
    | WaitTopic
    | WaitTimeTopic
    | WaitDeathTopic
    | WaitSquadTopic
    | WaitGatherTopic
    | MoveTopic
    | PatrolTopic
    | FightTopic
    | AttackTopic
    | AttackAreaTopic
    | GuardTopic
    | GroupAddTopic
    | GroupClearTopic
    | RepairTopic
    | SetFireStateTopic
    | SetMoveStateTopic
    | SetBaseTopic
    | SelfDestroyTopic
    | LoadUnitsTopic
    | LoadUnitsAreaTopic
    | LoadOntoTopic
    | UnloadUnitsAreaTopic
    | UnloadUnitTopic
    | SetOnOffTopic
    | ReclaimUnitTopic
    | ReclaimFeatureTopic
    | ReclaimAreaTopic
    | CloakTopic
    | StockpileTopic
    | DGunTopic
    | DGunPosTopic
    | RestoreAreaTopic
    | SetRepeatTopic
    | SetTrajectoryTopic
    | ResurrectTopic
    | ResurrectAreaTopic
    | CaptureTopic
    | CaptureAreaTopic
    | SetAutoRepairLevelTopic
    | SetIdleModeTopic
    | BuildTopic
    | CustomTopic

  /** The structs of the AI interface, one per topic; Foreign stands for topics that are no unit command. */
  datatype Order =
    | StopOrder
    | WaitOrder
    | WaitTimeOrder(time: int)
    | WaitDeathOrder(toDieUnitId: int)
    | WaitSquadOrder(numUnits: int)
    | WaitGatherOrder
    | MoveOrder(toPos: Pos)
    | PatrolOrder(toPos: Pos)
    | FightOrder(toPos: Pos)
    | AttackOrder(toAttackUnitId: int)
    | AttackAreaOrder(toAttackPos: Pos, radius: real)
    | GuardOrder(toGuardUnitId: int)
    | GroupAddOrder(toGroupId: int)
    | GroupClearOrder
    | RepairOrder(toRepairUnitId: int)
    | SetFireStateOrder(fireState: int)
    | SetMoveStateOrder(moveState: int)
    | SetBaseOrder(basePos: Pos)
    | SelfDestroyOrder
    | LoadUnitsOrder(toLoadUnitIds: seq<int>)
    | LoadUnitsAreaOrder(pos: Pos, radius: real)
    | LoadOntoOrder(transporterUnitId: int)
    | UnloadUnitsAreaOrder(toPos: Pos, radius: real)
    | UnloadUnitOrder(toPos: Pos, toUnloadUnitId: int)
    | SetOnOffOrder(on: bool)
    | ReclaimUnitOrder(toReclaimUnitId: int)
    | ReclaimFeatureOrder(toReclaimFeatureId: int)
    | ReclaimAreaOrder(pos: Pos, radius: real)
    | CloakOrder(cloak: bool)
    | StockpileOrder
    | DGunOrder(toAttackUnitId: int)
    | DGunPosOrder(pos: Pos)
    | RestoreAreaOrder(pos: Pos, radius: real)
    | SetRepeatOrder(repeat: bool)
    | SetTrajectoryOrder(trajectory: int)
    | ResurrectOrder(toResurrectFeatureId: int)
    | ResurrectAreaOrder(pos: Pos, radius: real)
    | CaptureOrder(toCaptureUnitId: int)
    | CaptureAreaOrder(pos: Pos, radius: real)
    | SetAutoRepairLevelOrder(autoRepairLevel: int)
    | SetIdleModeOrder(idleMode: int)
    | BuildOrder(toBuildUnitDefId: int, buildPos: Option<Pos>, facing: int)
    | CustomOrder(cmdId: int, params: seq<real>)
    | Foreign

  /** A struct with the members that all structs share. */
  datatype AICommand = AICommand(unitId: int, groupId: int, options: int, timeOut: int, order: Order)

  // ---- conversions ----

  function Flag(on: bool): real {
    if on then 1.0 else 0.0
  }

  function PosAt(params: seq<real>): Pos
    requires |params| >= 3
  {
    Pos(params[0], params[1], params[2])
  }

  function PosParams(p: Pos): seq<real> {
    [p.x, p.y, p.z]
  }

  function Truncated(params: seq<real>): seq<int> {
    seq(|params|, i requires 0 <= i < |params| => Truncate(params[i]))
  }

  function Reals(ids: seq<int>): seq<real> {
    seq(|ids|, i requires 0 <= i < |ids| => ids[i] as real)
  }

  // ---- the three tables ----

  /** extractAICommandTopic, of a command with n parameters, the first as given. */
  function ExtractTopic(id: int, n: nat, first: real, maxUnits: nat): Topic {
    if id == CMD_STOP then StopTopic
    else if id == CMD_WAIT then WaitTopic
    else if id == CMD_TIMEWAIT then WaitTimeTopic
    else if id == CMD_DEATHWAIT then WaitDeathTopic
    else if id == CMD_SQUADWAIT then WaitSquadTopic
    else if id == CMD_GATHERWAIT then WaitGatherTopic
    else if id == CMD_MOVE then MoveTopic
    else if id == CMD_PATROL then PatrolTopic
    else if id == CMD_FIGHT then FightTopic
    else if id == CMD_ATTACK then (if n < 3 then AttackTopic else AttackAreaTopic)
    else if id == CMD_GUARD then GuardTopic
    else if id == CMD_GROUPADD then GroupAddTopic
    else if id == CMD_GROUPCLEAR then GroupClearTopic
    else if id == CMD_REPAIR then RepairTopic
    else if id == CMD_FIRE_STATE then SetFireStateTopic
    else if id == CMD_MOVE_STATE then SetMoveStateTopic
    else if id == CMD_SETBASE then SetBaseTopic
    else if id == CMD_SELFD then SelfDestroyTopic
    else if id == CMD_LOAD_UNITS then (if n < 3 then LoadUnitsTopic else LoadUnitsAreaTopic)
    else if id == CMD_LOAD_ONTO then LoadOntoTopic
    else if id == CMD_UNLOAD_UNITS then UnloadUnitsAreaTopic
    else if id == CMD_UNLOAD_UNIT then UnloadUnitTopic
    else if id == CMD_ONOFF then SetOnOffTopic
    else if id == CMD_RECLAIM then (
      if n < 3 || n == 5 then (if first < maxUnits as real then ReclaimUnitTopic else ReclaimFeatureTopic)
      else ReclaimAreaTopic)
    else if id == CMD_CLOAK then CloakTopic
    else if id == CMD_STOCKPILE then StockpileTopic
    else if id == CMD_MANUALFIRE then (if n < 3 then DGunTopic else DGunPosTopic)
    else if id == CMD_RESTORE then RestoreAreaTopic
    else if id == CMD_REPEAT then SetRepeatTopic
    else if id == CMD_TRAJECTORY then SetTrajectoryTopic
    else if id == CMD_RESURRECT then (if n < 3 then ResurrectTopic else ResurrectAreaTopic)
    else if id == CMD_CAPTURE then (if n < 3 || n == 5 then CaptureTopic else CaptureAreaTopic)
    else if id == CMD_AUTOREPAIRLEVEL then SetAutoRepairLevelTopic
    else if id == CMD_IDLEMODE then SetIdleModeTopic
    else if id < 0 then BuildTopic
    else CustomTopic
  }

  /** toInternalUnitCommandTopic: the id of the command an order stands for. */
  function ToInternal(order: Order): int {
    match order
    case StopOrder => CMD_STOP
    case WaitOrder => CMD_WAIT
    case WaitTimeOrder(_) => CMD_TIMEWAIT
    case WaitDeathOrder(_) => CMD_DEATHWAIT
    case WaitSquadOrder(_) => CMD_SQUADWAIT
    case WaitGatherOrder => CMD_GATHERWAIT
    case MoveOrder(_) => CMD_MOVE
    case PatrolOrder(_) => CMD_PATROL
    case FightOrder(_) => CMD_FIGHT
    case AttackOrder(_) => CMD_ATTACK
    case AttackAreaOrder(_, _) => CMD_ATTACK
    case GuardOrder(_) => CMD_GUARD
    case GroupAddOrder(_) => CMD_GROUPADD
    case GroupClearOrder => CMD_GROUPCLEAR
    case RepairOrder(_) => CMD_REPAIR
    case SetFireStateOrder(_) => CMD_FIRE_STATE
    case SetMoveStateOrder(_) => CMD_MOVE_STATE
    case SetBaseOrder(_) => CMD_SETBASE
    case SelfDestroyOrder => CMD_SELFD
    case LoadUnitsOrder(_) => CMD_LOAD_UNITS
    case LoadUnitsAreaOrder(_, _) => CMD_LOAD_UNITS
    case LoadOntoOrder(_) => CMD_LOAD_ONTO
    case UnloadUnitsAreaOrder(_, _) => CMD_UNLOAD_UNITS
    case UnloadUnitOrder(_, _) => CMD_UNLOAD_UNIT
    case SetOnOffOrder(_) => CMD_ONOFF
    case ReclaimUnitOrder(_) => CMD_RECLAIM
    case ReclaimFeatureOrder(_) => CMD_RECLAIM
    case ReclaimAreaOrder(_, _) => CMD_RECLAIM
    case CloakOrder(_) => CMD_CLOAK
    case StockpileOrder => CMD_STOCKPILE
    case DGunOrder(_) => CMD_MANUALFIRE
    case DGunPosOrder(_) => CMD_MANUALFIRE
    case RestoreAreaOrder(_, _) => CMD_RESTORE
    case SetRepeatOrder(_) => CMD_REPEAT
    case SetTrajectoryOrder(_) => CMD_TRAJECTORY
    case ResurrectOrder(_) => CMD_RESURRECT
    case ResurrectAreaOrder(_, _) => CMD_RESURRECT
    case CaptureOrder(_) => CMD_CAPTURE
    case CaptureAreaOrder(_, _) => CMD_CAPTURE
    case SetAutoRepairLevelOrder(_) => CMD_AUTOREPAIRLEVEL
    case SetIdleModeOrder(_) => CMD_IDLEMODE
    case BuildOrder(def, _, _) => -def
    case CustomOrder(id, _) => id
    case Foreign => -1
  }

  function TopicOf(order: Order): Option<Topic> {
    match order
    case StopOrder => Some(StopTopic)
    case WaitOrder => Some(WaitTopic)
    case WaitTimeOrder(_) => Some(WaitTimeTopic)
    case WaitDeathOrder(_) => Some(WaitDeathTopic)
    case WaitSquadOrder(_) => Some(WaitSquadTopic)
    case WaitGatherOrder => Some(WaitGatherTopic)
    case MoveOrder(_) => Some(MoveTopic)
    case PatrolOrder(_) => Some(PatrolTopic)
    case FightOrder(_) => Some(FightTopic)
    case AttackOrder(_) => Some(AttackTopic)
    case AttackAreaOrder(_, _) => Some(AttackAreaTopic)
    case GuardOrder(_) => Some(GuardTopic)
    case GroupAddOrder(_) => Some(GroupAddTopic)
    case GroupClearOrder => Some(GroupClearTopic)
    case RepairOrder(_) => Some(RepairTopic)
    case SetFireStateOrder(_) => Some(SetFireStateTopic)
    case SetMoveStateOrder(_) => Some(SetMoveStateTopic)
    case SetBaseOrder(_) => Some(SetBaseTopic)
    case SelfDestroyOrder => Some(SelfDestroyTopic)
    case LoadUnitsOrder(_) => Some(LoadUnitsTopic)
    case LoadUnitsAreaOrder(_, _) => Some(LoadUnitsAreaTopic)
    case LoadOntoOrder(_) => Some(LoadOntoTopic)
    case UnloadUnitsAreaOrder(_, _) => Some(UnloadUnitsAreaTopic)
    case UnloadUnitOrder(_, _) => Some(UnloadUnitTopic)
    case SetOnOffOrder(_) => Some(SetOnOffTopic)
    case ReclaimUnitOrder(_) => Some(ReclaimUnitTopic)
    case ReclaimFeatureOrder(_) => Some(ReclaimFeatureTopic)
    case ReclaimAreaOrder(_, _) => Some(ReclaimAreaTopic)
    case CloakOrder(_) => Some(CloakTopic)
    case StockpileOrder => Some(StockpileTopic)
    case DGunOrder(_) => Some(DGunTopic)
    case DGunPosOrder(_) => Some(DGunPosTopic)
    case RestoreAreaOrder(_, _) => Some(RestoreAreaTopic)
    case SetRepeatOrder(_) => Some(SetRepeatTopic)
    case SetTrajectoryOrder(_) => Some(SetTrajectoryTopic)
    case ResurrectOrder(_) => Some(ResurrectTopic)
    case ResurrectAreaOrder(_, _) => Some(ResurrectAreaTopic)
    case CaptureOrder(_) => Some(CaptureTopic)
    case CaptureAreaOrder(_, _) => Some(CaptureAreaTopic)
    case SetAutoRepairLevelOrder(_) => Some(SetAutoRepairLevelTopic)
    case SetIdleModeOrder(_) => Some(SetIdleModeTopic)
    case BuildOrder(_, _, _) => Some(BuildTopic)
    case CustomOrder(_, _) => Some(CustomTopic)
    case Foreign => None
  }

  /** The parameters a topic reads without looking at their number. */
  function Needed(topic: Topic): nat {
    match topic
    case WaitTimeTopic => 1
    case WaitDeathTopic => 1
    case WaitSquadTopic => 1
    case AttackTopic => 1
    case GuardTopic => 1
    case GroupAddTopic => 1
    case RepairTopic => 1
    case SetFireStateTopic => 1
    case SetMoveStateTopic => 1
    case LoadUnitsTopic => 1
    case LoadOntoTopic => 1
    case SetOnOffTopic => 1
    case ReclaimUnitTopic => 1
    case ReclaimFeatureTopic => 1
    case CloakTopic => 1
    case DGunTopic => 1
    case SetRepeatTopic => 1
    case SetTrajectoryTopic => 1
    case ResurrectTopic => 1
    case CaptureTopic => 1
    case SetAutoRepairLevelTopic => 1
    case SetIdleModeTopic => 1
    case MoveTopic => 3
    case PatrolTopic => 3
    case FightTopic => 3
    case AttackAreaTopic => 3
    case SetBaseTopic => 3
    case LoadUnitsAreaTopic => 3
    case UnloadUnitsAreaTopic => 3
    case ReclaimAreaTopic => 3
    case DGunPosTopic => 3
    case RestoreAreaTopic => 3
    case ResurrectAreaTopic => 3
    case CaptureAreaTopic => 3
    case UnloadUnitTopic => 4
    case _ => 0
  }

  /** The radius of an area command, none by default. */
  function Radius(params: seq<real>): real {
    if |params| >= 4 then params[3] else 0.0
  }

  /** The struct that executeCommand fills for a topic. */
  function Filled(raw: RawCommand, topic: Topic, maxUnits: nat): Order
    requires |raw.params| >= Needed(topic)
  {
    match topic
    case StopTopic => StopOrder
    case WaitTopic => WaitOrder
    case WaitTimeTopic => WaitTimeOrder(Truncate(raw.params[0]))
    case WaitDeathTopic => WaitDeathOrder(Truncate(raw.params[0]))
    case WaitSquadTopic => WaitSquadOrder(Truncate(raw.params[0]))
    case WaitGatherTopic => WaitGatherOrder
    case MoveTopic => MoveOrder(PosAt(raw.params))
    case PatrolTopic => PatrolOrder(PosAt(raw.params))
    case FightTopic => FightOrder(PosAt(raw.params))
    case AttackTopic => AttackOrder(Truncate(raw.params[0]))
    case AttackAreaTopic => AttackAreaOrder(PosAt(raw.params), Radius(raw.params))
    case GuardTopic => GuardOrder(Truncate(raw.params[0]))
    case GroupAddTopic => GroupAddOrder(Truncate(raw.params[0]))
    case GroupClearTopic => GroupClearOrder
    case RepairTopic => RepairOrder(Truncate(raw.params[0]))
    case SetFireStateTopic => SetFireStateOrder(Truncate(raw.params[0]))
    case SetMoveStateTopic => SetMoveStateOrder(Truncate(raw.params[0]))
    case SetBaseTopic => SetBaseOrder(PosAt(raw.params))
    case SelfDestroyTopic => SelfDestroyOrder
    case LoadUnitsTopic => LoadUnitsOrder(Truncated(raw.params))
    case LoadUnitsAreaTopic => LoadUnitsAreaOrder(PosAt(raw.params), Radius(raw.params))
    case LoadOntoTopic => LoadOntoOrder(Truncate(raw.params[0]))
    case UnloadUnitsAreaTopic => UnloadUnitsAreaOrder(PosAt(raw.params), Radius(raw.params))
    case UnloadUnitTopic => UnloadUnitOrder(PosAt(raw.params), Truncate(raw.params[3]))
    case SetOnOffTopic => SetOnOffOrder(raw.params[0] != 0.0)
    case ReclaimUnitTopic => ReclaimUnitOrder(Truncate(raw.params[0]))
    case ReclaimFeatureTopic => ReclaimFeatureOrder(Truncate(raw.params[0]) - maxUnits)
    case ReclaimAreaTopic => ReclaimAreaOrder(PosAt(raw.params), Radius(raw.params))
    case CloakTopic => CloakOrder(raw.params[0] != 0.0)
    case StockpileTopic => StockpileOrder
    case DGunTopic => DGunOrder(Truncate(raw.params[0]))
    case DGunPosTopic => DGunPosOrder(PosAt(raw.params))
    case RestoreAreaTopic => RestoreAreaOrder(PosAt(raw.params), Radius(raw.params))
    case SetRepeatTopic => SetRepeatOrder(raw.params[0] != 0.0)
    case SetTrajectoryTopic => SetTrajectoryOrder(Truncate(raw.params[0]))
    case ResurrectTopic => ResurrectOrder(Truncate(raw.params[0]))
    case ResurrectAreaTopic => ResurrectAreaOrder(PosAt(raw.params), Radius(raw.params))
    case CaptureTopic => CaptureOrder(Truncate(raw.params[0]))
    case CaptureAreaTopic => CaptureAreaOrder(PosAt(raw.params), Radius(raw.params))
    case SetAutoRepairLevelTopic => SetAutoRepairLevelOrder(Truncate(raw.params[0]))
    case SetIdleModeTopic => SetIdleModeOrder(Truncate(raw.params[0]))
    case BuildTopic => BuildOrder(
      -raw.id,
      if |raw.params| >= 3 then Some(PosAt(raw.params)) else None,
      if |raw.params| >= 4 then Truncate(raw.params[3]) else UNIT_COMMAND_BUILD_NO_FACING)
    case CustomTopic => CustomOrder(raw.id, raw.params)
  }

  /** The parameters newCommand pushes. */
  function Pushed(order: Order, maxUnits: nat): seq<real> {
    match order
    case StopOrder => []
    case WaitOrder => []
    case WaitTimeOrder(n) => [n as real]
    case WaitDeathOrder(n) => [n as real]
    case WaitSquadOrder(n) => [n as real]
    case WaitGatherOrder => []
    case MoveOrder(pos) => PosParams(pos)
    case PatrolOrder(pos) => PosParams(pos)
    case FightOrder(pos) => PosParams(pos)
    case AttackOrder(n) => [n as real]
    case AttackAreaOrder(pos, radius) => PosParams(pos) + [radius]
    case GuardOrder(n) => [n as real]
    case GroupAddOrder(n) => [n as real]
    case GroupClearOrder => []
    case RepairOrder(n) => [n as real]
    case SetFireStateOrder(n) => [n as real]
    case SetMoveStateOrder(n) => [n as real]
    case SetBaseOrder(pos) => PosParams(pos)
    case SelfDestroyOrder => []
    case LoadUnitsOrder(ids) => Reals(ids)
    case LoadUnitsAreaOrder(pos, radius) => PosParams(pos) + [radius]
    case LoadOntoOrder(n) => [n as real]
    case UnloadUnitsAreaOrder(pos, radius) => PosParams(pos) + [radius]
    case UnloadUnitOrder(pos, n) => PosParams(pos) + [n as real]
    case SetOnOffOrder(on) => [Flag(on)]
    case ReclaimUnitOrder(n) => [n as real]
    case ReclaimFeatureOrder(n) => [(maxUnits + n) as real]
    case ReclaimAreaOrder(pos, radius) => PosParams(pos) + [radius]
    case CloakOrder(on) => [Flag(on)]
    case StockpileOrder => []
    case DGunOrder(n) => [n as real]
    case DGunPosOrder(pos) => PosParams(pos)
    case RestoreAreaOrder(pos, radius) => PosParams(pos) + [radius]
    case SetRepeatOrder(on) => [Flag(on)]
    case SetTrajectoryOrder(n) => [n as real]
    case ResurrectOrder(n) => [n as real]
    case ResurrectAreaOrder(pos, radius) => PosParams(pos) + [radius]
    case CaptureOrder(n) => [n as real]
    case CaptureAreaOrder(pos, radius) => PosParams(pos) + [radius]
    case SetAutoRepairLevelOrder(n) => [n as real]
    case SetIdleModeOrder(n) => [n as real]
    case BuildOrder(_, pos, facing) =>
      (if pos.Some? then PosParams(pos.value) else []) +
      (if facing != UNIT_COMMAND_BUILD_NO_FACING then [facing as real] else [])
    case CustomOrder(_, params) => params
    case Foreign => []
  }
  // ---- the normal form ----

  datatype Shape = NoParams | OneInt | OneFlag | Position | Area | PositionInt | Ints | BuildSite | Anything

  function ShapeOf(topic: Topic): Shape {
    match topic
    case StopTopic => NoParams
    case WaitTopic => NoParams
    case WaitGatherTopic => NoParams
    case GroupClearTopic => NoParams
    case SelfDestroyTopic => NoParams
    case StockpileTopic => NoParams
    case SetOnOffTopic => OneFlag
    case CloakTopic => OneFlag
    case SetRepeatTopic => OneFlag
    case MoveTopic => Position
    case PatrolTopic => Position
    case FightTopic => Position
    case SetBaseTopic => Position
    case DGunPosTopic => Position
    case AttackAreaTopic => Area
    case LoadUnitsAreaTopic => Area
    case UnloadUnitsAreaTopic => Area
    case ReclaimAreaTopic => Area
    case RestoreAreaTopic => Area
    case ResurrectAreaTopic => Area
    case CaptureAreaTopic => Area
    case UnloadUnitTopic => PositionInt
    case LoadUnitsTopic => Ints
    case BuildTopic => BuildSite
    case CustomTopic => Anything
    case _ => OneInt
  }

  function Needs(shape: Shape): nat {
    match shape
    case OneInt | OneFlag | Ints => 1
    case Position | Area => 3
    case PositionInt => 4
    case NoParams | BuildSite | Anything => 0
  }

  /** What becomes of the parameters of a command, by the shape of its topic. */
  function Normal(shape: Shape, params: seq<real>): seq<real>
    requires |params| >= Needs(shape)
  {
    match shape
    case NoParams => []
    case OneInt => [Truncate(params[0]) as real]
    case OneFlag => [Flag(params[0] != 0.0)]
    case Position => params[..3]
    case Area => params[..3] + [Radius(params)]
    case PositionInt => params[..3] + [Truncate(params[3]) as real]
    case Ints => Reals(Truncated(params))
    case BuildSite =>
      if |params| < 3 then []
      else if |params| == 3 || Truncate(params[3]) == UNIT_COMMAND_BUILD_NO_FACING then params[..3]
      else params[..3] + [Truncate(params[3]) as real]
    case Anything => params
  }

  lemma NeededByShape(topic: Topic)
    ensures Needed(topic) == Needs(ShapeOf(topic))
  {
  }

  lemma PushedIsInt(raw: RawCommand, topic: Topic, maxUnits: nat)
    requires ShapeOf(topic) == OneInt && |raw.params| >= 1
    ensures Needed(topic) == 1
    ensures Pushed(Filled(raw, topic, maxUnits), maxUnits) == [Truncate(raw.params[0]) as real]
  {
  }

  lemma PushedIsArea(raw: RawCommand, topic: Topic, maxUnits: nat)
    requires ShapeOf(topic) == Area && |raw.params| >= 3
    ensures Needed(topic) == 3
    ensures Pushed(Filled(raw, topic, maxUnits), maxUnits) == PosParams(PosAt(raw.params)) + [Radius(raw.params)]
  {
  }

  /** Through its struct, a command gets its parameters in normal form. */
  lemma PushedIsNormal(raw: RawCommand, topic: Topic, maxUnits: nat)
    requires |raw.params| >= Needed(topic)
    ensures |raw.params| >= Needs(ShapeOf(topic))
    ensures Pushed(Filled(raw, topic, maxUnits), maxUnits) == Normal(ShapeOf(topic), raw.params)
  {
    NeededByShape(topic);
    if |raw.params| >= 3 {
      assert PosParams(PosAt(raw.params)) == raw.params[..3];
    }
    if ShapeOf(topic) == OneInt {
      PushedIsInt(raw, topic, maxUnits);
    } else if ShapeOf(topic) == Area {
      PushedIsArea(raw, topic, maxUnits);
    } else {
      PushedIsOther(raw, topic, maxUnits);
    }
  }

  lemma PushedIsOther(raw: RawCommand, topic: Topic, maxUnits: nat)
    requires ShapeOf(topic) != OneInt && ShapeOf(topic) != Area
    requires |raw.params| >= Needed(topic) == Needs(ShapeOf(topic))
    requires |raw.params| >= 3 ==> PosParams(PosAt(raw.params)) == raw.params[..3]
    ensures Pushed(Filled(raw, topic, maxUnits), maxUnits) == Normal(ShapeOf(topic), raw.params)
  {
  }

  lemma FilledKeepsLowId(raw: RawCommand, first: real, maxUnits: nat)
    requires raw.id <= CMD_SELFD
    ensures var topic := ExtractTopic(raw.id, |raw.params|, first, maxUnits);
            |raw.params| >= Needed(topic) ==> ToInternal(Filled(raw, topic, maxUnits)) == raw.id
  {
  }

  lemma FilledKeepsMiddleId(raw: RawCommand, first: real, maxUnits: nat)
    requires CMD_SELFD < raw.id <= CMD_RECLAIM
    ensures var topic := ExtractTopic(raw.id, |raw.params|, first, maxUnits);
            |raw.params| >= Needed(topic) ==> ToInternal(Filled(raw, topic, maxUnits)) == raw.id
  {
  }

  lemma FilledKeepsHighId(raw: RawCommand, first: real, maxUnits: nat)
    requires raw.id > CMD_RECLAIM
    ensures var topic := ExtractTopic(raw.id, |raw.params|, first, maxUnits);
            |raw.params| >= Needed(topic) ==> ToInternal(Filled(raw, topic, maxUnits)) == raw.id
  {
  }

  /** The struct stands for the id that had the topic. */
  lemma FilledKeepsId(raw: RawCommand, first: real, maxUnits: nat)
    ensures var topic := ExtractTopic(raw.id, |raw.params|, first, maxUnits);
            |raw.params| >= Needed(topic) ==> ToInternal(Filled(raw, topic, maxUnits)) == raw.id
  {
    if raw.id <= CMD_SELFD {
      FilledKeepsLowId(raw, first, maxUnits);
    } else if raw.id <= CMD_RECLAIM {
      FilledKeepsMiddleId(raw, first, maxUnits);
    } else {
      FilledKeepsHighId(raw, first, maxUnits);
    }
  }

  lemma FilledKeepsIntTopic(raw: RawCommand, topic: Topic, maxUnits: nat)
    requires |raw.params| >= Needed(topic) && ShapeOf(topic) == OneInt
    ensures TopicOf(Filled(raw, topic, maxUnits)) == Some(topic)
  {
  }

  lemma FilledKeepsOtherTopic(raw: RawCommand, topic: Topic, maxUnits: nat)
    requires |raw.params| >= Needed(topic) && ShapeOf(topic) != OneInt
    ensures TopicOf(Filled(raw, topic, maxUnits)) == Some(topic)
  {
  }

  /** And it is the struct of that topic. */
  lemma FilledKeepsTopic(raw: RawCommand, topic: Topic, maxUnits: nat)
    requires |raw.params| >= Needed(topic)
    ensures TopicOf(Filled(raw, topic, maxUnits)) == Some(topic)
  {
    if ShapeOf(topic) == OneInt {
      FilledKeepsIntTopic(raw, topic, maxUnits);
    } else {
      FilledKeepsOtherTopic(raw, topic, maxUnits);
    }
  }

  /** Which parameters count as first matters to the topic of reclaim commands only, and never to the shape. */
  lemma FirstNeverMatters(id: int, n: nat, first: real, other: real, maxUnits: nat)
    ensures ShapeOf(ExtractTopic(id, n, first, maxUnits)) == ShapeOf(ExtractTopic(id, n, other, maxUnits))
    ensures ExtractTopic(id, n, first, maxUnits) == ExtractTopic(id, n, other, maxUnits) <==>
            (id != CMD_RECLAIM || !(n < 3 || n == 5) || ((first < maxUnits as real) <==> (other < maxUnits as real)))
  {
  }

  function First(params: seq<real>): real {
    if params == [] then 0.0 else params[0]
  }

  function HonestTopic(raw: RawCommand, maxUnits: nat): Topic {
    ExtractTopic(raw.id, |raw.params|, First(raw.params), maxUnits)
  }

  /**
   The first parameter as executeCommand finds it: its copy of the raw command has the first |params| bytes of
   the parameters, not that many parameters. What it reads of one cut short is the residue, a number
   without its high-order byte.
   */
  function CopiedFirst(params: seq<real>, residue: real): real {
    if 1 <= |params| < 4 then residue else First(params)
  }

  predicate IsResidue(residue: real) {
    0.0 <= residue < 1.0
  }

  /** The topic executeCommand goes by. */
  function ReadTopic(raw: RawCommand, maxUnits: nat, residue: real): Topic {
    ExtractTopic(raw.id, |raw.params|, CopiedFirst(raw.params, residue), maxUnits)
  }

  /** The topic is misread exactly for features to be reclaimed, given by one or two parameters. */
  lemma TopicMisreadIff(raw: RawCommand, maxUnits: nat, residue: real)
    requires IsResidue(residue) && maxUnits > 0
    ensures ReadTopic(raw, maxUnits, residue) != HonestTopic(raw, maxUnits) <==>
            (raw.id == CMD_RECLAIM && 1 <= |raw.params| < 3 && raw.params[0] >= maxUnits as real)
  {
    FirstNeverMatters(raw.id, |raw.params|, CopiedFirst(raw.params, residue), First(raw.params), maxUnits);
  }

  /** Reclaiming the first feature: it is taken for a unit, though the command that results is for the feature. */
  lemma ReclaimMisread(maxUnits: nat, residue: real)
    requires IsResidue(residue) && maxUnits > 0
    ensures var raw := RawCommand(CMD_RECLAIM, 0, 0, [maxUnits as real]);
            && ReadTopic(raw, maxUnits, residue) == ReclaimUnitTopic
            && HonestTopic(raw, maxUnits) == ReclaimFeatureTopic
            && Executed(raw).params == [maxUnits as real]
  {
    TruncateInt(maxUnits);
  }

  predicate WellFormed(raw: RawCommand) {
    |raw.params| >= Needs(ShapeOf(HonestTopic(raw, 0)))
  }

  /** The command an AI's raw command results in. */
  function Executed(raw: RawCommand): UnitCommand
    requires WellFormed(raw)
  {
    UnitCommand(raw.id, -1, raw.timeOut, 0, raw.options, Normal(ShapeOf(HonestTopic(raw, 0)), raw.params))
  }

  /** How many parameters each command needs, by its id. */
  lemma WellFormedIs(raw: RawCommand)
    ensures
      WellFormed(raw) <==>
        |raw.params| >=
          if raw.id == 81 then 4
          else if raw.id in {10, 15, 16, 55, 80, 110} then 3
          else if raw.id in {6, 7, 8, 20, 25, 36, 40, 45, 50, 75, 76, 85, 90, 95, 105, 115, 120, 125, 130, 135, 145}
          then 1
          else 0
  {
  }

  /** The parameters of the result, for commands that take none, whole numbers, or on and off. */
  lemma ExecutedNumbers(raw: RawCommand)
    requires WellFormed(raw)
    ensures raw.id in {0, 5, 9, 37, 65, 100} ==> Executed(raw).params == []
    ensures raw.id in {6, 7, 8, 25, 36, 40, 45, 50, 76, 120, 135, 145} ==>
              raw.params != [] && Executed(raw).params == [Truncate(raw.params[0]) as real]
    ensures raw.id in {85, 95, 115} ==>
              raw.params != [] && Executed(raw).params == [if raw.params[0] != 0.0 then 1.0 else 0.0]
  {
    WellFormedIs(raw);
  }

  /** For commands for a place, where a build order may do without, and its facing may be left open. */
  lemma ExecutedPlaces(raw: RawCommand)
    requires WellFormed(raw)
    ensures raw.id in {10, 15, 16, 55} ==> |raw.params| >= 3 && Executed(raw).params == raw.params[..3]
    ensures raw.id in {80, 110} ==>
              && |raw.params| >= 3
              && Executed(raw).params ==
                 raw.params[..3] + [if |raw.params| >= 4 then raw.params[3] else 0.0]
    ensures raw.id == 81 ==>
              |raw.params| >= 4 && Executed(raw).params == raw.params[..3] + [Truncate(raw.params[3]) as real]
    ensures raw.id < 0 ==>
              Executed(raw).params ==
                if |raw.params| < 3 then []
                else if |raw.params| == 3 || Truncate(raw.params[3]) == -1 then raw.params[..3]
                else raw.params[..3] + [Truncate(raw.params[3]) as real]
  {
    WellFormedIs(raw);
  }

  /** For commands that are for one thing or an area as the number of parameters tells, and all the others. */
  lemma ExecutedTargets(raw: RawCommand)
    requires WellFormed(raw)
    ensures
      var n, params := |raw.params|, Executed(raw).params;
      && (raw.id in {20, 90, 105, 125, 130} ==>
            && n >= 1
            && params ==
               (if n < 3 || (n == 5 && raw.id in {90, 130}) then [Truncate(raw.params[0]) as real]
                else if raw.id == 105 then raw.params[..3]
                else raw.params[..3] + [if n >= 4 then raw.params[3] else 0.0]))
      && (raw.id == 75 && n >= 3 ==> params == raw.params[..3] + [if n >= 4 then raw.params[3] else 0.0])
      && (raw.id == 75 && n < 3 ==> params == seq(n, i requires 0 <= i < n => Truncate(raw.params[i]) as real))
      && (raw.id < 0 || params == raw.params ||
          raw.id in {0, 5, 6, 7, 8, 9, 10, 15, 16, 20, 25, 36, 37, 40, 45, 50, 55, 65, 75, 76, 80, 81, 85, 90, 95,
                     100, 105, 110, 115, 120, 125, 130, 135, 145})
  {
    WellFormedIs(raw);
    if raw.id == 75 && |raw.params| < 3 {
      assert Reals(Truncated(raw.params)) ==
        seq(|raw.params|, i requires 0 <= i < |raw.params| => Truncate(raw.params[i]) as real);
    }
  }

  lemma TruncateBelow(x: real, n: nat)
    requires n > 0
    ensures x < n as real <==> Truncate(x) < n
  {
  }

  lemma {:induction false} NormalIsFixed(shape: Shape, params: seq<real>)
    requires |params| >= Needs(shape)
    ensures |Normal(shape, params)| >= Needs(shape)
    ensures Normal(shape, Normal(shape, params)) == Normal(shape, params)
  {
    var normal := Normal(shape, params);
    match shape {
      case OneInt =>
        TruncateInt(Truncate(params[0]));
      case PositionInt =>
        TruncateInt(Truncate(params[3]));
      case BuildSite =>
        if |normal| > 3 {
          TruncateInt(Truncate(params[3]));
        }
      case Ints =>
        forall i | 0 <= i < |params|
          ensures Truncate(normal[i]) as real == normal[i]
        {
          TruncateInt(Truncate(params[i]));
        }
      case _ =>
    }
  }

  /** Whether a command that may be for one thing or for an area is for one thing. */
  predicate ForOne(id: int, n: nat) {
    n < 3 || (n == 5 && (id == CMD_RECLAIM || id == CMD_CAPTURE))
  }

  /** All that the number of parameters tells about the topic. */
  lemma NumberMatters(id: int, n: nat, m: nat, first: real, maxUnits: nat)
    requires ForOne(id, n) == ForOne(id, m)
    ensures ExtractTopic(id, n, first, maxUnits) == ExtractTopic(id, m, first, maxUnits)
  {
  }

  predicate Splits(id: int) {
    id in {CMD_ATTACK, CMD_LOAD_UNITS, CMD_RECLAIM, CMD_MANUALFIRE, CMD_RESURRECT, CMD_CAPTURE}
  }

  lemma NumberMattersToFew(id: int, n: nat, m: nat, first: real, maxUnits: nat)
    requires !Splits(id)
    ensures ExtractTopic(id, n, first, maxUnits) == ExtractTopic(id, m, first, maxUnits)
  {
  }

  /** The number of parameters that the normal form has tells the same. */
  lemma NormalKeepsNumber(raw: RawCommand)
    requires WellFormed(raw) && Splits(raw.id)
    ensures ForOne(raw.id, |Executed(raw).params|) == ForOne(raw.id, |raw.params|)
  {
  }

  lemma NormalKeepsAll(raw: RawCommand, first: real, maxUnits: nat)
    requires WellFormed(raw)
    ensures ExtractTopic(raw.id, |Executed(raw).params|, first, maxUnits) ==
            ExtractTopic(raw.id, |raw.params|, first, maxUnits)
  {
    if Splits(raw.id) {
      NormalKeepsNumber(raw);
      NumberMatters(raw.id, |Executed(raw).params|, |raw.params|, first, maxUnits);
    } else {
      NumberMattersToFew(raw.id, |Executed(raw).params|, |raw.params|, first, maxUnits);
    }
  }

  lemma NormalKeepsShape(raw: RawCommand)
    requires WellFormed(raw)
    ensures ShapeOf(HonestTopic(ToRaw(Executed(raw)), 0)) == ShapeOf(HonestTopic(raw, 0))
  {
    var normal := Executed(raw).params;
    NormalKeepsAll(raw, First(raw.params), 0);
    FirstNeverMatters(raw.id, |normal|, First(normal), First(raw.params), 0);
  }

  /** A command keeps its id, options, time-out and topic, and executing it once more changes nothing. */
  lemma ExecutedIsNormal(raw: RawCommand, maxUnits: nat)
    requires WellFormed(raw) && maxUnits > 0
    ensures var c := Executed(raw);
            && c.id == raw.id && c.options == raw.options && c.timeOut == raw.timeOut
            && HonestTopic(ToRaw(c), maxUnits) == HonestTopic(raw, maxUnits)
            && WellFormed(ToRaw(c)) && Executed(ToRaw(c)) == c
  {
    var shape := ShapeOf(HonestTopic(raw, 0));
    NormalKeepsShape(raw);
    NormalIsFixed(shape, raw.params);
    NormalKeepsTopic(raw, maxUnits);
  }

  lemma NormalKeepsTopic(raw: RawCommand, maxUnits: nat)
    requires WellFormed(raw) && maxUnits > 0
    ensures HonestTopic(ToRaw(Executed(raw)), maxUnits) == HonestTopic(raw, maxUnits)
  {
    var normal := Executed(raw).params;
    NormalKeepsAll(raw, First(raw.params), maxUnits);
    if raw.id == CMD_RECLAIM && (|raw.params| < 3 || |raw.params| == 5) {
      TruncateBelow(raw.params[0], maxUnits);
      assert normal == [Truncate(raw.params[0]) as real];
    }
    FirstNeverMatters(raw.id, |normal|, First(normal), First(raw.params), maxUnits);
  }

  // ---- the operations ----

  /** What an order leads to. */
  datatype Outcome = Refused | ToUnit(unitId: int, c: UnitCommand) | ToGroup(groupId: int, c: UnitCommand)

  /** The orders for a place, but for building. */
  predicate IsPlaceOrder(order: Order) {
    || order.MoveOrder?
    || order.PatrolOrder?
    || order.FightOrder?
    || order.AttackAreaOrder?
    || order.SetBaseOrder?
    || order.LoadUnitsAreaOrder?
    || order.UnloadUnitsAreaOrder?
    || order.UnloadUnitOrder?
    || order.ReclaimAreaOrder?
    || order.DGunPosOrder?
    || order.RestoreAreaOrder?
    || order.ResurrectAreaOrder?
    || order.CaptureAreaOrder?
  }

  class Command {
    var id: int
    var aiId: int
    var timeOut: int
    var tag: int
    var options: int
    var params: seq<real>

    constructor ()
      ensures Value() == UnitCommand(0, -1, 0x7fff_ffff, 0, 0, [])
    {
      id, aiId, timeOut, tag, options, params := 0, -1, 0x7fff_ffff, 0, 0, [];
    }

    function Value(): UnitCommand
      reads this
    {
      UnitCommand(id, aiId, timeOut, tag, options, params)
    }

    /** An empty command with its time-out set. */
    method Reset(id: int, options: int, timeOut: int)
      modifies this
      ensures Value() == UnitCommand(id, -1, timeOut, 0, options, [])
    {
      this.id, this.aiId, this.tag, this.options, this.params := id, -1, 0, options, [];
      this.timeOut := timeOut;
    }

    method ResetTo(id: int, options: int, param: real, timeOut: int)
      modifies this
      ensures Value() == UnitCommand(id, -1, timeOut, 0, options, [param])
    {
      Reset(id, options, timeOut);
      PushParam(param);
    }

    method PushParam(param: real)
      modifies this`params
      ensures params == old(params) + [param]
    {
      params := params + [param];
    }

    method PushPos(pos: Pos)
      modifies this`params
      ensures params == old(params) + PosParams(pos)
    {
      PushParam(pos.x);
      PushParam(pos.y);
      PushParam(pos.z);
    }

    method ResetToPos(id: int, options: int, pos: Pos, timeOut: int)
      modifies this
      ensures Value() == UnitCommand(id, -1, timeOut, 0, options, PosParams(pos))
    {
      Reset(id, options, timeOut);
      PushPos(pos);
    }

    method ResetToArea(id: int, options: int, pos: Pos, last: real, timeOut: int)
      modifies this
      ensures Value() == UnitCommand(id, -1, timeOut, 0, options, PosParams(pos) + [last])
    {
      ResetToPos(id, options, pos, timeOut);
      PushParam(last);
    }

    method PushIds(ids: seq<int>)
      modifies this`params
      ensures params == old(params) + Reals(ids)
    {
      for i := 0 to |ids|
        invariant params == old(params) + Reals(ids)[..i]
      {
        PushParam(ids[i] as real);
      }
    }

    method PushParams(more: seq<real>)
      modifies this`params
      ensures params == old(params) + more
    {
      for i := 0 to |more|
        invariant params == old(params) + more[..i]
      {
        PushParam(more[i]);
      }
    }

    /** The cases of newCommand that push a position. */
    method NewPlaceCommand(cmd: AICommand)
      requires IsPlaceOrder(cmd.order)
      modifies this
      ensures Value() == UnitCommand(ToInternal(cmd.order), -1, cmd.timeOut, 0, cmd.options, Pushed(cmd.order, 0))
    {
      match cmd.order {
        case MoveOrder(toPos) =>
          ResetToPos(CMD_MOVE, cmd.options, toPos, cmd.timeOut);
        case PatrolOrder(toPos) =>
          ResetToPos(CMD_PATROL, cmd.options, toPos, cmd.timeOut);
        case FightOrder(toPos) =>
          ResetToPos(CMD_FIGHT, cmd.options, toPos, cmd.timeOut);
        case AttackAreaOrder(toAttackPos, radius) =>
          ResetToArea(CMD_ATTACK, cmd.options, toAttackPos, radius, cmd.timeOut);
        case SetBaseOrder(basePos) =>
          ResetToPos(CMD_SETBASE, cmd.options, basePos, cmd.timeOut);
        case LoadUnitsAreaOrder(pos, radius) =>
          ResetToArea(CMD_LOAD_UNITS, cmd.options, pos, radius, cmd.timeOut);
        case UnloadUnitsAreaOrder(toPos, radius) =>
          ResetToArea(CMD_UNLOAD_UNITS, cmd.options, toPos, radius, cmd.timeOut);
        case UnloadUnitOrder(toPos, toUnloadUnitId) =>
          ResetToArea(CMD_UNLOAD_UNIT, cmd.options, toPos, toUnloadUnitId as real, cmd.timeOut);
        case ReclaimAreaOrder(pos, radius) =>
          ResetToArea(CMD_RECLAIM, cmd.options, pos, radius, cmd.timeOut);
        case DGunPosOrder(pos) =>
          ResetToPos(CMD_MANUALFIRE, cmd.options, pos, cmd.timeOut);
        case RestoreAreaOrder(pos, radius) =>
          ResetToArea(CMD_RESTORE, cmd.options, pos, radius, cmd.timeOut);
        case ResurrectAreaOrder(pos, radius) =>
          ResetToArea(CMD_RESURRECT, cmd.options, pos, radius, cmd.timeOut);
        case CaptureAreaOrder(pos, radius) =>
          ResetToArea(CMD_CAPTURE, cmd.options, pos, radius, cmd.timeOut);
      }
    }

    /** newCommand; false if the struct is of no unit command. */
    method NewCommand(cmd: AICommand, maxUnits: nat) returns (known: bool)
      modifies this
      ensures known <==> cmd.order != Foreign
      ensures known ==>
                Value() ==
                UnitCommand(ToInternal(cmd.order), -1, cmd.timeOut, 0, cmd.options, Pushed(cmd.order, maxUnits))
    {
      if IsPlaceOrder(cmd.order) {
        NewPlaceCommand(cmd);
        return true;
      }
      match cmd.order {
        case StopOrder =>
          Reset(CMD_STOP, cmd.options, cmd.timeOut);
        case WaitOrder =>
          Reset(CMD_WAIT, cmd.options, cmd.timeOut);
        case WaitTimeOrder(time) =>
          ResetTo(CMD_TIMEWAIT, cmd.options, time as real, cmd.timeOut);
        case WaitDeathOrder(toDieUnitId) =>
          ResetTo(CMD_DEATHWAIT, cmd.options, toDieUnitId as real, cmd.timeOut);
        case WaitSquadOrder(numUnits) =>
          ResetTo(CMD_SQUADWAIT, cmd.options, numUnits as real, cmd.timeOut);
        case WaitGatherOrder =>
          Reset(CMD_GATHERWAIT, cmd.options, cmd.timeOut);
        case AttackOrder(toAttackUnitId) =>
          ResetTo(CMD_ATTACK, cmd.options, toAttackUnitId as real, cmd.timeOut);
        case GuardOrder(toGuardUnitId) =>
          ResetTo(CMD_GUARD, cmd.options, toGuardUnitId as real, cmd.timeOut);
        case GroupAddOrder(toGroupId) =>
          ResetTo(CMD_GROUPADD, cmd.options, toGroupId as real, cmd.timeOut);
        case GroupClearOrder =>
          Reset(CMD_GROUPCLEAR, cmd.options, cmd.timeOut);
        case RepairOrder(toRepairUnitId) =>
          ResetTo(CMD_REPAIR, cmd.options, toRepairUnitId as real, cmd.timeOut);
        case SetFireStateOrder(fireState) =>
          ResetTo(CMD_FIRE_STATE, cmd.options, fireState as real, cmd.timeOut);
        case SetMoveStateOrder(moveState) =>
          ResetTo(CMD_MOVE_STATE, cmd.options, moveState as real, cmd.timeOut);
        case SelfDestroyOrder =>
          Reset(CMD_SELFD, cmd.options, cmd.timeOut);
        case LoadUnitsOrder(toLoadUnitIds) =>
          Reset(CMD_LOAD_UNITS, cmd.options, cmd.timeOut);
          PushIds(toLoadUnitIds);
        case LoadOntoOrder(transporterUnitId) =>
          ResetTo(CMD_LOAD_ONTO, cmd.options, transporterUnitId as real, cmd.timeOut);
        case SetOnOffOrder(on) =>
          ResetTo(CMD_ONOFF, cmd.options, if on then 1.0 else 0.0, cmd.timeOut);
        case ReclaimUnitOrder(toReclaimUnitId) =>
          ResetTo(CMD_RECLAIM, cmd.options, toReclaimUnitId as real, cmd.timeOut);
        case ReclaimFeatureOrder(toReclaimFeatureId) =>
          ResetTo(CMD_RECLAIM, cmd.options, (maxUnits + toReclaimFeatureId) as real, cmd.timeOut);
        case CloakOrder(cloak) =>
          ResetTo(CMD_CLOAK, cmd.options, if cloak then 1.0 else 0.0, cmd.timeOut);
        case StockpileOrder =>
          Reset(CMD_STOCKPILE, cmd.options, cmd.timeOut);
        case DGunOrder(toAttackUnitId) =>
          ResetTo(CMD_MANUALFIRE, cmd.options, toAttackUnitId as real, cmd.timeOut);
        case SetRepeatOrder(repeat) =>
          ResetTo(CMD_REPEAT, cmd.options, if repeat then 1.0 else 0.0, cmd.timeOut);
        case SetTrajectoryOrder(trajectory) =>
          ResetTo(CMD_TRAJECTORY, cmd.options, trajectory as real, cmd.timeOut);
        case ResurrectOrder(toResurrectFeatureId) =>
          ResetTo(CMD_RESURRECT, cmd.options, toResurrectFeatureId as real, cmd.timeOut);
        case CaptureOrder(toCaptureUnitId) =>
          ResetTo(CMD_CAPTURE, cmd.options, toCaptureUnitId as real, cmd.timeOut);
        case SetAutoRepairLevelOrder(autoRepairLevel) =>
          ResetTo(CMD_AUTOREPAIRLEVEL, cmd.options, autoRepairLevel as real, cmd.timeOut);
        case SetIdleModeOrder(idleMode) =>
          ResetTo(CMD_IDLEMODE, cmd.options, idleMode as real, cmd.timeOut);
        case BuildOrder(toBuildUnitDefId, buildPos, facing) =>
          Reset(-toBuildUnitDefId, cmd.options, cmd.timeOut);
          if buildPos.Some? {
            PushPos(buildPos.value);
          }
          if facing != UNIT_COMMAND_BUILD_NO_FACING {
            PushParam(facing as real);
          }
        case CustomOrder(cmdId, params) =>
          Reset(cmdId, cmd.options, cmd.timeOut);
          PushParams(params);
        case Foreign =>
          return false;
      }
      known := true;
    }

    /** The default case of handleCommand. */
    method HandleCommand(cmd: AICommand, commandId: int, maxUnits: nat) returns (outcome: Outcome)
      modifies this
      ensures
        var params := Pushed(cmd.order, maxUnits);
        var c := UnitCommand(ToInternal(cmd.order), commandId, cmd.timeOut, 0, cmd.options, params);
        outcome ==
          if cmd.order == Foreign then Refused
          else if cmd.unitId >= 0 then ToUnit(cmd.unitId, c)
          else ToGroup(cmd.groupId, c)
    {
      var known := NewCommand(cmd, maxUnits);
      if !known {
        return Refused;
      }
      aiId := commandId;
      if cmd.unitId >= 0 {
        outcome := ToUnit(cmd.unitId, Value());
      } else {
        outcome := ToGroup(cmd.groupId, Value());
      }
    }
  }

  /** A raw command that has what its topic needs is executed in normal form; loading no units is refused. */
  method ExecuteCommand(unitId: int, groupId: int, raw: RawCommand, maxUnits: nat, residue: real)
    returns (outcome: Outcome)
    requires WellFormed(raw) || (raw.id == CMD_LOAD_UNITS && raw.params == [])
    ensures outcome ==
              if !WellFormed(raw) then Refused
              else if unitId >= 0 then ToUnit(unitId, Executed(raw))
              else ToGroup(groupId, Executed(raw))
  {
    var topic := ReadTopic(raw, maxUnits, residue);
    FirstNeverMatters(raw.id, |raw.params|, CopiedFirst(raw.params, residue), First(raw.params), maxUnits);
    NeededByShape(topic);
    ShapeIgnoresMaxUnits(raw, maxUnits);
    var order: Order;
    if topic == LoadUnitsTopic {
      if raw.params == [] {
        return Refused;
      }
      var toLoadUnitIds := TruncateAll(raw.params);
      order := LoadUnitsOrder(toLoadUnitIds);
    } else {
      order := Filled(raw, topic, maxUnits);
    }
    FilledKeepsId(raw, CopiedFirst(raw.params, residue), maxUnits);
    PushedIsNormal(raw, topic, maxUnits);
    var c := new Command();
    outcome := c.HandleCommand(AICommand(unitId, groupId, raw.options, raw.timeOut, order), -1, maxUnits);
  }

  lemma ShapeIgnoresMaxUnits(raw: RawCommand, maxUnits: nat)
    ensures ShapeOf(HonestTopic(raw, maxUnits)) == ShapeOf(HonestTopic(raw, 0))
  {
  }

  method TruncateAll(params: seq<real>) returns (ids: seq<int>)
    ensures ids == Truncated(params)
  {
    ids := [];
    for u := 0 to |params|
      invariant ids == Truncated(params)[..u]
    {
      ids := ids + [Truncate(params[u])];
    }
  }
}
