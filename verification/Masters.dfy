/** The master process: start-up, parameter loading and the tick that ties the parts together. */
module Masters {
  import opened Options
  import opened MessageData
  import opened Communications
  import opened Robots
  import opened Configs
  import opened Controllers
  import opened Operations

  /** One robot's entry in the robot file. */
  datatype RobotParams = RobotParams(limits: Limits, mechanicalZero: seq<real>, userZero: seq<real>)

  type RobotRoot = map<string, RobotParams>

  /** What the slave shows of itself. */
  datatype Slave = Slave(status: RunStatus, dof: nat, name: string, heartbeat: Word)

  datatype System = System(ipc: Ipc, connect: bool, desk: Desk, robot: RobotValue, slave: Slave, robotFile: Option<RobotRoot>)

  /** An element of a JSON array of numbers; 0 where the array has none. */
  function AsDouble(list: seq<real>, i: nat): real {
    if i < |list| then list[i] else 0.0
  }

  /** The first `n` elements, missing ones read as 0. */
  function Padded(list: seq<real>, n: nat): (r: seq<real>)
    ensures |r| == n && forall i | 0 <= i < n :: r[i] == AsDouble(list, i)
  {
    seq(n, i requires 0 <= i < n => AsDouble(list, i))
  }

  function Params(f: Option<RobotRoot>, name: string): RobotParams {
    if f.Some? && name in f.value then f.value[name] else RobotParams(Limits([], [], [], [], []), [], [])
  }

  function PaddedLimits(l: Limits, n: nat): Limits {
    Limits(Padded(l.qMax, n), Padded(l.qMin, n), Padded(l.dq, n), Padded(l.ddq, n), Padded(l.dddq, n))
  }

  /** On connection: the slave's degrees of freedom, then its zeros and limits from the file. */
  function RobotInitialised(s: System): System
    requires CommandShape(s.desk.command) && s.slave.dof <= JOINTS
  {
    var p := Params(s.robotFile, s.slave.name);
    s.(robot := RobotValue(s.slave.dof, Padded(p.userZero, s.slave.dof), Padded(p.mechanicalZero, s.slave.dof)),
       desk := s.desk.(command := LimitsSet(s.desk.command, PaddedLimits(p.limits, s.slave.dof))))
  }

  /** One call of robotRun. */
  function RobotRan(s: System): System
    requires CommandShape(s.desk.command) && s.slave.dof <= JOINTS
  {
    var ipc := Received(s.ipc, MAX_TIMEOUT_COUNT, s.slave.heartbeat);
    var t := s.(ipc := ipc);
    var u :=
      if ipc.link.status.SuccessConnect? then RobotInitialised(t).(connect := true)
      else if ipc.link.status.Disconnected? then t.(connect := false)
      else t;
    u.(desk := JogChecked(u.desk))
  }

  /** startIPC and initControllerParam of a new master process over the same shared memory. */
  function Restarted(s: System, buffer: RobotData, stamp: string): System
    requires WellTyped(Read(s.desk.config))
  {
    s.(ipc := Ipc(FreshLink(s.slave.heartbeat), [], buffer, 0),
       connect := false,
       desk := Initialised(s.desk.(jogTimeCount := 0), s.slave.status, stamp),
       robot := NewRobot(s.slave.dof))
  }

  /** The reading loop of initRobotParam. */
  method ReadRobotParams(p: RobotParams, dof: nat) returns (l: Limits, mechanicalZero: seq<real>, userZero: seq<real>)
    ensures l == PaddedLimits(p.limits, dof)
    ensures mechanicalZero == Padded(p.mechanicalZero, dof) && userZero == Padded(p.userZero, dof)
  {
    var qMax, qMin, dq, ddq, dddq := [], [], [], [], [];
    mechanicalZero, userZero := [], [];
    var i := 0;
    while i < dof
      invariant i <= dof
      invariant qMax == Padded(p.limits.qMax, i) && qMin == Padded(p.limits.qMin, i)
      invariant dq == Padded(p.limits.dq, i) && ddq == Padded(p.limits.ddq, i) && dddq == Padded(p.limits.dddq, i)
      invariant mechanicalZero == Padded(p.mechanicalZero, i) && userZero == Padded(p.userZero, i)
    {
      qMax := qMax + [AsDouble(p.limits.qMax, i)];
      qMin := qMin + [AsDouble(p.limits.qMin, i)];
      dq := dq + [AsDouble(p.limits.dq, i)];
      ddq := ddq + [AsDouble(p.limits.ddq, i)];
      dddq := dddq + [AsDouble(p.limits.dddq, i)];
      mechanicalZero := mechanicalZero + [AsDouble(p.mechanicalZero, i)];
      userZero := userZero + [AsDouble(p.userZero, i)];
      i := i + 1;
    }
    l := Limits(qMax, qMin, dq, ddq, dddq);
  }

  class Master {
    const communication: Communication
    const controller: Controller
    const robot: Robot
    const robotFile: Option<RobotRoot>

    ghost predicate Wired()
    {
      && communication.buffer == robot.buffer
      && communication.maxTimeoutCount == MAX_TIMEOUT_COUNT
      && controller.command.Valid()
    }

    ghost function Value(): System
      reads communication, communication.heartbeats, communication.queue, communication.buffer
      reads controller, controller.command, controller.command.Arrays(), controller.config, controller.state
      reads robot
    {
      System(communication.Value(), controller.connect, controller.Value(), robot.Value(),
             Slave(controller.state.controllerStatus, controller.state.robotDof, controller.state.name,
                   communication.heartbeats.slaveHeartbeat),
             robotFile)
    }

    /** The system as a starting process finds it; only what outlives a process matters. */
    static ghost function Found(heartbeats: Heartbeats, command: ControllerCommand, state: ControllerState,
                                config: ConfigFile, robotFile: Option<RobotRoot>, buffer: RobotData): System
      reads heartbeats, command, command.Arrays(), state, config
    {
      System(Ipc(FreshLink(heartbeats.slaveHeartbeat), [], buffer, heartbeats.masterHeartbeat), false,
             Desk(command.Value(), 0, config.Value()), NewRobot(state.robotDof),
             Slave(state.controllerStatus, state.robotDof, state.name, heartbeats.slaveHeartbeat), robotFile)
    }

    constructor StartIPC(heartbeats: Heartbeats, queue: MessageQueue, command: ControllerCommand, state: ControllerState,
                         config: ConfigFile, robotFile: Option<RobotRoot>, buffer: RobotData)
      requires command.Valid()
      modifies heartbeats`masterHeartbeat, queue
      ensures Wired() && fresh(communication) && fresh(controller) && fresh(robot) && fresh(communication.buffer)
      ensures controller.command == command && controller.config == config && controller.state == state
      ensures communication.heartbeats == heartbeats && communication.queue == queue
      ensures Value() == old(Found(heartbeats, command, state, config, robotFile, buffer)).(
                           ipc := Ipc(FreshLink(heartbeats.slaveHeartbeat), [], buffer, 0))
    {
      this.robotFile := robotFile;
      var messageBuffer := new MessageBuffer(buffer);
      communication := new Communication.CreateConnect(heartbeats, queue, messageBuffer);
      controller := new Controller(command, state, config);
      robot := new Robot(state.robotDof, messageBuffer);
      new;
      var count := communication.ClearMsg();
    }

    method InitRobotParam()
      requires Wired() && robot.robotDof == controller.state.robotDof <= JOINTS
      modifies robot, controller.command, controller.command.Arrays()
      ensures Value() == RobotInitialised(old(Value()))
    {
      var l, mechanicalZero, userZero := ReadRobotParams(Params(robotFile, controller.state.name), robot.robotDof);
      robot.userZeroPosition := userZero;
      robot.mechanicalZeroPosition := mechanicalZero;
      controller.SetUserJointLimit(l);
    }

    method InitControllerParam(stamp: string)
      requires Wired() && WellTyped(Read(controller.config.Value()))
      modifies controller.command, controller.config
      ensures Value() == old(Value()).(desk := Initialised(old(controller.Value()), controller.state.controllerStatus, stamp))
    {
      KeysDiffer();
      hide JogSpeedSet, RunSpeedSet, LawChanged, PlannerChanged, SpaceChanged;
      hide RUN_SPEED, JOG_SPEED, CONTROL_LAW, PLANNER, SPACE, CONTROLLER_ID;
      var readable, root := controller.config.GetJsonValueFromFile();
      root := root[CONTROLLER_ID := Text(stamp)];
      var ok := controller.config.SetJsonValueToFile(root);
      controller.SetJogSpeed(AsInt(root, JOG_SPEED));
      controller.SetRunSpeed(AsInt(root, RUN_SPEED));
      ok := controller.ChangeControllerLaw(AsInt(root, CONTROL_LAW));
      ok := controller.ChangePlanner(AsInt(root, PLANNER));
      ok := controller.ChangeSpace(AsInt(root, SPACE));
      assert controller.Value() == Initialised(old(controller.Value()), controller.state.controllerStatus, stamp);
      hide Initialised;
    }

    method RobotRun()
      requires Wired() && controller.state.robotDof <= JOINTS
      modifies communication, communication.heartbeats`masterHeartbeat, communication.queue, communication.buffer
      modifies controller, controller.command, controller.command.Arrays(), robot
      ensures Value() == RobotRan(old(Value()))
    {
      hide Received, JogChecked;
      var status := communication.ComRecvMessage();
      if status == SuccessConnect {
        robot.robotDof := controller.state.robotDof;
        InitRobotParam();
        controller.connect := true;
      }
      if status == Disconnected {
        controller.connect := false;
      }
      controller.JogCheckTimeOut();
    }
  }

  /** The start of the main program up to the endless loop. */
  method Start(heartbeats: Heartbeats, queue: MessageQueue, command: ControllerCommand, state: ControllerState,
               config: ConfigFile, robotFile: Option<RobotRoot>, buffer: RobotData, stamp: string) returns (m: Master)
    requires command.Valid() && WellTyped(Read(config.Value()))
    modifies heartbeats`masterHeartbeat, queue, command, config
    ensures m.Wired() && fresh(m)
    ensures m.Value() == Restarted(old(Master.Found(heartbeats, command, state, config, robotFile, buffer)), buffer, stamp)
  {
    m := new Master.StartIPC(heartbeats, queue, command, state, config, robotFile, buffer);
    m.InitControllerParam(stamp);
  }
}
