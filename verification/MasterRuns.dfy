/** Whole runs of the system: master ticks, operator requests, master restarts and slave steps,
    interleaved in any order. */
module MasterRuns {
  import opened Options
  import opened MessageData
  import opened Communications
  import opened Robots
  import opened Configs
  import opened Controllers
  import opened Operations
  import opened Masters

  /** The last eight are the slave's; it counts its heartbeat, reports its state, sends messages
      and clears signs, and writes nothing else. */
  datatype Step =
    | Tick
    | Operate(op: Op)
    | Restart(buffer: RobotData, stamp: string)
    | Beat(counts: nat)
    | Report(status: RunStatus)
    | Describe(dof: nat, name: string)
    | Send(message: Message)
    | TakeRun
    | TakeStop
    | TakeLimit
    | ClearJog

  ghost predicate Sound(s: System) {
    && CommandShape(s.desk.command)
    && s.slave.dof <= JOINTS
    && WellTyped(Read(s.desk.config))
  }

  /** What the callers and the slave must respect. */
  ghost predicate Enabled(s: System, step: Step)
    requires Sound(s)
  {
    && (step.Operate? ==> Allowed(s.desk, s.slave.status, s.robot.userZero, step.op))
    && (step.Describe? ==> step.dof <= JOINTS)
  }

  function OnCommand(s: System, c: Command): System {
    s.(desk := s.desk.(command := c))
  }

  function Next(s: System, step: Step): System
    requires Sound(s) && Enabled(s, step)
  {
    var c := s.desk.command;
    match step
    case Tick => RobotRan(s)
    case Operate(op) => s.(desk := Applied(s.desk, s.slave.status, s.robot.userZero, op))
    case Restart(buffer, stamp) => Restarted(s, buffer, stamp)
    case Beat(counts) => s.(slave := s.slave.(heartbeat := (s.slave.heartbeat + counts) % WORD))
    case Report(status) => s.(slave := s.slave.(status := status))
    case Describe(dof, name) => s.(slave := s.slave.(dof := dof, name := name))
    case Send(message) => s.(ipc := s.ipc.(queue := s.ipc.queue + [message]))
    case TakeRun => OnCommand(s, c.(runSign := false))
    case TakeStop => OnCommand(s, c.(stopSign := false))
    case TakeLimit => OnCommand(s, c.(newLimit := false))
    case ClearJog => OnCommand(s, c.(jogSign := false))
  }

  /** Frame of a tick: of the command memory it touches the jog sign and, on a connection, the limits. */
  lemma TickFrame(s: System)
    requires Sound(s)
    ensures var c, r := s.desk.command, RobotRan(s).desk.command;
            && CommandShape(r)
            && r == c.(jogSign := r.jogSign, newLimit := r.newLimit, limits := r.limits)
            && (r.newLimit == (c.newLimit || Ticked(s.ipc.link, MAX_TIMEOUT_COUNT, s.slave.heartbeat).status.SuccessConnect?))
            && (c.newLimit || !r.newLimit ==> r.limits == c.limits)
    ensures RobotRan(s).desk.config == s.desk.config && RobotRan(s).slave == s.slave
    ensures RobotRan(s).desk.jogTimeCount == JogChecked(s.desk).jogTimeCount
    ensures RobotRan(s).desk.command.jogSign == JogChecked(s.desk).command.jogSign
  {
    hide Ticked, TakenMessage, WithoutTaken, PaddedLimits;
  }

  /** Frame of a restart: of the command memory it touches the five settings. */
  lemma RestartFrame(s: System, buffer: RobotData, stamp: string)
    requires Sound(s)
    ensures var c, r := s.desk.command, Restarted(s, buffer, stamp).desk.command;
            r == c.(runSpeed := r.runSpeed, jogSpeed := r.jogSpeed, controllerLaw := r.controllerLaw,
                    planner := r.planner, plannerTaskSpace := r.plannerTaskSpace)
    ensures Restarted(s, buffer, stamp).desk.jogTimeCount == 0
    ensures Sound(Restarted(s, buffer, stamp))
  {
    var d := s.desk.(jogTimeCount := 0);
    LoadingIsOneRewrite(d, s.slave.status, stamp);
    LoadingKeepsOtherKeys(Read(d.config), s.slave.status, stamp);
  }

  /** Loading and every operation write only numbers for the settings. */
  lemma NextKeepsSound(s: System, step: Step)
    requires Sound(s) && Enabled(s, step)
    ensures Sound(Next(s, step))
  {
    hide RobotRan, Restarted, Applied;
    match step
    case Tick => TickFrame(s);
    case Restart(buffer, stamp) => RestartFrame(s, buffer, stamp);
    case Operate(op) => OperationKeepsTypes(s.desk, s.slave.status, s.robot.userZero, op);
    case _ =>
  }

  ghost predicate Legal(s: System, steps: seq<Step>)
    requires Sound(s)
    decreases steps
  {
    steps == [] || (Enabled(s, steps[0]) && (NextKeepsSound(s, steps[0]); Legal(Next(s, steps[0]), steps[1..])))
  }

  ghost function Final(s: System, steps: seq<Step>): System
    requires Sound(s) && Legal(s, steps)
    decreases steps
  {
    if steps == [] then s
    else (NextKeepsSound(s, steps[0]); Final(Next(s, steps[0]), steps[1..]))
  }

  // ---------------------------------------------------------------- connection

  /** The flag the teach box is told equals the sampled level, the watchdog counter is in its
      range, and the user zero covers the robot's axes. */
  ghost predicate Invariant(s: System) {
    && Sound(s)
    && Coupled(s.ipc.link, MAX_TIMEOUT_COUNT)
    && s.connect == s.ipc.link.isConnect
    && s.desk.jogTimeCount <= JOG_TIMEOUT
    && 0 <= s.robot.robotDof == |s.robot.userZero| == |s.robot.mechanicalZero|
  }

  lemma NextKeepsInvariant(s: System, step: Step)
    requires Invariant(s) && Enabled(s, step)
    ensures Invariant(Next(s, step))
  {
    NextKeepsSound(s, step);
    match step
    case Tick => TickReturnsEdge(s.ipc.link, MAX_TIMEOUT_COUNT, s.slave.heartbeat);
    case Restart(buffer, stamp) => RestartFrame(s, buffer, stamp);
    case _ =>
  }

  /** In every run `connect` is the sampled level after every step, although it is written only on events. */
  lemma {:induction false} ConnectIsLevel(s: System, steps: seq<Step>)
    requires Invariant(s) && Legal(s, steps)
    ensures Invariant(Final(s, steps))
    ensures Final(s, steps).connect == Final(s, steps).ipc.link.isConnect
    decreases steps
  {
    if steps != [] {
      NextKeepsInvariant(s, steps[0]);
      ConnectIsLevel(Next(s, steps[0]), steps[1..]);
    }
  }

  /** A freshly started master satisfies the invariant. */
  lemma RestartEstablishesInvariant(s: System, buffer: RobotData, stamp: string)
    requires Sound(s)
    ensures Invariant(Restarted(s, buffer, stamp))
  {
    RestartFrame(s, buffer, stamp);
  }

  /** The targets and the sign that publishes them change only when a run task is posted or taken. */
  lemma TargetsStay(s: System, step: Step)
    requires Sound(s) && Enabled(s, step) && !step.TakeRun?
    requires step.Operate? ==> !PostsTask(s.desk, s.slave.status, s.robot.userZero, step.op)
    ensures var c, r := s.desk.command, Next(s, step).desk.command;
            CommandShape(r) && r.runSign == c.runSign && r.qFinal == c.qFinal && r.xFinal == c.xFinal
  {
    hide RobotRan, Restarted, Applied, PostsTask;
    match step
    case Tick => TickFrame(s);
    case Restart(buffer, stamp) => RestartFrame(s, buffer, stamp);
    case Operate(op) => OperationOnTask(s.desk, s.slave.status, s.robot.userZero, op);
    case _ =>
  }

  /** Only starting a jog sets the jog sign, the axis and the direction. */
  lemma JogStays(s: System, step: Step)
    requires Sound(s) && Enabled(s, step) && !(step.Operate? && step.op.StartJog?)
    ensures var c, r := s.desk.command, Next(s, step).desk.command;
            r.jogNum == c.jogNum && r.jogDir == c.jogDir && (r.jogSign ==> c.jogSign)
  {
    hide RobotRan, Restarted, Applied, PostsTask;
    match step
    case Tick => TickFrame(s);
    case Restart(buffer, stamp) => RestartFrame(s, buffer, stamp);
    case Operate(op) =>
      OperationOnJog(s.desk, s.slave.status, s.robot.userZero, op);
      OperationOnJogPair(s.desk, s.slave.status, s.robot.userZero, op);
    case _ =>
  }

  // ---------------------------------------------------------------- parameters of the robot

  /** The steps that load a robot: a restart, and the tick that finds the slave newly connected. */
  predicate LoadsRobot(s: System, step: Step) {
    step.Restart? || (step.Tick? && Ticked(s.ipc.link, MAX_TIMEOUT_COUNT, s.slave.heartbeat).status.SuccessConnect?)
  }

  lemma OnlyTheseLoad(s: System, step: Step)
    ensures LoadsRobot(s, step) ==> step.Restart? || step.Tick?
  {
  }

  /** Nothing else ever changes the robot's axes or zeros. */
  lemma RobotStays(s: System, step: Step)
    requires Sound(s) && Enabled(s, step) && !LoadsRobot(s, step)
    ensures Next(s, step).robot == s.robot
  {
    hide Ticked, Applied, JogChecked;
  }

  /** A connection always takes over the slave's degrees of freedom and the zeros of its entry, but
      the limits of the entry come into force exactly when no earlier limits are waiting (or they are
      the same): otherwise the new zeros meet the old limits. */
  lemma ConnectionLoadsLimitsIff(s: System)
    requires Sound(s) && LoadsRobot(s, Tick)
    ensures var p := Params(s.robotFile, s.slave.name);
            var wanted := LimitsOverlaid(s.desk.command.limits, PaddedLimits(p.limits, s.slave.dof));
            && RobotRan(s).robot
               == RobotValue(s.slave.dof, Padded(p.userZero, s.slave.dof), Padded(p.mechanicalZero, s.slave.dof))
            && RobotRan(s).desk.command.limits == (if s.desk.command.newLimit then s.desk.command.limits else wanted)
            && (RobotRan(s).desk.command.limits == wanted
                <==> !s.desk.command.newLimit || s.desk.command.limits == wanted)
  {
    hide Ticked;
  }

  /** `x` is what a JSON list gives at `i`: the element, or 0 where there is none. */
  predicate IsElement(x: real, list: seq<real>, i: nat) {
    x == if i < |list| then list[i] else 0.0
  }

  /** The first `n` elements are the list's, the others as before. */
  ghost predicate LoadedOver(after: seq<real>, list: seq<real>, n: nat, before: seq<real>) {
    && |after| == |before| && n <= |after|
    && (forall i | 0 <= i < n :: IsElement(after[i], list, i))
    && (forall i | n <= i < |after| :: after[i] == before[i])
  }

  /** Element by element, a connection loads each list of the entry under the slave's name, empty lists
      where there is none, into the member of the same name; and the limits only if none are pending. */
  lemma ConnectionLoadsEntry(s: System)
    requires Sound(s) && LoadsRobot(s, Tick)
    ensures var n, none := s.slave.dof, RobotParams(Limits([], [], [], [], []), [], []);
            var p := if s.robotFile.Some? && s.slave.name in s.robotFile.value then s.robotFile.value[s.slave.name] else none;
            var r, l, m := RobotRan(s).robot, s.desk.command.limits, RobotRan(s).desk.command.limits;
            && r.robotDof == |r.userZero| == |r.mechanicalZero| == n
            && (forall i | 0 <= i < n :: IsElement(r.userZero[i], p.userZero, i) && IsElement(r.mechanicalZero[i], p.mechanicalZero, i))
            && if s.desk.command.newLimit then m == l
               else
                 && RobotRan(s).desk.command.newLimit
                 && LoadedOver(m.qMax, p.limits.qMax, n, l.qMax) && LoadedOver(m.qMin, p.limits.qMin, n, l.qMin)
                 && LoadedOver(m.dq, p.limits.dq, n, l.dq) && LoadedOver(m.ddq, p.limits.ddq, n, l.ddq)
                 && LoadedOver(m.dddq, p.limits.dddq, n, l.dddq)
  {
    hide Ticked;
  }

  /** What a restart leaves of the process before it: nothing. The queue is drained, the link, the flag,
      the counters and the robot are new, and only shared memory and the files stay. */
  lemma RestartForgetsProcess(s: System, buffer: RobotData, stamp: string)
    requires Sound(s)
    ensures var t := Restarted(s, buffer, stamp);
            && t.ipc.queue == [] && t.ipc.robotData == buffer && t.ipc.masterHeartbeat == 0
            && t.ipc.link == Link(0, false, s.slave.heartbeat, Connected) && !t.connect && t.desk.jogTimeCount == 0
            && t.robot.robotDof == |t.robot.userZero| == |t.robot.mechanicalZero| == s.slave.dof
            && (forall i | 0 <= i < s.slave.dof :: t.robot.userZero[i] == 0.0 && t.robot.mechanicalZero[i] == 0.0)
            && t.slave == s.slave && t.robotFile == s.robotFile
  {
    RestartFrame(s, buffer, stamp);
  }

  function Reals(n: nat, x: real): (r: seq<real>)
    ensures |r| == n && forall i | 0 <= i < n :: r[i] == x
  {
    seq(n, _ => x)
  }

  /** A master one tick before the end of a window, with a waiting slave that has counted on. */
  function AboutToConnect(dof: nat, newLimit: bool, robotFile: Option<RobotRoot>): System {
    var z := Reals(JOINTS, 0.0);
    System(Ipc(Link(MAX_TIMEOUT_COUNT - 1, false, 0, NoConnect), [], RobotData(z, Reals(3, 0.0), Reals(3, 0.0)), 0), false,
           Desk(Command(false, false, false, newLimit, JOINT_SPACE, z, Reals(CARTESIAN, 0.0), 0, 0, 0, 0, 1, 1, Limits(z, z, z, z, z)),
                0, File(None, true)),
           NewRobot(dof), Slave(Wait, dof, "arm", 1), robotFile)
  }

  /** That case happens: with limits pending, the connection moves the zero of axis 1 and keeps limits
      that are not those of the file. */
  lemma ConnectionCanKeepStaleLimits()
    ensures var p := RobotParams(Limits([1.0], [-1.0], [], [], []), [], [0.5]);
            var s := AboutToConnect(JOINTS, true, Some(map["arm" := p]));
            && Invariant(s) && LoadsRobot(s, Tick)
            && s.robot.userZero[0] == 0.0 && |RobotRan(s).robot.userZero| == JOINTS && RobotRan(s).robot.userZero[0] == 0.5
            && RobotRan(s).desk.command.limits == s.desk.command.limits
            && RobotRan(s).desk.command.limits != LimitsOverlaid(s.desk.command.limits, PaddedLimits(p.limits, JOINTS))
  {
    var p := RobotParams(Limits([1.0], [-1.0], [], [], []), [], [0.5]);
    var s := AboutToConnect(JOINTS, true, Some(map["arm" := p]));
    ConnectionLoadsLimitsIff(s);
    assert LimitsOverlaid(s.desk.command.limits, PaddedLimits(p.limits, JOINTS)).qMax[0] == 1.0;
    assert s.desk.command.limits.qMax[0] == 0.0;
  }

  // ---------------------------------------------------------------- defined calls

  /** A seven-joint request that is neither refused nor out of limits is defined exactly when the
      robot has seven axes: otherwise the sum with the user zero reads past its end. */
  lemma SevenJointTaskIsDefinedIff(s: System, q: seq<real>)
    requires Invariant(s) && |q| == JOINTS
    ensures Enabled(s, Operate(RunTask(q, JOINT_SPACE)))
       <==> s.robot.robotDof >= JOINTS || !s.slave.status.Wait? || s.desk.command.runSign
            || !WithinLimits(s.desk.command.limits, q)
  {
  }

  /** So the very first call after a start can be undefined, and is exactly with a waiting slave of
      fewer axes, nothing pending and a target within limits. */
  lemma FirstCallIsDefinedIff(s: System, buffer: RobotData, stamp: string, q: seq<real>)
    requires Sound(s) && |q| == JOINTS
    ensures Sound(Restarted(s, buffer, stamp))
    ensures Enabled(Restarted(s, buffer, stamp), Operate(RunTask(q, JOINT_SPACE)))
       <==> s.slave.dof >= JOINTS || !s.slave.status.Wait? || s.desk.command.runSign
            || !WithinLimits(s.desk.command.limits, q)
  {
    RestartEstablishesInvariant(s, buffer, stamp);
    RestartFrame(s, buffer, stamp);
    SevenJointTaskIsDefinedIff(Restarted(s, buffer, stamp), q);
  }

  /** For example the return to zero of a started six-axis robot whose limits contain 0. */
  lemma SixAxisReturnIsUndefined(buffer: RobotData, stamp: string)
    ensures var s := AboutToConnect(6, false, None);
            Sound(s) && Sound(Restarted(s, buffer, stamp)) && !Enabled(Restarted(s, buffer, stamp), Operate(BackToZero))
  {
    var s := AboutToConnect(6, false, None);
    FirstCallIsDefinedIff(s, buffer, stamp, Zeros());
    assert WithinLimits(s.desk.command.limits, Zeros());
  }

  /** What the operator's terminal can send, and a slave that always reports seven axes. */
  ghost predicate SevenAxisStep(step: Step) {
    && (step.Describe? ==> step.dof == JOINTS)
    && (step.Operate? && step.op.RunTask? ==>
      && (step.op.space == JOINT_SPACE ==> |step.op.q| == JOINTS)
      && (step.op.space == CARTESIAN_SPACE ==> |step.op.q| <= CARTESIAN))
    && (step.Operate? && step.op.SetLimit? ==> LimitsFit(step.op.limits))
  }

  ghost predicate SevenAxis(s: System) {
    Invariant(s) && s.slave.dof == JOINTS && s.robot.robotDof == JOINTS
  }

  lemma SevenAxisStepIsDefined(s: System, step: Step)
    requires SevenAxis(s) && SevenAxisStep(step)
    ensures Enabled(s, step) && SevenAxis(Next(s, step))
  {
    NextKeepsInvariant(s, step);
    hide Applied, Ticked, JogChecked, Initialised;
    if step.Tick? {
      TickFrame(s);
      if LoadsRobot(s, step) { ConnectionLoadsLimitsIff(s); } else { RobotStays(s, step); }
    }
  }

  /** With a seven-axis slave nothing is ever undefined: every sequence of such steps after a start is
      a legal run, and at the end of each the return to zero is defined. */
  lemma {:induction false} SevenAxisRunsAreDefined(s: System, steps: seq<Step>)
    requires SevenAxis(s) && forall step | step in steps :: SevenAxisStep(step)
    ensures Legal(s, steps) && SevenAxis(Final(s, steps))
    ensures Enabled(Final(s, steps), Operate(BackToZero))
    decreases steps
  {
    hide Next, SevenAxisStep;
    if steps != [] {
      SevenAxisStepIsDefined(s, steps[0]);
      SevenAxisRunsAreDefined(Next(s, steps[0]), steps[1..]);
    } else {
      SevenJointTaskIsDefinedIff(s, Zeros());
    }
  }

  lemma SevenAxisStart(s: System, buffer: RobotData, stamp: string)
    requires Sound(s) && s.slave.dof == JOINTS
    ensures SevenAxis(Restarted(s, buffer, stamp))
  {
    RestartEstablishesInvariant(s, buffer, stamp);
  }
}
