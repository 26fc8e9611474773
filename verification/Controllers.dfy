/** The controller's operations on the command memory, the jog watchdog and the configuration. */
module Controllers {
  import opened MessageData
  import opened Robots
  import opened Configs

  const JOG_TIMEOUT := 100

  /** What the operations change: command memory, watchdog counter, configuration file. */
  datatype Desk = Desk(command: Command, jogTimeCount: Word, config: File)

  // ---------------------------------------------------------------- run tasks

  /** Every requested joint value is within the limits of its axis. */
  predicate WithinLimits(l: Limits, q: seq<real>)
    requires |q| <= |l.qMin| && |q| <= |l.qMax|
  {
    forall i | 0 <= i < |q| :: l.qMin[i] <= q[i] <= l.qMax[i]
  }

  /** What the call demands of its caller once it gets past the two refusals: the arrays must
      hold the target, a target within limits needs a zero for each of its axes, and the report
      of one that is not prints seven values. */
  predicate TargetFits(c: Command, zero: seq<real>, q: seq<real>, space: int)
    requires |c.limits.qMin| == |c.limits.qMax| == JOINTS
  {
    && (space == JOINT_SPACE ==>
      |q| <= JOINTS && if WithinLimits(c.limits, q) then |q| <= |zero| else |q| == JOINTS)
    && (space == CARTESIAN_SPACE ==> |q| <= CARTESIAN)
  }

  predicate Callable(c: Command, status: RunStatus, zero: seq<real>, q: seq<real>, space: int)
    requires |c.limits.qMin| == |c.limits.qMax| == JOINTS
  {
    status.Wait? && !c.runSign ==> TargetFits(c, zero, q, space)
  }

  predicate Accepted(c: Command, status: RunStatus, zero: seq<real>, q: seq<real>, space: int)
    requires |c.limits.qMin| == |c.limits.qMax| == JOINTS && Callable(c, status, zero, q, space)
  {
    status.Wait? && !c.runSign && (space == JOINT_SPACE ==> WithinLimits(c.limits, q))
  }

  /** `source` copied over the front of `target`. */
  function Overlaid(target: seq<real>, source: seq<real>): (r: seq<real>)
    requires |source| <= |target|
    ensures |r| == |target|
    ensures forall i | 0 <= i < |target| :: r[i] == if i < |source| then source[i] else target[i]
  {
    source + target[|source|..]
  }

  /** User coordinates moved into the mechanical frame. */
  function Moved(q: seq<real>, zero: seq<real>): (r: seq<real>)
    requires |q| <= |zero|
    ensures |r| == |q| && forall i | 0 <= i < |q| :: r[i] == q[i] + zero[i]
  {
    seq(|q|, i requires 0 <= i < |q| => q[i] + zero[i])
  }

  function RunTaskCreated(c: Command, status: RunStatus, zero: seq<real>, q: seq<real>, space: int): Command
    requires CommandShape(c) && Callable(c, status, zero, q, space)
  {
    if !Accepted(c, status, zero, q, space) then c
    else if space == JOINT_SPACE then
      c.(plannerTaskSpace := space, qFinal := Overlaid(c.qFinal, Moved(q, zero)), runSign := true)
    else if space == CARTESIAN_SPACE then
      c.(plannerTaskSpace := space, xFinal := Overlaid(c.xFinal, q), runSign := true)
    else c
  }

  /** What a run task touches: nothing unless it is posted, and then the sign was clear and is set. */
  lemma RunTaskFrame(c: Command, status: RunStatus, zero: seq<real>, q: seq<real>, space: int)
    requires CommandShape(c) && Callable(c, status, zero, q, space)
    ensures var r := RunTaskCreated(c, status, zero, q, space);
            && r == c.(runSign := r.runSign, plannerTaskSpace := r.plannerTaskSpace, qFinal := r.qFinal, xFinal := r.xFinal)
            && CommandShape(r)
            && (if Accepted(c, status, zero, q, space) && (space == JOINT_SPACE || space == CARTESIAN_SPACE)
                then !c.runSign && r.runSign && r.plannerTaskSpace == space else r == c)
  {
  }

  /** An accepted joint task puts a target into the command memory that lies, seen from the user
      zero, exactly at the request and within the limits in force; axes not asked for keep their
      last target. A refused one changes nothing. */
  lemma JointTaskIsWithinLimits(c: Command, status: RunStatus, zero: seq<real>, q: seq<real>)
    requires CommandShape(c) && Callable(c, status, zero, q, JOINT_SPACE)
    ensures var r := RunTaskCreated(c, status, zero, q, JOINT_SPACE);
            && CommandShape(r) && r.limits == c.limits
            && (Accepted(c, status, zero, q, JOINT_SPACE) ==>
              && r.runSign && r.plannerTaskSpace == JOINT_SPACE && |q| <= |zero|
              && (forall i | 0 <= i < |q| ::
                r.qFinal[i] - zero[i] == q[i] && c.limits.qMin[i] <= r.qFinal[i] - zero[i] <= c.limits.qMax[i])
              && (forall i | |q| <= i < JOINTS :: r.qFinal[i] == c.qFinal[i]))
            && (!Accepted(c, status, zero, q, JOINT_SPACE) ==> r == c)
  {
  }

  function Zeros(): (z: seq<real>)
    ensures |z| == 7 && forall i | 0 <= i < 7 :: z[i] == 0.0
  {
    seq(7, _ => 0.0)
  }

  // ---------------------------------------------------------------- the other operations

  function RunStopped(c: Command, status: RunStatus): Command {
    if status.Run? && !c.stopSign then c.(stopSign := true) else c
  }

  function SpaceChanged(d: Desk, status: RunStatus, space: int): Desk {
    if !status.Wait? then d
    else d.(command := d.command.(plannerTaskSpace := space), config := Merged(d.config, map[SPACE := Number(space)]))
  }

  function JogStarted(d: Desk, status: RunStatus, jogNum: int, dir: int, space: int): Desk {
    if !status.Wait? then d
    else
      var e := SpaceChanged(d, status, space);
      e.(command := e.command.(jogSign := true, jogNum := jogNum, jogDir := dir))
  }

  function JogStopped(d: Desk): Desk {
    d.(command := d.command.(jogSign := false))
  }

  function JogChecked(d: Desk): Desk {
    if !d.command.jogSign then d
    else
      var count := (d.jogTimeCount + 1) % WORD;
      if count > JOG_TIMEOUT then JogStopped(d.(jogTimeCount := 0)) else d.(jogTimeCount := count)
  }

  function LawChanged(d: Desk, status: RunStatus, law: int): Desk {
    if !status.Wait? then d
    else d.(command := d.command.(controllerLaw := law), config := Merged(d.config, map[CONTROL_LAW := Number(law)]))
  }

  function PlannerChanged(d: Desk, status: RunStatus, planner: int): Desk {
    if !status.Wait? then d
    else d.(command := d.command.(planner := planner), config := Merged(d.config, map[PLANNER := Number(planner)]))
  }

  /** The ratio from 1 to 100 closest to the one asked for. */
  function Clamped(ratio: int): (r: int)
    ensures 1 <= r <= 100
    ensures 1 <= ratio <= 100 ==> r == ratio
    ensures ratio < 1 ==> r == 1
    ensures ratio > 100 ==> r == 100
  {
    var low := if ratio < 100 then ratio else 100;
    if low > 1 then low else 1
  }

  function RunSpeedSet(d: Desk, ratio: int): Desk {
    d.(command := d.command.(runSpeed := Clamped(ratio)),
       config := Merged(d.config, map[RUN_SPEED := Number(Clamped(ratio))]))
  }

  function JogSpeedSet(d: Desk, ratio: int): Desk {
    d.(command := d.command.(jogSpeed := Clamped(ratio)),
       config := Merged(d.config, map[JOG_SPEED := Number(Clamped(ratio))]))
  }

  ghost predicate LimitsFit(l: Limits) {
    |l.qMax| <= JOINTS && |l.qMin| <= JOINTS && |l.dq| <= JOINTS && |l.ddq| <= JOINTS && |l.dddq| <= JOINTS
  }

  function LimitsOverlaid(current: Limits, l: Limits): Limits
    requires LimitsShape(current) && LimitsFit(l)
  {
    Limits(Overlaid(current.qMax, l.qMax), Overlaid(current.qMin, l.qMin), Overlaid(current.dq, l.dq),
           Overlaid(current.ddq, l.ddq), Overlaid(current.dddq, l.dddq))
  }

  function LimitsSet(c: Command, l: Limits): Command
    requires CommandShape(c) && LimitsFit(l)
  {
    if c.newLimit then c else c.(limits := LimitsOverlaid(c.limits, l), newLimit := true)
  }

  // ---------------------------------------------------------------- the class

  method StdCopy(source: seq<real>, target: array<real>)
    requires |source| <= target.Length
    modifies target
    ensures target[..] == Overlaid(old(target[..]), source)
  {
    for i := 0 to |source|
      invariant forall j | 0 <= j < i :: target[j] == source[j]
      invariant forall j | i <= j < target.Length :: target[j] == old(target[j])
    {
      target[i] := source[i];
    }
  }

  /** The loop over the coordinates of a joint target. */
  method CopyMoved(q: seq<real>, zero: seq<real>, target: array<real>)
    requires |q| <= target.Length && |q| <= |zero|
    modifies target
    ensures target[..] == Overlaid(old(target[..]), Moved(q, zero))
  {
    for i := 0 to |q|
      invariant forall j | 0 <= j < i :: target[j] == q[j] + zero[j]
      invariant forall j | i <= j < target.Length :: target[j] == old(target[j])
    {
      target[i] := q[i] + zero[i];
    }
  }

  class Controller {
    const command: ControllerCommand
    const state: ControllerState
    const config: ConfigFile
    var jogTimeCount: Word
    var connect: bool

    constructor (command: ControllerCommand, state: ControllerState, config: ConfigFile)
      ensures this.command == command && this.state == state && this.config == config
      ensures jogTimeCount == 0 && !connect
    {
      this.command, this.state, this.config := command, state, config;
      jogTimeCount, connect := 0, false;
    }

    ghost function Value(): Desk
      reads this, command, command.Arrays(), config
    {
      Desk(command.Value(), jogTimeCount, config.Value())
    }

    method CheckUserJointLimit(q: seq<real>) returns (ok: bool)
      requires command.Valid() && |q| <= JOINTS
      ensures ok <==> WithinLimits(command.LimitsValue(), q)
    {
      var i := 0;
      while i < |q|
        invariant 0 <= i <= |q| && forall j | 0 <= j < i :: command.qMin[j] <= q[j] <= command.qMax[j]
      {
        if q[i] < command.qMin[i] || q[i] > command.qMax[i] {
          return false;
        }
        i := i + 1;
      }
      return true;
    }

    method CreateRunTask(robot: Robot, q: seq<real>, space: int) returns (ok: bool)
      requires command.Valid()
      requires Callable(command.Value(), state.controllerStatus, robot.userZeroPosition, q, space)
      modifies command, command.qFinal, command.xFinal
      ensures command.Value() == RunTaskCreated(old(command.Value()), state.controllerStatus, robot.userZeroPosition, q, space)
      ensures ok == Accepted(old(command.Value()), state.controllerStatus, robot.userZeroPosition, q, space)
    {
      if state.controllerStatus != Wait {
        return false;
      }
      if command.runSign {
        return false;
      }
      if space == JOINT_SPACE {
        var within := CheckUserJointLimit(q);
        if !within {
          return false;
        }
        command.plannerTaskSpace := space;
        CopyMoved(q, robot.userZeroPosition, command.qFinal);
        command.runSign := true;
      } else if space == CARTESIAN_SPACE {
        command.plannerTaskSpace := space;
        StdCopy(q, command.xFinal);
        command.runSign := true;
      }
      return true;
    }

    method BackToZero(robot: Robot) returns (ok: bool)
      requires command.Valid()
      requires Callable(command.Value(), state.controllerStatus, robot.userZeroPosition, Zeros(), JOINT_SPACE)
      modifies command, command.qFinal, command.xFinal
      ensures command.Value() == RunTaskCreated(old(command.Value()), state.controllerStatus, robot.userZeroPosition, Zeros(), JOINT_SPACE)
      ensures ok == Accepted(old(command.Value()), state.controllerStatus, robot.userZeroPosition, Zeros(), JOINT_SPACE)
    {
      ok := CreateRunTask(robot, Zeros(), JOINT_SPACE);
    }

    method StopRun()
      modifies command
      ensures command.Value() == RunStopped(old(command.Value()), state.controllerStatus)
    {
      if state.controllerStatus != Run {
        return;
      }
      if command.stopSign {
        return;
      }
      command.stopSign := true;
    }

    method ChangeSpace(space: int) returns (ok: bool)
      modifies command, config
      ensures Value() == SpaceChanged(old(Value()), state.controllerStatus, space)
      ensures ok == state.controllerStatus.Wait?
    {
      if state.controllerStatus != Wait {
        return false;
      }
      config.SetConfigParam(map[SPACE := Number(space)], [SPACE]);
      command.plannerTaskSpace := space;
      return true;
    }

    method StartJogMove(jogNum: int, dir: int, space: int)
      modifies command, config
      ensures Value() == JogStarted(old(Value()), state.controllerStatus, jogNum, dir, space)
    {
      var ok := ChangeSpace(space);
      if !ok {
        return;
      }
      command.jogSign := true;
      command.jogNum := jogNum;
      command.jogDir := dir;
    }

    method StopJogMove()
      modifies command
      ensures Value() == JogStopped(old(Value()))
    {
      command.jogSign := false;
    }

    method ResetJogTimeOut()
      modifies this`jogTimeCount
      ensures Value() == old(Value()).(jogTimeCount := 0)
    {
      jogTimeCount := 0;
    }

    method JogCheckTimeOut()
      modifies this`jogTimeCount, command
      ensures Value() == JogChecked(old(Value()))
    {
      if !command.jogSign {
        return;
      }
      jogTimeCount := (jogTimeCount + 1) % WORD;
      if jogTimeCount > 100 {
        jogTimeCount := 0;
        StopJogMove();
      }
    }

    method ChangeControllerLaw(law: int) returns (ok: bool)
      modifies command, config
      ensures Value() == LawChanged(old(Value()), state.controllerStatus, law)
      ensures ok == state.controllerStatus.Wait?
    {
      if state.controllerStatus != Wait {
        return false;
      }
      config.SetConfigParam(map[CONTROL_LAW := Number(law)], [CONTROL_LAW]);
      command.controllerLaw := law;
      return true;
    }

    method ChangePlanner(planner: int) returns (ok: bool)
      modifies command, config
      ensures Value() == PlannerChanged(old(Value()), state.controllerStatus, planner)
      ensures ok == state.controllerStatus.Wait?
    {
      if state.controllerStatus != Wait {
        return false;
      }
      config.SetConfigParam(map[PLANNER := Number(planner)], [PLANNER]);
      command.planner := planner;
      return true;
    }

    method SetRunSpeed(ratio: int)
      modifies command, config
      ensures Value() == RunSpeedSet(old(Value()), ratio)
    {
      command.runSpeed := Clamped(ratio);
      config.SetConfigParam(map[RUN_SPEED := Number(command.runSpeed)], [RUN_SPEED]);
    }

    method SetJogSpeed(ratio: int)
      modifies command, config
      ensures Value() == JogSpeedSet(old(Value()), ratio)
    {
      command.jogSpeed := Clamped(ratio);
      config.SetConfigParam(map[JOG_SPEED := Number(command.jogSpeed)], [JOG_SPEED]);
    }

    method SetUserJointLimit(l: Limits)
      requires command.Valid() && LimitsFit(l)
      modifies command, command.qMax, command.qMin, command.dqLimit, command.ddqLimit, command.dddqLimit
      ensures command.Value() == LimitsSet(old(command.Value()), l)
    {
      if command.newLimit {
        return;
      }
      StdCopy(l.qMax, command.qMax);
      StdCopy(l.qMin, command.qMin);
      StdCopy(l.dq, command.dqLimit);
      StdCopy(l.ddq, command.ddqLimit);
      StdCopy(l.dddq, command.dddqLimit);
      command.newLimit := true;
    }
  }
}
