/** The mailboxes in whole runs: what is posted is taken once, in order and as it was posted. */
module MailboxRuns {
  import opened MessageData
  import opened Communications
  import opened Robots
  import opened Configs
  import opened Controllers
  import opened Operations
  import opened Masters
  import opened MasterRuns

  /** What a run task puts before the slave: both target arrays. */
  datatype Task = Task(qFinal: seq<real>, xFinal: seq<real>)

  function PendingTask(s: System): seq<Task> {
    if s.desk.command.runSign then [Task(s.desk.command.qFinal, s.desk.command.xFinal)] else []
  }

  ghost predicate Posts(s: System, step: Step)
    requires Sound(s) && Enabled(s, step)
  {
    step.Operate? && PostsTask(s.desk, s.slave.status, s.robot.userZero, step.op)
  }

  /** The tasks accepted in a run, as they stood in memory at that moment. */
  ghost function Posted(s: System, steps: seq<Step>): seq<Task>
    requires Sound(s) && Legal(s, steps)
    decreases steps
  {
    if steps == [] then []
    else
      NextKeepsSound(s, steps[0]);
      var t := Next(s, steps[0]);
      (if Posts(s, steps[0]) then [Task(t.desk.command.qFinal, t.desk.command.xFinal)] else []) + Posted(t, steps[1..])
  }

  /** The tasks the slave takes in a run, as it finds them in memory. */
  ghost function Taken(s: System, steps: seq<Step>): seq<Task>
    requires Sound(s) && Legal(s, steps)
    decreases steps
  {
    if steps == [] then []
    else
      NextKeepsSound(s, steps[0]);
      (if steps[0].TakeRun? then PendingTask(s) else []) + Taken(Next(s, steps[0]), steps[1..])
  }

  lemma StepConservesTasks(s: System, step: Step)
    requires Sound(s) && Enabled(s, step)
    ensures var t := Next(s, step);
            PendingTask(s) + (if Posts(s, step) then [Task(t.desk.command.qFinal, t.desk.command.xFinal)] else [])
            == (if step.TakeRun? then PendingTask(s) else []) + PendingTask(t)
  {
    hide RobotRan, Restarted, Applied, PostsTask;
    match step
    case Tick => TickFrame(s);
    case Restart(buffer, stamp) => RestartFrame(s, buffer, stamp);
    case Operate(op) => OperationOnTask(s.desk, s.slave.status, s.robot.userZero, op);
    case _ =>
  }

  lemma Rotate<T>(a: seq<T>, b: seq<T>, c: seq<T>, d: seq<T>, e: seq<T>, f: seq<T>, g: seq<T>)
    requires a + b == c + d && d + e == f + g
    ensures a + (b + e) == (c + f) + g
  {
    calc {
      a + (b + e);
      (a + b) + e;
      (c + d) + e;
      c + (d + e);
      c + (f + g);
      (c + f) + g;
    }
  }

  /** Mailbox conservation: the slave takes every accepted task exactly once, in order and with the
      targets it was accepted with; what is not taken yet is the one pending task. */
  lemma {:induction false} TasksAreConserved(s: System, steps: seq<Step>)
    requires Sound(s) && Legal(s, steps)
    ensures PendingTask(s) + Posted(s, steps) == Taken(s, steps) + PendingTask(Final(s, steps))
    decreases steps
  {
    if steps != [] {
      var step, rest := steps[0], steps[1..];
      NextKeepsSound(s, step);
      var t := Next(s, step);
      StepConservesTasks(s, step);
      TasksAreConserved(t, rest);
      Rotate(PendingTask(s), if Posts(s, step) then [Task(t.desk.command.qFinal, t.desk.command.xFinal)] else [],
             if step.TakeRun? then PendingTask(s) else [], PendingTask(t),
             Posted(t, rest), Taken(t, rest), PendingTask(Final(t, rest)));
    }
  }

  /** An accepted request with the zero and the limits it met. */
  datatype Request = Request(q: seq<real>, space: int, zero: seq<real>, limits: Limits)

  ghost function Requests(s: System, steps: seq<Step>): seq<Request>
    requires Sound(s) && Legal(s, steps)
    decreases steps
  {
    if steps == [] then []
    else
      NextKeepsSound(s, steps[0]);
      (if Posts(s, steps[0])
       then [Request(Target(steps[0].op), TargetSpace(steps[0].op), s.robot.userZero, s.desk.command.limits)] else [])
      + Requests(Next(s, steps[0]), steps[1..])
  }

  /** The target is the request: in joint space moved by the zero and within the limits. */
  ghost predicate Meets(t: Task, r: Request) {
    && |t.qFinal| == JOINTS && |t.xFinal| == CARTESIAN && LimitsShape(r.limits)
    && (r.space == JOINT_SPACE ==>
      && |r.q| <= JOINTS && |r.q| <= |r.zero|
      && forall i | 0 <= i < |r.q| ::
        && t.qFinal[i] - r.zero[i] == r.q[i]
        && r.limits.qMin[i] <= t.qFinal[i] - r.zero[i] <= r.limits.qMax[i])
    && (r.space != JOINT_SPACE ==> |r.q| <= CARTESIAN && forall i | 0 <= i < |r.q| :: t.xFinal[i] == r.q[i])
  }

  lemma PostMeetsRequest(s: System, step: Step)
    requires Sound(s) && Enabled(s, step) && Posts(s, step)
    ensures var c := Next(s, step).desk.command;
            Meets(Task(c.qFinal, c.xFinal), Request(Target(step.op), TargetSpace(step.op), s.robot.userZero, s.desk.command.limits))
  {
    if TargetSpace(step.op) == JOINT_SPACE {
      JointTaskIsWithinLimits(s.desk.command, s.slave.status, s.robot.userZero, Target(step.op));
    }
  }

  lemma {:induction false} PostedMeetRequests(s: System, steps: seq<Step>)
    requires Sound(s) && Legal(s, steps)
    ensures |Posted(s, steps)| == |Requests(s, steps)|
    ensures forall k | 0 <= k < |Posted(s, steps)| :: Meets(Posted(s, steps)[k], Requests(s, steps)[k])
    decreases steps
  {
    hide Next, Meets, Posts;
    if steps != [] {
      NextKeepsSound(s, steps[0]);
      PostedMeetRequests(Next(s, steps[0]), steps[1..]);
      if Posts(s, steps[0]) {
        PostMeetsRequest(s, steps[0]);
      }
    }
  }

  /** Safety of every target the slave ever takes: with nothing pending at the start, the k-th one
      taken is the k-th request accepted, and a joint target lies, seen from the zero of its
      acceptance, exactly at the request and within the limits then in force. */
  lemma TakenTargetsMeetRequests(s: System, steps: seq<Step>)
    requires Sound(s) && Legal(s, steps) && !s.desk.command.runSign
    ensures |Taken(s, steps)| <= |Requests(s, steps)| <= |Taken(s, steps)| + 1
    ensures forall k | 0 <= k < |Taken(s, steps)| :: Meets(Taken(s, steps)[k], Requests(s, steps)[k])
  {
    hide Meets, Final, Legal;
    TasksAreConserved(s, steps);
    PostedMeetRequests(s, steps);
    assert PendingTask(s) + Posted(s, steps) == Posted(s, steps);
    forall k | 0 <= k < |Taken(s, steps)| ensures Meets(Taken(s, steps)[k], Requests(s, steps)[k]) {
      assert Taken(s, steps)[k] == Posted(s, steps)[k];
    }
  }

  // ---------------------------------------------------------------- reading a reached target

  /** No step of the run loads a robot. */
  ghost predicate KeepsRobot(s: System, steps: seq<Step>)
    requires Sound(s) && Legal(s, steps)
    decreases steps
  {
    steps == [] || (!LoadsRobot(s, steps[0]) && (NextKeepsSound(s, steps[0]); KeepsRobot(Next(s, steps[0]), steps[1..])))
  }

  lemma {:induction false} RobotStaysInRun(s: System, steps: seq<Step>)
    requires Sound(s) && Legal(s, steps) && KeepsRobot(s, steps)
    ensures Final(s, steps).robot == s.robot
    decreases steps
  {
    hide Next, LoadsRobot;
    if steps != [] {
      NextKeepsSound(s, steps[0]);
      RobotStays(s, steps[0]);
      RobotStaysInRun(Next(s, steps[0]), steps[1..]);
    }
  }

  /** Frame round trip over a run: when the slave reports standing at the k-th target it took, an axis
      reads the k-th request plus the zero of its acceptance minus the zero now, so the request itself
      exactly when that component of the zero has not moved. */
  lemma ReachedTargetReads(s: System, steps: seq<Step>, k: nat, axis: int)
    requires Sound(s) && Legal(s, steps) && !s.desk.command.runSign
    requires k < |Taken(s, steps)| <= |Requests(s, steps)| && Requests(s, steps)[k].space == JOINT_SPACE
    requires RobotDataShape(Final(s, steps).ipc.robotData)
    requires Final(s, steps).ipc.robotData.q == Taken(s, steps)[k].qFinal
    requires 1 <= axis <= |Requests(s, steps)[k].q| && axis <= |Final(s, steps).robot.userZero|
    ensures var r, t := Requests(s, steps)[k], Final(s, steps);
            && |r.q| <= JOINTS && |r.q| <= |r.zero|
            && JointPosition(t.ipc.robotData, t.robot.userZero, axis, false)
               == r.q[axis - 1] + r.zero[axis - 1] - t.robot.userZero[axis - 1]
            && (JointPosition(t.ipc.robotData, t.robot.userZero, axis, false) == r.q[axis - 1]
                <==> t.robot.userZero[axis - 1] == r.zero[axis - 1])
  {
    hide Final, Legal, Taken, Requests;
    TakenTargetsMeetRequests(s, steps);
    assert Meets(Taken(s, steps)[k], Requests(s, steps)[k]);
  }

  /** And it does not move while no restart and no new connection comes between: whatever else runs
      after the request is accepted, the reached axis reads exactly what was asked for, 0 after a
      return to zero. */
  lemma ReachedTargetReadsRequest(s: System, step: Step, later: seq<Step>, axis: int)
    requires Invariant(s) && Enabled(s, step) && Posts(s, step) && TargetSpace(step.op) == JOINT_SPACE
    requires Sound(Next(s, step)) && Legal(Next(s, step), later) && KeepsRobot(Next(s, step), later)
    requires RobotDataShape(Final(Next(s, step), later).ipc.robotData)
    requires Final(Next(s, step), later).ipc.robotData.q == Next(s, step).desk.command.qFinal
    requires 1 <= axis <= |Target(step.op)|
    ensures var t := Final(Next(s, step), later);
            && axis <= |t.robot.userZero|
            && JointPosition(t.ipc.robotData, t.robot.userZero, axis, false) == Target(step.op)[axis - 1]
            && (step.op.BackToZero? ==> JointPosition(t.ipc.robotData, t.robot.userZero, axis, false) == 0.0)
  {
    hide Final, Legal, KeepsRobot;
    RobotStaysInRun(Next(s, step), later);
    PostMeetsRequest(s, step);
  }

  // ---------------------------------------------------------------- limits and stops

  function PendingLimits(s: System): seq<Limits> {
    if s.desk.command.newLimit then [s.desk.command.limits] else []
  }

  /** New limits are posted by the operation, and by a tick that finds the slave newly connected. */
  ghost predicate PostsLimits(s: System, step: Step)
    requires Sound(s) && Enabled(s, step)
  {
    && !s.desk.command.newLimit
    && ((step.Operate? && step.op.SetLimit?)
        || (step.Tick? && Ticked(s.ipc.link, MAX_TIMEOUT_COUNT, s.slave.heartbeat).status.SuccessConnect?))
  }

  lemma RestartPostsNothing(s: System, step: Step)
    requires Sound(s) && Enabled(s, step) && PostsLimits(s, step)
    ensures !step.Restart?
  {
  }

  /** No other step touches the limits, and only the slave's clearing touches their sign. */
  lemma LimitsStay(s: System, step: Step)
    requires Sound(s) && Enabled(s, step) && !PostsLimits(s, step)
    ensures Next(s, step).desk.command.limits == s.desk.command.limits
    ensures !step.TakeLimit? ==> Next(s, step).desk.command.newLimit == s.desk.command.newLimit
  {
    hide RobotRan, Restarted, Applied, PostsTask;
    match step
    case Tick => TickFrame(s);
    case Restart(buffer, stamp) => RestartFrame(s, buffer, stamp);
    case Operate(op) => OperationOnLimits(s.desk, s.slave.status, s.robot.userZero, op);
    case _ =>
  }

  ghost function LimitsPosted(s: System, steps: seq<Step>): seq<Limits>
    requires Sound(s) && Legal(s, steps)
    decreases steps
  {
    if steps == [] then []
    else
      NextKeepsSound(s, steps[0]);
      (if PostsLimits(s, steps[0]) then [Next(s, steps[0]).desk.command.limits] else []) + LimitsPosted(Next(s, steps[0]), steps[1..])
  }

  ghost function LimitsTaken(s: System, steps: seq<Step>): seq<Limits>
    requires Sound(s) && Legal(s, steps)
    decreases steps
  {
    if steps == [] then []
    else
      NextKeepsSound(s, steps[0]);
      (if steps[0].TakeLimit? then PendingLimits(s) else []) + LimitsTaken(Next(s, steps[0]), steps[1..])
  }

  lemma StepConservesLimits(s: System, step: Step)
    requires Sound(s) && Enabled(s, step)
    ensures PendingLimits(s) + (if PostsLimits(s, step) then [Next(s, step).desk.command.limits] else [])
         == (if step.TakeLimit? then PendingLimits(s) else []) + PendingLimits(Next(s, step))
  {
    hide RobotRan, Restarted, Applied, PostsTask;
    match step
    case Tick => TickFrame(s);
    case Restart(buffer, stamp) => RestartFrame(s, buffer, stamp);
    case Operate(op) => OperationOnLimits(s.desk, s.slave.status, s.robot.userZero, op);
    case _ =>
  }

  /** The same for the limits, whether an operation or a connection posts them. */
  lemma {:induction false} LimitsAreConserved(s: System, steps: seq<Step>)
    requires Sound(s) && Legal(s, steps)
    ensures PendingLimits(s) + LimitsPosted(s, steps) == LimitsTaken(s, steps) + PendingLimits(Final(s, steps))
    decreases steps
  {
    if steps != [] {
      var step, rest := steps[0], steps[1..];
      NextKeepsSound(s, step);
      var t := Next(s, step);
      StepConservesLimits(s, step);
      LimitsAreConserved(t, rest);
      Rotate(PendingLimits(s), if PostsLimits(s, step) then [t.desk.command.limits] else [],
             if step.TakeLimit? then PendingLimits(s) else [], PendingLimits(t),
             LimitsPosted(t, rest), LimitsTaken(t, rest), PendingLimits(Final(t, rest)));
    }
  }

  /** The lists that limits were posted from, and the limits they came over. */
  datatype LimitRequest = LimitRequest(lists: Limits, before: Limits)

  function WantedLimits(s: System, step: Step): Limits {
    if step.Operate? && step.op.SetLimit? then step.op.limits
    else PaddedLimits(Params(s.robotFile, s.slave.name).limits, s.slave.dof)
  }

  ghost function LimitRequests(s: System, steps: seq<Step>): seq<LimitRequest>
    requires Sound(s) && Legal(s, steps)
    decreases steps
  {
    if steps == [] then []
    else
      NextKeepsSound(s, steps[0]);
      (if PostsLimits(s, steps[0]) then [LimitRequest(WantedLimits(s, steps[0]), s.desk.command.limits)] else [])
      + LimitRequests(Next(s, steps[0]), steps[1..])
  }

  /** Each list is over the front of its array, whose other elements are as before. */
  ghost predicate LimitsMeet(l: Limits, r: LimitRequest) {
    LimitsFit(r.lists) && LimitsShape(r.before) && l == LimitsOverlaid(r.before, r.lists)
  }

  lemma PostMeetsLists(s: System, step: Step)
    requires Sound(s) && Enabled(s, step) && PostsLimits(s, step)
    ensures LimitsMeet(Next(s, step).desk.command.limits, LimitRequest(WantedLimits(s, step), s.desk.command.limits))
  {
    if step.Tick? {
      ConnectionLoadsLimitsIff(s);
    }
  }

  lemma {:induction false} PostedLimitsMeetLists(s: System, steps: seq<Step>)
    requires Sound(s) && Legal(s, steps)
    ensures |LimitsPosted(s, steps)| == |LimitRequests(s, steps)|
    ensures forall k | 0 <= k < |LimitsPosted(s, steps)| :: LimitsMeet(LimitsPosted(s, steps)[k], LimitRequests(s, steps)[k])
    decreases steps
  {
    hide Next, LimitsMeet, PostsLimits, WantedLimits;
    if steps != [] {
      NextKeepsSound(s, steps[0]);
      PostedLimitsMeetLists(Next(s, steps[0]), steps[1..]);
      if PostsLimits(s, steps[0]) {
        PostMeetsLists(s, steps[0]);
      }
    }
  }

  /** With none pending at the start, the k-th limits the slave takes are the k-th lists asked for, by
      request or from the robot file, over the limits of that moment. */
  lemma TakenLimitsMeetLists(s: System, steps: seq<Step>)
    requires Sound(s) && Legal(s, steps) && !s.desk.command.newLimit
    ensures |LimitsTaken(s, steps)| <= |LimitRequests(s, steps)| <= |LimitsTaken(s, steps)| + 1
    ensures forall k | 0 <= k < |LimitsTaken(s, steps)| :: LimitsMeet(LimitsTaken(s, steps)[k], LimitRequests(s, steps)[k])
  {
    hide LimitsMeet, Final, Legal;
    LimitsAreConserved(s, steps);
    PostedLimitsMeetLists(s, steps);
    assert PendingLimits(s) + LimitsPosted(s, steps) == LimitsPosted(s, steps);
    forall k | 0 <= k < |LimitsTaken(s, steps)| ensures LimitsMeet(LimitsTaken(s, steps)[k], LimitRequests(s, steps)[k]) {
      assert LimitsTaken(s, steps)[k] == LimitsPosted(s, steps)[k];
    }
  }

  function PendingStops(s: System): nat {
    if s.desk.command.stopSign then 1 else 0
  }

  predicate PostsStop(s: System, step: Step) {
    step == Operate(StopRun) && s.slave.status.Run? && !s.desk.command.stopSign
  }

  ghost function StopsPosted(s: System, steps: seq<Step>): nat
    requires Sound(s) && Legal(s, steps)
    decreases steps
  {
    if steps == [] then 0
    else
      NextKeepsSound(s, steps[0]);
      (if PostsStop(s, steps[0]) then 1 else 0)
      + StopsPosted(Next(s, steps[0]), steps[1..])
  }

  ghost function StopsTaken(s: System, steps: seq<Step>): nat
    requires Sound(s) && Legal(s, steps)
    decreases steps
  {
    if steps == [] then 0
    else
      NextKeepsSound(s, steps[0]);
      (if steps[0].TakeStop? then PendingStops(s) else 0) + StopsTaken(Next(s, steps[0]), steps[1..])
  }

  lemma StepConservesStops(s: System, step: Step)
    requires Sound(s) && Enabled(s, step)
    ensures PendingStops(s) + (if PostsStop(s, step) then 1 else 0)
         == (if step.TakeStop? then PendingStops(s) else 0) + PendingStops(Next(s, step))
  {
    hide RobotRan, Restarted, Applied, PostsTask;
    match step
    case Tick => TickFrame(s);
    case Restart(buffer, stamp) => RestartFrame(s, buffer, stamp);
    case Operate(op) => OperationOnStop(s.desk, s.slave.status, s.robot.userZero, op);
    case _ =>
  }

  /** And the same for stop requests, which carry nothing. */
  lemma {:induction false} StopsAreConserved(s: System, steps: seq<Step>)
    requires Sound(s) && Legal(s, steps)
    ensures PendingStops(s) + StopsPosted(s, steps) == StopsTaken(s, steps) + PendingStops(Final(s, steps))
    decreases steps
  {
    hide Next;
    if steps != [] {
      NextKeepsSound(s, steps[0]);
      StepConservesStops(s, steps[0]);
      StopsAreConserved(Next(s, steps[0]), steps[1..]);
    }
  }

  /** What is not protected: the space of a pending target is changed by a step exactly when a
      space change or jog start in another space meets a waiting slave, or a restart loads another one. */
  lemma PendingTaskSpaceChangesIff(s: System, step: Step)
    requires Sound(s) && Enabled(s, step) && !Posts(s, step)
    ensures Next(s, step).desk.command.plannerTaskSpace != s.desk.command.plannerTaskSpace
       <==> && s.slave.status.Wait?
            && ((step.Operate? && step.op.ChangeSpace? && step.op.newSpace != s.desk.command.plannerTaskSpace)
                || (step.Operate? && step.op.StartJog? && step.op.jogSpace != s.desk.command.plannerTaskSpace)
                || (step.Restart? && AsInt(Read(s.desk.config), SPACE) != s.desk.command.plannerTaskSpace))
  {
    hide RobotRan, Applied, Initialised, PostsTask;
    match step
    case Tick => TickFrame(s);
    case Operate(op) => OperationOnSpace(s.desk, s.slave.status, s.robot.userZero, op);
    case Restart(_, stamp) => LoadingIsOneRewrite(s.desk.(jogTimeCount := 0), s.slave.status, stamp);
    case _ =>
  }
}
