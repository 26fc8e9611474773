/** Everything an operator can trigger on the controller, as one operation type, and what
    every operation keeps of the persisted settings. */
module Operations {
  import opened MessageData
  import opened Configs
  import opened Controllers
  import opened Options

  datatype Op =
    | RunTask(q: seq<real>, space: int)
    | BackToZero
    | StopRun
    | StartJog(jogNum: int, dir: int, jogSpace: int)
    | StopJog
    | KeepAlive
    | ChangeLaw(law: int)
    | ChangePlanner(planner: int)
    | ChangeSpace(newSpace: int)
    | SetRunSpeed(runRatio: int)
    | SetJogSpeed(jogRatio: int)
    | SetLimit(limits: Limits)

  /** The task an operation asks for, if it asks for one. */
  predicate AsksForTask(op: Op) {
    op.RunTask? || op.BackToZero?
  }

  function Target(op: Op): seq<real>
    requires AsksForTask(op)
  {
    if op.RunTask? then op.q else Zeros()
  }

  function TargetSpace(op: Op): int
    requires AsksForTask(op)
  {
    if op.RunTask? then op.space else JOINT_SPACE
  }

  ghost predicate Allowed(d: Desk, status: RunStatus, zero: seq<real>, op: Op) {
    && CommandShape(d.command)
    && (AsksForTask(op) ==> Callable(d.command, status, zero, Target(op), TargetSpace(op)))
    && (op.SetLimit? ==> LimitsFit(op.limits))
  }

  function Applied(d: Desk, status: RunStatus, zero: seq<real>, op: Op): (r: Desk)
    requires Allowed(d, status, zero, op)
    ensures CommandShape(r.command)
  {
    match op
    case RunTask(q, space) => d.(command := RunTaskCreated(d.command, status, zero, q, space))
    case BackToZero => d.(command := RunTaskCreated(d.command, status, zero, Zeros(), JOINT_SPACE))
    case StopRun => d.(command := RunStopped(d.command, status))
    case StartJog(jogNum, dir, jogSpace) => JogStarted(d, status, jogNum, dir, jogSpace)
    case StopJog => JogStopped(d)
    case KeepAlive => d.(jogTimeCount := 0)
    case ChangeLaw(law) => LawChanged(d, status, law)
    case ChangePlanner(planner) => PlannerChanged(d, status, planner)
    case ChangeSpace(newSpace) => SpaceChanged(d, status, newSpace)
    case SetRunSpeed(runRatio) => RunSpeedSet(d, runRatio)
    case SetJogSpeed(jogRatio) => JogSpeedSet(d, jogRatio)
    case SetLimit(limits) => d.(command := LimitsSet(d.command, limits))
  }

  /** The operation leaves a run task in the mailbox. */
  ghost predicate PostsTask(d: Desk, status: RunStatus, zero: seq<real>, op: Op)
    requires Allowed(d, status, zero, op)
  {
    AsksForTask(op) && Accepted(d.command, status, zero, Target(op), TargetSpace(op))
    && (TargetSpace(op) == JOINT_SPACE || TargetSpace(op) == CARTESIAN_SPACE)
  }

  /** The run task changes only when one is posted, and one is posted only where none is pending. */
  lemma OperationOnTask(d: Desk, status: RunStatus, zero: seq<real>, op: Op)
    requires Allowed(d, status, zero, op)
    ensures var c, r := d.command, Applied(d, status, zero, op).command;
            if PostsTask(d, status, zero, op) then !c.runSign && r.runSign
            else r.runSign == c.runSign && r.qFinal == c.qFinal && r.xFinal == c.xFinal
  {
    hide Merged, RunTaskCreated, Accepted, CommandShape, LimitsOverlaid, Callable;
    if AsksForTask(op) {
      RunTaskFrame(d.command, status, zero, Target(op), TargetSpace(op));
    }
  }

  /** A stop request is posted exactly by stopRun with the slave running. */
  lemma OperationOnStop(d: Desk, status: RunStatus, zero: seq<real>, op: Op)
    requires Allowed(d, status, zero, op)
    ensures Applied(d, status, zero, op).command.stopSign == (d.command.stopSign || (op.StopRun? && status.Run?))
  {
    hide Merged, RunTaskCreated, Accepted, CommandShape, LimitsOverlaid, Callable;
    if AsksForTask(op) {
      RunTaskFrame(d.command, status, zero, Target(op), TargetSpace(op));
    }
  }

  /** Limits change only with the operation that sets them, and not while earlier ones are pending. */
  lemma OperationOnLimits(d: Desk, status: RunStatus, zero: seq<real>, op: Op)
    requires Allowed(d, status, zero, op)
    ensures var c, r := d.command, Applied(d, status, zero, op).command;
            && r.newLimit == (c.newLimit || op.SetLimit?)
            && (c.newLimit || !op.SetLimit? ==> r.limits == c.limits)
  {
    hide Merged, RunTaskCreated, Accepted, CommandShape, LimitsOverlaid, Callable;
    if AsksForTask(op) {
      RunTaskFrame(d.command, status, zero, Target(op), TargetSpace(op));
    }
  }

  /** Jogging starts and stops only by its two operations, and only the keep-alive resets the counter. */
  lemma OperationOnJog(d: Desk, status: RunStatus, zero: seq<real>, op: Op)
    requires Allowed(d, status, zero, op)
    ensures Applied(d, status, zero, op).command.jogSign
         == ((d.command.jogSign && !op.StopJog?) || (op.StartJog? && status.Wait?))
    ensures Applied(d, status, zero, op).jogTimeCount == if op.KeepAlive? then 0 else d.jogTimeCount
  {
    hide Merged, RunTaskCreated, Accepted, CommandShape, LimitsOverlaid, Callable;
    if AsksForTask(op) {
      RunTaskFrame(d.command, status, zero, Target(op), TargetSpace(op));
    }
  }

  /** No operation but the start of jogging touches the axis and direction to jog. */
  lemma OperationOnJogPair(d: Desk, status: RunStatus, zero: seq<real>, op: Op)
    requires Allowed(d, status, zero, op) && !op.StartJog?
    ensures var c, r := d.command, Applied(d, status, zero, op).command; r.jogNum == c.jogNum && r.jogDir == c.jogDir
  {
    hide Merged, RunTaskCreated, Accepted, CommandShape, LimitsOverlaid, Callable;
    if AsksForTask(op) {
      RunTaskFrame(d.command, status, zero, Target(op), TargetSpace(op));
    }
  }

  /** Short of posting a task, the space changes only by the two operations that name one. */
  lemma OperationOnSpace(d: Desk, status: RunStatus, zero: seq<real>, op: Op)
    requires Allowed(d, status, zero, op) && !PostsTask(d, status, zero, op)
    ensures Applied(d, status, zero, op).command.plannerTaskSpace
         == if status.Wait? && op.ChangeSpace? then op.newSpace
            else if status.Wait? && op.StartJog? then op.jogSpace
            else d.command.plannerTaskSpace
  {
    hide Merged, RunTaskCreated, Accepted, CommandShape, LimitsOverlaid, Callable;
    if AsksForTask(op) {
      RunTaskFrame(d.command, status, zero, Target(op), TargetSpace(op));
    }
  }

  // ---------------------------------------------------------------- settings and the file

  predicate Holds(f: File, key: string, value: int) {
    f.content.Some? && key in f.content.value && f.content.value[key] == Number(value)
  }

  /** File and command memory hold the same run speed, jog speed, control law and planner. */
  predicate Agree(d: Desk) {
    && Holds(d.config, RUN_SPEED, d.command.runSpeed)
    && Holds(d.config, JOG_SPEED, d.command.jogSpeed)
    && Holds(d.config, CONTROL_LAW, d.command.controllerLaw)
    && Holds(d.config, PLANNER, d.command.planner)
  }

  predicate SameSettings(a: Command, b: Command) {
    a.runSpeed == b.runSpeed && a.jogSpeed == b.jogSpeed && a.controllerLaw == b.controllerLaw && a.planner == b.planner
  }

  predicate SpeedsInRange(c: Command) {
    1 <= c.runSpeed <= 100 && 1 <= c.jogSpeed <= 100
  }

  predicate SpaceAgrees(d: Desk) {
    Holds(d.config, SPACE, d.command.plannerTaskSpace)
  }

  /** The call asks for another value of one of the four settings and is not refused. */
  predicate TouchesSettings(c: Command, status: RunStatus, op: Op) {
    match op
    case ChangeLaw(law) => status.Wait? && law != c.controllerLaw
    case ChangePlanner(planner) => status.Wait? && planner != c.planner
    case SetRunSpeed(runRatio) => Clamped(runRatio) != c.runSpeed
    case SetJogSpeed(jogRatio) => Clamped(jogRatio) != c.jogSpeed
    case _ => false
  }

  /** Every operation, accepted or refused, keeps the agreement when the file can be written; when
      it cannot, exactly those keep it that do not get another value into one of the four settings. */
  lemma OperationKeepsAgreementIff(d: Desk, status: RunStatus, zero: seq<real>, op: Op)
    requires Allowed(d, status, zero, op) && Agree(d)
    ensures Agree(Applied(d, status, zero, op)) <==> d.config.writable || !TouchesSettings(d.command, status, op)
    ensures SpeedsInRange(d.command) ==> SpeedsInRange(Applied(d, status, zero, op).command)
  {
    hide RUN_SPEED, JOG_SPEED, CONTROL_LAW, PLANNER, SPACE, CONTROLLER_ID;
    hide RunTaskCreated, Callable, LimitsOverlaid;
    KeysDiffer();
    if AsksForTask(op) {
      RunTaskFrame(d.command, status, zero, Target(op), TargetSpace(op));
    }
  }

  /** The space is the one setting that drifts from the file: an operation breaks its
      agreement exactly when it posts a task in another space. */
  lemma SpaceDriftsIff(d: Desk, status: RunStatus, zero: seq<real>, op: Op)
    requires Allowed(d, status, zero, op) && SpaceAgrees(d) && d.config.writable
    ensures !SpaceAgrees(Applied(d, status, zero, op))
       <==> PostsTask(d, status, zero, op) && TargetSpace(op) != d.command.plannerTaskSpace
  {
    hide RUN_SPEED, JOG_SPEED, CONTROL_LAW, PLANNER, SPACE, CONTROLLER_ID;
    KeysDiffer();
  }

  // ---------------------------------------------------------------- loading at start

  lemma OperationKeepsTypes(d: Desk, status: RunStatus, zero: seq<real>, op: Op)
    requires Allowed(d, status, zero, op) && WellTyped(Read(d.config))
    ensures WellTyped(Read(Applied(d, status, zero, op).config))
    ensures Applied(d, status, zero, op).config.writable == d.config.writable
  {
    hide RUN_SPEED, JOG_SPEED, CONTROL_LAW, PLANNER, SPACE, CONTROLLER_ID;
    KeysDiffer();
  }

  /** The five settings are numbers, or null, or missing. */
  predicate WellTyped(root: Root) {
    && (RUN_SPEED in root ==> !root[RUN_SPEED].Text?)
    && (JOG_SPEED in root ==> !root[JOG_SPEED].Text?)
    && (CONTROL_LAW in root ==> !root[CONTROL_LAW].Text?)
    && (PLANNER in root ==> !root[PLANNER].Text?)
    && (SPACE in root ==> !root[SPACE].Text?)
  }

  function Initialised(d: Desk, status: RunStatus, stamp: string): Desk
    requires WellTyped(Read(d.config))
  {
    KeysDiffer();
    var root := Read(d.config)[CONTROLLER_ID := Text(stamp)];
    var d0 := d.(config := Wrote(d.config, root));
    var d1 := JogSpeedSet(d0, AsInt(root, JOG_SPEED));
    var d2 := RunSpeedSet(d1, AsInt(root, RUN_SPEED));
    var d3 := LawChanged(d2, status, AsInt(root, CONTROL_LAW));
    var d4 := PlannerChanged(d3, status, AsInt(root, PLANNER));
    SpaceChanged(d4, status, AsInt(root, SPACE))
  }

  lemma MergeOne(f: File, key: string, value: Json)
    ensures Merged(f, map[key := value]) == Wrote(f, Read(f)[key := value])
  {
    assert Read(f) + map[key := value] == Read(f)[key := value];
  }

  /** The file after loading: the stamp, the clamped speeds, and with a waiting slave the modes. */
  function LoadedRoot(root: Root, status: RunStatus, stamp: string): Root
    requires WellTyped(root)
  {
    KeysDiffer();
    var speeds := root[CONTROLLER_ID := Text(stamp)]
                      [JOG_SPEED := Number(Clamped(AsInt(root, JOG_SPEED)))]
                      [RUN_SPEED := Number(Clamped(AsInt(root, RUN_SPEED)))];
    if status.Wait? then
      speeds[CONTROL_LAW := Number(AsInt(root, CONTROL_LAW))]
            [PLANNER := Number(AsInt(root, PLANNER))]
            [SPACE := Number(AsInt(root, SPACE))]
    else speeds
  }

  function LoadedCommand(c: Command, root: Root, status: RunStatus): Command
    requires WellTyped(root)
  {
    var speeds := c.(jogSpeed := Clamped(AsInt(root, JOG_SPEED)), runSpeed := Clamped(AsInt(root, RUN_SPEED)));
    if status.Wait? then
      speeds.(controllerLaw := AsInt(root, CONTROL_LAW), planner := AsInt(root, PLANNER), plannerTaskSpace := AsInt(root, SPACE))
    else speeds
  }

  lemma SpeedsLoaded(d: Desk, jogRatio: int, runRatio: int)
    ensures RunSpeedSet(JogSpeedSet(d, jogRatio), runRatio)
         == Desk(d.command.(jogSpeed := Clamped(jogRatio), runSpeed := Clamped(runRatio)), d.jogTimeCount,
                 Wrote(d.config, Read(d.config)[JOG_SPEED := Number(Clamped(jogRatio))][RUN_SPEED := Number(Clamped(runRatio))]))
  {
    hide Merged, Clamped, RUN_SPEED, JOG_SPEED, CONTROL_LAW, PLANNER, SPACE, CONTROLLER_ID;
    var f1 := Merged(d.config, map[JOG_SPEED := Number(Clamped(jogRatio))]);
    MergeOne(d.config, JOG_SPEED, Number(Clamped(jogRatio)));
    MergeOne(f1, RUN_SPEED, Number(Clamped(runRatio)));
  }

  lemma ModesLoaded(d: Desk, status: RunStatus, law: int, planner: int, space: int)
    ensures SpaceChanged(PlannerChanged(LawChanged(d, status, law), status, planner), status, space)
         == if !status.Wait? then d
            else Desk(d.command.(controllerLaw := law, planner := planner, plannerTaskSpace := space), d.jogTimeCount,
                      Wrote(d.config, Read(d.config)[CONTROL_LAW := Number(law)][PLANNER := Number(planner)][SPACE := Number(space)]))
  {
    hide Merged, RUN_SPEED, JOG_SPEED, CONTROL_LAW, PLANNER, SPACE, CONTROLLER_ID;
    if status.Wait? {
      var f1 := Merged(d.config, map[CONTROL_LAW := Number(law)]);
      var f2 := Merged(f1, map[PLANNER := Number(planner)]);
      MergeOne(d.config, CONTROL_LAW, Number(law));
      MergeOne(f1, PLANNER, Number(planner));
      MergeOne(f2, SPACE, Number(space));
    }
  }

  lemma StampKeepsSettings(root: Root, stamp: string)
    requires WellTyped(root)
    ensures var r := root[CONTROLLER_ID := Text(stamp)];
            && WellTyped(r)
            && AsInt(r, JOG_SPEED) == AsInt(root, JOG_SPEED) && AsInt(r, RUN_SPEED) == AsInt(root, RUN_SPEED)
            && AsInt(r, CONTROL_LAW) == AsInt(root, CONTROL_LAW) && AsInt(r, PLANNER) == AsInt(root, PLANNER)
            && AsInt(r, SPACE) == AsInt(root, SPACE)
  {
    hide RUN_SPEED, JOG_SPEED, CONTROL_LAW, PLANNER, SPACE, CONTROLLER_ID;
    KeysDiffer();
  }

  /** The sequence of rewrites done while loading comes to one new root. */
  lemma LoadingIsOneRewrite(d: Desk, status: RunStatus, stamp: string)
    requires WellTyped(Read(d.config))
    ensures Initialised(d, status, stamp)
         == Desk(LoadedCommand(d.command, Read(d.config), status), d.jogTimeCount,
                 Wrote(d.config, LoadedRoot(Read(d.config), status, stamp)))
  {
    hide JogSpeedSet, RunSpeedSet, LawChanged, PlannerChanged, SpaceChanged, AsInt, Clamped, RUN_SPEED, JOG_SPEED, CONTROL_LAW, PLANNER, SPACE, CONTROLLER_ID;
    var before := Read(d.config);
    var root := before[CONTROLLER_ID := Text(stamp)];
    StampKeepsSettings(before, stamp);
    var d0 := d.(config := Wrote(d.config, root));
    SpeedsLoaded(d0, AsInt(root, JOG_SPEED), AsInt(root, RUN_SPEED));
    var d2 := RunSpeedSet(JogSpeedSet(d0, AsInt(root, JOG_SPEED)), AsInt(root, RUN_SPEED));
    ModesLoaded(d2, status, AsInt(root, CONTROL_LAW), AsInt(root, PLANNER), AsInt(root, SPACE));
  }

  predicate SpeedReady(f: File, key: string)
    requires key in Read(f) ==> !Read(f)[key].Text?
  {
    f.writable || (Holds(f, key, AsInt(Read(f), key)) && 1 <= AsInt(Read(f), key) <= 100)
  }

  predicate ModeReady(f: File, status: RunStatus, key: string, current: int)
    requires key in Read(f) ==> !Read(f)[key].Text?
  {
    if status.Wait? then f.writable || Holds(f, key, AsInt(Read(f), key)) else Holds(f, key, current)
  }

  /** Loading establishes the agreement exactly when each setting can be settled: with a writable
      file and a waiting slave always; otherwise the file must already say what memory will hold. */
  lemma InitialisedAgreesIff(d: Desk, status: RunStatus, stamp: string)
    requires WellTyped(Read(d.config))
    ensures Agree(Initialised(d, status, stamp)) <==>
              && SpeedReady(d.config, RUN_SPEED) && SpeedReady(d.config, JOG_SPEED)
              && ModeReady(d.config, status, CONTROL_LAW, d.command.controllerLaw)
              && ModeReady(d.config, status, PLANNER, d.command.planner)
    ensures SpeedsInRange(Initialised(d, status, stamp).command)
    ensures d.config.writable && status.Wait? ==> SpaceAgrees(Initialised(d, status, stamp))
  {
    hide RUN_SPEED, JOG_SPEED, CONTROL_LAW, PLANNER, SPACE, CONTROLLER_ID;
    hide Initialised;
    KeysDiffer();
    LoadingIsOneRewrite(d, status, stamp);
  }

  /** Restart: from any contents of the command memory, loading brings back the four values. */
  lemma RestartRestoresSettings(d: Desk, memory: Command, count: Word, stamp: string)
    requires Agree(d) && SpeedsInRange(d.command) && WellTyped(Read(d.config))
    ensures SameSettings(Initialised(Desk(memory, count, d.config), Wait, stamp).command, d.command)
    ensures Agree(Initialised(Desk(memory, count, d.config), Wait, stamp))
  {
    hide Initialised;
    InitialisedAgreesIff(Desk(memory, count, d.config), Wait, stamp);
    LoadingIsOneRewrite(Desk(memory, count, d.config), Wait, stamp);
  }

  predicate IsSetting(key: string) {
    key in {RUN_SPEED, JOG_SPEED, CONTROL_LAW, PLANNER, SPACE}
  }

  /** Loading keeps every key that is neither a setting nor the ControllerID. */
  lemma LoadingKeepsOtherKeys(root: Root, status: RunStatus, stamp: string)
    requires WellTyped(root)
    ensures WellTyped(LoadedRoot(root, status, stamp))
    ensures forall key | key in root && !IsSetting(key) && key != CONTROLLER_ID ::
              key in LoadedRoot(root, status, stamp) && LoadedRoot(root, status, stamp)[key] == root[key]
  {
    hide RUN_SPEED, JOG_SPEED, CONTROL_LAW, PLANNER, SPACE, CONTROLLER_ID;
    KeysDiffer();
  }

  /** The file after loading, key by key. */
  lemma LoadedValues(root: Root, status: RunStatus, stamp: string)
    requires WellTyped(root)
    ensures var r := LoadedRoot(root, status, stamp);
            && r.Keys == root.Keys + {RUN_SPEED, JOG_SPEED, CONTROLLER_ID}
                         + (if status.Wait? then {CONTROL_LAW, PLANNER, SPACE} else {})
            && r[JOG_SPEED] == Number(Clamped(AsInt(root, JOG_SPEED)))
            && r[RUN_SPEED] == Number(Clamped(AsInt(root, RUN_SPEED)))
            && r[CONTROLLER_ID] == Text(stamp)
            && (forall key | key in {CONTROL_LAW, PLANNER, SPACE} && key in r ::
              r[key] == if status.Wait? then Number(AsInt(root, key)) else root[key])
            && forall key | key in root && !IsSetting(key) && key != CONTROLLER_ID :: r[key] == root[key]
  {
    hide Clamped, AsInt, RUN_SPEED, JOG_SPEED, CONTROL_LAW, PLANNER, SPACE, CONTROLLER_ID;
    KeysDiffer();
  }

  predicate IsNumber(root: Root, key: string) {
    key in root && root[key].Number?
  }

  /** The three modes are there, as numbers. */
  predicate ModesAreNumbers(root: Root) {
    IsNumber(root, CONTROL_LAW) && IsNumber(root, PLANNER) && IsNumber(root, SPACE)
  }

  /** A mode reads the same after loading, and a number then is a number before or was just written. */
  lemma LoadedModes(root: Root, status: RunStatus, stamp: string)
    requires WellTyped(root)
    ensures var r := LoadedRoot(root, status, stamp);
            && WellTyped(r)
            && (ModesAreNumbers(r) <==> status.Wait? || ModesAreNumbers(root))
            && Clamped(AsInt(r, JOG_SPEED)) == Clamped(AsInt(root, JOG_SPEED))
            && Clamped(AsInt(r, RUN_SPEED)) == Clamped(AsInt(root, RUN_SPEED))
  {
    hide LoadedRoot, RUN_SPEED, JOG_SPEED, CONTROL_LAW, PLANNER, SPACE, CONTROLLER_ID;
    KeysDiffer();
    LoadedValues(root, status, stamp);
  }

  /** Loading a loaded file changes only the stamp, unless the second load is the first to meet a
      waiting slave and has to settle a mode that is missing or null. */
  lemma LoadedTwiceIff(root: Root, status: RunStatus, status': RunStatus, stamp: string, stamp': string)
    requires WellTyped(root)
    ensures WellTyped(LoadedRoot(root, status, stamp))
    ensures LoadedRoot(LoadedRoot(root, status, stamp), status', stamp')
            == LoadedRoot(root, status, stamp)[CONTROLLER_ID := Text(stamp')]
       <==> (status'.Wait? && !status.Wait? ==> ModesAreNumbers(root))
  {
    LoadedModes(root, status, stamp);
    var once := LoadedRoot(root, status, stamp);
    var twice := LoadedRoot(once, status', stamp');
    var stamped := once[CONTROLLER_ID := Text(stamp')];
    LoadedValues(root, status, stamp);
    LoadedValues(once, status', stamp');
    LoadedModes(once, status', stamp');
    hide LoadedRoot, RUN_SPEED, JOG_SPEED, CONTROL_LAW, PLANNER, SPACE, CONTROLLER_ID;
    KeysDiffer();
    assert CONTROLLER_ID in once;
    if status'.Wait? ==> ModesAreNumbers(once) {
      forall key | key in once ensures twice[key] == stamped[key] {
      }
      assert twice == stamped;
    } else {
      assert ModesAreNumbers(stamped) <==> ModesAreNumbers(once);
    }
  }

  /** The second load of a writable file, with whatever the command memory then holds and the slave
      in any state, changes nothing in it but the ControllerID exactly under that condition. */
  lemma SecondLoadChangesOnlyIdIff(d: Desk, memory: Command, count: Word, status: RunStatus, status': RunStatus,
                                   stamp: string, stamp': string)
    requires WellTyped(Read(d.config)) && d.config.writable
    ensures var once := Initialised(d, status, stamp);
            && once.config.content.Some? && WellTyped(Read(once.config))
            && (Initialised(Desk(memory, count, once.config), status', stamp').config.content
                == Some(once.config.content.value[CONTROLLER_ID := Text(stamp')])
                <==> (status'.Wait? && !status.Wait? ==> ModesAreNumbers(Read(d.config))))
  {
    hide Initialised, LoadedRoot;
    LoadingIsOneRewrite(d, status, stamp);
    LoadedTwiceIff(Read(d.config), status, status', stamp, stamp');
    LoadingIsOneRewrite(Desk(memory, count, Initialised(d, status, stamp).config), status', stamp');
  }
}
