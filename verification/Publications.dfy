/** createRunTask taken apart into its single reads and writes, the slave's reading taken apart in the
    same way, and every other step of the system running between any two of them. */
module Publications {
  import opened MessageData
  import opened Configs
  import opened Controllers
  import opened Operations
  import opened Masters
  import M = MasterRuns
  import B = MailboxRuns

  datatype Call = Call(q: seq<real>, space: int)

  /** The limits read for the coordinates checked so far; each coordinate reads its lower one first. */
  datatype Bounds = Bounds(mins: seq<real>, maxs: seq<real>)

  /** Where the one thread that issues run tasks stands. */
  datatype Place =
    | Idle
    | Entered(call: Call)                     // about to read controllerStatus
    | StatusSeen(call: Call)                  // about to read runSign
    | Checking(call: Call, bounds: Bounds)    // about to read the next limit; after the last, to write plannerTaskSpace
    | Writing(call: Call, bounds: Bounds, limits: Limits, zeros: seq<real>)
      // |zeros| coordinates are written, each with the zero read for it

  /** An accepted call: the limits and zeros its coordinates met, the limits in memory when the check
      was over, and the user zero when the call ended. */
  datatype Post = Post(call: Call, bounds: Bounds, limits: Limits, zeros: seq<real>, zero: seq<real>)

  /** Where the slave stands with a target it has seen announced. */
  datatype Reader = Resting | Reading(q: seq<real>, x: seq<real>)

  datatype Shared = Shared(system: System, place: Place, reader: Reader, posted: seq<Post>, taken: seq<B.Task>)

  datatype MicroStep =
    | Begin(call: Call)
    | Advance               // the issuing thread's next read or write
    | Look                  // the slave looks at runSign
    | ReadOne               // the slave reads one coordinate
    | Clear                 // the slave, having read them all, clears runSign
    | Other(step: M.Step)   // anything else: ticks, other requests, a restart, the slave's other steps

  /** The arrays hold the call. */
  predicate Fits(call: Call) {
    && (call.space == JOINT_SPACE ==> |call.q| <= JOINTS)
    && (call.space == CARTESIAN_SPACE ==> |call.q| <= CARTESIAN)
  }

  predicate Targets(call: Call) {
    Fits(call) && (call.space == JOINT_SPACE || call.space == CARTESIAN_SPACE)
  }

  /** The coordinates checked so far lie within the limits read for them. */
  predicate InBounds(q: seq<real>, b: Bounds) {
    && |b.maxs| <= |b.mins| <= |q| && |b.mins| <= |b.maxs| + 1
    && (forall i | 0 <= i < |b.mins| :: b.mins[i] <= q[i])
    && (forall i | 0 <= i < |b.maxs| :: q[i] <= b.maxs[i])
  }

  /** Only joint targets are checked. */
  predicate AllChecked(call: Call, b: Bounds) {
    call.space == JOINT_SPACE ==> |b.maxs| == |call.q|
  }

  ghost predicate PlaceFits(place: Place) {
    match place
    case Idle => true
    case Checking(call, b) => Targets(call) && InBounds(call.q, b)
    case Writing(call, b, limits, zeros) =>
      Targets(call) && InBounds(call.q, b) && AllChecked(call, b) && LimitsShape(limits) && |zeros| <= |call.q|
    case _ => Fits(place.call)
  }

  ghost predicate WellFormed(s: Shared) {
    && M.Sound(s.system) && PlaceFits(s.place)
    && (s.reader.Reading? ==> |s.reader.q| <= JOINTS && |s.reader.x| <= CARTESIAN)
  }

  function Memory(s: Shared): Command {
    s.system.desk.command
  }

  /** The next limit to be read; the call goes back idle if its coordinate is beyond it. */
  function Checked1(l: Limits, call: Call, b: Bounds): Place
    requires LimitsShape(l) && Fits(call) && InBounds(call.q, b) && !AllChecked(call, b)
    ensures Checked1(l, call, b).Idle? || Checked1(l, call, b).Checking?
  {
    var i := |b.maxs|;
    if |b.mins| == i then
      if call.q[i] < l.qMin[i] then Idle else Checking(call, b.(mins := b.mins + [l.qMin[i]]))
    else
      if call.q[i] > l.qMax[i] then Idle else Checking(call, b.(maxs := b.maxs + [l.qMax[i]]))
  }

  /** The zero has an element for the coordinate about to be written, and the report of a target
      beyond its limits has seven values to print. */
  ghost predicate Defined(s: Shared)
    requires WellFormed(s)
  {
    match s.place
    case Writing(call, _, _, zeros) =>
      call.space == JOINT_SPACE && |zeros| < |call.q| ==> |zeros| < |s.system.robot.userZero|
    case Checking(call, b) =>
      !AllChecked(call, b) && Checked1(Memory(s).limits, call, b).Idle? ==> |call.q| == JOINTS
    case _ => true
  }

  ghost predicate Enabled(s: Shared, step: MicroStep)
    requires WellFormed(s)
  {
    match step
    case Begin(call) => s.place.Idle? && Fits(call)
    case Advance => Defined(s)
    case Clear => s.reader.Reading? && |s.reader.q| == JOINTS && |s.reader.x| == CARTESIAN
    case Other(step) =>
      && M.Enabled(s.system, step) && !step.TakeRun?
      && (step.Operate? ==> !PostsTask(s.system.desk, s.system.slave.status, s.system.robot.userZero, step.op))
    case _ => true
  }

  function OnMemory(s: Shared, c: Command): (t: Shared)
    requires WellFormed(s) && CommandShape(c)
    ensures WellFormed(t)
  {
    s.(system := M.OnCommand(s.system, c))
  }

  /** Coordinate `i` of the call in the array of its space. */
  function Written1(c: Command, call: Call, i: nat, zero: real): (d: Command)
    requires CommandShape(c) && Targets(call) && i < |call.q|
    ensures CommandShape(d)
    ensures d == c.(qFinal := d.qFinal, xFinal := d.xFinal)
  {
    if call.space == JOINT_SPACE then c.(qFinal := c.qFinal[i := call.q[i] + zero])
    else c.(xFinal := c.xFinal[i := call.q[i]])
  }

  /** The next coordinate: read its zero in joint space, write it. */
  function Wrote1(s: Shared): (t: Shared)
    requires WellFormed(s) && s.place.Writing? && |s.place.zeros| < |s.place.call.q|
    requires s.place.call.space == JOINT_SPACE ==> |s.place.zeros| < |s.system.robot.userZero|
    ensures WellFormed(t)
  {
    var call, zeros := s.place.call, s.place.zeros;
    var zero := if call.space == JOINT_SPACE then s.system.robot.userZero[|zeros|] else 0.0;
    OnMemory(s, Written1(Memory(s), call, |zeros|, zero)).(place := s.place.(zeros := zeros + [zero]))
  }

  /** The next limit, or after the last the space. */
  function AdvancedCheck(s: Shared): (t: Shared)
    requires WellFormed(s) && s.place.Checking?
    ensures WellFormed(t)
  {
    var call, b, c := s.place.call, s.place.bounds, Memory(s);
    if AllChecked(call, b) then
      OnMemory(s, c.(plannerTaskSpace := call.space)).(place := Writing(call, b, c.limits, []))
    else s.(place := Checked1(c.limits, call, b))
  }

  /** The next coordinate, or after the last the sign; it stays where that is not defined. */
  function AdvancedWrite(s: Shared): (t: Shared)
    requires WellFormed(s) && s.place.Writing?
    ensures WellFormed(t)
  {
    var Writing(call, b, limits, zeros) := s.place;
    if |zeros| == |call.q| then
      OnMemory(s, Memory(s).(runSign := true)).(
        place := Idle, posted := s.posted + [Post(call, b, limits, zeros, s.system.robot.userZero)])
    else if call.space == JOINT_SPACE && |zeros| >= |s.system.robot.userZero| then s
    else Wrote1(s)
  }

  /** The next read or write of the issuing thread. */
  function Advanced(s: Shared): (t: Shared)
    requires WellFormed(s)
    ensures WellFormed(t)
  {
    match s.place
    case Idle => s
    case Entered(call) => s.(place := if s.system.slave.status.Wait? then StatusSeen(call) else Idle)
    case StatusSeen(call) =>
      s.(place := if Memory(s).runSign || !Targets(call) then Idle else Checking(call, Bounds([], [])))
    case Checking(_, _) => AdvancedCheck(s)
    case Writing(_, _, _, _) => AdvancedWrite(s)
  }

  function WithStatus(s: Shared, status: RunStatus): Shared {
    s.(system := s.system.(slave := s.system.slave.(status := status)))
  }

  lemma WriteIgnoresStatus(s: Shared, status: RunStatus)
    requires WellFormed(s) && s.place.Writing?
    ensures WellFormed(WithStatus(s, status)) && AdvancedWrite(WithStatus(s, status)) == WithStatus(AdvancedWrite(s), status)
  {
    hide WellTyped, Written1;
  }

  /** The status is read once, first: a slave that stops waiting afterwards makes no difference any more. */
  lemma StatusIsReadOnce(s: Shared, status: RunStatus)
    requires WellFormed(s) && !s.place.Entered?
    ensures WellFormed(WithStatus(s, status)) && Advanced(WithStatus(s, status)) == WithStatus(Advanced(s), status)
  {
    hide WellTyped, AdvancedWrite, Checked1;
    if s.place.Writing? { WriteIgnoresStatus(s, status); }
  }

  function ReadMore(s: Shared): Shared
    requires WellFormed(s)
  {
    match s.reader
    case Resting => s
    case Reading(q, x) =>
      if |q| < JOINTS then s.(reader := Reading(q + [Memory(s).qFinal[|q|]], x))
      else if |x| < CARTESIAN then s.(reader := Reading(q, x + [Memory(s).xFinal[|x|]]))
      else s
  }

  function Next(s: Shared, step: MicroStep): Shared
    requires WellFormed(s) && Enabled(s, step)
  {
    match step
    case Begin(call) => s.(place := Entered(call))
    case Advance => Advanced(s)
    case Look => if s.reader.Resting? && Memory(s).runSign then s.(reader := Reading([], [])) else s
    case ReadOne => ReadMore(s)
    case Clear =>
      OnMemory(s, Memory(s).(runSign := false)).(reader := Resting, taken := s.taken + [B.Task(s.reader.q, s.reader.x)])
    case Other(step) =>
      s.(system := M.Next(s.system, step), place := if step.Restart? then Idle else s.place)
  }

  /** The first coordinates of the call are in the array of its space, each moved by its zero. */
  ghost predicate Shows(task: B.Task, call: Call, zeros: seq<real>) {
    && |task.qFinal| == JOINTS && |task.xFinal| == CARTESIAN
    && Targets(call) && |zeros| <= |call.q|
    && (call.space == JOINT_SPACE ==> forall i | 0 <= i < |zeros| :: task.qFinal[i] == call.q[i] + zeros[i])
    && (call.space == CARTESIAN_SPACE ==> forall i | 0 <= i < |zeros| :: task.xFinal[i] == call.q[i])
  }

  lemma ShowsOneMore(c: Command, call: Call, zeros: seq<real>, zero: real)
    requires CommandShape(c) && Shows(B.Task(c.qFinal, c.xFinal), call, zeros) && |zeros| < |call.q|
    ensures var d := Written1(c, call, |zeros|, zero); Shows(B.Task(d.qFinal, d.xFinal), call, zeros + [zero])
  {
  }

  /** Every coordinate of the call is there, in joint space checked against the limits read for it. */
  ghost predicate ShowsAll(task: B.Task, post: Post) {
    && Shows(task, post.call, post.zeros) && |post.zeros| == |post.call.q|
    && InBounds(post.call.q, post.bounds) && AllChecked(post.call, post.bounds) && LimitsShape(post.limits)
  }

  function Current(s: Shared): B.Task {
    B.Task(Memory(s).qFinal, Memory(s).xFinal)
  }

  /** The slave has taken a prefix of the posted calls, each in full; the sign is set exactly while
      one more is posted, and then memory shows it in full and what the slave has read agrees with
      memory; nobody writes targets while it is set. */
  ghost predicate Untorn(s: Shared) {
    && WellFormed(s)
    && |s.posted| == |s.taken| + (if Memory(s).runSign then 1 else 0)
    && (forall k | 0 <= k < |s.taken| :: ShowsAll(s.taken[k], s.posted[k]))
    && (Memory(s).runSign ==> ShowsAll(Current(s), s.posted[|s.taken|]))
    && (s.place.Checking? || s.place.Writing? ==> !Memory(s).runSign)
    && (s.place.Writing? ==> Shows(Current(s), s.place.call, s.place.zeros))
    && (s.reader.Reading? ==>
      && Memory(s).runSign
      && s.reader.q == Memory(s).qFinal[..|s.reader.q|] && s.reader.x == Memory(s).xFinal[..|s.reader.x|])
  }

  lemma WriteKeepsUntorn(s: Shared)
    requires Untorn(s) && s.place.Writing?
    ensures Untorn(AdvancedWrite(s))
  {
    hide InBounds, WellTyped, Shows, Written1;
    var t := AdvancedWrite(s);
    if s.place != t.place && t.place.Writing? {
      ShowsOneMore(Memory(s), s.place.call, s.place.zeros, t.place.zeros[|s.place.zeros|]);
    }
    if |s.place.zeros| == |s.place.call.q| {
      forall k | 0 <= k < |t.taken| ensures ShowsAll(t.taken[k], t.posted[k]) {
        assert t.posted[k] == s.posted[k];
      }
    }
  }

  lemma AdvanceKeepsUntorn(s: Shared)
    requires Untorn(s)
    ensures Untorn(Advanced(s))
  {
    hide WellTyped, AdvancedWrite, InBounds, ShowsAll, Checked1;
    if s.place.Writing? { WriteKeepsUntorn(s); }
  }

  lemma ReaderKeepsUntorn(s: Shared, step: MicroStep)
    requires Untorn(s) && Enabled(s, step) && (step.Look? || step.ReadOne? || step.Clear?)
    ensures Untorn(Next(s, step))
  {
    hide Shows, InBounds;
    var t := Next(s, step);
    if step.Clear? {
      assert Memory(s).qFinal[..JOINTS] == Memory(s).qFinal && Memory(s).xFinal[..CARTESIAN] == Memory(s).xFinal;
      assert t.taken[|s.taken|] == Current(s);
      forall k | 0 <= k < |t.taken| ensures ShowsAll(t.taken[k], t.posted[k]) {
        if k < |s.taken| { assert t.taken[k] == s.taken[k]; }
      }
    }
  }

  lemma OtherKeepsUntorn(s: Shared, step: M.Step)
    requires Untorn(s) && Enabled(s, Other(step))
    ensures Untorn(Next(s, Other(step)))
  {
    hide M.Next, M.Sound, M.Enabled, Shows, InBounds;
    M.NextKeepsSound(s.system, step);
    M.TargetsStay(s.system, step);
    assert Current(Next(s, Other(step))) == Current(s);
  }

  lemma StepKeepsUntorn(s: Shared, step: MicroStep)
    requires Untorn(s) && Enabled(s, step)
    ensures Untorn(Next(s, step))
  {
    match step
    case Begin(call) =>
    case Advance => AdvanceKeepsUntorn(s);
    case Other(step) => OtherKeepsUntorn(s, step);
    case _ => ReaderKeepsUntorn(s, step);
  }

  ghost predicate Legal(s: Shared, steps: seq<MicroStep>)
    requires Untorn(s)
    decreases steps
  {
    steps == [] || (Enabled(s, steps[0]) && (StepKeepsUntorn(s, steps[0]); Legal(Next(s, steps[0]), steps[1..])))
  }

  ghost function Final(s: Shared, steps: seq<MicroStep>): Shared
    requires Untorn(s) && Legal(s, steps)
    decreases steps
  {
    if steps == [] then s
    else (StepKeepsUntorn(s, steps[0]); Final(Next(s, steps[0]), steps[1..]))
  }

  /** Untorn publication: in every interleaving of single reads and writes on both sides, the k-th
      target the slave takes shows every coordinate of the k-th accepted call, in joint space moved by
      the user zero read for it. */
  lemma {:induction false} TasksAreTakenWhole(s: Shared, steps: seq<MicroStep>)
    requires Untorn(s) && Legal(s, steps)
    ensures Untorn(Final(s, steps))
    ensures |Final(s, steps).taken| <= |Final(s, steps).posted| <= |Final(s, steps).taken| + 1
    ensures forall k | 0 <= k < |Final(s, steps).taken| :: ShowsAll(Final(s, steps).taken[k], Final(s, steps).posted[k])
    decreases steps
  {
    hide Next, Enabled, ShowsAll;
    if steps != [] {
      StepKeepsUntorn(s, steps[0]);
      TasksAreTakenWhole(Next(s, steps[0]), steps[1..]);
    }
  }

  /** So each joint coordinate the slave takes, seen from the zero read for it, is the one asked for
      and lies within the two limits read for it. */
  lemma TakenTargetsAreWithinLimitsRead(s: Shared, steps: seq<MicroStep>, k: nat, i: nat)
    requires Untorn(s) && Legal(s, steps)
    requires k < |Final(s, steps).taken| <= |Final(s, steps).posted|
    requires Final(s, steps).posted[k].call.space == JOINT_SPACE && i < |Final(s, steps).posted[k].call.q|
    ensures var post, task := Final(s, steps).posted[k], Final(s, steps).taken[k];
            && i < |task.qFinal| && i < |post.zeros| && i < |post.bounds.mins| && i < |post.bounds.maxs|
            && task.qFinal[i] - post.zeros[i] == post.call.q[i]
            && post.bounds.mins[i] <= task.qFinal[i] - post.zeros[i] <= post.bounds.maxs[i]
  {
    hide Final, Legal;
    TasksAreTakenWhole(s, steps);
    assert ShowsAll(Final(s, steps).taken[k], Final(s, steps).posted[k]);
  }

  // ---------------------------------------------------------------- one zero, one set of limits

  /** What a joint call reads element by element. */
  datatype Part = OfZeros | OfLimits | OfSpace

  predicate Within(b: Bounds, l: Limits) {
    b.mins <= l.qMin && b.maxs <= l.qMax
  }

  /** What joint calls have read element by element is, so far, of one piece: the zeros read are the
      robot's, and each accepted call has those of its end; the limits read are those in memory, and
      each call that passed has those of the end of its check. And the space in memory is that of the
      call being written, and of the call announced. */
  ghost predicate OnePiece(s: Shared, part: Part) {
    match part
    case OfZeros =>
      && (s.place.Writing? && s.place.call.space == JOINT_SPACE ==> s.place.zeros <= s.system.robot.userZero)
      && (forall post | post in s.posted && post.call.space == JOINT_SPACE :: post.zeros <= post.zero)
    case OfLimits =>
      && (s.place.Checking? && s.place.call.space == JOINT_SPACE ==> Within(s.place.bounds, Memory(s).limits))
      && (s.place.Writing? && s.place.call.space == JOINT_SPACE ==> Within(s.place.bounds, s.place.limits))
      && (forall post | post in s.posted && post.call.space == JOINT_SPACE :: Within(post.bounds, post.limits))
    case OfSpace =>
      && (s.place.Writing? ==> Memory(s).plannerTaskSpace == s.place.call.space)
      && (Memory(s).runSign ==> s.posted != [] && Memory(s).plannerTaskSpace == s.posted[|s.posted| - 1].call.space)
  }

  /** A change of space, a jog start or, with a waiting slave, a restart that brings another space. */
  ghost predicate SetsOtherSpace(s: System, step: M.Step)
    requires M.Sound(s)
  {
    var current := s.desk.command.plannerTaskSpace;
    || (step.Operate? && step.op.ChangeSpace? && step.op.newSpace != current)
    || (step.Operate? && step.op.StartJog? && step.op.jogSpace != current)
    || (step.Restart? && AsInt(Read(s.desk.config), SPACE) != current)
  }

  /** The step puts other values under a call that has begun to read: a connecting tick brings a zero
      that does not begin with the zeros read, or limits are posted that do not begin with those read; or
      another space is set, or loaded by a restart, while the call is written or announced. */
  ghost predicate Swaps(s: Shared, step: MicroStep, part: Part)
    requires WellFormed(s) && Enabled(s, step)
  {
    match part
    case OfZeros =>
      && step == Other(M.Tick) && M.LoadsRobot(s.system, M.Tick)
      && s.place.Writing? && s.place.call.space == JOINT_SPACE
      && !(s.place.zeros <= Padded(Params(s.system.robotFile, s.system.slave.name).userZero, s.system.slave.dof))
    case OfLimits =>
      && step.Other? && B.PostsLimits(s.system, step.step)
      && s.place.Checking? && s.place.call.space == JOINT_SPACE
      && !Within(s.place.bounds, LimitsOverlaid(Memory(s).limits, B.WantedLimits(s.system, step.step)))
    case OfSpace =>
      && step.Other? && s.system.slave.status.Wait? && SetsOtherSpace(s.system, step.step)
      && (Memory(s).runSign || (s.place.Writing? && !step.step.Restart?))
  }

  lemma OtherKeepsZerosIff(s: Shared, step: M.Step)
    requires Untorn(s) && Enabled(s, Other(step)) && OnePiece(s, OfZeros)
    ensures OnePiece(Next(s, Other(step)), OfZeros) <==> !Swaps(s, Other(step), OfZeros)
  {
    hide WellTyped, Restarted, RobotRan, Applied, Shows, ShowsAll, M.LoadsRobot, LimitsOverlaid, InBounds;
    if step.Tick? && M.LoadsRobot(s.system, step) {
      M.ConnectionLoadsLimitsIff(s.system);
    } else if !step.Restart? {
      M.OnlyTheseLoad(s.system, step);
      M.RobotStays(s.system, step);
    }
  }

  lemma OtherKeepsLimitsIff(s: Shared, step: M.Step)
    requires Untorn(s) && Enabled(s, Other(step)) && OnePiece(s, OfLimits)
    ensures OnePiece(Next(s, Other(step)), OfLimits) <==> !Swaps(s, Other(step), OfLimits)
  {
    hide M.Next, Shows, ShowsAll, LimitsOverlaid, B.PostsLimits, B.WantedLimits, Within, InBounds;
    if B.PostsLimits(s.system, step) {
      B.PostMeetsLists(s.system, step);
      B.RestartPostsNothing(s.system, step);
    } else {
      B.LimitsStay(s.system, step);
    }
  }

  lemma OtherKeepsSpaceIff(s: Shared, step: M.Step)
    requires Untorn(s) && Enabled(s, Other(step)) && OnePiece(s, OfSpace)
    ensures OnePiece(Next(s, Other(step)), OfSpace) <==> !Swaps(s, Other(step), OfSpace)
  {
    hide M.Next, Shows, ShowsAll, AsInt, WellTyped, InBounds;
    M.TargetsStay(s.system, step);
    B.PendingTaskSpaceChangesIff(s.system, step);
  }

  lemma WriteKeepsOnePiece(s: Shared, part: Part)
    requires Untorn(s) && Defined(s) && OnePiece(s, part) && s.place.Writing?
    ensures OnePiece(AdvancedWrite(s), part)
  {
    hide M.Sound, Shows, ShowsAll, InBounds, Within;
    var t := AdvancedWrite(s);
    if |s.place.zeros| == |s.place.call.q| {
      assert forall post | post in t.posted :: post in s.posted || post == t.posted[|s.posted|];
    }
  }

  lemma CheckKeepsOnePiece(s: Shared, part: Part)
    requires Untorn(s) && OnePiece(s, part) && s.place.Checking?
    ensures OnePiece(AdvancedCheck(s), part)
  {
    hide WellTyped, Shows, ShowsAll;
  }

  lemma AdvanceKeepsOnePiece(s: Shared, part: Part)
    requires Untorn(s) && Defined(s) && OnePiece(s, part)
    ensures OnePiece(Advanced(s), part)
  {
    hide WellTyped, Shows, ShowsAll, AdvancedWrite, AdvancedCheck, InBounds;
    match s.place
    case Writing(_, _, _, _) => WriteKeepsOnePiece(s, part);
    case Checking(_, _) => CheckKeepsOnePiece(s, part);
    case _ =>
  }

  /** Exactly such a step breaks it. */
  lemma StepKeepsOnePieceIff(s: Shared, step: MicroStep, part: Part)
    requires Untorn(s) && Enabled(s, step) && OnePiece(s, part)
    ensures OnePiece(Next(s, step), part) <==> !Swaps(s, step, part)
  {
    hide M.Sound, Shows, ShowsAll, Within, Advanced, M.LoadsRobot, B.PostsLimits;
    match step
    case Advance => AdvanceKeepsOnePiece(s, part);
    case Other(step) => 
      match part {
        case OfZeros => OtherKeepsZerosIff(s, step);
        case OfLimits => OtherKeepsLimitsIff(s, step);
        case OfSpace => OtherKeepsSpaceIff(s, step);
      }
    case _ =>
  }

  ghost predicate AlwaysOnePiece(s: Shared, steps: seq<MicroStep>, part: Part)
    requires Untorn(s) && Legal(s, steps)
    decreases steps
  {
    OnePiece(s, part)
    && (steps == [] || (StepKeepsUntorn(s, steps[0]); AlwaysOnePiece(Next(s, steps[0]), steps[1..], part)))
  }

  ghost predicate NeverSwaps(s: Shared, steps: seq<MicroStep>, part: Part)
    requires Untorn(s) && Legal(s, steps)
    decreases steps
  {
    steps == []
    || (!Swaps(s, steps[0], part) && (StepKeepsUntorn(s, steps[0]); NeverSwaps(Next(s, steps[0]), steps[1..], part)))
  }

  /** Over every run: all calls read one zero (one set of limits) throughout exactly if no connection
      (no posting of limits) ever puts others under a call that has begun to read them. */
  lemma {:induction false} CallsReadOnePieceIff(s: Shared, steps: seq<MicroStep>, part: Part)
    requires Untorn(s) && Legal(s, steps) && OnePiece(s, part)
    ensures AlwaysOnePiece(s, steps, part) <==> NeverSwaps(s, steps, part)
    decreases steps
  {
    hide Next, Enabled, OnePiece, Swaps;
    if steps != [] {
      var t := Next(s, steps[0]);
      StepKeepsUntorn(s, steps[0]);
      StepKeepsOnePieceIff(s, steps[0], part);
      if OnePiece(t, part) {
        CallsReadOnePieceIff(t, steps[1..], part);
      }
    }
  }

  lemma {:induction false} OnePieceAtEnd(s: Shared, steps: seq<MicroStep>, part: Part)
    requires Untorn(s) && Legal(s, steps) && AlwaysOnePiece(s, steps, part)
    ensures OnePiece(Final(s, steps), part)
    decreases steps
  {
    hide Next, Enabled, OnePiece;
    if steps != [] {
      StepKeepsUntorn(s, steps[0]);
      OnePieceAtEnd(Next(s, steps[0]), steps[1..], part);
    }
  }

  /** Then each joint coordinate the slave takes is the one asked for moved by the one zero of its call. */
  lemma TakenTargetsHaveOneZero(s: Shared, steps: seq<MicroStep>, k: nat, i: nat)
    requires Untorn(s) && Legal(s, steps) && OnePiece(s, OfZeros) && NeverSwaps(s, steps, OfZeros)
    requires k < |Final(s, steps).taken| <= |Final(s, steps).posted|
    requires Final(s, steps).posted[k].call.space == JOINT_SPACE && i < |Final(s, steps).posted[k].call.q|
    ensures var post, task := Final(s, steps).posted[k], Final(s, steps).taken[k];
            && i < |task.qFinal| && i < |post.zero| && task.qFinal[i] == post.call.q[i] + post.zero[i]
  {
    hide Final, Legal, NeverSwaps, AlwaysOnePiece;
    TasksAreTakenWhole(s, steps);
    CallsReadOnePieceIff(s, steps, OfZeros);
    OnePieceAtEnd(s, steps, OfZeros);
    assert ShowsAll(Final(s, steps).taken[k], Final(s, steps).posted[k]);
    assert Final(s, steps).posted[k] in Final(s, steps).posted;
  }

  function AsRequest(post: Post): B.Request {
    B.Request(post.call.q, post.call.space, post.zero, post.limits)
  }

  /** With the limits of one piece too, every target the slave takes meets its request as the atomic
      operation's do: moved by one zero, within one set of limits. */
  lemma TakenTargetsMeetRequests(s: Shared, steps: seq<MicroStep>, k: nat)
    requires Untorn(s) && Legal(s, steps)
    requires OnePiece(s, OfZeros) && NeverSwaps(s, steps, OfZeros) && OnePiece(s, OfLimits) && NeverSwaps(s, steps, OfLimits)
    requires k < |Final(s, steps).taken| <= |Final(s, steps).posted|
    ensures B.Meets(Final(s, steps).taken[k], AsRequest(Final(s, steps).posted[k]))
  {
    hide Final, Legal, NeverSwaps, AlwaysOnePiece;
    TasksAreTakenWhole(s, steps);
    CallsReadOnePieceIff(s, steps, OfZeros);
    OnePieceAtEnd(s, steps, OfZeros);
    CallsReadOnePieceIff(s, steps, OfLimits);
    OnePieceAtEnd(s, steps, OfLimits);
    var post, task := Final(s, steps).posted[k], Final(s, steps).taken[k];
    assert ShowsAll(task, post);
    assert post in Final(s, steps).posted;
    assert OnePiece(Final(s, steps), OfZeros) && OnePiece(Final(s, steps), OfLimits);
    OnePieceMeets(task, post);
  }

  /** And while a call is announced, the slave finds it in its own space. */
  lemma AnnouncedSpaceIsTheCalls(s: Shared, steps: seq<MicroStep>)
    requires Untorn(s) && Legal(s, steps) && OnePiece(s, OfSpace) && NeverSwaps(s, steps, OfSpace)
    ensures var t := Final(s, steps);
            Memory(t).runSign ==> |t.taken| < |t.posted| && Memory(t).plannerTaskSpace == t.posted[|t.taken|].call.space
  {
    hide Final, Legal, NeverSwaps, ShowsAll;
    TasksAreTakenWhole(s, steps);
    CallsReadOnePieceIff(s, steps, OfSpace);
    OnePieceAtEnd(s, steps, OfSpace);
  }

  lemma OnePieceMeets(task: B.Task, post: Post)
    requires ShowsAll(task, post)
    requires post.call.space == JOINT_SPACE ==> post.zeros <= post.zero && Within(post.bounds, post.limits)
    ensures B.Meets(task, AsRequest(post))
  {
  }
}
