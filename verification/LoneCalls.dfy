/** Calls of createRunTask that run alone, wholly or up to a connection: they come to the atomic
    operation, and a connection in the wrong place mixes zeros or limits. */
module LoneCalls {
  import opened Options
  import opened MessageData
  import opened Controllers
  import opened Operations
  import opened Masters
  import opened Publications

  /** `n` further reads and writes of the issuing thread, nothing in between. */
  ghost function AdvancedBy(s: Shared, n: nat): Shared
    requires WellFormed(s)
    ensures WellFormed(AdvancedBy(s, n))
    decreases n
  {
    if n == 0 then s else AdvancedBy(Advanced(s), n - 1)
  }

  lemma {:induction false} AdvancedBySum(s: Shared, a: nat, b: nat)
    requires WellFormed(s)
    ensures AdvancedBy(AdvancedBy(s, a), b) == AdvancedBy(s, a + b)
    decreases a
  {
    hide Advanced, WellFormed;
    if a != 0 { AdvancedBySum(Advanced(s), a - 1, b); }
  }

  lemma {:induction false} IdleStays(s: Shared, n: nat)
    requires WellFormed(s) && s.place.Idle?
    ensures AdvancedBy(s, n) == s
    decreases n
  {
    if n != 0 { IdleStays(s, n - 1); }
  }

  function BoundsSoFar(place: Place): Bounds {
    if place.Checking? || place.Writing? then place.bounds else Bounds([], [])
  }

  /** The two reads before the check do not, or did not, refuse the call. */
  predicate GoesOn(s: Shared) {
    && !s.place.Idle? && Targets(s.place.call)
    && (s.place.Entered? ==> s.system.slave.status.Wait?)
    && (s.place.Entered? || s.place.StatusSeen? ==> !Memory(s).runSign)
  }

  /** The coordinates still to be checked lie within the limits in memory. */
  ghost predicate RestWithin(s: Shared)
    requires WellFormed(s) && !s.place.Idle?
  {
    var q, l, b := s.place.call.q, Memory(s).limits, BoundsSoFar(s.place);
    s.place.call.space == JOINT_SPACE && !s.place.Writing? ==>
      && (forall i | |b.mins| <= i < |q| :: l.qMin[i] <= q[i])
      && (forall i | |b.maxs| <= i < |q| :: q[i] <= l.qMax[i])
  }

  ghost predicate Passes(s: Shared)
    requires WellFormed(s)
  {
    GoesOn(s) && RestWithin(s)
  }

  /** What a call left alone needs in order to be defined to its end. */
  ghost predicate StaysDefined(s: Shared)
    requires WellFormed(s)
  {
    && (s.place.Writing? ==> Shows(Current(s), s.place.call, s.place.zeros))
    && (GoesOn(s) && s.place.call.space == JOINT_SPACE ==>
      if RestWithin(s) then |s.place.call.q| <= |s.system.robot.userZero| else |s.place.call.q| == JOINTS)
  }

  ghost predicate OnCourse(s: Shared) {
    WellFormed(s) && StaysDefined(s)
  }

  /** The limits the call will have read when its check is over. */
  ghost function AllBounds(s: Shared): Bounds
    requires WellFormed(s) && GoesOn(s)
  {
    var q, l, b := s.place.call.q, Memory(s).limits, BoundsSoFar(s.place);
    if s.place.call.space == JOINT_SPACE then Bounds(b.mins + l.qMin[|b.mins|..|q|], b.maxs + l.qMax[|b.maxs|..|q|]) else b
  }

  /** The zeros the call will have read when it ends. */
  ghost function AllZeros(s: Shared): (zeros: seq<real>)
    requires OnCourse(s) && s.place.Writing?
    ensures |zeros| == |s.place.call.q|
  {
    var n, zeros := |s.place.call.q|, s.place.zeros;
    if s.place.call.space == JOINT_SPACE then zeros + s.system.robot.userZero[|zeros|..n]
    else zeros + seq(n - |zeros|, _ => 0.0)
  }

  /** Where the check ends if nothing comes between. */
  ghost function Opened(s: Shared): Shared
    requires WellFormed(s)
  {
    if s.place.Idle? || s.place.Writing? then s
    else if Passes(s) then
      OnMemory(s, Memory(s).(plannerTaskSpace := s.place.call.space)).(
        place := Writing(s.place.call, AllBounds(s), Memory(s).limits, []))
    else s.(place := Idle)
  }

  /** How many reads and writes that takes, unless the call is refused earlier. */
  function ChecksLeft(place: Place): int {
    match place
    case Entered(call) => (if call.space == JOINT_SPACE then 2 * |call.q| else 0) + 3
    case StatusSeen(call) => (if call.space == JOINT_SPACE then 2 * |call.q| else 0) + 2
    case Checking(call, b) => (if call.space == JOINT_SPACE then 2 * |call.q| - |b.mins| - |b.maxs| else 0) + 1
    case _ => 0
  }

  lemma EarlyStep(s: Shared)
    requires OnCourse(s) && (s.place.Entered? || s.place.StatusSeen?)
    ensures var t := Advanced(s);
            && OnCourse(t) && Defined(s) && Opened(t) == Opened(s) && !t.place.Writing?
            && (t.place.Idle? || ChecksLeft(t.place) + 1 == ChecksLeft(s.place))
  {
    hide WellTyped, Shows;
  }

  lemma OneFurther(done: seq<real>, all: seq<real>, n: nat)
    requires |done| < n <= |all|
    ensures done + [all[|done|]] + all[|done| + 1..n] == done + all[|done|..n]
  {
  }

  lemma LowerStep(s: Shared)
    requires OnCourse(s) && s.place.Checking? && !AllChecked(s.place.call, s.place.bounds)
    requires |s.place.bounds.mins| == |s.place.bounds.maxs|
    ensures var t := Advanced(s);
            && OnCourse(t) && Defined(s) && Opened(t) == Opened(s) && !t.place.Writing?
            && (t.place.Idle? || ChecksLeft(t.place) + 1 == ChecksLeft(s.place))
  {
    hide WellTyped, Shows;
    var t, b, l := Advanced(s), s.place.bounds, Memory(s).limits;
    OneFurther(b.mins, l.qMin, |s.place.call.q|);
    if t.place.Checking? {
      assert AllBounds(t) == AllBounds(s);
    }
  }

  lemma UpperStep(s: Shared)
    requires OnCourse(s) && s.place.Checking? && !AllChecked(s.place.call, s.place.bounds)
    requires |s.place.bounds.mins| != |s.place.bounds.maxs|
    ensures var t := Advanced(s);
            && OnCourse(t) && Defined(s) && Opened(t) == Opened(s) && !t.place.Writing?
            && (t.place.Idle? || ChecksLeft(t.place) + 1 == ChecksLeft(s.place))
  {
    hide WellTyped, Shows;
    var t, b, l := Advanced(s), s.place.bounds, Memory(s).limits;
    OneFurther(b.maxs, l.qMax, |s.place.call.q|);
    if t.place.Checking? {
      assert AllBounds(t) == AllBounds(s);
    }
  }

  lemma CheckStep(s: Shared)
    requires OnCourse(s) && s.place.Checking? && !AllChecked(s.place.call, s.place.bounds)
    ensures var t := Advanced(s);
            && OnCourse(t) && Defined(s) && Opened(t) == Opened(s) && !t.place.Writing?
            && (t.place.Idle? || ChecksLeft(t.place) + 1 == ChecksLeft(s.place))
  {
    hide Advanced, StaysDefined, Opened, Defined;
    if |s.place.bounds.mins| == |s.place.bounds.maxs| { LowerStep(s); } else { UpperStep(s); }
  }

  lemma OpeningStep(s: Shared)
    requires OnCourse(s) && s.place.Checking? && AllChecked(s.place.call, s.place.bounds)
    ensures OnCourse(Advanced(s)) && Defined(s) && Advanced(s) == Opened(s) && ChecksLeft(s.place) == 1
    ensures Opened(s).place.Writing?
  {
    hide WellTyped;
    var b := s.place.bounds;
    assert b.mins + [] == b.mins && b.maxs + [] == b.maxs;
    assert Passes(s) && AllBounds(s) == b;
  }

  /** Left alone up to the end of the check. */
  lemma {:induction false} Opens(s: Shared, n: nat)
    requires OnCourse(s) && !s.place.Writing? && (s.place.Idle? || n == ChecksLeft(s.place))
    ensures AdvancedBy(s, n) == Opened(s) && OnCourse(Opened(s))
    decreases n
  {
    hide Advanced, StaysDefined, Opened, Defined, M.Sound;
    if s.place.Idle? {
      IdleStays(s, n);
      IdleIsOpened(s);
    } else if s.place.Checking? && AllChecked(s.place.call, s.place.bounds) {
      OpeningStep(s);
      assert AdvancedBy(s, 1) == AdvancedBy(Advanced(s), 0);
    } else {
      if s.place.Checking? { CheckStep(s); } else { EarlyStep(s); }
      Opens(Advanced(s), n - 1);
    }
  }

  lemma IdleIsOpened(s: Shared)
    requires OnCourse(s) && s.place.Idle?
    ensures Opened(s) == s
  {
  }

  function TargetsWritten(c: Command, call: Call, zeros: seq<real>): Command
    requires CommandShape(c) && Targets(call) && |zeros| == |call.q|
  {
    if call.space == JOINT_SPACE then c.(qFinal := Overlaid(c.qFinal, Moved(call.q, zeros)), runSign := true)
    else c.(xFinal := Overlaid(c.xFinal, call.q), runSign := true)
  }

  /** Where the call ends if nothing more comes between. */
  ghost function Closed(s: Shared): Shared
    requires OnCourse(s) && s.place.Writing?
  {
    OnMemory(s, TargetsWritten(Memory(s), s.place.call, AllZeros(s))).(
      place := Idle,
      posted := s.posted + [Post(s.place.call, s.place.bounds, s.place.limits, AllZeros(s), s.system.robot.userZero)])
  }

  /** One coordinate written early makes no difference to writing them all. */
  lemma SameTargets(c: Command, call: Call, zeros: seq<real>, i: nat)
    requires CommandShape(c) && Targets(call) && i < |zeros| == |call.q|
    ensures TargetsWritten(Written1(c, call, i, zeros[i]), call, zeros) == TargetsWritten(c, call, zeros)
  {
    var d := Written1(c, call, i, zeros[i]);
    if call.space == JOINT_SPACE {
      assert Overlaid(d.qFinal, Moved(call.q, zeros)) == Overlaid(c.qFinal, Moved(call.q, zeros));
    } else {
      assert Overlaid(d.xFinal, call.q) == Overlaid(c.xFinal, call.q);
    }
  }

  /** Once every coordinate is written, writing them all again changes nothing but the sign. */
  lemma LastTargets(c: Command, call: Call, zeros: seq<real>)
    requires CommandShape(c) && |zeros| == |call.q| && Shows(B.Task(c.qFinal, c.xFinal), call, zeros)
    ensures TargetsWritten(c, call, zeros) == c.(runSign := true)
  {
    if call.space == JOINT_SPACE {
      assert Overlaid(c.qFinal, Moved(call.q, zeros)) == c.qFinal;
    } else {
      assert Overlaid(c.xFinal, call.q) == c.xFinal;
    }
  }

  lemma WriteStep(s: Shared)
    requires OnCourse(s) && s.place.Writing? && |s.place.zeros| < |s.place.call.q|
    ensures var t, i := Advanced(s), |s.place.zeros|;
            && Defined(s) && OnCourse(t) && AllZeros(t) == AllZeros(s)
            && t == OnMemory(s, Written1(Memory(s), s.place.call, i, AllZeros(s)[i])).(
                      place := s.place.(zeros := t.place.zeros))
            && t.place.zeros == s.place.zeros + [AllZeros(s)[i]]
  {
    hide WellTyped, InBounds, Shows, Written1;
    var t, i := Advanced(s), |s.place.zeros|;
    ShowsOneMore(Memory(s), s.place.call, s.place.zeros, t.place.zeros[i]);
    assert AllZeros(t) == AllZeros(s);
  }

  lemma OneMoreCoordinate(s: Shared)
    requires OnCourse(s) && s.place.Writing? && |s.place.zeros| < |s.place.call.q|
    ensures OnCourse(Advanced(s)) && Advanced(s).place.Writing? && Closed(Advanced(s)) == Closed(s)
  {
    hide TargetsWritten, InBounds, Written1, Advanced, AllZeros, StaysDefined;
    WriteStep(s);
    SameTargets(Memory(s), s.place.call, AllZeros(s), |s.place.zeros|);
  }

  lemma LastStep(s: Shared)
    requires OnCourse(s) && s.place.Writing? && |s.place.zeros| == |s.place.call.q|
    ensures Defined(s) && Advanced(s) == Closed(s) && OnCourse(Closed(s)) && Closed(s).place.Idle?
  {
    hide TargetsWritten, InBounds;
    assert AllZeros(s) == s.place.zeros;
    LastTargets(Memory(s), s.place.call, s.place.zeros);
  }

  /** Left alone to its end. */
  lemma {:induction false} Closes(s: Shared)
    requires OnCourse(s) && s.place.Writing?
    ensures AdvancedBy(s, |s.place.call.q| - |s.place.zeros| + 1) == Closed(s)
    decreases |s.place.call.q| - |s.place.zeros|
  {
    hide Advanced, Closed, StaysDefined, Defined, M.Sound;
    if |s.place.zeros| == |s.place.call.q| {
      LastStep(s);
      assert AdvancedBy(Advanced(s), 0) == Advanced(s);
    } else {
      WriteStep(s);
      OneMoreCoordinate(s);
      Closes(Advanced(s));
    }
  }

  lemma OpenedPlace(s: Shared)
    requires OnCourse(s) && s.place.Entered? && Passes(s)
    ensures var t, call, l, n := Opened(s), s.place.call, Memory(s).limits, |s.place.call.q|;
            && OnCourse(t) && t == OnMemory(s, Memory(s).(plannerTaskSpace := call.space)).(place := t.place)
            && t.place == Writing(call, if call.space == JOINT_SPACE then Bounds(l.qMin[..n], l.qMax[..n]) else Bounds([], []), l, [])
            && AllZeros(t) == if call.space == JOINT_SPACE then s.system.robot.userZero[..n] else seq(n, _ => 0.0)
  {
    hide WellTyped, InBounds, Shows, Advanced;
    Opens(s, ChecksLeft(s.place));
    var t, l, n := Opened(s), Memory(s).limits, |s.place.call.q|;
    assert [] + l.qMin[0..n] == l.qMin[..n] && [] + l.qMax[0..n] == l.qMax[..n];
    assert AllZeros(t) == if t.place.call.space == JOINT_SPACE then s.system.robot.userZero[..n] else seq(n, _ => 0.0);
  }

  lemma WrittenAtOnce(s: Shared)
    requires WellFormed(s) && s.place.Entered? && Passes(s)
    requires M.Enabled(s.system, M.Operate(RunTask(s.place.call.q, s.place.call.space)))
    ensures var call := s.place.call;
            var zeros := if call.space == JOINT_SPACE then s.system.robot.userZero[..|call.q|] else seq(|call.q|, _ => 0.0);
            OnMemory(s, TargetsWritten(Memory(s).(plannerTaskSpace := call.space), call, zeros)).system
            == M.Next(s.system, M.Operate(RunTask(call.q, call.space)))
  {
    hide WellTyped;
    var call, zero := s.place.call, s.system.robot.userZero;
    if call.space == JOINT_SPACE {
      assert Moved(call.q, zero[..|call.q|]) == Moved(call.q, zero);
    }
  }

  lemma OpenedThenClosed(s: Shared)
    requires OnCourse(s) && s.place.Entered? && Passes(s)
    requires M.Enabled(s.system, M.Operate(RunTask(s.place.call.q, s.place.call.space)))
    ensures OnCourse(Opened(s)) && Opened(s).place.Writing? && Opened(s).place.call == s.place.call && Opened(s).place.zeros == []
    ensures var t := Closed(Opened(s));
            && t.system == M.Next(s.system, M.Operate(RunTask(s.place.call.q, s.place.call.space)))
            && t.place.Idle? && t.reader == s.reader && t.taken == s.taken
            && t.posted == s.posted + [PostAtOnce(s)]
  {
    OpenedPlace(s);
    WrittenAtOnce(s);
    hide WellTyped, InBounds, Passes, StaysDefined, Opened, AllZeros, M.Next, TargetsWritten;
  }

  /** The accepted call as the atomic operation has it: all reads from one moment. */
  ghost function PostAtOnce(s: Shared): Post
    requires WellFormed(s) && s.place.Entered? && Passes(s)
    requires M.Enabled(s.system, M.Operate(RunTask(s.place.call.q, s.place.call.space)))
  {
    var call, l, zero := s.place.call, Memory(s).limits, s.system.robot.userZero;
    var n := |call.q|;
    if call.space == JOINT_SPACE then Post(call, Bounds(l.qMin[..n], l.qMax[..n]), l, zero[..n], zero)
    else Post(call, Bounds([], []), l, seq(n, _ => 0.0), zero)
  }

  lemma EnteredPassesIff(s: Shared)
    requires WellFormed(s) && s.place.Entered?
    requires M.Enabled(s.system, M.Operate(RunTask(s.place.call.q, s.place.call.space)))
    ensures OnCourse(s)
    ensures Passes(s) <==> PostsTask(s.system.desk, s.system.slave.status, s.system.robot.userZero, RunTask(s.place.call.q, s.place.call.space))
    ensures !Passes(s) ==> M.Next(s.system, M.Operate(RunTask(s.place.call.q, s.place.call.space))) == s.system
  {
    hide WellTyped;
  }

  /** Left alone, the single reads and writes come to exactly the atomic step of the system; a call
      that passes counts as posted once more, with the limits and zeros of that moment, and any other
      does not. */
  lemma UninterruptedCallIsAtomic(s: Shared)
    requires WellFormed(s) && s.place.Entered?
    requires M.Enabled(s.system, M.Operate(RunTask(s.place.call.q, s.place.call.space)))
    ensures var call := s.place.call;
            var t := AdvancedBy(s, ChecksLeft(s.place) + |call.q| + 1);
            && t.system == M.Next(s.system, M.Operate(RunTask(call.q, call.space)))
            && t.place.Idle? && t.reader == s.reader && t.taken == s.taken
            && t.posted == if Passes(s) then s.posted + [PostAtOnce(s)] else s.posted
  {
    hide AdvancedBy, Closed, M.Next, M.Sound, M.Enabled, StaysDefined, PostAtOnce;
    var a, b := ChecksLeft(s.place), |s.place.call.q| + 1;
    EnteredPassesIff(s);
    Opens(s, a);
    AdvancedBySum(s, a, b);
    if Passes(s) {
      OpenedThenClosed(s);
      Closes(Opened(s));
    } else {
      IdleStays(Opened(s), b);
    }
  }

  /** Any idle moment of the system can be the start of such a run; a target left pending counts as one
      posted before it, of which nothing is claimed. */
  lemma IdleIsUntorn(system: System, part: Part)
    requires M.Sound(system)
    ensures var c := system.desk.command;
            var space := if c.plannerTaskSpace == CARTESIAN_SPACE then CARTESIAN_SPACE else JOINT_SPACE;
            var before := if c.runSign then [Post(Call([], space), Bounds([], []), c.limits, [], [])] else [];
            && Untorn(Shared(system, Idle, Resting, before, []))
            && ((part.OfSpace? && c.runSign ==> c.plannerTaskSpace == space) ==>
              OnePiece(Shared(system, Idle, Resting, before, []), part))
  {
  }

  // ---------------------------------------------------------------- two mixed calls

  function Advances(n: nat): seq<MicroStep> {
    if n == 0 then [] else [Advance] + Advances(n - 1)
  }

  lemma CourseStep(s: Shared)
    requires OnCourse(s)
    ensures Defined(s) && OnCourse(Advanced(s))
  {
    hide Advanced, WellTyped, Shows;
    match s.place
    case Idle => assert AdvancedBy(s, 1) == AdvancedBy(Advanced(s), 0); IdleStays(s, 1);
    case Checking(call, b) => if AllChecked(call, b) { OpeningStep(s); } else { CheckStep(s); }
    case Writing(call, _, _, zeros) => if |zeros| == |call.q| { LastStep(s); } else { WriteStep(s); }
    case _ => EarlyStep(s);
  }

  /** A call left alone is a legal run. */
  lemma {:induction false} AdvancesAreLegal(s: Shared, n: nat)
    requires Untorn(s) && OnCourse(s)
    ensures Legal(s, Advances(n)) && Final(s, Advances(n)) == AdvancedBy(s, n)
    decreases n
  {
    hide Advanced, StaysDefined, WellFormed, Defined;
    if n != 0 {
      CourseStep(s);
      StepKeepsUntorn(s, Advance);
      AdvancesAreLegal(Advanced(s), n - 1);
      assert Advances(n)[1..] == Advances(n - 1);
    }
  }

  lemma {:induction false} RunsJoin(s: Shared, a: seq<MicroStep>, b: seq<MicroStep>)
    requires Untorn(s) && Legal(s, a)
    ensures Untorn(Final(s, a))
    ensures Legal(Final(s, a), b) ==> Legal(s, a + b) && Final(s, a + b) == Final(Final(s, a), b)
    decreases a
  {
    hide Next, Enabled;
    TasksAreTakenWhole(s, a);
    if a == [] {
      assert a + b == b;
    } else {
      StepKeepsUntorn(s, a[0]);
      RunsJoin(Next(s, a[0]), a[1..], b);
      assert (a + b)[1..] == a[1..] + b;
    }
  }

  /** A call of `a` reads and writes, a tick, and `b` more. */
  function Interrupted(call: Call, a: nat, b: nat): seq<MicroStep> {
    [Begin(call)] + (Advances(a) + ([Other(M.Tick)] + Advances(b)))
  }

  lemma InterruptedRun(s: Shared, call: Call, a: nat, b: nat)
    requires Untorn(s) && s.place.Idle? && Fits(call) && OnCourse(s.(place := Entered(call)))
    ensures var s2 := AdvancedBy(s.(place := Entered(call)), a);
            && Untorn(s2)
            && (OnCourse(Next(s2, Other(M.Tick))) ==>
              && Legal(s, Interrupted(call, a, b))
              && Final(s, Interrupted(call, a, b)) == AdvancedBy(Next(s2, Other(M.Tick)), b))
  {
    hide Advanced, StaysDefined, M.Next;
    var s1 := Next(s, Begin(call));
    StepKeepsUntorn(s, Begin(call));
    AdvancesAreLegal(s1, a);
    TasksAreTakenWhole(s1, Advances(a));
    var s2 := AdvancedBy(s1, a);
    var tail := [Other(M.Tick)] + Advances(b);
    var s3 := Next(s2, Other(M.Tick));
    StepKeepsUntorn(s2, Other(M.Tick));
    if OnCourse(s3) {
      AdvancesAreLegal(s3, b);
      assert tail[1..] == Advances(b);
      assert Legal(s2, tail) && Final(s2, tail) == AdvancedBy(s3, b);
      RunsJoin(s1, Advances(a), tail);
      assert Interrupted(call, a, b)[1..] == Advances(a) + tail;
    }
  }

  function AtRest(system: System): Shared {
    Shared(system, Idle, Resting, [], [])
  }

  function OneRobot(p: RobotParams): Option<RobotRoot> {
    Some(map["arm" := p])
  }

  lemma RestIsUntorn(system: System, call: Call)
    requires M.Sound(system) && M.Enabled(system, M.Operate(RunTask(call.q, call.space))) && Fits(call) && !system.desk.command.runSign
    ensures Untorn(AtRest(system)) && OnePiece(AtRest(system), OfZeros) && OnePiece(AtRest(system), OfLimits)
    ensures OnCourse(AtRest(system).(place := Entered(call)))
  {
    EnteredPassesIff(AtRest(system).(place := Entered(call)));
  }

  /** A call whose writing a connection breaks into still ends, with the rest of its zeros from the new robot. */
  lemma ConnectionWhileWriting(s: Shared)
    requires Untorn(s) && s.place.Writing? && s.place.call.space == JOINT_SPACE
    requires M.LoadsRobot(s.system, M.Tick) && |s.place.call.q| <= s.system.slave.dof
    ensures var t, n, i := Next(s, Other(M.Tick)), |s.place.call.q|, |s.place.zeros|;
            var zero := Padded(Params(s.system.robotFile, s.system.slave.name).userZero, s.system.slave.dof);
            && OnCourse(t) && AdvancedBy(t, n - i + 1).place.Idle?
            && AdvancedBy(t, n - i + 1).posted
               == s.posted + [Post(s.place.call, s.place.bounds, s.place.limits, s.place.zeros + zero[i..n], zero)]
  {
    hide WellTyped, InBounds, Shows, Advanced, TargetsWritten, M.LoadsRobot, RobotRan;
    M.ConnectionLoadsLimitsIff(s.system);
    OtherKeepsUntorn(s, M.Tick);
    Closes(Next(s, Other(M.Tick)));
  }

  function MixedZerosStart(): System {
    M.AboutToConnect(JOINTS, false, OneRobot(RobotParams(Limits([], [], [], [], []), [], M.Reals(JOINTS, 0.5))))
  }

  lemma FirstCoordinateWritten(s: Shared)
    requires OnCourse(s) && s.place.Entered? && Passes(s) && s.place.call.space == JOINT_SPACE && |s.place.call.q| > 0
    ensures var t := AdvancedBy(s, ChecksLeft(s.place) + 1);
            && WellFormed(t) && t.place.Writing? && t.place.call == s.place.call && t.place.zeros == s.system.robot.userZero[..1]
            && t.system == M.OnCommand(s.system, t.system.desk.command) && t.posted == s.posted
  {
    hide M.Sound, InBounds, Shows, Written1, Advanced, StaysDefined;
    OpenedPlace(s);
    Opens(s, ChecksLeft(s.place));
    AdvancedBySum(s, ChecksLeft(s.place), 1);
    WriteStep(Opened(s));
    assert AdvancedBy(Opened(s), 1) == AdvancedBy(Advanced(Opened(s)), 0);
  }

  lemma MixedZerosStartFits()
    ensures var system := MixedZerosStart();
            && M.Sound(system) && M.Enabled(system, M.Operate(RunTask(Zeros(), JOINT_SPACE))) && !system.desk.command.runSign
            && Passes(AtRest(system).(place := Entered(Call(Zeros(), JOINT_SPACE))))
            && M.LoadsRobot(system, M.Tick) && system.slave.dof == JOINTS && system.robot.userZero == M.Reals(JOINTS, 0.0)
            && Padded(Params(system.robotFile, system.slave.name).userZero, JOINTS) == M.Reals(JOINTS, 0.5)
  {
  }

  /** Both conditions are needed. A connection after the first of the seven writes of a return to zero:
      the call is posted with one coordinate moved by the old zero and six by the new. */
  lemma ConnectionCanMixZeros()
    ensures var s, steps := AtRest(MixedZerosStart()), Interrupted(Call(Zeros(), JOINT_SPACE), 18, 7);
            && Untorn(s) && OnePiece(s, OfZeros) && OnePiece(s, OfLimits) && Legal(s, steps)
            && Final(s, steps).place.Idle? && |Final(s, steps).posted| == 1
            && Final(s, steps).posted[0].zeros == [0.0] + M.Reals(6, 0.5)
            && Final(s, steps).posted[0].zero == M.Reals(7, 0.5)
  {
    var s, call := AtRest(MixedZerosStart()), Call(Zeros(), JOINT_SPACE);
    var s1 := s.(place := Entered(call));
    MixedZerosStartFits();
    hide MixedZerosStart, M.Sound, M.Enabled, M.LoadsRobot, Passes, Advanced, StaysDefined, AdvancedBy, OnePiece, Legal, Final, M.Next, Untorn;
    RestIsUntorn(s.system, call);
    InterruptedRun(s, call, 18, 7);
    FirstCoordinateWritten(s1);
    LoadsRobotStays(s.system, AdvancedBy(s1, 18).system);
    ConnectionWhileWriting(AdvancedBy(s1, 18));
  }

  lemma LoadsRobotStays(a: System, b: System)
    requires M.LoadsRobot(a, M.Tick) && b == M.OnCommand(a, b.desk.command)
    ensures M.LoadsRobot(b, M.Tick)
  {
  }

  lemma FourAdvances(s: Shared)
    requires WellFormed(s)
    ensures AdvancedBy(s, 4) == Advanced(Advanced(Advanced(Advanced(s))))
  {
    hide Advanced, WellFormed;
    var a := Advanced(s);
    var b := Advanced(a);
    var c := Advanced(b);
    assert AdvancedBy(s, 4) == AdvancedBy(a, 3) == AdvancedBy(b, 2) == AdvancedBy(c, 1) == AdvancedBy(Advanced(c), 0);
  }

  lemma FirstLimitsRead(s: Shared)
    requires WellFormed(s) && s.place.Entered? && GoesOn(s) && s.place.call.space == JOINT_SPACE && |s.place.call.q| > 0
    requires Memory(s).limits.qMin[0] <= s.place.call.q[0] <= Memory(s).limits.qMax[0]
    ensures var l := Memory(s).limits;
            AdvancedBy(s, 4) == s.(place := Checking(s.place.call, Bounds([l.qMin[0]], [l.qMax[0]])))
  {
    hide WellTyped, AdvancedBy;
    FourAdvances(s);
    var call, l := s.place.call, Memory(s).limits;
    var a, b := s.(place := StatusSeen(call)), s.(place := Checking(call, Bounds([], [])));
    var c := s.(place := Checking(call, Bounds([l.qMin[0]], [])));
    assert Advanced(s) == a;
    assert Advanced(a) == b;
    assert Advanced(b) == c by { assert [] + [l.qMin[0]] == [l.qMin[0]]; }
    assert [] + [l.qMax[0]] == [l.qMax[0]];
  }

  lemma PassingCallEnds(s: Shared)
    requires OnCourse(s) && Passes(s) && !s.place.Writing?
    ensures var t := AdvancedBy(s, ChecksLeft(s.place) + |s.place.call.q| + 1);
            && t.place.Idle? && |t.posted| == |s.posted| + 1
            && t.posted[|s.posted|].call == s.place.call && t.posted[|s.posted|].limits == Memory(s).limits
  {
    hide M.Sound, Shows, Advanced, AdvancedBy, StaysDefined, TargetsWritten, AllZeros;
    assert ChecksLeft(s.place) >= 0;
    Opens(s, ChecksLeft(s.place));
    AdvancedBySum(s, ChecksLeft(s.place), |s.place.call.q| + 1);
    Closes(Opened(s));
  }

  lemma FullOverlay(current: Limits, l: Limits)
    requires LimitsShape(current) && LimitsShape(l)
    ensures LimitsOverlaid(current, l) == l
  {
  }

  /** A call whose check a connection breaks into goes on with the new robot's limits. */
  lemma ConnectionWhileChecking(s: Shared)
    requires Untorn(s) && s.place.Checking? && s.place.call.space == JOINT_SPACE
    requires M.LoadsRobot(s.system, M.Tick) && !Memory(s).newLimit && s.system.slave.dof == JOINTS
    ensures var t, l := Next(s, Other(M.Tick)), PaddedLimits(Params(s.system.robotFile, s.system.slave.name).limits, JOINTS);
            && t.place == s.place && t.posted == s.posted && Memory(t).limits == l
            && (RestWithin(t) ==> OnCourse(t) && Passes(t))
  {
    hide WellTyped, InBounds, Shows, M.LoadsRobot, RobotRan, LimitsOverlaid;
    M.ConnectionLoadsLimitsIff(s.system);
    OtherKeepsUntorn(s, M.Tick);
    FullOverlay(Memory(s).limits, PaddedLimits(Params(s.system.robotFile, s.system.slave.name).limits, JOINTS));
  }

  /** A resting system one tick before a connection, none of whose limits are pending. */
  ghost predicate LimitsAreDue(system: System) {
    && M.Sound(system) && M.LoadsRobot(system, M.Tick) && system.slave.dof == JOINTS && system.slave.status.Wait?
    && !system.desk.command.runSign && !system.desk.command.newLimit
  }

  function DueLimits(system: System): Limits {
    PaddedLimits(Params(system.robotFile, system.slave.name).limits, JOINTS)
  }

  /** The first joint lies within the limits in force, the others within those of the connection. */
  ghost predicate SlipsThrough(system: System, q: seq<real>)
    requires LimitsAreDue(system)
  {
    var l := system.desk.command.limits;
    && |q| == JOINTS && l.qMin[0] <= q[0] <= l.qMax[0]
    && forall i | 1 <= i < JOINTS :: DueLimits(system).qMin[i] <= q[i] <= DueLimits(system).qMax[i]
  }

  lemma SlippingCheck(system: System, q: seq<real>)
    requires LimitsAreDue(system) && SlipsThrough(system, q) && |system.robot.userZero| == JOINTS
    ensures var s1 := AtRest(system).(place := Entered(Call(q, JOINT_SPACE)));
            && OnCourse(s1) && AdvancedBy(s1, 4).place.Checking?
            && AdvancedBy(s1, 4) == s1.(place := AdvancedBy(s1, 4).place) && AdvancedBy(s1, 4).place.call == s1.place.call
            && |AdvancedBy(s1, 4).place.bounds.mins| == |AdvancedBy(s1, 4).place.bounds.maxs| == 1
    ensures Untorn(AtRest(system)) && OnePiece(AtRest(system), OfZeros) && OnePiece(AtRest(system), OfLimits)
  {
    hide WellTyped, Advanced, AdvancedBy, M.LoadsRobot, Shows;
    RestIsUntorn(system, Call(q, JOINT_SPACE));
    FirstLimitsRead(AtRest(system).(place := Entered(Call(q, JOINT_SPACE))));
  }

  /** Then a connection after the check of the first joint lets the call through, with the limits of
      the connection in force when the check ends. */
  lemma ConnectionCanMixLimits(system: System, q: seq<real>)
    requires LimitsAreDue(system) && SlipsThrough(system, q) && |system.robot.userZero| == JOINTS
    ensures var s, steps := AtRest(system), Interrupted(Call(q, JOINT_SPACE), 4, 21);
            && Untorn(s) && OnePiece(s, OfZeros) && OnePiece(s, OfLimits) && Legal(s, steps)
            && Final(s, steps).place.Idle? && |Final(s, steps).posted| == 1
            && Final(s, steps).posted[0].call == Call(q, JOINT_SPACE) && Final(s, steps).posted[0].limits == DueLimits(system)
  {
    var s, call := AtRest(system), Call(q, JOINT_SPACE);
    hide M.Sound, M.LoadsRobot, Advanced, StaysDefined, AdvancedBy, OnePiece, Legal, Final, M.Next, Untorn;
    SlippingCheck(system, q);
    InterruptedRun(s, call, 4, 21);
    var s2 := AdvancedBy(s.(place := Entered(call)), 4);
    ConnectionWhileChecking(s2);
    hide PaddedLimits;
    PassingCallEnds(Next(s2, Other(M.Tick)));
  }

  /** One joint is held at 0 by the old limits, another by those of the file. */
  function MixedLimitsStart(): System {
    var l, z := Limits([0.0, 1.0], [], [], [], []), M.Reals(JOINTS, 0.0);
    var system := M.AboutToConnect(JOINTS, false, OneRobot(RobotParams(l, [], [])));
    M.OnCommand(system, system.desk.command.(limits := Limits([1.0] + M.Reals(6, 0.0), z, z, z, z)))
  }

  /** So a target can be posted that lies within neither. */
  lemma TargetWithinNeitherSlipsThrough()
    ensures var system, q := MixedLimitsStart(), [1.0, 1.0] + M.Reals(5, 0.0);
            && LimitsAreDue(system) && SlipsThrough(system, q) && |system.robot.userZero| == JOINTS
            && !WithinLimits(system.desk.command.limits, q) && !WithinLimits(DueLimits(system), q)
  {
    var system, q := MixedLimitsStart(), [1.0, 1.0] + M.Reals(5, 0.0);
    assert q[1] == 1.0 && system.desk.command.limits.qMax[1] == 0.0;
    assert q[0] == 1.0 && DueLimits(system).qMax[0] == 0.0;
  }
}
