/** What each operation and the loading at start leave behind, member by member: memory, counter and
    file, with the file's keys by their names. */
module OperationEffects {
  import opened Options
  import opened MessageData
  import opened Configs
  import opened Controllers
  import opened Operations

  /** What can be read under a key. */
  function Member(f: File, key: string): Option<Json> {
    if f.content.Some? && key in f.content.value then Some(f.content.value[key]) else None
  }

  /** A file that can be written has the number under the key and everything else as it was; any
      other stays as it is. */
  ghost predicate FileSets(before: File, after: File, key: string, n: int) {
    && after.writable == before.writable
    && (!before.writable ==> after == before)
    && (before.writable ==>
      && after.content.Some? && Member(after, key) == Some(Number(n))
      && forall k: string | k != key :: Member(after, k) == Member(before, k))
  }

  /** `v` is the number from 1 to 100 closest to `ratio`. */
  predicate IsClosest(v: int, ratio: int) {
    1 <= v <= 100 && (ratio < 1 ==> v == 1) && (ratio > 100 ==> v == 100) && (1 <= ratio <= 100 ==> v == ratio)
  }

  lemma MergeSets(f: File, key: string, n: int)
    ensures FileSets(f, Merged(f, map[key := Number(n)]), key, n)
  {
  }

  /** The setters: modes with a waiting slave only, speeds always and from 1 to 100; each sets its own
      member of memory and its own key of the file, and touches nothing else. */
  lemma SettersSetTheirOwn(d: Desk, status: RunStatus, zero: seq<real>, op: Op)
    requires Allowed(d, status, zero, op)
    ensures var r, c := Applied(d, status, zero, op), d.command;
            && r.jogTimeCount == (if op.KeepAlive? then 0 else d.jogTimeCount)
            && match op
               case ChangeLaw(law) =>
                 if status != Wait then r == d
                 else r.command == c.(controllerLaw := law) && FileSets(d.config, r.config, "controlLaw", law)
               case ChangePlanner(planner) =>
                 if status != Wait then r == d
                 else r.command == c.(planner := planner) && FileSets(d.config, r.config, "planner", planner)
               case ChangeSpace(space) =>
                 if status != Wait then r == d
                 else r.command == c.(plannerTaskSpace := space) && FileSets(d.config, r.config, "space", space)
               case StartJog(num, dir, space) =>
                 if status != Wait then r == d
                 else r.command == c.(plannerTaskSpace := space, jogSign := true, jogNum := num, jogDir := dir)
                      && FileSets(d.config, r.config, "space", space)
               case SetRunSpeed(ratio) =>
                 && IsClosest(r.command.runSpeed, ratio) && r.command == c.(runSpeed := r.command.runSpeed)
                 && FileSets(d.config, r.config, "runSpeed", r.command.runSpeed)
               case SetJogSpeed(ratio) =>
                 && IsClosest(r.command.jogSpeed, ratio) && r.command == c.(jogSpeed := r.command.jogSpeed)
                 && FileSets(d.config, r.config, "jogspeed", r.command.jogSpeed)
               case StopJog => r.command == c.(jogSign := false) && r.config == d.config
               case KeepAlive => r.command == c && r.config == d.config
               case StopRun => r.command == c.(stopSign := c.stopSign || status == Run) && r.config == d.config
               case _ => r.config == d.config
  {
    hide FileSets, Merged, RunTaskCreated, Callable, LimitsOverlaid;
    match op
    case ChangeLaw(law) => MergeSets(d.config, "controlLaw", law);
    case ChangePlanner(planner) => MergeSets(d.config, "planner", planner);
    case ChangeSpace(space) => MergeSets(d.config, "space", space);
    case StartJog(_, _, space) => MergeSets(d.config, "space", space);
    case SetRunSpeed(ratio) => MergeSets(d.config, "runSpeed", Clamped(ratio));
    case SetJogSpeed(ratio) => MergeSets(d.config, "jogspeed", Clamped(ratio));
    case _ =>
  }

  /** `after` is `list` over the front of `before`. */
  ghost predicate Covers(after: seq<real>, list: seq<real>, before: seq<real>) {
    |list| <= |after| == |before|
    && forall i | 0 <= i < |after| :: after[i] == if i < |list| then list[i] else before[i]
  }

  /** Each of the five lists covers the front of its own array, unless earlier limits are pending. */
  lemma SetLimitCoversEachList(d: Desk, status: RunStatus, zero: seq<real>, lists: Limits)
    requires Allowed(d, status, zero, SetLimit(lists))
    ensures var r, l := Applied(d, status, zero, SetLimit(lists)), d.command.limits;
            if d.command.newLimit then r == d
            else
              var m := r.command.limits;
              && r == d.(command := d.command.(newLimit := true, limits := m))
              && Covers(m.qMax, lists.qMax, l.qMax) && Covers(m.qMin, lists.qMin, l.qMin)
              && Covers(m.dq, lists.dq, l.dq) && Covers(m.ddq, lists.ddq, l.ddq) && Covers(m.dddq, lists.dddq, l.dddq)
  {
  }

  /** A run task is accepted exactly by a waiting slave with none pending and, in joint space, within
      every limit; accepted, it writes its space, its coordinates over the front of its own array, in
      joint space moved by the zero, and the sign, and refused nothing. */
  lemma RunTaskWritesItsArray(d: Desk, status: RunStatus, zero: seq<real>, op: Op)
    requires Allowed(d, status, zero, op) && AsksForTask(op)
    ensures op.BackToZero? ==> Target(op) == [0.0, 0.0, 0.0, 0.0, 0.0, 0.0, 0.0] && TargetSpace(op) == JOINT_SPACE
    ensures op.RunTask? ==> Target(op) == op.q && TargetSpace(op) == op.space
    ensures var q, space, c, r := Target(op), TargetSpace(op), d.command, Applied(d, status, zero, op);
            && (Accepted(c, status, zero, q, space) <==>
              && status == Wait && !c.runSign
              && (space == JOINT_SPACE ==> forall i | 0 <= i < |q| :: c.limits.qMin[i] <= q[i] && q[i] <= c.limits.qMax[i]))
            && if Accepted(c, status, zero, q, space) && space == JOINT_SPACE then
                 && r == d.(command := c.(plannerTaskSpace := space, qFinal := r.command.qFinal, runSign := true))
                 && |q| <= |zero| && Covers(r.command.qFinal, seq(|q|, i requires 0 <= i < |q| => q[i] + zero[i]), c.qFinal)
               else if Accepted(c, status, zero, q, space) && space == CARTESIAN_SPACE then
                 && r == d.(command := c.(plannerTaskSpace := space, xFinal := r.command.xFinal, runSign := true))
                 && Covers(r.command.xFinal, q, c.xFinal)
               else r == d
  {
  }

  // ---------------------------------------------------------------- loading at start

  /** A speed loads as the closest number from 1 to 100, a missing or null one as 1. */
  predicate SpeedLoads(f: File, key: string, v: int) {
    match Member(f, key)
    case Some(Number(n)) => IsClosest(v, n)
    case _ => v == 1
  }

  /** A mode loads as it is, a missing or null one as 0. */
  predicate ModeLoads(f: File, key: string, v: int) {
    match Member(f, key)
    case Some(Number(n)) => v == n
    case _ => v == 0
  }

  /** Loading sets the two speeds, with a waiting slave the three modes, and nothing else in memory. */
  lemma LoadingSetsMemory(d: Desk, status: RunStatus, stamp: string)
    requires WellTyped(Read(d.config))
    ensures var r := Initialised(d, status, stamp);
            var m, c := r.command, d.command;
            && r.jogTimeCount == d.jogTimeCount
            && SpeedLoads(d.config, "runSpeed", m.runSpeed) && SpeedLoads(d.config, "jogspeed", m.jogSpeed)
            && if status == Wait then
                 && m == c.(runSpeed := m.runSpeed, jogSpeed := m.jogSpeed, controllerLaw := m.controllerLaw,
                            planner := m.planner, plannerTaskSpace := m.plannerTaskSpace)
                 && ModeLoads(d.config, "controlLaw", m.controllerLaw) && ModeLoads(d.config, "planner", m.planner)
                 && ModeLoads(d.config, "space", m.plannerTaskSpace)
               else m == c.(runSpeed := m.runSpeed, jogSpeed := m.jogSpeed)
  {
    hide Initialised;
    LoadingIsOneRewrite(d, status, stamp);
  }

  /** The keys that loading writes. */
  function KeysLoaded(status: RunStatus): set<string> {
    {"ControllerID", "runSpeed", "jogspeed"} + if status == Wait then {"controlLaw", "planner", "space"} else {}
  }

  /** It writes the stamp and what memory then holds to a file that can be written, keeps every
      other key, and leaves any other file alone. */
  lemma LoadingSetsFile(d: Desk, status: RunStatus, stamp: string)
    requires WellTyped(Read(d.config))
    ensures var r := Initialised(d, status, stamp);
            var f, m := r.config, r.command;
            if !d.config.writable then f == d.config
            else
              && f.writable && f.content.Some?
              && Member(f, "ControllerID") == Some(Text(stamp))
              && Member(f, "runSpeed") == Some(Number(m.runSpeed)) && Member(f, "jogspeed") == Some(Number(m.jogSpeed))
              && (status == Wait ==>
                && Member(f, "controlLaw") == Some(Number(m.controllerLaw)) && Member(f, "planner") == Some(Number(m.planner))
                && Member(f, "space") == Some(Number(m.plannerTaskSpace)))
              && forall key | key !in KeysLoaded(status) :: Member(f, key) == Member(d.config, key)
  {
    hide Initialised, LoadedRoot;
    LoadingIsOneRewrite(d, status, stamp);
    LoadedValues(Read(d.config), status, stamp);
    var before, after := Read(d.config), LoadedRoot(Read(d.config), status, stamp);
    forall key | key !in KeysLoaded(status) ensures key in after <==> key in before {}
  }

  /** The first start, without a file: the least speeds and the modes 0, or those in memory, and a file of
      exactly what was loaded. */
  lemma FirstStartLoadsDefaults(d: Desk, status: RunStatus, stamp: string)
    requires d.config.content == None
    ensures var r := Initialised(d, status, stamp);
            && r.command.runSpeed == 1 && r.command.jogSpeed == 1
            && (status == Wait ==> r.command.controllerLaw == 0 && r.command.planner == 0 && r.command.plannerTaskSpace == 0)
            && (status != Wait ==> r.command == d.command.(runSpeed := 1, jogSpeed := 1))
            && (d.config.writable ==> r.config.content.Some? && r.config.content.value.Keys == KeysLoaded(status))
  {
    hide Initialised;
    LoadingSetsMemory(d, status, stamp);
    LoadingSetsFile(d, status, stamp);
    var r := Initialised(d, status, stamp);
    if d.config.writable {
      forall key ensures key in r.config.content.value.Keys <==> key in KeysLoaded(status) {
        assert key !in KeysLoaded(status) ==> Member(r.config, key) == Member(d.config, key) == None;
        assert key in r.config.content.value <==> Member(r.config, key).Some?;
      }
    }
  }
}
