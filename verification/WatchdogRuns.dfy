/** The jog watchdog in whole runs. */
module WatchdogRuns {
  import opened MessageData
  import opened Communications
  import opened Controllers
  import opened Operations
  import opened Masters
  import opened MasterRuns

  function JogsOn(s: System): bool {
    s.desk.command.jogSign
  }

  /** Consecutive ticks spent jogging since the last keep-alive, stop or restart. */
  ghost function Gap(g: nat, s: System, step: Step): nat
    requires Sound(s) && Enabled(s, step)
  {
    if step == Operate(KeepAlive) || step.Restart? || !JogsOn(Next(s, step)) then 0
    else if step.Tick? then g + 1
    else g
  }

  ghost function GapAfter(g: nat, s: System, steps: seq<Step>): nat
    requires Sound(s) && Legal(s, steps)
    decreases steps
  {
    if steps == [] then g
    else (NextKeepsSound(s, steps[0]); GapAfter(Gap(g, s, steps[0]), Next(s, steps[0]), steps[1..]))
  }

  lemma StepBoundsGap(s: System, g: nat, step: Step)
    requires Invariant(s) && Enabled(s, step) && g <= s.desk.jogTimeCount
    ensures Gap(g, s, step) <= Next(s, step).desk.jogTimeCount <= JOG_TIMEOUT
  {
    hide RobotRan, Restarted, Applied, PostsTask;
    NextKeepsInvariant(s, step);
    match step
    case Tick => TickFrame(s);
    case Restart(buffer, stamp) => RestartFrame(s, buffer, stamp);
    case Operate(op) => OperationOnJog(s.desk, s.slave.status, s.robot.userZero, op);
    case _ =>
  }

  /** Dead-man: in every run the watchdog counter bounds the unattended jogging from above and is
      itself at most 100, so no jogging survives a 101st tick without a keep-alive. */
  lemma {:induction false} JogIsBounded(s: System, g: nat, steps: seq<Step>)
    requires Invariant(s) && Legal(s, steps) && g <= s.desk.jogTimeCount
    ensures GapAfter(g, s, steps) <= Final(s, steps).desk.jogTimeCount <= JOG_TIMEOUT
    decreases steps
  {
    if steps != [] {
      NextKeepsInvariant(s, steps[0]);
      StepBoundsGap(s, g, steps[0]);
      JogIsBounded(Next(s, steps[0]), Gap(g, s, steps[0]), steps[1..]);
    }
  }

  /** Jogging is on before and after every step, and nobody resets the counter. */
  ghost predicate JogsUnattended(s: System, steps: seq<Step>)
    requires Sound(s) && Legal(s, steps)
    decreases steps
  {
    JogsOn(s) && (steps == [] ||
      (steps[0] != Operate(KeepAlive) && !steps[0].Restart? &&
        (NextKeepsSound(s, steps[0]); JogsUnattended(Next(s, steps[0]), steps[1..]))))
  }

  function Ticks(steps: seq<Step>): nat {
    if steps == [] then 0 else (if steps[0].Tick? then 1 else 0) + Ticks(steps[1..])
  }

  /** One step of unattended jogging: a tick counts, and stops the jogging at the limit; nothing else counts. */
  lemma UnattendedStep(s: System, step: Step)
    requires Invariant(s) && Enabled(s, step) && JogsOn(s)
    ensures step.Tick? ==> (JogsOn(Next(s, step)) <==> s.desk.jogTimeCount < JOG_TIMEOUT)
    ensures step != Operate(KeepAlive) && !step.Restart? && JogsOn(Next(s, step)) ==>
              Next(s, step).desk.jogTimeCount == s.desk.jogTimeCount + if step.Tick? then 1 else 0
  {
    hide RobotRan, Restarted, Applied, PostsTask;
    match step
    case Tick => TickFrame(s);
    case Operate(op) => OperationOnJog(s.desk, s.slave.status, s.robot.userZero, op);
    case _ =>
  }

  /** The exact law: unattended jogging advances the counter by one a tick, so from count c it
      lasts at most 100 - c ticks, and the next tick stops it. */
  lemma {:induction false} UnattendedJogEnds(s: System, steps: seq<Step>)
    requires Invariant(s) && Legal(s, steps) && JogsUnattended(s, steps)
    ensures Invariant(Final(s, steps)) && JogsOn(Final(s, steps))
    ensures Final(s, steps).desk.jogTimeCount == s.desk.jogTimeCount + Ticks(steps) <= JOG_TIMEOUT
    ensures !JogsOn(Next(Final(s, steps), Tick)) <==> s.desk.jogTimeCount + Ticks(steps) == JOG_TIMEOUT
    decreases steps
  {
    hide Next;
    if steps == [] {
      UnattendedStep(s, Tick);
    } else {
      NextKeepsInvariant(s, steps[0]);
      UnattendedStep(s, steps[0]);
      UnattendedJogEnds(Next(s, steps[0]), steps[1..]);
    }
  }

  /** The watchdog ends the jogging at this step. */
  ghost predicate Fires(s: System, step: Step)
    requires Sound(s) && Enabled(s, step)
  {
    step.Tick? && JogsOn(s) && !JogsOn(Next(s, step))
  }

  ghost predicate NeverFires(s: System, steps: seq<Step>)
    requires Sound(s) && Legal(s, steps)
    decreases steps
  {
    steps == [] || (!Fires(s, steps[0]) && (NextKeepsSound(s, steps[0]); NeverFires(Next(s, steps[0]), steps[1..])))
  }

  /** At most 100 ticks lie between two resets of the counter, `since` of them already past. */
  predicate Attended(steps: seq<Step>, since: nat) {
    steps == []
    || (if steps[0] == Operate(KeepAlive) || steps[0].Restart? then Attended(steps[1..], 0)
        else if steps[0].Tick? then since + 1 <= JOG_TIMEOUT && Attended(steps[1..], since + 1)
        else Attended(steps[1..], since))
  }

  lemma AttendedStep(s: System, step: Step, since: nat)
    requires Invariant(s) && Enabled(s, step) && s.desk.jogTimeCount <= since
    ensures step == Operate(KeepAlive) || step.Restart? ==> Next(s, step).desk.jogTimeCount == 0
    ensures Next(s, step).desk.jogTimeCount <= if step.Tick? then since + 1 else since
    ensures Fires(s, step) ==> since >= JOG_TIMEOUT
  {
    hide RobotRan, Restarted, Applied, PostsTask;
    match step
    case Tick => TickFrame(s);
    case Restart(buffer, stamp) => RestartFrame(s, buffer, stamp);
    case Operate(op) => OperationOnJog(s.desk, s.slave.status, s.robot.userZero, op);
    case _ =>
  }

  /** A keep-alive at least every 100 ticks and the watchdog never fires, whatever jogs are started
      or stopped in between and however much of the counter earlier ones used up. */
  lemma {:induction false} AttendedJogIsNeverStopped(s: System, steps: seq<Step>, since: nat)
    requires Invariant(s) && Legal(s, steps) && s.desk.jogTimeCount <= since && Attended(steps, since)
    ensures NeverFires(s, steps)
    decreases steps
  {
    hide Next;
    if steps != [] {
      var step := steps[0];
      NextKeepsInvariant(s, step);
      AttendedStep(s, step, since);
      AttendedJogIsNeverStopped(Next(s, step), steps[1..],
        if step == Operate(KeepAlive) || step.Restart? then 0 else if step.Tick? then since + 1 else since);
    }
  }

  // ---------------------------------------------------------------- what the counter counts

  /** Firing resets the counter, and a tick with jogging off leaves it as it is. */
  lemma FiringResetsCounter(s: System, step: Step)
    requires Sound(s) && Enabled(s, step)
    ensures Fires(s, step) ==> Next(s, step).desk.jogTimeCount == 0
    ensures step.Tick? && !JogsOn(s) ==> Next(s, step).desk.jogTimeCount == s.desk.jogTimeCount && !JogsOn(Next(s, step))
  {
    hide Ticked;
  }

  /** Jogging ticks since the last keep-alive, restart or firing, across stops and starts. */
  ghost function Count(count: nat, s: System, step: Step): nat
    requires Sound(s) && Enabled(s, step)
  {
    if step == Operate(KeepAlive) || step.Restart? || Fires(s, step) then 0
    else if step.Tick? && JogsOn(s) then count + 1
    else count
  }

  ghost function CountAfter(count: nat, s: System, steps: seq<Step>): nat
    requires Sound(s) && Legal(s, steps)
    decreases steps
  {
    if steps == [] then count
    else (NextKeepsSound(s, steps[0]); CountAfter(Count(count, s, steps[0]), Next(s, steps[0]), steps[1..]))
  }

  lemma StepCounts(s: System, step: Step)
    requires Invariant(s) && Enabled(s, step)
    ensures Next(s, step).desk.jogTimeCount == Count(s.desk.jogTimeCount, s, step)
  {
    hide RobotRan, Restarted, Applied, PostsTask;
    match step
    case Tick =>
      FiringResetsCounter(s, step);
      if JogsOn(s) { UnattendedStep(s, step); }
    case Restart(buffer, stamp) => RestartFrame(s, buffer, stamp);
    case Operate(op) => OperationOnJog(s.desk, s.slave.status, s.robot.userZero, op);
    case _ =>
  }

  /** The exact law of the counter over every run. */
  lemma {:induction false} CounterCountsJoggingTicks(s: System, steps: seq<Step>)
    requires Invariant(s) && Legal(s, steps)
    ensures Final(s, steps).desk.jogTimeCount == CountAfter(s.desk.jogTimeCount, s, steps)
    decreases steps
  {
    hide Next, Count;
    if steps != [] {
      NextKeepsInvariant(s, steps[0]);
      StepCounts(s, steps[0]);
      CounterCountsJoggingTicks(Next(s, steps[0]), steps[1..]);
    }
  }

  predicate StartsNoJog(steps: seq<Step>) {
    forall step | step in steps :: !(step.Operate? && step.op.StartJog?)
  }

  /** While jogging is off and nobody starts it, a counter at 0 stays at 0. */
  lemma {:induction false} RestKeepsZero(s: System, steps: seq<Step>)
    requires Invariant(s) && Legal(s, steps) && StartsNoJog(steps)
    requires !JogsOn(s) && s.desk.jogTimeCount == 0
    ensures Invariant(Final(s, steps)) && !JogsOn(Final(s, steps)) && Final(s, steps).desk.jogTimeCount == 0
    decreases steps
  {
    hide Next;
    if steps != [] {
      NextKeepsInvariant(s, steps[0]);
      StepCounts(s, steps[0]);
      JogStays(s, steps[0]);
      RestKeepsZero(Next(s, steps[0]), steps[1..]);
    }
  }

  /** A jog started after the watchdog has fired has its full time again: whatever happens between
      short of another start, and whatever happens during it short of keep-alives and restarts, it lasts
      through 100 ticks and the next one ends it. */
  lemma JogAfterFiringLastsHundredTicks(s: System, between: seq<Step>, start: Step, during: seq<Step>)
    requires Invariant(s) && Enabled(s, Tick) && Fires(s, Tick) && Sound(Next(s, Tick))
    requires Legal(Next(s, Tick), between) && StartsNoJog(between)
    requires Sound(Final(Next(s, Tick), between)) && Enabled(Final(Next(s, Tick), between), start)
    requires start.Operate? && start.op.StartJog? && Final(Next(s, Tick), between).slave.status == Wait
    requires Sound(Next(Final(Next(s, Tick), between), start))
    requires Legal(Next(Final(Next(s, Tick), between), start), during)
    requires JogsUnattended(Next(Final(Next(s, Tick), between), start), during)
    ensures Ticks(during) <= 100
    ensures var t := Final(Next(Final(Next(s, Tick), between), start), during);
            Sound(t) && (!JogsOn(Next(t, Tick)) <==> Ticks(during) == 100)
  {
    hide Next, Final, Legal, JogsUnattended, Fires;
    var rest := Next(s, Tick);
    NextKeepsInvariant(s, Tick);
    FiringResetsCounter(s, Tick);
    FiresEndsJog(s, Tick);
    RestKeepsZero(rest, between);
    var ready := Final(rest, between);
    NextKeepsInvariant(ready, start);
    StepCounts(ready, start);
    UnattendedJogEnds(Next(ready, start), during);
  }

  lemma FiresEndsJog(s: System, step: Step)
    requires Sound(s) && Enabled(s, step) && Fires(s, step)
    ensures !JogsOn(Next(s, step))
  {
  }
}
