/** The persisted settings in whole runs. */
module SettingsRuns {
  import opened MessageData
  import opened Operations
  import opened Masters
  import opened MasterRuns

  ghost predicate Settled(s: System) {
    Sound(s) && Agree(s.desk) && SpeedsInRange(s.desk.command) && s.desk.config.writable
  }

  /** Any start with a waiting slave and a writable file settles, and so does any start of a
      system that is settled. */
  lemma StartSettles(s: System, buffer: RobotData, stamp: string)
    requires Sound(s) && s.desk.config.writable && (s.slave.status.Wait? || Agree(s.desk))
    ensures Settled(Restarted(s, buffer, stamp))
  {
    RestartFrame(s, buffer, stamp);
    InitialisedAgreesIff(s.desk.(jogTimeCount := 0), s.slave.status, stamp);
    LoadingIsOneRewrite(s.desk.(jogTimeCount := 0), s.slave.status, stamp);
  }

  lemma NextKeepsSettled(s: System, step: Step)
    requires Settled(s) && Enabled(s, step)
    ensures Settled(Next(s, step))
  {
    hide RobotRan, Applied, PostsTask;
    NextKeepsSound(s, step);
    match step
    case Tick => TickFrame(s);
    case Operate(op) =>
      OperationKeepsAgreementIff(s.desk, s.slave.status, s.robot.userZero, op);
      OperationKeepsTypes(s.desk, s.slave.status, s.robot.userZero, op);
    case Restart(buffer, stamp) => StartSettles(s, buffer, stamp);
    case _ =>
  }

  /** Configuration survives: once settings and file agree they agree after every step of every
      run, restarts included, and a later start over any command memory, with the slave waiting,
      loads exactly the four values then in force. */
  lemma {:induction false} ConfigurationSurvives(s: System, steps: seq<Step>, memory: Command, buffer: RobotData, stamp: string)
    requires Settled(s) && Legal(s, steps)
    ensures Settled(Final(s, steps))
    ensures var t := Final(s, steps);
            var rebooted := t.(desk := t.desk.(command := memory), slave := t.slave.(status := Wait));
            SameSettings(Restarted(rebooted, buffer, stamp).desk.command, t.desk.command)
    decreases steps
  {
    if steps == [] {
      RestartRestoresSettings(s.desk, memory, 0, stamp);
    } else {
      NextKeepsSettled(s, steps[0]);
      ConfigurationSurvives(Next(s, steps[0]), steps[1..], memory, buffer, stamp);
    }
  }
}
