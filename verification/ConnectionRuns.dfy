/** The connection in whole runs: detection of loss and return, and counter overflow. */
module ConnectionRuns {
  import opened MessageData
  import opened Communications
  import opened Controllers
  import opened Operations
  import opened Masters
  import opened MasterRuns

  /** The heartbeat values at the ticks of a run. */
  ghost function Seen(s: System, steps: seq<Step>): seq<Word>
    requires Sound(s) && Legal(s, steps)
    decreases steps
  {
    if steps == [] then []
    else
      NextKeepsSound(s, steps[0]);
      (if steps[0].Tick? then [s.slave.heartbeat] else []) + Seen(Next(s, steps[0]), steps[1..])
  }

  predicate NoRestart(steps: seq<Step>) {
    forall step | step in steps :: !step.Restart?
  }

  lemma NextLink(s: System, step: Step)
    requires Sound(s) && Enabled(s, step) && !step.Restart?
    ensures Next(s, step).ipc.link
         == if step.Tick? then Ticked(s.ipc.link, MAX_TIMEOUT_COUNT, s.slave.heartbeat) else s.ipc.link
  {
    hide Ticked, Applied, JogChecked;
  }

  /** The link of any run is the link of its heartbeat values alone, so everything shown of
      `After` holds in the full system. */
  lemma {:induction false} LinkDependsOnHeartbeatsOnly(s: System, steps: seq<Step>, record: Word, before: seq<Word>)
    requires Sound(s) && Legal(s, steps) && NoRestart(steps)
    requires s.ipc.link == After(record, MAX_TIMEOUT_COUNT, before)
    ensures Final(s, steps).ipc.link == After(record, MAX_TIMEOUT_COUNT, before + Seen(s, steps))
    decreases steps
  {
    hide Next, Ticked;
    if steps == [] {
      assert before + [] == before;
    } else {
      var t := Next(s, steps[0]);
      NextKeepsSound(s, steps[0]);
      NextLink(s, steps[0]);
      var more := before + if steps[0].Tick? then [s.slave.heartbeat] else [];
      if steps[0].Tick? {
        assert more[..|more| - 1] == before;
      } else {
        assert more == before;
      }
      LinkDependsOnHeartbeatsOnly(t, steps[1..], record, more);
      assert more + Seen(t, steps[1..]) == before + Seen(s, steps);
    }
  }

  /** After a start, `connect` is the level of the heartbeats seen since. */
  lemma ConnectAfterStart(s: System, steps: seq<Step>, buffer: RobotData, stamp: string)
    requires Sound(s) && Sound(Restarted(s, buffer, stamp)) && Legal(Restarted(s, buffer, stamp), steps) && NoRestart(steps)
    ensures Final(Restarted(s, buffer, stamp), steps).connect
         == After(s.slave.heartbeat, MAX_TIMEOUT_COUNT, Seen(Restarted(s, buffer, stamp), steps)).isConnect
  {
    hide Next, Initialised, Ticked, Legal;
    var started := Restarted(s, buffer, stamp);
    RestartEstablishesInvariant(s, buffer, stamp);
    ConnectIsLevel(started, steps);
    LinkDependsOnHeartbeatsOnly(started, steps, s.slave.heartbeat, []);
    assert [] + Seen(started, steps) == Seen(started, steps);
  }

  /** Detection in the full system: twenty ticks of an unchanged heartbeat and `connect` is false;
      twenty ticks over which each ten changed it and `connect` is true. */
  lemma SlaveLossIsDetected(s: System, steps: seq<Step>, buffer: RobotData, stamp: string, from: nat)
    requires Sound(s) && Sound(Restarted(s, buffer, stamp)) && Legal(Restarted(s, buffer, stamp), steps) && NoRestart(steps)
    requires from + 20 <= |Seen(Restarted(s, buffer, stamp), steps)|
    ensures var started := Restarted(s, buffer, stamp);
            var seen := Seen(started, steps);
            && ((forall t | from <= t < |seen| :: seen[t] == seen[from]) ==> !Final(started, steps).connect)
            && ((forall t | from <= t && t + 10 < |seen| :: seen[t + 10] != seen[t]) ==> Final(started, steps).connect)
  {
    hide Restarted, Final, Seen, Legal, After;
    var seen := Seen(Restarted(s, buffer, stamp), steps);
    ConnectAfterStart(s, steps, buffer, stamp);
    if forall t | from <= t < |seen| :: seen[t] == seen[from] {
      FrozenIsDetected(s.slave.heartbeat, 10, seen, from);
    }
    if forall t | from <= t && t + 10 < |seen| :: seen[t + 10] != seen[t] {
      AliveIsDetected(s.slave.heartbeat, 10, seen, from);
    }
  }

  /** The slave's unbounded count at the ticks of a run that starts at `count`. */
  function Totals(count: nat, steps: seq<Step>): seq<nat>
    decreases steps
  {
    if steps == [] then []
    else if steps[0].Tick? then [count] + Totals(count, steps[1..])
    else Totals(if steps[0].Beat? then count + steps[0].counts else count, steps[1..])
  }

  lemma BeatWraps(count: nat, counts: nat)
    ensures (count % WORD + counts) % WORD == (count + counts) % WORD
  {
    SameWordIff(count % WORD + counts, count + counts);
    var q := count / WORD;
    assert count == q * WORD + count % WORD;
    DivModUnique(count - count % WORD, WORD, q, 0);
  }

  /** Only the slave's own step moves its heartbeat. */
  lemma NextHeartbeat(s: System, step: Step)
    requires Sound(s) && Enabled(s, step)
    ensures Next(s, step).slave.heartbeat
         == if step.Beat? then (s.slave.heartbeat + step.counts) % WORD else s.slave.heartbeat
  {
    hide RobotRan, Applied, Initialised;
    if step.Tick? { TickFrame(s); }
  }

  lemma NextCount(s: System, step: Step, count: nat)
    requires Sound(s) && Enabled(s, step) && s.slave.heartbeat == count % WORD
    ensures Next(s, step).slave.heartbeat == (if step.Beat? then count + step.counts else count) % WORD
  {
    hide Next;
    NextHeartbeat(s, step);
    if step.Beat? { BeatWraps(count, step.counts); }
  }

  lemma {:induction false} SeenShowsTotals(s: System, steps: seq<Step>, count: nat)
    requires Sound(s) && Legal(s, steps) && s.slave.heartbeat == count % WORD
    ensures Shows(Seen(s, steps), Totals(count, steps))
    decreases steps
  {
    hide Next;
    if steps != [] {
      var step := steps[0];
      NextKeepsSound(s, step);
      NextCount(s, step, count);
      SeenShowsTotals(Next(s, step), steps[1..], if step.Beat? then count + step.counts else count);
    }
  }

  /** Wraparound in the full system: a slave that counts by 1 to 2^32-1 over every ten ticks is
      connected from the tenth tick after a start on, for as long as it lives and whatever else
      happens; and before that tick it is not. */
  lemma LiveSlaveIsNeverLost(s: System, steps: seq<Step>, buffer: RobotData, stamp: string)
    requires Sound(s) && Sound(Restarted(s, buffer, stamp)) && Legal(Restarted(s, buffer, stamp), steps) && NoRestart(steps)
    requires AdvancesEachWindow(s.slave.heartbeat, 10, Totals(s.slave.heartbeat, steps))
    ensures Final(Restarted(s, buffer, stamp), steps).connect <==> |Seen(Restarted(s, buffer, stamp), steps)| >= 10
  {
    hide Final, Seen, Legal, After, Initialised, Totals, AdvancesEachWindow;
    var started := Restarted(s, buffer, stamp);
    ConnectAfterStart(s, steps, buffer, stamp);
    DivModUnique(s.slave.heartbeat, WORD, 0, s.slave.heartbeat);
    SeenShowsTotals(started, steps, s.slave.heartbeat);
    LiveLevel(s.slave.heartbeat, 10, Seen(started, steps), Totals(s.slave.heartbeat, steps));
  }
}
