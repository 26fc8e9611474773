/** The slave's messages in whole runs: what reaches the buffer the robot's position is read from. */
module DataRuns {
  import opened MessageData
  import opened Communications
  import opened Robots
  import opened Controllers
  import opened Operations
  import opened Masters
  import opened MasterRuns
  import opened ConnectionRuns
  import opened MailboxRuns
  import opened WatchdogRuns

  /** One tick: while it finds the slave connected it puts the oldest message of type 1, if there is
      one, into the buffer and takes it out of the queue; when it reports the disconnection it
      empties the queue; and it always counts its own heartbeat. (`k` is the length of the queue if it
      holds no such message.) */
  lemma TickTakesOldestData(s: System, k: nat)
    requires Sound(s) && k <= |s.ipc.queue|
    requires forall j | 0 <= j < k :: s.ipc.queue[j].mtype != 1
    requires k < |s.ipc.queue| ==> s.ipc.queue[k].mtype == 1
    ensures var i, r := s.ipc, Next(s, Tick).ipc;
            && r.masterHeartbeat == (i.masterHeartbeat + 1) % 0x1_0000_0000
            && (r.link.status == Connected || r.link.status == SuccessConnect ==>
              if k < |i.queue| then r.robotData == i.queue[k].robotData && r.queue == i.queue[..k] + i.queue[k + 1..]
              else r.robotData == i.robotData && r.queue == i.queue)
            && (r.link.status == Disconnected ==> r.queue == [] && r.robotData == i.robotData)
            && (r.link.status == NoConnect ==> r.queue == i.queue && r.robotData == i.robotData)
  {
    hide TakenMessage, WithoutTaken, JogChecked, LimitsSet, Padded, PaddedLimits, Sampled;
    assert forall j | 0 <= j < k :: !Matches(s.ipc.queue[j], 1);
    ReceiveTakesOldestMatch(s.ipc.queue, 1, k);
  }

  /** The messages of type 1, in their order. */
  function Data(q: seq<Message>): seq<Message> {
    if q == [] then [] else IfData(q[0]) + Data(q[1..])
  }

  function IfData(m: Message): seq<Message> {
    if m.mtype == 1 then [m] else []
  }

  lemma DataStep(q: seq<Message>)
    ensures q == [] ==> Data(q) == []
    ensures q != [] ==> Data(q) == IfData(q[0]) + Data(q[1..])
  {
  }

  lemma Associate(a: seq<Message>, b: seq<Message>, c: seq<Message>)
    ensures a + (b + c) == (a + b) + c
  {
  }

  lemma {:induction false} DataJoin(a: seq<Message>, b: seq<Message>)
    ensures Data(a + b) == Data(a) + Data(b)
  {
    hide Data, IfData;
    DataStep(a);
    if a == [] {
      assert a + b == b && [] + Data(b) == Data(b);
    } else {
      DataJoin(a[1..], b);
      DataStep(a + b);
      assert (a + b)[1..] == a[1..] + b;
      Associate(IfData(a[0]), Data(a[1..]), Data(b));
    }
  }

  /** Where the first message of type 1 stands; the length if there is none. */
  function FirstData(q: seq<Message>): (k: nat)
    ensures k <= |q| && (forall j | 0 <= j < k :: q[j].mtype != 1) && (k < |q| ==> q[k].mtype == 1)
  {
    if q == [] || q[0].mtype == 1 then 0 else 1 + FirstData(q[1..])
  }

  lemma {:induction false} NoData(q: seq<Message>)
    requires forall j | 0 <= j < |q| :: q[j].mtype != 1
    ensures Data(q) == []
  {
    if q != [] { NoData(q[1..]); }
  }

  lemma DataOfOne(m: Message)
    ensures Data([m]) == IfData(m)
  {
    DataStep([m]);
    assert [m][1..] == [];
  }

  lemma DataAround(a: seq<Message>, m: Message, b: seq<Message>)
    requires m.mtype == 1 && forall j | 0 <= j < |a| :: a[j].mtype != 1
    ensures Data(a + [m] + b) == [m] + Data(a + b)
  {
    hide Data;
    NoData(a);
    DataOfOne(m);
    DataJoin(a + [m], b);
    DataJoin(a, [m]);
    DataJoin(a, b);
    assert [] + [m] == [m] && [] + Data(b) == Data(b);
  }

  lemma SplitAt<T>(q: seq<T>, k: nat)
    requires k < |q|
    ensures q == q[..k] + [q[k]] + q[k + 1..]
  {
  }

  lemma DataByFirst(q: seq<Message>)
    ensures var k := FirstData(q);
            Data(q) == if k < |q| then [q[k]] + Data(q[..k] + q[k + 1..]) else []
  {
    var k := FirstData(q);
    hide Data, FirstData;
    if k < |q| {
      SplitAt(q, k);
      DataAround(q[..k], q[k], q[k + 1..]);
    } else {
      NoData(q);
    }
  }

  /** How a message of type 1 leaves the queue. */
  datatype Exit = Received(m: Message) | Drained(m: Message)

  function AllDrained(q: seq<Message>): (r: seq<Exit>)
    ensures |r| == |q| && forall j | 0 <= j < |q| :: r[j] == Drained(q[j])
  {
    seq(|q|, j requires 0 <= j < |q| => Drained(q[j]))
  }

  /** What leaves at a step: the oldest at a tick that finds the slave connected, all at the tick that
      reports the disconnection and at a start. */
  ghost function Exits(s: System, step: Step): seq<Exit>
    requires Sound(s) && Enabled(s, step)
  {
    var waiting := Data(s.ipc.queue);
    if step.Restart? then AllDrained(waiting)
    else if !step.Tick? then []
    else
      var status := Next(s, step).ipc.link.status;
      if status == Disconnected then AllDrained(waiting)
      else if status == NoConnect || waiting == [] then []
      else [Received(waiting[0])]
  }

  function Messages(exits: seq<Exit>): (r: seq<Message>)
    ensures |r| == |exits| && forall j | 0 <= j < |exits| :: r[j] == exits[j].m
  {
    seq(|exits|, j requires 0 <= j < |exits| => exits[j].m)
  }

  function SentData(steps: seq<Step>): seq<Message> {
    if steps == [] then []
    else (if steps[0].Send? then Data([steps[0].message]) else []) + SentData(steps[1..])
  }

  ghost function AllExits(s: System, steps: seq<Step>): seq<Exit>
    requires Sound(s) && Legal(s, steps)
    decreases steps
  {
    if steps == [] then []
    else (NextKeepsSound(s, steps[0]); Exits(s, steps[0]) + AllExits(Next(s, steps[0]), steps[1..]))
  }

  /** The queue is touched by ticks, restarts and the slave's sending alone, the buffer by the first two. */
  lemma DataStays(s: System, step: Step)
    requires Sound(s) && Enabled(s, step) && !step.Tick? && !step.Restart?
    ensures Next(s, step).ipc
         == s.ipc.(queue := s.ipc.queue + if step.Send? then [step.message] else [])
  {
    hide Applied;
  }

  /** What leaves a queue whose first data message, if there is one, stands at `k`. */
  lemma TakenDataLeaves(q: seq<Message>, k: nat, rest: seq<Message>)
    requires k == FirstData(q) && rest == if k < |q| then q[..k] + q[k + 1..] else q
    ensures Data(q) == [] <==> k == |q|
    ensures k < |q| ==> Data(q) == [q[k]] + Data(rest) && Data(q)[0] == q[k]
  {
    hide Data, FirstData;
    DataByFirst(q);
  }

  lemma TickConservesData(s: System)
    requires Sound(s)
    ensures Data(s.ipc.queue) == Messages(Exits(s, Tick)) + Data(Next(s, Tick).ipc.queue)
    ensures Next(s, Tick).ipc.robotData
         == if Exits(s, Tick) != [] && Exits(s, Tick)[0].Received? then Exits(s, Tick)[0].m.robotData else s.ipc.robotData
  {
    var q, r, exits := s.ipc.queue, Next(s, Tick).ipc, Exits(s, Tick);
    var k := FirstData(q);
    TickTakesOldestData(s, k);
    TakenDataLeaves(q, k, if k < |q| then q[..k] + q[k + 1..] else q);
    assert exits == if r.link.status == Disconnected then AllDrained(Data(q))
                    else if r.link.status == NoConnect || Data(q) == [] then [] else [Received(Data(q)[0])];
    hide *;
    DrainedMessages(Data(q));
    DataStep([]);
    NoMessages();
    if k < |q| { MessagesOfOne(Received(q[k])); }
  }

  lemma DrainedMessages(q: seq<Message>)
    ensures Messages(AllDrained(q)) == q
  {
  }

  lemma MessagesOfOne(e: Exit)
    ensures Messages([e]) == [e.m]
  {
  }

  lemma NoMessages()
    ensures Messages([]) == []
  {
  }

  lemma StepConservesData(s: System, step: Step)
    requires Sound(s) && Enabled(s, step)
    ensures Data(s.ipc.queue) + (if step.Send? then Data([step.message]) else [])
         == Messages(Exits(s, step)) + Data(Next(s, step).ipc.queue)
    ensures !step.Restart? ==>
              Next(s, step).ipc.robotData
              == if Exits(s, step) != [] && Exits(s, step)[0].Received? then Exits(s, step)[0].m.robotData else s.ipc.robotData
    ensures forall e | e in Exits(s, step) && e.Received? :: Exits(s, step) == [e]
  {
    hide RobotRan, Restarted, Applied;
    var q := s.ipc.queue;
    match step
    case Tick => TickConservesData(s);
    case Restart(buffer, stamp) =>
      RestartForgetsProcess(s, buffer, stamp);
      assert Messages(AllDrained(Data(q))) == Data(q);
    case Send(message) =>
      DataStays(s, step);
      DataJoin(q, [message]);
    case _ => DataStays(s, step);
  }

  /** No data message is lost unnoticed, doubled or overtaken: those waiting at the start and those
      sent are, in this order, those that have left and those still waiting. */
  lemma {:induction false} DataIsConserved(s: System, steps: seq<Step>)
    requires Sound(s) && Legal(s, steps)
    ensures Data(s.ipc.queue) + SentData(steps) == Messages(AllExits(s, steps)) + Data(Final(s, steps).ipc.queue)
    decreases steps
  {
    hide Next, Exits;
    if steps != [] {
      var step, rest := steps[0], steps[1..];
      NextKeepsSound(s, step);
      var t := Next(s, step);
      StepConservesData(s, step);
      DataIsConserved(t, rest);
      Rotate(Data(s.ipc.queue), if step.Send? then Data([step.message]) else [],
             Messages(Exits(s, step)), Data(t.ipc.queue),
             SentData(rest), Messages(AllExits(t, rest)), Data(Final(t, rest).ipc.queue));
      assert Messages(AllExits(s, steps)) == Messages(Exits(s, step)) + Messages(AllExits(t, rest));
    }
  }

  function CountReceived(exits: seq<Exit>): nat {
    if exits == [] then 0 else (if exits[0].Received? then 1 else 0) + CountReceived(exits[1..])
  }

  function CountDrained(exits: seq<Exit>): nat {
    if exits == [] then 0 else (if exits[0].Drained? then 1 else 0) + CountDrained(exits[1..])
  }

  lemma {:induction false} ExitsAreOneOrTheOther(exits: seq<Exit>)
    ensures CountReceived(exits) + CountDrained(exits) == |exits|
  {
    if exits != [] { ExitsAreOneOrTheOther(exits[1..]); }
  }

  /** In numbers: waiting and sent are received, drained and still waiting. */
  lemma DataIsCounted(s: System, steps: seq<Step>)
    requires Sound(s) && Legal(s, steps)
    ensures |Data(s.ipc.queue)| + |SentData(steps)|
         == CountReceived(AllExits(s, steps)) + CountDrained(AllExits(s, steps)) + |Data(Final(s, steps).ipc.queue)|
  {
    DataIsConserved(s, steps);
    ExitsAreOneOrTheOther(AllExits(s, steps));
  }

  /** Exit `k` is the last that was received. */
  ghost predicate LastReceived(exits: seq<Exit>, k: int) {
    0 <= k < |exits| && exits[k].Received? && forall j | k < j < |exits| :: !exits[j].Received?
  }

  /** The buffer, from the last start on, holds the last data message received, or what it held before
      if there has been none. */
  lemma {:induction false} BufferHoldsLastReceived(s: System, steps: seq<Step>)
    requires Sound(s) && Legal(s, steps) && NoRestart(steps)
    ensures forall k | LastReceived(AllExits(s, steps), k) ::
              Final(s, steps).ipc.robotData == AllExits(s, steps)[k].m.robotData
    ensures (forall e | e in AllExits(s, steps) :: !e.Received?) ==> Final(s, steps).ipc.robotData == s.ipc.robotData
    decreases steps
  {
    hide Next, Exits;
    if steps != [] {
      var step, rest := steps[0], steps[1..];
      NextKeepsSound(s, step);
      var t := Next(s, step);
      var now: seq<Exit>, later: seq<Exit> := Exits(s, step), AllExits(t, rest);
      StepConservesData(s, step);
      BufferHoldsLastReceived(t, rest);
      hide LastReceived;
      forall k | LastReceived(now + later, k) ensures Final(t, rest).ipc.robotData == (now + later)[k].m.robotData {
        LastOfJoin(now, later, k);
      }
    }
  }

  lemma LastOfJoin(now: seq<Exit>, later: seq<Exit>, k: int)
    requires LastReceived(now + later, k)
    ensures 0 <= k < |now + later| && (now + later)[k].Received?
    ensures k >= |now| ==> LastReceived(later, k - |now|) && (now + later)[k] == later[k - |now|]
    ensures k < |now| ==> now[k] in now && (now + later)[k] == now[k] && forall e | e in later :: !e.Received?
  {
    assert forall j | 0 <= j < |later| :: (now + later)[|now| + j] == later[j];
  }

  /** So an axis is read from what the slave last reported: when that is the k-th target it took, the
      reading is the k-th request, up to a move of the zero since its acceptance. */
  lemma ReportedTargetReads(s: System, steps: seq<Step>, k: nat, n: int, axis: int)
    requires Sound(s) && Legal(s, steps) && !s.desk.command.runSign && NoRestart(steps)
    requires k < |Taken(s, steps)| <= |Requests(s, steps)| && Requests(s, steps)[k].space == JOINT_SPACE
    requires LastReceived(AllExits(s, steps), n) && RobotDataShape(AllExits(s, steps)[n].m.robotData)
    requires AllExits(s, steps)[n].m.robotData.q == Taken(s, steps)[k].qFinal
    requires 1 <= axis <= |Requests(s, steps)[k].q| && axis <= |Final(s, steps).robot.userZero|
    ensures var r, t := Requests(s, steps)[k], Final(s, steps);
            && RobotDataShape(t.ipc.robotData) && |r.q| <= |r.zero|
            && JointPosition(t.ipc.robotData, t.robot.userZero, axis, false)
               == r.q[axis - 1] + r.zero[axis - 1] - t.robot.userZero[axis - 1]
  {
    hide Final, Legal, Taken, Requests, AllExits;
    BufferHoldsLastReceived(s, steps);
    ReachedTargetReads(s, steps, k, axis);
  }

  /** The master's own heartbeat counts its ticks. */
  lemma {:induction false} MasterHeartbeatCountsTicks(s: System, steps: seq<Step>)
    requires Sound(s) && Legal(s, steps) && NoRestart(steps)
    ensures Final(s, steps).ipc.masterHeartbeat == (s.ipc.masterHeartbeat + Ticks(steps)) % 0x1_0000_0000
    decreases steps
  {
    hide Next;
    if steps != [] {
      NextKeepsSound(s, steps[0]);
      MasterHeartbeatCountsTicks(Next(s, steps[0]), steps[1..]);
      if steps[0].Tick? { TickTakesOldestData(s, FirstData(s.ipc.queue)); } else { DataStays(s, steps[0]); }
    }
  }
}
