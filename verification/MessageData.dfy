/** The data shared with the slave process: command memory, controller state, heartbeats, messages. */
module MessageData {
  import opened Options

  const WORD := 0x1_0000_0000

  /** A 32-bit counter; it wraps. */
  type Word = x: int | 0 <= x < WORD

  /** Joints of the arm and coordinates of a Cartesian target; the sizes of the shared arrays. */
  const JOINTS := 7
  const CARTESIAN := 6

  /** Task-space codes; any other value of the enumeration's range can arrive through a cast. */
  const JOINT_SPACE := 0
  const CARTESIAN_SPACE := 1

  datatype RunStatus = Wait | Run | OtherStatus(code: int)

  datatype CommunicationStatus = NoConnect | SuccessConnect | Connected | Disconnected

  datatype RobotData = RobotData(q: seq<real>, position: seq<real>, orientation: seq<real>)

  /** A queued message; System V message types are positive. */
  datatype Message = Message(mtype: nat, robotData: RobotData)

  datatype Limits = Limits(qMax: seq<real>, qMin: seq<real>, dq: seq<real>, ddq: seq<real>, dddq: seq<real>)

  /** The value of the command memory. */
  datatype Command = Command(
    runSign: bool, stopSign: bool, jogSign: bool, newLimit: bool,
    plannerTaskSpace: int, qFinal: seq<real>, xFinal: seq<real>,
    jogNum: int, jogDir: int,
    controllerLaw: int, planner: int, runSpeed: int, jogSpeed: int,
    limits: Limits)

  ghost predicate LimitsShape(l: Limits) {
    |l.qMax| == |l.qMin| == |l.dq| == |l.ddq| == |l.dddq| == JOINTS
  }

  ghost predicate CommandShape(c: Command) {
    |c.qFinal| == JOINTS && |c.xFinal| == CARTESIAN && LimitsShape(c.limits)
  }

  /** The command block in shared memory. */
  class ControllerCommand {
    var runSign: bool
    var stopSign: bool
    var jogSign: bool
    var newLimit: bool
    var plannerTaskSpace: int
    var jogNum: int
    var jogDir: int
    var controllerLaw: int
    var planner: int
    var runSpeed: int
    var jogSpeed: int
    const qFinal: array<real>
    const xFinal: array<real>
    const qMax: array<real>
    const qMin: array<real>
    const dqLimit: array<real>
    const ddqLimit: array<real>
    const dddqLimit: array<real>

    ghost function Arrays(): set<object> {
      {qFinal, xFinal, qMax, qMin, dqLimit, ddqLimit, dddqLimit}
    }

    /** The arrays are separate parts of the block. */
    ghost predicate Valid() {
      && qFinal.Length == qMax.Length == qMin.Length == dqLimit.Length == ddqLimit.Length == dddqLimit.Length == JOINTS
      && xFinal.Length == CARTESIAN
      && qFinal != qMax && qFinal != qMin && qFinal != dqLimit && qFinal != ddqLimit && qFinal != dddqLimit
      && xFinal != qFinal && xFinal != qMax && xFinal != qMin && xFinal != dqLimit && xFinal != ddqLimit && xFinal != dddqLimit
      && qMax != qMin && qMax != dqLimit && qMax != ddqLimit && qMax != dddqLimit
      && qMin != dqLimit && qMin != ddqLimit && qMin != dddqLimit
      && dqLimit != ddqLimit && dqLimit != dddqLimit && ddqLimit != dddqLimit
    }

    ghost function LimitsValue(): Limits
      reads Arrays()
    {
      Limits(qMax[..], qMin[..], dqLimit[..], ddqLimit[..], dddqLimit[..])
    }

    ghost function Value(): Command
      reads this, Arrays()
    {
      Command(runSign, stopSign, jogSign, newLimit, plannerTaskSpace, qFinal[..], xFinal[..],
              jogNum, jogDir, controllerLaw, planner, runSpeed, jogSpeed, LimitsValue())
    }
  }

  /** What the slave reports about itself. */
  class ControllerState {
    var controllerStatus: RunStatus
    var robotDof: nat
    var name: string
  }

  class Heartbeats {
    var slaveHeartbeat: Word
    var masterHeartbeat: Word
  }

  /** The message queue, oldest message first. */
  class MessageQueue {
    var messages: seq<Message>

    /** msgrcv with IPC_NOWAIT: type 0 takes the oldest message, a positive type the oldest of that type. */
    method MsgRcv(mtype: nat) returns (m: Option<Message>)
      modifies this
      ensures m == TakenMessage(old(messages), mtype) && messages == WithoutTaken(old(messages), mtype)
    {
      var k := 0;
      while k < |messages|
        invariant k <= |messages| && messages == old(messages)
        invariant TakenMessage(messages, mtype) == TakenMessage(messages[k..], mtype)
        invariant WithoutTaken(messages, mtype) == messages[..k] + WithoutTaken(messages[k..], mtype)
      {
        if mtype == 0 || messages[k].mtype == mtype {
          m := Some(messages[k]);
          messages := messages[..k] + messages[k + 1..];
          assert old(messages)[k..][1..] == old(messages)[k + 1..];
          return;
        }
        assert messages[k..][1..] == messages[k + 1..];
        assert messages[..k] + [messages[k]] == messages[..k + 1];
        k := k + 1;
      }
      m := None;
    }
  }

  /** Type 0 asks for any message. */
  predicate Matches(m: Message, mtype: nat) {
    mtype == 0 || m.mtype == mtype
  }

  function TakenMessage(q: seq<Message>, mtype: nat): Option<Message> {
    if q == [] then None
    else if Matches(q[0], mtype) then Some(q[0])
    else TakenMessage(q[1..], mtype)
  }

  function WithoutTaken(q: seq<Message>, mtype: nat): seq<Message> {
    if q == [] then []
    else if Matches(q[0], mtype) then q[1..]
    else [q[0]] + WithoutTaken(q[1..], mtype)
  }

  /** A receive takes the oldest message that matches and leaves the others in their order; it comes
      back empty-handed exactly when none matches (`k` is then the length of the queue). */
  lemma {:induction false} ReceiveTakesOldestMatch(q: seq<Message>, mtype: nat, k: nat)
    requires k <= |q| && forall j | 0 <= j < k :: !Matches(q[j], mtype)
    requires k < |q| ==> Matches(q[k], mtype)
    ensures TakenMessage(q, mtype) == if k < |q| then Some(q[k]) else None
    ensures WithoutTaken(q, mtype) == if k < |q| then q[..k] + q[k + 1..] else q
  {
    if k != 0 {
      var rest := q[1..];
      assert forall j | 0 <= j < |rest| :: rest[j] == q[j + 1];
      ReceiveTakesOldestMatch(rest, mtype, k - 1);
      assert !Matches(q[0], mtype);
      assert k < |q| ==> q[..k] == [q[0]] + rest[..k - 1] && q[k + 1..] == rest[k..];
    }
  }

  /** The receive buffer; the robot reads the joint data in it directly. */
  class MessageBuffer {
    var robotData: RobotData

    constructor (initial: RobotData)
      ensures robotData == initial
    {
      robotData := initial;
    }
  }
}
