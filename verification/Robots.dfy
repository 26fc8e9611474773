/** The robot: its joint frames and the joint data of the last message. */
module Robots {
  import opened MessageData

  ghost predicate RobotDataShape(data: RobotData) {
    |data.q| == JOINTS && |data.position| == 3 && |data.orientation| == 3
  }

  /** Joint position by axis number, in the mechanical or the user frame. */
  function JointPosition(data: RobotData, userZero: seq<real>, axis: int, isMechanicalPosition: bool): real
    requires RobotDataShape(data)
    requires 1 <= axis <= JOINTS && !isMechanicalPosition ==> axis <= |userZero|
  {
    if axis < 1 || axis > JOINTS then 0.0
    else if isMechanicalPosition then data.q[axis - 1]
    else data.q[axis - 1] - userZero[axis - 1]
  }

  /** The Cartesian pose as one list: the three positions, then the three orientations. */
  function Pose(data: RobotData): (p: seq<real>)
    requires RobotDataShape(data)
    ensures |p| == 6 && p[..3] == data.position && p[3..] == data.orientation
  {
    data.position + data.orientation
  }

  datatype RobotValue = RobotValue(robotDof: int, userZero: seq<real>, mechanicalZero: seq<real>)

  class Robot {
    const buffer: MessageBuffer
    var robotDof: int
    var userZeroPosition: seq<real>
    var mechanicalZeroPosition: seq<real>

    ghost function Value(): RobotValue
      reads this
    {
      RobotValue(robotDof, userZeroPosition, mechanicalZeroPosition)
    }

    constructor (dof: nat, buffer: MessageBuffer)
      ensures Value() == NewRobot(dof) && this.buffer == buffer
    {
      this.buffer := buffer;
      robotDof := dof;
      userZeroPosition := seq(dof, _ => 0.0);
      mechanicalZeroPosition := seq(dof, _ => 0.0);
    }

    method GetpRobotJointPosition(axis: int, isMechanicalPosition: bool) returns (r: real)
      requires RobotDataShape(buffer.robotData)
      requires 1 <= axis <= JOINTS && !isMechanicalPosition ==> axis <= |userZeroPosition|
      ensures r == JointPosition(buffer.robotData, userZeroPosition, axis, isMechanicalPosition)
      ensures 1 <= axis <= 7 && isMechanicalPosition ==> r == buffer.robotData.q[axis - 1]
      ensures 1 <= axis <= 7 && !isMechanicalPosition ==> r + userZeroPosition[axis - 1] == buffer.robotData.q[axis - 1]
      ensures axis < 1 || axis > 7 ==> r == 0.0
    {
      if axis < 1 || axis > 7 {
        return 0.0;
      }
      if isMechanicalPosition {
        return buffer.robotData.q[axis - 1];
      } else {
        return buffer.robotData.q[axis - 1] - userZeroPosition[axis - 1];
      }
    }

    method GetpRobotCartesianPosition(axis: int) returns (r: real)
      requires RobotDataShape(buffer.robotData)
      ensures 1 <= axis <= 6 ==> r == Pose(buffer.robotData)[axis - 1]
      ensures !(1 <= axis <= 6) ==> r == 0.0
    {
      if axis < 1 || axis > 6 {
        return 0.0;
      }
      if axis <= 3 {
        return buffer.robotData.position[axis - 1];
      } else {
        return buffer.robotData.orientation[(axis - 3) - 1];
      }
    }
  }

  function NewRobot(dof: nat): RobotValue {
    RobotValue(dof, seq(dof, _ => 0.0), seq(dof, _ => 0.0))
  }
}
