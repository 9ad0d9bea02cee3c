/** Values exchanged between the Cartesian controller, the robot's joint
    interface and the programs that drive the controller. In the source these
    are integer vocabs (VOCAB_CC_*, VOCAB_CM_*); here each family is a
    datatype, with a catch-all constructor where the source accepts any
    integer. */
module Vocab {

  datatype Option<+T> = None | Some(value: T)

  /** State of the Cartesian controller (VOCAB_CC_NOT_CONTROLLING, VOCAB_CC_MOVJ, ...). */
  datatype ControlState = NotControlling | MovJ | MovL | MovV | GCmp | Forc | MovI

  /** Streaming-command selector (VOCAB_CC_NOT_SET, VOCAB_CC_TWIST, VOCAB_CC_POSE,
      VOCAB_CC_MOVI); any other vocab is `UnknownCmd`. */
  datatype StreamingCommand = NotSet | TwistCmd | PoseCmd | MoviCmd | UnknownCmd(vocab: int)

  /** Per-joint actuation mode reported and set by the joint interface (VOCAB_CM_*). */
  datatype ControlMode = PositionMode | VelocityMode | PositionDirectMode | OtherMode(vocab: int)

  /** Reference frame of Cartesian commands. */
  datatype ReferenceFrame = BaseFrame | TcpFrame

  /** Keys of the controller's parameter map (VOCAB_CC_CONFIG_*). */
  datatype ConfigKey = ConfigStreamingCmd | ConfigFrame | OtherKey(vocab: int)

  datatype ParamValue = Cmd(command: StreamingCommand) | Frame(frame: ReferenceFrame)

  /** One `setParameter(key, value)` request sent to the Cartesian controller. */
  datatype SetParameter = SetParameter(key: ConfigKey, value: ParamValue)

  /** Alert level of the proximity sensors. */
  datatype AlertLevel = Zero | Low | High

  /** Discrete actuator (gripper) state requested by a streaming device;
      `ActuatorNone` is VOCAB_CC_ACTUATOR_NONE. */
  datatype ActuatorState = ActuatorNone | ActuatorCode(vocab: int)
}
