/**
 The messages a code block receives from the kernel over its socket: one
 record per inbound frame, carrying output data, the kind of that data and
 the kernel's execution state at the time the message was emitted.
 */
module Kernel {

  /** A value that may be missing, as an optional field of a JSON object is. */
  datatype Option<+T> = None | Some(value: T)

  /** The kernel's execution state. `Idle` is the only value the code block
      compares against; every other value is carried through unchanged.
      `OtherState` stands for wire values outside the listed ones, so its
      name is never that of a listed constructor ("idle" is always `Idle`). */
  datatype ExecutionState = Idle | Busy | Queued | OtherState(name: string)

  /** The kind of payload a message carries. It decides how a fragment is
      drawn, never how the session evolves; unknown kinds are kept.
      `OtherType` stands for wire values outside the listed ones, so its
      name is never that of a listed constructor. */
  datatype DataType = Text | TextPlain | ImagePng | OtherType(name: string)

  /** The `data` field of a message: missing, one string, or an array of strings. */
  datatype Data = Absent | Single(text: string) | Many(items: seq<string>)

  /** One parsed kernel message. A missing `execution_state` is `None`. */
  datatype KernelOutput = KernelOutput(data: Data, dataType: DataType, executionState: Option<ExecutionState>)

  /** An inbound socket frame: one whose data is falsy (the empty string or
      nothing at all), or one whose data has been parsed into a message. */
  datatype Frame = EmptyFrame | Parsed(message: KernelOutput)

  /** True of an execution state that is exactly IDLE; a missing state is not. */
  predicate IsIdle(state: Option<ExecutionState>) {
    state == Some(Idle)
  }
}
