/**
 The run state of one code block: the buffer of kernel messages of the
 current run, the run counter, the start and end timestamps of the run, and
 the final execution state seen at the previous step (what the component
 keeps with `usePrevious`). Two events change it, a submission of code and an
 inbound socket frame; everything the block displays is derived from it.
 Timestamps are milliseconds supplied by the caller as `now`.
 */
module CodeBlockSession {
  import opened Kernel
  import opened Outputs

  datatype Session = Session(
    messages: seq<KernelOutput>,
    runCount: nat,
    runStartTime: int,
    runEndTime: int,
    previousFinal: Option<ExecutionState>)

  /** The state of a freshly mounted block: empty buffer, counters at 0, and
      nothing observed yet. */
  const Initial: Session := Session([], 0, 0, 0, None)

  /** The execution state of the last message, or `None` when the buffer is
      empty or the last message has no state. */
  function FinalExecutionState(msgs: seq<KernelOutput>): Option<ExecutionState> {
    if |msgs| == 0 then None else msgs[|msgs| - 1].executionState
  }

  /** The final state of a cleared buffer is nothing; appending a message
      makes its state the final one, whatever came before. */
  lemma FinalStateOfAppend(msgs: seq<KernelOutput>, m: KernelOutput)
    ensures FinalExecutionState([]) == None
    ensures FinalExecutionState(msgs + [m]) == m.executionState
  {
  }

  /** The spinner condition: the buffer holds a message and the last one is
      not IDLE (a missing state counts as not IDLE). */
  predicate IsInProgress(s: Session) {
    |s.messages| >= 1 && !IsIdle(FinalExecutionState(s.messages))
  }

  /** The recorded previous final state agrees with the buffer: the
      completion effect has run for the latest update. */
  predicate Settled(s: Session) {
    s.previousFinal == FinalExecutionState(s.messages)
  }

  /** The completion edge: the final state is IDLE now and was something
      else (possibly nothing) at the previous step. */
  predicate CompletionEdge(previous: Option<ExecutionState>, current: Option<ExecutionState>) {
    IsIdle(current) && current != previous
  }

  /** The effect that runs after every state update: stamp the end time on
      a completion edge, then remember the current final state. */
  function Settle(s: Session, now: int): (r: Session)
    ensures Settled(r)
    ensures r.messages == s.messages && r.runCount == s.runCount && r.runStartTime == s.runStartTime
    ensures r.runEndTime != s.runEndTime ==> r.runEndTime == now && IsIdle(FinalExecutionState(s.messages))
  {
    var current := FinalExecutionState(s.messages);
    s.(runEndTime := if CompletionEdge(s.previousFinal, current) then now else s.runEndTime,
       previousFinal := current)
  }

  /** Submitting code: the code goes to the socket, the buffer is cleared,
      the run counter goes up by one, the end time is reset to 0 and the
      start time is stamped. */
  function Submit(s: Session, code: string, now: int): (r: Session)
    ensures r.messages == []
    ensures r.runCount == s.runCount + 1
    ensures r.runEndTime == 0
    ensures r.runStartTime == now
    ensures Settled(r) && r.previousFinal == None
    ensures !IsInProgress(r)
    ensures Flatten(r.messages) == []
  {
    Settle(s.(messages := [], runCount := s.runCount + 1, runEndTime := 0, runStartTime := now), now)
  }

  /** An inbound frame: an empty frame changes nothing; a parsed message is
      appended to the buffer, after which the completion effect runs. */
  function Receive(s: Session, frame: Frame, now: int): (r: Session)
    ensures r.runCount == s.runCount && r.runStartTime == s.runStartTime
    ensures frame.EmptyFrame? ==> r == s
    ensures frame.Parsed? ==>
              && |r.messages| == |s.messages| + 1
              && r.messages[..|s.messages|] == s.messages
              && r.messages[|s.messages|] == frame.message
    ensures frame.Parsed? ==> (IsInProgress(r) <==> !IsIdle(frame.message.executionState))
    ensures Settled(s) ==> Settled(r)
  {
    match frame
    case EmptyFrame => s
    case Parsed(m) => Settle(s.(messages := s.messages + [m]), now)
  }

  /** Whether a parsed frame, received in `s`, stamps the end time. */
  predicate StampsCompletion(s: Session, frame: Frame) {
    frame.Parsed? && CompletionEdge(s.previousFinal, frame.message.executionState)
  }

  /** The end time moves exactly when a frame stamps a completion, and then
      to the frame's arrival time. In a settled state the stamp is the edge
      from a non-IDLE buffer to an IDLE message. */
  lemma ReceiveStampsOnlyOnEdge(s: Session, frame: Frame, now: int)
    ensures StampsCompletion(s, frame) ==> Receive(s, frame, now).runEndTime == now
    ensures !StampsCompletion(s, frame) ==> Receive(s, frame, now).runEndTime == s.runEndTime
    ensures Settled(s) ==>
      (StampsCompletion(s, frame) <==>
        frame.Parsed? && IsIdle(frame.message.executionState) && !IsIdle(FinalExecutionState(s.messages)))
  {
  }

  /** The run statistics are shown when nothing is in progress, at least
      one run was submitted, and the end time is not before the start time. */
  predicate ShowsStats(s: Session) {
    !IsInProgress(s) && s.runCount >= 1 && s.runEndTime >= s.runStartTime
  }

  /** The displayed execution time, in milliseconds. */
  function ElapsedMs(s: Session): (ms: nat)
    requires ShowsStats(s)
    ensures s.runStartTime + ms == s.runEndTime
  {
    s.runEndTime - s.runStartTime
  }

  /** The fragments the block renders below the editor. */
  function RenderedFragments(s: Session): (r: seq<Fragment>)
    ensures |r| == FragmentTotal(s.messages)
  {
    Flatten(s.messages)
  }

  /** Receiving a parsed message extends the rendered output by exactly that
      message's fragments and leaves every earlier fragment in place. */
  lemma ReceiveExtendsOutputs(s: Session, m: KernelOutput, now: int)
    ensures RenderedFragments(Receive(s, Parsed(m), now)) == RenderedFragments(s) + Fragments(m)
  {
    FlattenAppend(s.messages, [m]);
    assert Flatten([m]) == Flatten([]) + Fragments(m);
  }
}
