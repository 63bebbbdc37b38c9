# CodeBlock run session, modelled in Dafny

The `CodeBlock` component of the mage-ai frontend sends the code of a cell to a
kernel over a websocket and shows what comes back. Leave out React, the socket
and the DOM, and what remains is a small deterministic state machine over one
record:

- `messages`: the buffer of parsed kernel messages of the current run;
- `runCount`: how many times code was submitted;
- `runStartTime` and `runEndTime`: timestamps in milliseconds;
- the final execution state seen at the previous step, which the component
  keeps with `usePrevious`.

Two events change the record:

- submitting code (`saveCodeText`) clears the buffer, bumps the counter, resets
  the end time to 0 and stamps the start time;
- an inbound frame (`onMessage`) appends the parsed message when the frame's
  data is truthy.

After every update, an effect stamps the end time on a completion edge. An edge
is a final state that is IDLE now and was not IDLE at the previous step. The
values the block displays are derived from the record:

- the in-progress spinner;
- the guard for the run statistics, and the elapsed time it shows;
- the flattened list of output fragments.

Files:

- `kernel.dfy` (module `Kernel`) has the message types. The execution state
  is an abstract datatype with `Idle` as a distinguished constructor. A message
  whose `execution_state` is missing has `None`, and it counts as not IDLE,
  because line 102 uses `!==`. `data` is absent, one string or an array of
  strings. A frame is either empty (falsy data) or a parsed message.
- `outputs.dfy` (module `Outputs`) turns the buffer into renderable fragments.
- `session.dfy` (module `CodeBlockSession`) has the state record, the
  `Submit` and `Receive` reducers, the completion effect (`Settle`) and the
  derived values.
- `traces.dfy` (module `SessionTraces`) replays event sequences through the
  reducers. It proves the run-counter, edge-trigger and statistics properties.

Behaviour of `index.tsx` that the model reproduces or leaves aside:

- Right after a submission the block is not in progress. The buffer is
  empty, and `isInProgress` (line 102) needs at least one message. The spinner
  appears only with the first kernel message.
- The end time is stamped on every change of the final state from non-IDLE to
  IDLE, not once per run. A run whose messages go IDLE, busy, IDLE is stamped
  twice, and the second stamp wins (`SessionTraces.SecondEdgeRestamps`).
- Frames carry no run identifier. Messages of a superseded run that arrive
  after a new submission go into the new buffer. A late IDLE message ends the
  new run (`SessionTraces.LateIdleEndsNewRun`).
- A frame whose data is not valid JSON makes `JSON.parse` (line 74) throw
  before `setMessages` runs. The buffer is left unchanged, and the exception
  escapes `onMessage`. The model has no such frame: every non-empty frame it
  receives is already parsed.

## Model

| member | source | states |
|---|---|---|
| Outputs.IsBlank | mage_ai/frontend/components/CodeBlock/index.tsx:181 | definition: data is skipped exactly when it is missing, the empty string, or an array of length 0 |
| Outputs.Pieces | mage_ai/frontend/components/CodeBlock/index.tsx:181-190 | a message's data contributes no string exactly when it is absent, the empty string or an empty array; a non-empty string contributes itself; an array contributes its elements |
| Outputs.MessageFragments | mage_ai/frontend/components/CodeBlock/index.tsx:181-192 | a message with absent, empty-string or empty-array data yields no fragment; a non-empty string yields exactly one fragment equal to it; an array yields its elements in order; every fragment carries the message's data type |
| Outputs.Flatten | mage_ai/frontend/components/CodeBlock/index.tsx:177-192 | the number of fragments of a buffer is the sum of its messages' piece counts |
| Outputs.FlattenAppend | mage_ai/frontend/components/CodeBlock/index.tsx:177-192 | the fragments of two buffers in sequence are the fragments of the first followed by those of the second |
| Outputs.FlattenPlacesMessage | mage_ai/frontend/components/CodeBlock/index.tsx:177-192 | the fragments of message i sit unchanged and contiguous right after the fragments of the messages before it |
| Outputs.BlankBufferRendersNothing | mage_ai/frontend/components/CodeBlock/index.tsx:181-183 | a buffer whose messages all have absent or empty data renders no fragment |
| Outputs.CollectFragments | mage_ai/frontend/components/CodeBlock/index.tsx:177-209 | the rendering loop over messages and their pieces builds exactly the flattened fragment list |
| CodeBlockSession.FinalStateOfAppend | mage_ai/frontend/components/CodeBlock/index.tsx:101 | a cleared buffer has no final state, and after a message is appended its state is the final one, whatever came before |
| CodeBlockSession.IsInProgress | mage_ai/frontend/components/CodeBlock/index.tsx:101-102 | definition: the buffer holds at least one message and the last message's state is not exactly IDLE (a missing state is not IDLE) |
| CodeBlockSession.CompletionEdge | mage_ai/frontend/components/CodeBlock/index.tsx:106-107 | definition: the current final state is IDLE and differs from the previous one |
| CodeBlockSession.Settle | mage_ai/frontend/components/CodeBlock/index.tsx:104-115 | the completion effect leaves buffer, counter and start time alone, records the current final state, and moves the end time only to `now` and only when the final state is IDLE |
| CodeBlockSession.Submit | mage_ai/frontend/components/CodeBlock/index.tsx:83-99 | after a submission the buffer is empty, the run count is one more, the end time is 0, the start time is `now`, nothing is in progress and nothing is rendered |
| CodeBlockSession.Receive | mage_ai/frontend/components/CodeBlock/index.tsx:68-77 | an empty frame changes nothing; a parsed message is appended after the unchanged earlier messages; run count and start time never change; afterwards the block is in progress iff the message is not IDLE |
| CodeBlockSession.ReceiveStampsOnlyOnEdge | mage_ai/frontend/components/CodeBlock/index.tsx:104-115 | the end time moves exactly when a frame stamps a completion, and then to the frame's time; in a settled state a stamp happens iff an IDLE message follows a non-IDLE final state |
| CodeBlockSession.ShowsStats | mage_ai/frontend/components/CodeBlock/index.tsx:217 | definition: not in progress, at least one run submitted, and end time not before start time |
| CodeBlockSession.ElapsedMs | mage_ai/frontend/components/CodeBlock/index.tsx:217-223 | whenever the statistics guard holds, the elapsed time is a non-negative number of milliseconds from start to end |
| CodeBlockSession.RenderedFragments | mage_ai/frontend/components/CodeBlock/index.tsx:177-192 | the block renders as many fragments as its messages' pieces add up to |
| CodeBlockSession.ReceiveExtendsOutputs | mage_ai/frontend/components/CodeBlock/index.tsx:71-76 | a received message extends the rendered output by exactly its own fragments, earlier fragments unchanged |
| SessionTraces.Run | mage_ai/frontend/components/CodeBlock/index.tsx:88 | over any history the run count grows by exactly the number of submissions, the start time changes only on a submission, and the completion effect stays settled |
| SessionTraces.RunAppend | mage_ai/frontend/components/CodeBlock/index.tsx:68-115 | replaying two histories in turn is replaying their concatenation, and completions and submissions add up |
| SessionTraces.RunCountMonotone | mage_ai/frontend/components/CodeBlock/index.tsx:88 | the run count never decreases, and it stays the same iff the history has no submission |
| SessionTraces.EndTimeMovesOnlyOnCompletion | mage_ai/frontend/components/CodeBlock/index.tsx:104-115 | without submissions, the end time changes only through completion stamps, and any new value is the time of one of the frames |
| SessionTraces.QuietFramesStampNothing | mage_ai/frontend/components/CodeBlock/index.tsx:104-115 | while the final state is not IDLE, empty or non-IDLE frames stamp nothing and keep it not IDLE |
| SessionTraces.RepeatedIdleStampsNothing | mage_ai/frontend/components/CodeBlock/index.tsx:104-115 | once the final state is IDLE, further IDLE or empty frames stamp nothing and leave the end time unchanged |
| SessionTraces.EdgeTriggeredCompletion | mage_ai/frontend/components/CodeBlock/index.tsx:104-115 | non-IDLE frames, a first IDLE message at time t, then more IDLE frames: exactly one stamp, at t, and the block is no longer in progress |
| SessionTraces.SubmitHidesStats | mage_ai/frontend/components/CodeBlock/index.tsx:89-90 | after a submission at a positive time the statistics guard is false |
| SessionTraces.StatsNeedCompletion | mage_ai/frontend/components/CodeBlock/index.tsx:217 | after a submission at a positive time, frames can make the statistics guard true only once a completion was stamped at a time not before the submission |
| SessionTraces.CompletionShowsStats | mage_ai/frontend/components/CodeBlock/index.tsx:217-223 | an IDLE message ending a non-IDLE buffer no earlier than the start shows the statistics, with elapsed time equal to its arrival time minus the start |
| SessionTraces.SecondEdgeRestamps | mage_ai/frontend/components/CodeBlock/index.tsx:104-115 | from an IDLE buffer, a non-IDLE then an IDLE message stamps once more, at the second message's time |
| SessionTraces.LateIdleEndsNewRun | mage_ai/frontend/components/CodeBlock/index.tsx:68-90 | an IDLE message arriving right after a submission stamps the end time and ends the new run, whichever run it came from |
| SessionTraces.PrintOneScenario | mage_ai/frontend/components/CodeBlock/index.tsx:68-223 | submit, a busy message with "1\n", an IDLE message with empty data: one fragment "1\n", not in progress, statistics shown with the elapsed time from submission to the IDLE message, run count 1 |

## Left out

- The websocket (`useWebSocket`, lines 63-81) is left out. This covers the
  send of `{code}` on submission, the connection state and the
  reconnect-on-every-close policy. It is network I/O in a library that is not
  part of this model. Inbound traffic is an event sequence instead.
- `JSON.parse` of a frame (line 74) is left out. Frames arrive already parsed.
  A malformed frame would throw in the source, and the model claims no
  resilience against it.
- The wall clock (`new Date()`, lines 90 and 109) is left out. Each event
  carries its time `now` as an integer of milliseconds. The effect's stamp uses
  the time of the event that triggered it.
- CodeBlockSession.ElapsedMs is stated in milliseconds. It does not model the
  floating-point division by 1000 on line 223.
- `runCount`, `runStartTime` and `runEndTime` are JavaScript `Number`s. They
  are modelled as unbounded integers, with no floating-point rounding.
- React scheduling is left out: batching of state updates, the `messages`
  closure captured by `onMessage`, `useCallback` dependency lists and the
  render timing of `usePrevious`. The effect is assumed to run once after
  every state update. "Previous" is the final state recorded at the previous
  step.
- Cursor auto-scroll (lines 117-146) is left out. It is DOM geometry with
  scrolling side effects.
- The per-type drawing of each fragment (lines 193-207) is left out. This
  covers ANSI text for the text types, a base64 image for PNG, nothing for
  other types, and React keys. Fragments keep their data type so that a
  renderer can make that choice. The rest of the markup is left out too: the
  editor, the command buttons, the spinner and statistics markup, and the
  block divider with its hover state (lines 148-176, 211-237).
