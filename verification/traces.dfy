/**
 Sequences of events replayed through the session reducers: what the run
 counter, the end-time stamp and the statistics guard do over a whole
 history of submissions and inbound frames.
 */
module SessionTraces {
  import opened Kernel
  import opened Outputs
  import opened CodeBlockSession

  /** One thing that happens to a code block, with the time it happens at. */
  datatype Event = SubmitCode(code: string, now: int) | Inbound(frame: Frame, now: int)

  function Step(s: Session, e: Event): Session {
    match e
    case SubmitCode(code, now) => Submit(s, code, now)
    case Inbound(frame, now) => Receive(s, frame, now)
  }

  /** Whether the event stamps a completion time when it happens in `s`. */
  predicate Completes(s: Session, e: Event) {
    e.Inbound? && StampsCompletion(s, e.frame)
  }

  function SubmitCount(events: seq<Event>): nat {
    if |events| == 0 then 0
    else (if events[0].SubmitCode? then 1 else 0) + SubmitCount(events[1..])
  }

  /** The state after replaying `events` from `s`, one after the other. The
      run counter grows by exactly the number of submissions, and the
      completion effect is always settled afterwards. */
  function Run(s: Session, events: seq<Event>): (r: Session)
    ensures r.runCount == s.runCount + SubmitCount(events)
    ensures Settled(s) ==> Settled(r)
    ensures SubmitCount(events) == 0 ==> r.runStartTime == s.runStartTime
    decreases |events|
  {
    if |events| == 0 then s else Run(Step(s, events[0]), events[1..])
  }

  /** How many events of the replay stamp a completion time. */
  function Completions(s: Session, events: seq<Event>): nat
    decreases |events|
  {
    if |events| == 0 then 0
    else (if Completes(s, events[0]) then 1 else 0) + Completions(Step(s, events[0]), events[1..])
  }

  /** Replaying a concatenation is replaying its parts in turn. */
  lemma {:induction false} RunAppend(s: Session, a: seq<Event>, b: seq<Event>)
    ensures Run(s, a + b) == Run(Run(s, a), b)
    ensures Completions(s, a + b) == Completions(s, a) + Completions(Run(s, a), b)
    ensures SubmitCount(a + b) == SubmitCount(a) + SubmitCount(b)
    decreases |a|
  {
    if |a| == 0 {
      assert a + b == b;
    } else {
      assert (a + b)[0] == a[0];
      assert (a + b)[1..] == a[1..] + b;
      RunAppend(Step(s, a[0]), a[1..], b);
    }
  }

  /** The run counter never decreases and changes only through submissions. */
  lemma RunCountMonotone(s: Session, events: seq<Event>)
    ensures Run(s, events).runCount >= s.runCount
    ensures Run(s, events).runCount == s.runCount <==> SubmitCount(events) == 0
  {
  }

  /** Without a submission, the end time only moves through completion
      stamps, each to the time of the frame that stamped it. */
  lemma {:induction false} EndTimeMovesOnlyOnCompletion(s: Session, events: seq<Event>)
    requires SubmitCount(events) == 0
    ensures Completions(s, events) == 0 ==> Run(s, events).runEndTime == s.runEndTime
    ensures Run(s, events).runEndTime == s.runEndTime
         || exists i :: 0 <= i < |events| && Run(s, events).runEndTime == events[i].now
    decreases |events|
  {
    if |events| > 0 {
      var e := events[0];
      var s' := Step(s, e);
      assert e.Inbound?;
      ReceiveStampsOnlyOnEdge(s, e.frame, e.now);
      EndTimeMovesOnlyOnCompletion(s', events[1..]);
      var r := Run(s, events);
      assert r == Run(s', events[1..]);
      if r.runEndTime != s'.runEndTime {
        var i :| 0 <= i < |events[1..]| && r.runEndTime == events[1..][i].now;
        assert r.runEndTime == events[i + 1].now;
      } else if s'.runEndTime != s.runEndTime {
        assert r.runEndTime == events[0].now;
      }
    }
  }

  /** An inbound frame that is empty or carries a non-IDLE state. */
  predicate QuietFrame(e: Event) {
    e.Inbound? && (e.frame.EmptyFrame? || !IsIdle(e.frame.message.executionState))
  }

  /** An inbound frame that is empty or carries the IDLE state. */
  predicate IdleFrame(e: Event) {
    e.Inbound? && (e.frame.EmptyFrame? || IsIdle(e.frame.message.executionState))
  }

  /** While the buffer is not IDLE, frames that are not IDLE stamp nothing
      and keep it not IDLE. */
  lemma {:induction false} QuietFramesStampNothing(s: Session, events: seq<Event>)
    requires !IsIdle(FinalExecutionState(s.messages))
    requires forall i :: 0 <= i < |events| ==> QuietFrame(events[i])
    ensures Completions(s, events) == 0
    ensures Run(s, events).runEndTime == s.runEndTime
    ensures !IsIdle(FinalExecutionState(Run(s, events).messages))
    decreases |events|
  {
    if |events| > 0 {
      QuietFramesStampNothing(Step(s, events[0]), events[1..]);
    }
  }

  /** Once the buffer is IDLE and settled, further IDLE frames stamp nothing:
      completion is edge-triggered, not level-triggered. */
  lemma {:induction false} RepeatedIdleStampsNothing(s: Session, events: seq<Event>)
    requires Settled(s) && IsIdle(FinalExecutionState(s.messages))
    requires forall i :: 0 <= i < |events| ==> IdleFrame(events[i])
    ensures Completions(s, events) == 0
    ensures Run(s, events).runEndTime == s.runEndTime
    ensures IsIdle(FinalExecutionState(Run(s, events).messages))
    decreases |events|
  {
    if |events| > 0 {
      RepeatedIdleStampsNothing(Step(s, events[0]), events[1..]);
    }
  }

  /** Non-IDLE frames, then the first IDLE message at time `t`, then any
      number of IDLE frames: exactly one completion is stamped, at `t`, and
      the block is no longer in progress. */
  lemma EdgeTriggeredCompletion(s: Session, busy: seq<Event>, m: KernelOutput, t: int, idle: seq<Event>)
    requires Settled(s) && !IsIdle(FinalExecutionState(s.messages))
    requires forall i :: 0 <= i < |busy| ==> QuietFrame(busy[i])
    requires IsIdle(m.executionState)
    requires forall i :: 0 <= i < |idle| ==> IdleFrame(idle[i])
    ensures Completions(s, busy + [Inbound(Parsed(m), t)] + idle) == 1
    ensures Run(s, busy + [Inbound(Parsed(m), t)] + idle).runEndTime == t
    ensures !IsInProgress(Run(s, busy + [Inbound(Parsed(m), t)] + idle))
  {
    var edge := [Inbound(Parsed(m), t)];
    RunAppend(s, busy + edge, idle);
    RunAppend(s, busy, edge);
    QuietFramesStampNothing(s, busy);
    var s1 := Run(s, busy);
    assert Run(s1, edge) == Step(s1, edge[0]);
    assert Completions(s1, edge) == 1;
    RepeatedIdleStampsNothing(Run(s, busy + edge), idle);
  }

  /** Right after a submission at a positive time the statistics are hidden,
      because the end time is reset to 0. */
  lemma SubmitHidesStats(s: Session, code: string, now: int)
    requires now > 0
    ensures !ShowsStats(Submit(s, code, now))
  {
  }

  /** After a submission at a positive time, frames alone can show the
      statistics only once a completion was stamped, at a time not before
      the submission. */
  lemma StatsNeedCompletion(s: Session, code: string, now: int, events: seq<Event>)
    requires now > 0
    requires SubmitCount(events) == 0
    ensures ShowsStats(Run(Submit(s, code, now), events)) ==>
              && Completions(Submit(s, code, now), events) >= 1
              && Run(Submit(s, code, now), events).runEndTime >= now
  {
    EndTimeMovesOnlyOnCompletion(Submit(s, code, now), events);
  }

  /** An IDLE message that ends a non-IDLE buffer, arriving no earlier than
      the run started, shows the statistics with its arrival time as end. */
  lemma CompletionShowsStats(s: Session, m: KernelOutput, now: int)
    requires Settled(s) && s.runCount >= 1
    requires !IsIdle(FinalExecutionState(s.messages))
    requires IsIdle(m.executionState) && now >= s.runStartTime
    ensures ShowsStats(Receive(s, Parsed(m), now))
    ensures ElapsedMs(Receive(s, Parsed(m), now)) == now - s.runStartTime
  {
  }

  /** Completion is stamped per edge, not per run: IDLE, then a non-IDLE
      message, then IDLE again moves the end time to the second IDLE. */
  lemma SecondEdgeRestamps(s: Session, b: KernelOutput, t1: int, m: KernelOutput, t2: int)
    requires Settled(s) && IsIdle(FinalExecutionState(s.messages))
    requires !IsIdle(b.executionState) && IsIdle(m.executionState)
    ensures Completions(s, [Inbound(Parsed(b), t1), Inbound(Parsed(m), t2)]) == 1
    ensures Run(s, [Inbound(Parsed(b), t1), Inbound(Parsed(m), t2)]).runEndTime == t2
  {
    var events := [Inbound(Parsed(b), t1), Inbound(Parsed(m), t2)];
    var s1 := Step(s, events[0]);
    assert events[1..] == [Inbound(Parsed(m), t2)];
    assert !Completes(s, events[0]);
    assert Completes(s1, events[1]);
    assert Completions(s1, events[1..]) == 1 + Completions(Step(s1, events[1]), []);
    assert Run(s, events) == Run(s1, events[1..]);
    assert Run(s1, events[1..]) == Run(Step(s1, events[1]), []);
  }

  /** Messages carry no run identifier: an IDLE message left over from a
      superseded run, arriving after a new submission, ends the new run. */
  lemma LateIdleEndsNewRun(s: Session, code: string, now: int, m: KernelOutput, t: int)
    requires IsIdle(m.executionState)
    ensures Receive(Submit(s, code, now), Parsed(m), t).runEndTime == t
    ensures !IsInProgress(Receive(Submit(s, code, now), Parsed(m), t))
  {
  }

  /** Submit "print(1)", receive a busy message with "1\n" and an idle
      message with empty data: one fragment, not in progress, statistics
      shown with the idle message's time as end, run count 1. */
  lemma PrintOneScenario(t0: int, t1: int, t2: int)
    requires 0 < t0 <= t2
    ensures var r := Run(Initial, [
                SubmitCode("print(1)", t0),
                Inbound(Parsed(KernelOutput(Single("1\n"), TextPlain, Some(Busy))), t1),
                Inbound(Parsed(KernelOutput(Single(""), TextPlain, Some(Idle))), t2)]);
            && RenderedFragments(r) == [Fragment(TextPlain, "1\n")]
            && !IsInProgress(r)
            && ShowsStats(r)
            && ElapsedMs(r) == t2 - t0
            && r.runCount == 1
  {
    var a := KernelOutput(Single("1\n"), TextPlain, Some(Busy));
    var b := KernelOutput(Single(""), TextPlain, Some(Idle));
    var events := [SubmitCode("print(1)", t0), Inbound(Parsed(a), t1), Inbound(Parsed(b), t2)];
    var s1 := Submit(Initial, "print(1)", t0);
    var s2 := Receive(s1, Parsed(a), t1);
    var s3 := Receive(s2, Parsed(b), t2);
    assert events[1..][1..] == [Inbound(Parsed(b), t2)];
    assert Run(Initial, events) == Run(s1, events[1..]);
    assert Run(s1, events[1..]) == Run(s2, events[1..][1..]);
    assert Run(s2, events[1..][1..]) == Run(s3, []);
    assert s3.messages == [a, b];
    assert [a, b][..1] == [a];
    assert Flatten([a]) == Flatten([]) + Fragments(a);
  }
}
