/**
 Runs of the relay over a trace of timestamped events, and the properties that
 hold over whole traces: the timer invariant, last-write-wins, the stickiness
 of `submitted`, and the restart of the countdown on every update.
 */
module RelayTraces {
  import opened Options
  import opened FormTypes
  import opened Relay

  /** An event together with the clock reading at which the event loop handles it. */
  datatype Timed = Timed(at: int, event: Event)

  /** Handling a trace in order: the final state and every emission, in emission order. */
  function Run(s: ServerState, trace: seq<Timed>): StepResult
    decreases |trace|
  {
    if |trace| == 0 then StepResult(s, [])
    else
      var first := Step(s, trace[0].at, trace[0].event);
      var rest := Run(first.next, trace[1..]);
      StepResult(rest.next, first.emitted + rest.emitted)
  }

  /** Handling one more event after a trace is one more step. */
  lemma {:induction false} RunAppend(s: ServerState, trace: seq<Timed>, x: Timed)
    ensures Run(s, trace + [x]).next == Step(Run(s, trace).next, x.at, x.event).next
    ensures Run(s, trace + [x]).emitted == Run(s, trace).emitted + Step(Run(s, trace).next, x.at, x.event).emitted
    decreases |trace|
  {
    if |trace| > 0 {
      assert (trace + [x])[0] == trace[0];
      assert (trace + [x])[1..] == trace[1..] + [x];
      RunAppend(Step(s, trace[0].at, trace[0].event).next, trace[1..], x);
    } else {
      assert trace + [x] == [x];
    }
  }

  /** Over any trace, a countdown is pending if and only if the status is `typing`. */
  lemma {:induction false} RunPreservesInv(s: ServerState, trace: seq<Timed>)
    requires Inv(s)
    ensures Inv(Run(s, trace).next)
    decreases |trace|
  {
    if |trace| > 0 {
      StepPreservesInv(s, trace[0].at, trace[0].event);
      RunPreservesInv(Step(s, trace[0].at, trace[0].event).next, trace[1..]);
    }
  }

  /** Every state reachable from start-up has a status and keeps the timer invariant. */
  lemma ReachableStatesKeepInv(trace: seq<Timed>)
    ensures Inv(Run(Initial, trace).next)
    ensures Run(Initial, trace).next.deadline.Some? <==> Run(Initial, trace).next.latest.status == Some(Typing)
  {
    InitialIsIdle();
    RunPreservesInv(Initial, trace);
  }

  /** Last write wins: after a trace ending in `patient-typing`, the record is exactly that payload, status `typing`. */
  lemma LastTypingWins(s: ServerState, trace: seq<Timed>, at: int, from: SocketId, data: PatientFormData)
    ensures Run(s, trace + [Timed(at, PatientTyping(from, data))]).next.latest == WithStatus(data, Typing)
    ensures Run(s, trace + [Timed(at, PatientTyping(from, data))]).next.deadline == Some(at + InactivityTimeoutMs)
  {
    RunAppend(s, trace, Timed(at, PatientTyping(from, data)));
  }

  predicate NoTyping(trace: seq<Timed>)
  {
    forall i :: 0 <= i < |trace| ==> !trace[i].event.PatientTyping?
  }

  /**
   Once submitted, the session stays submitted with no countdown pending, and
   nothing it emits says otherwise, until a `patient-typing` arrives.
   */
  lemma {:induction false} SubmittedStaysSubmitted(s: ServerState, trace: seq<Timed>)
    requires Inv(s) && s.latest.status == Some(Submitted)
    requires NoTyping(trace)
    ensures Run(s, trace).next.latest.status == Some(Submitted)
    ensures Run(s, trace).next.deadline.None?
    ensures forall i :: 0 <= i < |Run(s, trace).emitted| ==> Run(s, trace).emitted[i].snapshot.status == Some(Submitted)
    decreases |trace|
  {
    if |trace| > 0 {
      var first := Step(s, trace[0].at, trace[0].event);
      assert !trace[0].event.PatientTyping?;
      assert NoTyping(trace[1..]) by {
        forall i | 0 <= i < |trace[1..]| ensures !trace[1..][i].event.PatientTyping? {
          assert trace[1..][i] == trace[i + 1];
        }
      }
      StepPreservesInv(s, trace[0].at, trace[0].event);
      SubmittedStaysSubmitted(first.next, trace[1..]);
    }
  }

  /** Only connections, disconnections and clock ticks, all before `deadline`. */
  predicate QuietUntil(trace: seq<Timed>, deadline: int)
  {
    forall i :: 0 <= i < |trace| ==>
      && (trace[i].event.Connect? || trace[i].event.Disconnect? || trace[i].event.Tick?)
      && trace[i].at < deadline
  }

  /** Before its deadline nothing demotes a `typing` session: record and countdown stay, nothing is broadcast. */
  lemma {:induction false} NoExpiryBeforeDeadline(s: ServerState, trace: seq<Timed>, deadline: int)
    requires s.deadline == Some(deadline)
    requires QuietUntil(trace, deadline)
    ensures Run(s, trace).next.latest == s.latest
    ensures Run(s, trace).next.deadline == Some(deadline)
    ensures forall i :: 0 <= i < |Run(s, trace).emitted| ==> Run(s, trace).emitted[i].ToSocket?
    decreases |trace|
  {
    if |trace| > 0 {
      var first := Step(s, trace[0].at, trace[0].event);
      assert QuietUntil(trace[1..], deadline) by {
        forall i | 0 <= i < |trace[1..]|
          ensures (trace[1..][i].event.Connect? || trace[1..][i].event.Disconnect? || trace[1..][i].event.Tick?)
          ensures trace[1..][i].at < deadline
        {
          assert trace[1..][i] == trace[i + 1];
        }
      }
      assert trace[0].at < deadline;
      NoExpiryBeforeDeadline(first.next, trace[1..], deadline);
    }
  }

  /**
   The countdown restarts on every update: typing at `t` and again at
   `t + 29900` means the session is still `typing` at `t + 30000` and turns
   `inactive`, keeping every property, at `t + 59900`.
   */
  lemma RestartMovesExpiry(s: ServerState, t: int, from: SocketId, d1: PatientFormData, d2: PatientFormData)
    ensures Run(s, [Timed(t, PatientTyping(from, d1)), Timed(t + 29900, PatientTyping(from, d2)),
                    Timed(t + 30000, Tick)]).next.latest.status == Some(Typing)
    ensures Run(s, [Timed(t, PatientTyping(from, d1)), Timed(t + 29900, PatientTyping(from, d2)),
                    Timed(t + 30000, Tick), Timed(t + 59900, Tick)]).next.latest == WithStatus(d2, Inactive)
  {
    var a := Timed(t, PatientTyping(from, d1));
    var b := Timed(t + 29900, PatientTyping(from, d2));
    var c := Timed(t + 30000, Tick);
    var e := Timed(t + 59900, Tick);
    RunAppend(s, [a], b);
    assert [a] + [b] == [a, b];
    RunAppend(s, [a, b], c);
    assert [a, b] + [c] == [a, b, c];
    RunAppend(s, [a, b, c], e);
    assert [a, b, c] + [e] == [a, b, c, e];
  }

  /**
   The walk-through: an observer connecting to a fresh server sees the blank
   `inactive` record; a typing update and then a submit reach it with status
   `typing` and `submitted`; sixty seconds of silence change nothing.
   */
  lemma ObserverWalkthrough(a: SocketId, p: SocketId, typed: PatientFormData, sent: PatientFormData)
    ensures Run(Initial, [Timed(0, Connect(a))]).emitted == [ToSocket(a, EmptyRecord(Some(Inactive)))]
    ensures Run(Initial, [Timed(0, Connect(a)), Timed(1000, PatientTyping(p, typed)),
                          Timed(2000, PatientSubmit(p, sent)), Timed(62000, Tick)]).emitted
         == [ToSocket(a, EmptyRecord(Some(Inactive))), ToAll(WithStatus(typed, Typing)),
             ToAll(WithStatus(sent, Submitted))]
    ensures Run(Initial, [Timed(0, Connect(a)), Timed(1000, PatientTyping(p, typed)),
                          Timed(2000, PatientSubmit(p, sent)), Timed(62000, Tick)]).next
         == ServerState(WithStatus(sent, Submitted), None, {a})
  {
    var t3 := [Timed(62000, Tick)];
    var t2 := [Timed(2000, PatientSubmit(p, sent))] + t3;
    var t1 := [Timed(1000, PatientTyping(p, typed))] + t2;
    var trace := [Timed(0, Connect(a))] + t1;
    var s1 := ServerState(EmptyRecord(Some(Inactive)), None, {a});
    var s2 := ServerState(WithStatus(typed, Typing), Some(1000 + InactivityTimeoutMs), {a});
    var s3 := ServerState(WithStatus(sent, Submitted), None, {a});
    assert Step(Initial, 0, Connect(a)).next == s1;
    assert Run(s3, t3) == StepResult(s3, []);
    assert Run(s2, t2) == StepResult(s3, [ToAll(WithStatus(sent, Submitted))]);
    assert Run(s1, t1) == StepResult(s3, [ToAll(WithStatus(typed, Typing)), ToAll(WithStatus(sent, Submitted))]);
    assert trace == [Timed(0, Connect(a)), Timed(1000, PatientTyping(p, typed)),
                     Timed(2000, PatientSubmit(p, sent)), Timed(62000, Tick)];
    assert Run(Initial, trace) == StepResult(s3, [ToSocket(a, EmptyRecord(Some(Inactive))),
      ToAll(WithStatus(typed, Typing)), ToAll(WithStatus(sent, Submitted))]);
  }
}
