/**
 The relay server of server/socket.ts as a transition function. The state is
 the authoritative record `latest`, the pending inactivity deadline (the one
 timer handle, read as the instant its callback is due) and the set of
 connected socket ids. Every handler runs to completion on one event loop, so
 `Step` takes one event at the instant `now` of an abstract millisecond clock
 and returns the next state and the `form-update` messages it emits.
 */
module Relay {
  import opened Options
  import opened FormTypes

  type SocketId = string

  /** The silence window, in milliseconds. */
  const InactivityTimeoutMs: int := 30000

  datatype ServerState = ServerState(
    latest: PatientFormData,
    deadline: Option<int>,
    sockets: set<SocketId>)

  /**
   What the event loop can hand the server: a socket connecting or leaving,
   one of the two client messages, or `Tick`, the clock reaching `now`, on
   which a due inactivity callback runs.
   */
  datatype Event =
    | Connect(id: SocketId)
    | Disconnect(id: SocketId)
    | PatientTyping(from: SocketId, data: PatientFormData)
    | PatientSubmit(from: SocketId, data: PatientFormData)
    | Tick

  /** A `form-update` emission: `socket.emit` to one socket, or `io.emit` to all. */
  datatype Emission = ToSocket(to: SocketId, snapshot: PatientFormData) | ToAll(snapshot: PatientFormData)

  datatype StepResult = StepResult(next: ServerState, emitted: seq<Emission>)

  /** The server at start-up: every property `""`, status `inactive`, no timer, nobody connected. */
  const Initial: ServerState := ServerState(EmptyRecord(Some(Inactive)), None, {})

  /**
   `resetInactivityTimer`: the countdown `pending`, if any, is cleared and one
   fresh countdown starts, so whatever was pending the callback is due from
   exactly `now + 30000` on and not a moment earlier.
   */
  function ResetInactivityTimer(pending: Option<int>, now: int): (deadline: Option<int>)
    ensures forall t :: Due(deadline, t) <==> t >= now + InactivityTimeoutMs
  {
    Some(now + InactivityTimeoutMs)
  }

  /** The timer's callback is due at `now`. */
  predicate Due(deadline: Option<int>, now: int)
  {
    deadline.Some? && deadline.value <= now
  }

  /**
   One handler run. Each emits at most one message, and what it emits is the
   record as the step leaves it; only connections and disconnections change
   the socket set, and they touch neither record nor timer; any change of
   record or timer is broadcast to all.
   */
  function Step(s: ServerState, now: int, e: Event): (r: StepResult)
    ensures |r.emitted| <= 1
    ensures forall i :: 0 <= i < |r.emitted| ==> r.emitted[i].snapshot == r.next.latest
    ensures !e.Connect? && !e.Disconnect? ==> r.next.sockets == s.sockets
    ensures e.Connect? || e.Disconnect? ==> r.next.latest == s.latest && r.next.deadline == s.deadline
    ensures r.next.latest != s.latest || r.next.deadline != s.deadline ==> r.emitted == [ToAll(r.next.latest)]
  {
    match e
    case Connect(id) =>
      StepResult(s.(sockets := s.sockets + {id}), [ToSocket(id, s.latest)])
    case Disconnect(id) =>
      StepResult(s.(sockets := s.sockets - {id}), [])
    case PatientTyping(_, data) =>
      var record := WithStatus(data, Typing);
      StepResult(s.(latest := record, deadline := ResetInactivityTimer(s.deadline, now)), [ToAll(record)])
    case PatientSubmit(_, data) =>
      var record := WithStatus(data, Submitted);
      StepResult(s.(latest := record, deadline := None), [ToAll(record)])
    case Tick =>
      if Due(s.deadline, now) then
        var record := WithStatus(s.latest, Inactive);
        StepResult(s.(latest := record, deadline := None), [ToAll(record)])
      else
        StepResult(s, [])
  }

  /** One message received by one socket. */
  datatype Delivery = Delivery(to: SocketId, snapshot: PatientFormData)

  /** The messages an emission puts on the wire, given the sockets connected at the time. */
  function Deliveries(e: Emission, sockets: set<SocketId>): set<Delivery>
  {
    match e
    case ToSocket(id, snapshot) => {Delivery(id, snapshot)}
    case ToAll(snapshot) => set id | id in sockets :: Delivery(id, snapshot)
  }

  /** Everything a step delivered. */
  function Delivered(r: StepResult): set<Delivery>
  {
    set e, d | e in r.emitted && d in Deliveries(e, r.next.sockets) :: d
  }

  /** A broadcast reaches every connected socket once, all with the same snapshot, and nobody else. */
  lemma {:induction false} BroadcastReachesEachSocketOnce(sockets: set<SocketId>, snapshot: PatientFormData)
    ensures forall d :: d in Deliveries(ToAll(snapshot), sockets) <==> d.to in sockets && d.snapshot == snapshot
    ensures |Deliveries(ToAll(snapshot), sockets)| == |sockets|
    decreases |sockets|
  {
    if sockets != {} {
      var x :| x in sockets;
      var rest := sockets - {x};
      BroadcastReachesEachSocketOnce(rest, snapshot);
      assert Deliveries(ToAll(snapshot), sockets)
          == Deliveries(ToAll(snapshot), rest) + {Delivery(x, snapshot)};
      assert Delivery(x, snapshot) !in Deliveries(ToAll(snapshot), rest);
    } else {
      assert Deliveries(ToAll(snapshot), sockets) == {};
    }
  }

  /** The timer invariant: a countdown is pending exactly while the status is `typing`; the status is always set. */
  ghost predicate Inv(s: ServerState)
  {
    && s.latest.status.Some?
    && (s.deadline.Some? <==> s.latest.status == Some(Typing))
  }

  lemma InitialIsIdle()
    ensures forall f :: Get(Initial.latest, f) == Some("")
    ensures Initial.latest.status == Some(Inactive)
    ensures Initial.deadline.None? && Initial.sockets == {}
    ensures Inv(Initial)
  {
  }

  /** Every handler keeps the timer invariant. */
  lemma StepPreservesInv(s: ServerState, now: int, e: Event)
    requires Inv(s)
    ensures Inv(Step(s, now, e).next)
  {
  }

  /** A new socket alone receives the current record; record and timer are untouched. */
  lemma ConnectSendsCurrentRecord(s: ServerState, now: int, id: SocketId)
    ensures Step(s, now, Connect(id)).next == s.(sockets := s.sockets + {id})
    ensures Delivered(Step(s, now, Connect(id))) == {Delivery(id, s.latest)}
  {
    var r := Step(s, now, Connect(id));
    assert r.emitted == [ToSocket(id, s.latest)];
    assert Delivered(r) == Deliveries(ToSocket(id, s.latest), r.next.sockets);
  }

  /** A leaving socket is deregistered; record and timer are untouched and nothing is sent. */
  lemma DisconnectOnlyDeregisters(s: ServerState, now: int, id: SocketId)
    ensures Step(s, now, Disconnect(id)).next == s.(sockets := s.sockets - {id})
    ensures Delivered(Step(s, now, Disconnect(id))) == {}
  {
  }

  /** The step made exactly one broadcast, of `snapshot`: one identical copy per connected socket. */
  ghost predicate Fanout(r: StepResult, snapshot: PatientFormData)
  {
    && r.emitted == [ToAll(snapshot)]
    && (forall d :: d in Delivered(r) <==> d.to in r.next.sockets && d.snapshot == snapshot)
    && |Delivered(r)| == |r.next.sockets|
  }

  lemma BroadcastStepFansOut(r: StepResult, snapshot: PatientFormData)
    requires r.emitted == [ToAll(snapshot)]
    ensures Fanout(r, snapshot)
  {
    assert Delivered(r) == Deliveries(ToAll(snapshot), r.next.sockets);
    BroadcastReachesEachSocketOnce(r.next.sockets, snapshot);
  }

  /**
   `patient-typing`: the record becomes the payload with status `typing`, no
   property of the previous record survives that the payload does not carry,
   the countdown restarts from `now`, and every socket, the sender included,
   receives the new record once.
   */
  lemma TypingReplacesRecord(s: ServerState, now: int, from: SocketId, data: PatientFormData)
    ensures SameFields(Step(s, now, PatientTyping(from, data)).next.latest, data)
    ensures Step(s, now, PatientTyping(from, data)).next.latest.status == Some(Typing)
    ensures Step(s, now, PatientTyping(from, data)).next.deadline == Some(now + InactivityTimeoutMs)
    ensures Step(s, now, PatientTyping(from, data)).next.sockets == s.sockets
    ensures Fanout(Step(s, now, PatientTyping(from, data)), Step(s, now, PatientTyping(from, data)).next.latest)
    ensures from in s.sockets ==>
      Delivery(from, Step(s, now, PatientTyping(from, data)).next.latest) in Delivered(Step(s, now, PatientTyping(from, data)))
  {
    var r := Step(s, now, PatientTyping(from, data));
    BroadcastStepFansOut(r, r.next.latest);
  }

  /**
   `patient-submit`: the record becomes the payload with status `submitted`,
   the countdown is disarmed, and every socket receives the new record once.
   */
  lemma SubmitDisarmsTimer(s: ServerState, now: int, from: SocketId, data: PatientFormData)
    ensures SameFields(Step(s, now, PatientSubmit(from, data)).next.latest, data)
    ensures Step(s, now, PatientSubmit(from, data)).next.latest.status == Some(Submitted)
    ensures Step(s, now, PatientSubmit(from, data)).next.deadline.None?
    ensures Step(s, now, PatientSubmit(from, data)).next.sockets == s.sockets
    ensures Fanout(Step(s, now, PatientSubmit(from, data)), Step(s, now, PatientSubmit(from, data)).next.latest)
  {
    var r := Step(s, now, PatientSubmit(from, data));
    BroadcastStepFansOut(r, r.next.latest);
  }

  /** The due callback: status `inactive`, every property kept, the record broadcast to all. */
  lemma ExpiryDemotesToInactive(s: ServerState, now: int)
    requires Due(s.deadline, now)
    ensures SameFields(Step(s, now, Tick).next.latest, s.latest)
    ensures Step(s, now, Tick).next.latest.status == Some(Inactive)
    ensures Step(s, now, Tick).next.deadline.None?
    ensures Step(s, now, Tick).next.sockets == s.sockets
    ensures Fanout(Step(s, now, Tick), Step(s, now, Tick).next.latest)
  {
    var r := Step(s, now, Tick);
    BroadcastStepFansOut(r, r.next.latest);
  }

  /** A countdown fires once: after its callback ran, later ticks send nothing until the next edit re-arms it. */
  lemma ExpiryFiresOnce(s: ServerState, now: int, later: int)
    requires Due(s.deadline, now)
    ensures Step(Step(s, now, Tick).next, later, Tick).next == Step(s, now, Tick).next
    ensures Step(Step(s, now, Tick).next, later, Tick).emitted == []
  {
  }

  /** Before the deadline, or with no countdown pending, the clock advancing changes nothing. */
  lemma TickBeforeDeadlineIsQuiet(s: ServerState, now: int)
    requires !Due(s.deadline, now)
    ensures Step(s, now, Tick).next == s
    ensures Delivered(Step(s, now, Tick)) == {}
  {
  }
}
