/** The host lifecycle machine (state.rs): a value-level transition function, the
    class that updates its five fields in place, and what every run keeps. */
module Lifecycle {
  import opened Base

  type SessionId = seq<byte>

  datatype HostState = Stopped | Preparing | Connected | Degraded | Stopping | Error

  const HEARTBEAT_INTERVAL_MS: nat := 1000
  const HEARTBEAT_MISS_LIMIT: nat := 3
  const HEADSET_SUSPENDED_REASON := "headset is asleep; VPN remains active"
  const HEARTBEATS_MISSED_REASON := "three heartbeat intervals missed; VPN remains active"

  datatype Machine = Machine(
    state: HostState,
    session: Option<SessionId>,
    lastHeartbeat: Option<nat>,
    missed: nat,
    reason: Option<string>)

  const INITIAL := Machine(Stopped, None, None, 0, None)

  datatype Transition =
    | BeginStart(id: SessionId)
    | PeerStarted(id: SessionId, now: nat)
    | Heartbeat(id: SessionId, now: nat)
    | Tick(now: nat)
    | TransportLost(why: string)
    | PeerSuspended(id: SessionId)
    | BeginStop
    | StoppedByPeer
    | Fail(why: string)

  /** The headset told the host that it sleeps; only a wake, a stop or a failure ends this. */
  predicate Suspended(m: Machine) {
    m.state == Degraded && m.reason == Some(HEADSET_SUSPENDED_REASON)
  }

  /** Whether the guards of the transition hold, i.e. the call returns `Ok`. */
  predicate Accepts(m: Machine, t: Transition) {
    match t
    case BeginStart(_) => m.state in {Stopped, Error}
    case PeerStarted(id, _) => m.session == Some(id) && m.state in {Preparing, Connected, Degraded}
    case Heartbeat(id, _) => m.session == Some(id) && m.state in {Connected, Degraded}
    case PeerSuspended(id) => m.session == Some(id) && m.state in {Connected, Degraded}
    case BeginStop => m.state in {Preparing, Connected, Degraded, Error}
    case StoppedByPeer => m.state == Stopping
    case Tick(_) | TransportLost(_) | Fail(_) => true
  }

  /** Heartbeat intervals elapsed since `last`, clamped to 32 bits as the source clamps it. */
  function MissedIntervals(last: nat, now: nat): nat {
    Min(Monus(now, last) / HEARTBEAT_INTERVAL_MS, U32_MAX)
  }

  function Apply(m: Machine, t: Transition): Machine {
    if !Accepts(m, t) then m else
    match t
    case BeginStart(id) => Machine(Preparing, Some(id), None, 0, None)
    case PeerStarted(_, now) =>
      m.(state := Connected, lastHeartbeat := Some(now), missed := 0, reason := None)
    case Heartbeat(_, now) =>
      if Suspended(m) then m.(lastHeartbeat := Some(now), missed := 0)
      else m.(state := Connected, lastHeartbeat := Some(now), missed := 0, reason := None)
    case Tick(now) =>
      if m.state != Connected || m.lastHeartbeat == None then m else
      var missed := MissedIntervals(m.lastHeartbeat.value, now);
      if missed >= HEARTBEAT_MISS_LIMIT
      then m.(missed := missed, state := Degraded, reason := Some(HEARTBEATS_MISSED_REASON))
      else m.(missed := missed)
    case TransportLost(why) =>
      if m.state in {Preparing, Connected} then m.(state := Degraded, reason := Some(why))
      else if m.state == Degraded && !Suspended(m) then m.(reason := Some(why))
      else m
    case PeerSuspended(_) =>
      m.(state := Degraded, lastHeartbeat := None, missed := 0, reason := Some(HEADSET_SUSPENDED_REASON))
    case BeginStop => m.(state := Stopping, reason := None)
    case StoppedByPeer => INITIAL
    case Fail(why) => m.(state := Error, lastHeartbeat := None, reason := Some(why))
  }

  /** The states a run passes through: `States(m, ts)[i]` is the state before `ts[i]`. */
  function States(m: Machine, ts: seq<Transition>): (r: seq<Machine>)
    ensures |r| == |ts| + 1 && r[0] == m
    ensures forall i :: 0 <= i < |ts| ==> r[i + 1] == Apply(r[i], ts[i])
    decreases |ts|
  {
    if ts == [] then [m] else [m] + States(Apply(m, ts[0]), ts[1..])
  }

  function Final(m: Machine, ts: seq<Transition>): Machine { States(m, ts)[|ts|] }

  ghost predicate Valid(m: Machine) {
    && (m.state == Connected ==>
         m.lastHeartbeat.Some? && m.missed < HEARTBEAT_MISS_LIMIT && m.reason == None)
    && (m.state in {Preparing, Connected, Degraded} ==> m.session.Some?)
    && (m.state == Stopped ==> m == INITIAL)
  }

  /** Every reachable state is valid: `Connected` always has a heartbeat time, fewer than
      three misses and no reason, whatever the run was. */
  lemma {:induction false} ReachableIsValid(ts: seq<Transition>)
    ensures forall i :: 0 <= i <= |ts| ==> Valid(States(INITIAL, ts)[i])
  {
    var r := States(INITIAL, ts);
    for i := 0 to |ts|
      invariant forall j :: 0 <= j <= i ==> Valid(r[j])
    {
      assert r[i + 1] == Apply(r[i], ts[i]);
    }
  }

  /** A tick degrades a connected lifecycle exactly when three whole intervals have passed
      without a heartbeat; it never does anything else to the state. */
  lemma TickDegradesExactlyOnThreeMisses(m: Machine, now: nat)
    requires Valid(m) && m.state == Connected
    ensures Apply(m, Tick(now)).state == (if now >= m.lastHeartbeat.value + 3000 then Degraded else Connected)
    ensures Apply(m, Tick(now)).session == m.session
  {
    var elapsed := Monus(now, m.lastHeartbeat.value);
    assert elapsed / HEARTBEAT_INTERVAL_MS >= 3 <==> elapsed >= 3000;
  }

  /** The only ways out of a suspension: an authenticated wake, an explicit stop, a failure. */
  predicate LeavesSuspension(m: Machine, t: Transition) {
    Accepts(m, t) && (t.PeerStarted? || t.BeginStop? || t.Fail?)
  }

  /** A suspended lifecycle stays suspended through a run exactly as long as the run holds no
      accepted wake, stop or failure: heartbeats and carrier losses never end it. */
  lemma {:induction false} SuspensionLastsUntilWakeStopOrFailure(m: Machine, ts: seq<Transition>)
    requires Suspended(m)
    ensures (forall k :: 0 <= k <= |ts| ==> Suspended(States(m, ts)[k]))
            <==> (forall i :: 0 <= i < |ts| ==> !LeavesSuspension(States(m, ts)[i], ts[i]))
  {
    var r := States(m, ts);
    if forall i :: 0 <= i < |ts| ==> !LeavesSuspension(r[i], ts[i]) {
      for i := 0 to |ts|
        invariant forall j :: 0 <= j <= i ==> Suspended(r[j])
      {
        assert r[i + 1] == Apply(r[i], ts[i]) && !LeavesSuspension(r[i], ts[i]);
      }
    } else {
      var i :| 0 <= i < |ts| && LeavesSuspension(r[i], ts[i]);
      assert r[i + 1] == Apply(r[i], ts[i]);
      assert !Suspended(r[i]) || !Suspended(r[i + 1]);
    }
  }

  ghost predicate NoNewStart(ts: seq<Transition>) {
    forall i :: 0 <= i < |ts| ==> !ts[i].BeginStart?
  }

  /** `ts[i]` is an accepted BeginStop and `ts[j]` the StoppedByPeer that completes it, with the
      lifecycle in Stopping at every state between the two. */
  ghost predicate StopTransaction(m: Machine, ts: seq<Transition>, i: nat, j: nat) {
    && i < j < |ts|
    && ts[i].BeginStop? && Accepts(States(m, ts)[i], ts[i])
    && ts[j].StoppedByPeer?
    && forall k :: i < k <= j ==> States(m, ts)[k].state == Stopping
  }

  /** Walking back from a state in Stopping finds the BeginStop that entered it. */
  lemma {:induction false} StoppingHasAnOrigin(m: Machine, ts: seq<Transition>, j: nat) returns (i: nat)
    requires m.state != Stopping && j <= |ts| && States(m, ts)[j].state == Stopping
    ensures i < j && ts[i].BeginStop? && Accepts(States(m, ts)[i], ts[i])
    ensures forall k :: i < k <= j ==> States(m, ts)[k].state == Stopping
    decreases j
  {
    var r := States(m, ts);
    assert j > 0 && r[j] == Apply(r[j - 1], ts[j - 1]);
    if r[j - 1].state == Stopping {
      i := StoppingHasAnOrigin(m, ts, j - 1);
    } else {
      i := j - 1;
    }
  }

  /** After a start, and without a second one, a run reaches Stopped or drops its session
      exactly when it contains a whole stop transaction. */
  lemma {:induction false} OnlyAnAcknowledgedStopEndsASession(m: Machine, id: SessionId, ts: seq<Transition>)
    requires m == Apply(INITIAL, BeginStart(id)) && NoNewStart(ts)
    ensures (exists k :: 0 <= k <= |ts| && (States(m, ts)[k].state == Stopped || States(m, ts)[k].session != Some(id)))
            <==> (exists i: nat, j: nat :: StopTransaction(m, ts, i, j))
  {
    var r := States(m, ts);
    if i: nat, j: nat :| StopTransaction(m, ts, i, j) {
      assert r[j + 1] == Apply(r[j], ts[j]);
      assert r[j + 1].state == Stopped;
    }
    if k :| 0 <= k <= |ts| && (r[k].state == Stopped || r[k].session != Some(id)) {
      var j := FirstStopped(m, id, ts, k);
      var i := StoppingHasAnOrigin(m, ts, j);
      assert StopTransaction(m, ts, i, j);
    }
  }

  lemma {:induction false} FirstStopped(m: Machine, id: SessionId, ts: seq<Transition>, k: nat) returns (j: nat)
    requires m.state != Stopped && m.session == Some(id) && NoNewStart(ts) && k <= |ts|
    requires States(m, ts)[k].state == Stopped || States(m, ts)[k].session != Some(id)
    ensures j < k && ts[j].StoppedByPeer? && States(m, ts)[j].state == Stopping
    decreases k
  {
    var r := States(m, ts);
    assert k > 0 && r[k] == Apply(r[k - 1], ts[k - 1]);
    if r[k - 1].state == Stopped || r[k - 1].session != Some(id) {
      j := FirstStopped(m, id, ts, k - 1);
    } else {
      j := k - 1;
    }
  }

  ghost predicate NeverStarted(ts: seq<Transition>) {
    forall i :: 0 <= i < |ts| ==> !ts[i].BeginStart? && !ts[i].PeerStarted?
  }

  predicate PlainlyDegraded(m: Machine) { m.state == Degraded && !Suspended(m) }

  /** `ts[i]` loses the transport of a lifecycle still preparing and `ts[j]` is an accepted
      heartbeat, with the lifecycle degraded and not suspended at every state between the two. */
  ghost predicate LossThenHeartbeat(m: Machine, ts: seq<Transition>, i: nat, j: nat) {
    && i < j < |ts|
    && ts[i].TransportLost? && ts[i].why != HEADSET_SUSPENDED_REASON && States(m, ts)[i].state == Preparing
    && ts[j].Heartbeat? && Accepts(States(m, ts)[j], ts[j])
    && forall k :: i < k <= j ==> PlainlyDegraded(States(m, ts)[k])
  }

  /** Connected does not need STARTED. Exactly how it is reached without one: a transport lost while
      still preparing, then a heartbeat before anything else ends that degradation. */
  lemma {:induction false} ConnectedWithoutStarted(m: Machine, id: SessionId, ts: seq<Transition>)
    requires m == Apply(INITIAL, BeginStart(id)) && NeverStarted(ts)
    ensures (exists k :: 0 <= k <= |ts| && States(m, ts)[k].state == Connected)
            <==> (exists i: nat, j: nat :: LossThenHeartbeat(m, ts, i, j))
  {
    var r := States(m, ts);
    if i: nat, j: nat :| LossThenHeartbeat(m, ts, i, j) {
      assert PlainlyDegraded(r[j]) && r[j + 1] == Apply(r[j], ts[j]);
      assert r[j + 1].state == Connected;
    }
    if k :| 0 <= k <= |ts| && r[k].state == Connected {
      var j := FirstConnected(m, ts, k);
      var i := DegradationHasAnOrigin(m, ts, j);
      assert LossThenHeartbeat(m, ts, i, j);
    }
  }

  /** The first way into Connected is a heartbeat on a plainly degraded lifecycle. */
  lemma {:induction false} FirstConnected(m: Machine, ts: seq<Transition>, k: nat) returns (j: nat)
    requires m.state == Preparing && NeverStarted(ts) && k <= |ts| && States(m, ts)[k].state == Connected
    ensures j < k && ts[j].Heartbeat? && Accepts(States(m, ts)[j], ts[j]) && PlainlyDegraded(States(m, ts)[j])
    ensures forall i :: 0 <= i <= j ==> States(m, ts)[i].state != Connected
    decreases k
  {
    var r := States(m, ts);
    assert k > 0 && r[k] == Apply(r[k - 1], ts[k - 1]);
    if i :| 0 <= i < k && r[i].state == Connected {
      j := FirstConnected(m, ts, i);
    } else {
      j := k - 1;
    }
  }

  /** Walking back from a plain degradation finds the loss that entered it. */
  lemma {:induction false} DegradationHasAnOrigin(m: Machine, ts: seq<Transition>, j: nat) returns (i: nat)
    requires m.state == Preparing && NeverStarted(ts) && j <= |ts| && PlainlyDegraded(States(m, ts)[j])
    requires forall k :: 0 <= k <= j ==> States(m, ts)[k].state != Connected
    ensures i < j && ts[i].TransportLost? && ts[i].why != HEADSET_SUSPENDED_REASON && States(m, ts)[i].state == Preparing
    ensures forall k :: i < k <= j ==> PlainlyDegraded(States(m, ts)[k])
    decreases j
  {
    var r := States(m, ts);
    assert j > 0 && r[j] == Apply(r[j - 1], ts[j - 1]);
    if PlainlyDegraded(r[j - 1]) {
      i := DegradationHasAnOrigin(m, ts, j - 1);
    } else {
      i := j - 1;
    }
  }

  /** The shortest such run. */
  lemma ThreeStepsConnect(id: SessionId, now: nat, why: string)
    requires why != HEADSET_SUSPENDED_REASON
    ensures Final(INITIAL, [BeginStart(id), TransportLost(why), Heartbeat(id, now)]).state == Connected
  {
    var ts := [BeginStart(id), TransportLost(why), Heartbeat(id, now)];
    var r := States(INITIAL, ts);
    assert r[1] == Apply(r[0], ts[0]) && r[2] == Apply(r[1], ts[1]) && r[3] == Apply(r[2], ts[2]);
  }

  // ---------------------------------------------------- what each transition must do

  /** The transition takes the machine into state `x`, told from its guards: who may start, connect,
      degrade, stop and fail, and when a tick finds three whole intervals without a heartbeat. */
  predicate Enters(x: HostState, m: Machine, t: Transition) {
    match x
    case Preparing => t.BeginStart? && (m.state == Stopped || m.state == Error)
    case Connected =>
      || (t.PeerStarted? && m.session == Some(t.id) && m.state in {Preparing, Connected, Degraded})
      || (t.Heartbeat? && m.session == Some(t.id)
          && (m.state == Connected || (m.state == Degraded && m.reason != Some("headset is asleep; VPN remains active"))))
    case Degraded =>
      || (t.Tick? && m.state == Connected && m.lastHeartbeat.Some? && t.now >= m.lastHeartbeat.value + 3000)
      || (t.TransportLost? && m.state in {Preparing, Connected})
      || (t.PeerSuspended? && m.session == Some(t.id) && m.state in {Connected, Degraded})
    case Stopping => t.BeginStop? && m.state in {Preparing, Connected, Degraded, Error}
    case Stopped => t.StoppedByPeer? && m.state == Stopping
    case Error => t.Fail?
  }

  lemma EntersOrStays(m: Machine, t: Transition, x: HostState)
    ensures Apply(m, t).state == x <==> Enters(x, m, t) || (m.state == x && forall y :: y != x ==> !Enters(y, m, t))
  {
    if t.Tick? && m.state == Connected && m.lastHeartbeat.Some? {
      var elapsed := Monus(t.now, m.lastHeartbeat.value);
      assert elapsed / HEARTBEAT_INTERVAL_MS >= 3 <==> elapsed >= 3000;
    }
    assert Enters(Stopped, m, t) || Enters(Preparing, m, t) || Enters(Connected, m, t) || Enters(Degraded, m, t)
           || Enters(Stopping, m, t) || Enters(Error, m, t) || Apply(m, t).state == m.state;
  }

  /** State `x` was entered at `i` and no other state since, up to `k`. */
  ghost predicate EnteredAt(r: seq<Machine>, ts: seq<Transition>, x: HostState, i: nat, k: nat)
    requires k <= |ts| < |r|
  {
    i < k && Enters(x, r[i], ts[i]) && forall j :: i < j < k ==> NoOther(r[j], ts[j], x)
  }

  ghost predicate NoOther(m: Machine, t: Transition, x: HostState) { forall y :: y != x ==> !Enters(y, m, t) }

  ghost predicate LastEntered(r: seq<Machine>, ts: seq<Transition>, x: HostState, k: nat)
    requires k <= |ts| < |r|
  {
    (exists i: nat :: EnteredAt(r, ts, x, i, k)) || (x == Stopped && forall j :: 0 <= j < k ==> NoOther(r[j], ts[j], x))
  }

  lemma LastEnteredStep(r: seq<Machine>, ts: seq<Transition>, x: HostState, k: nat)
    requires k < |ts| < |r|
    ensures LastEntered(r, ts, x, k + 1) <==> Enters(x, r[k], ts[k]) || (LastEntered(r, ts, x, k) && NoOther(r[k], ts[k], x))
  {
    hide Enters, NoOther;
    if Enters(x, r[k], ts[k]) { assert EnteredAt(r, ts, x, k, k + 1); }
    if i: nat :| EnteredAt(r, ts, x, i, k) && NoOther(r[k], ts[k], x) { assert EnteredAt(r, ts, x, i, k + 1); }
    var next := k + 1;
    if i: nat :| EnteredAt(r, ts, x, i, next) { if i < k { assert EnteredAt(r, ts, x, i, k); } }
  }

  /** The state after any run from the beginning is the one entered last: every transition whose guard
      holds takes the machine where it says, and nothing else moves it. */
  lemma {:induction false} StateIsTheLastEntered(ts: seq<Transition>, x: HostState, k: nat)
    requires k <= |ts|
    ensures States(INITIAL, ts)[k].state == x <==> LastEntered(States(INITIAL, ts), ts, x, k)
  {
    var r := States(INITIAL, ts);
    if k > 0 {
      hide LastEntered, Enters;
      StateIsTheLastEntered(ts, x, k - 1);
      assert r[k - 1 + 1] == Apply(r[k - 1], ts[k - 1]);
      EntersOrStays(r[k - 1], ts[k - 1], x);
      LastEnteredStep(r, ts, x, k - 1);
    }
  }

  /** The fields beside the state: whose session it is, when the peer was last heard, how many intervals
      it missed, and why the lifecycle is where it is. */
  lemma FieldsFollow(m: Machine, t: Transition)
    ensures var n := Apply(m, t);
            && n.session == (if Enters(Preparing, m, t) then Some(t.id) else if Enters(Stopped, m, t) then None else m.session)
            && (Enters(Connected, m, t) ==> n.lastHeartbeat == Some(t.now) && n.missed == 0 && n.reason == None)
            && (t.PeerSuspended? && Enters(Degraded, m, t) ==>
                  n.reason == Some("headset is asleep; VPN remains active") && n.lastHeartbeat == None)
            && (t.TransportLost? && Enters(Degraded, m, t) ==> n.reason == Some(t.why))
            && (t.TransportLost? && m.state == Degraded ==>
                  n.reason == if m.reason == Some("headset is asleep; VPN remains active") then m.reason else Some(t.why))
            && (t.Tick? && Enters(Degraded, m, t) ==>
                  n.reason == Some("three heartbeat intervals missed; VPN remains active"))
            && (t.Tick? && m.state == Connected && m.lastHeartbeat.Some? && t.now < m.lastHeartbeat.value + 3000 ==>
                  n == m.(missed := Monus(t.now, m.lastHeartbeat.value) / 1000))
            && (Enters(Stopping, m, t) ==> n.reason == None)
            && (Enters(Error, m, t) ==> n.reason == Some(t.why) && n.lastHeartbeat == None)
            && (Enters(Preparing, m, t) || Enters(Stopped, m, t) ==> n.lastHeartbeat == None && n.missed == 0 && n.reason == None)
            && (t.Heartbeat? && Suspended(m) && m.session == Some(t.id) ==> n == m.(lastHeartbeat := Some(t.now), missed := 0))
  {
    if t.Tick? && m.state == Connected && m.lastHeartbeat.Some? {
      var elapsed := Monus(t.now, m.lastHeartbeat.value);
      assert elapsed / HEARTBEAT_INTERVAL_MS >= 3 <==> elapsed >= 3000;
    }
  }

  // ------------------------------------------------------------ a beating peer

  ghost predicate BeatsAndTicks(ts: seq<Transition>, id: SessionId) {
    forall i :: 0 <= i < |ts| ==> ts[i].Tick? || (ts[i].Heartbeat? && ts[i].id == id)
  }

  /** When the peer was last heard, having been heard at `from` before the list. */
  function LastBeat(from: nat, ts: seq<Transition>): nat {
    if ts == [] then from
    else match ts[|ts| - 1]
      case Heartbeat(_, now) => now
      case _ => LastBeat(from, ts[..|ts| - 1])
  }

  /** Some tick since the last beat came three seconds or more after it. */
  predicate Late(from: nat, ts: seq<Transition>) {
    ts != [] && match ts[|ts| - 1]
                case Tick(now) => Late(from, ts[..|ts| - 1]) || now >= LastBeat(from, ts[..|ts| - 1]) + 3000
                case Heartbeat(_, _) => false
                case _ => Late(from, ts[..|ts| - 1])
  }

  lemma {:induction false} FinalOfSnoc(m: Machine, ts: seq<Transition>, t: Transition)
    ensures Final(m, ts + [t]) == Apply(Final(m, ts), t)
    decreases |ts|
  {
    var all := ts + [t];
    if ts == [] {
      assert all[1..] == [];
      assert States(m, all)[1] == Apply(States(m, all)[0], all[0]);
    } else {
      assert all[1..] == ts[1..] + [t];
      FinalOfSnoc(Apply(m, ts[0]), ts[1..], t);
      FinalOfTail(m, ts);
      FinalOfTail(m, all);
    }
  }

  lemma FinalOfTail(m: Machine, ts: seq<Transition>)
    requires ts != []
    ensures Final(m, ts) == Final(Apply(m, ts[0]), ts[1..])
  {
    assert States(m, ts) == [m] + States(Apply(m, ts[0]), ts[1..]);
  }

  /** A connected peer that beats stays connected exactly as long as no tick finds it three seconds
      silent, and the next beat connects it again. */
  lemma {:induction false} BeatingPeerStaysConnected(m: Machine, id: SessionId, from: nat, ts: seq<Transition>)
    requires m.state == Connected && m.session == Some(id) && m.lastHeartbeat == Some(from) && m.reason == None
    requires BeatsAndTicks(ts, id)
    ensures var n := Final(m, ts);
            && n.session == Some(id) && n.lastHeartbeat == Some(LastBeat(from, ts))
            && n.state == (if Late(from, ts) then Degraded else Connected)
            && (Late(from, ts) ==> n.reason == Some(HEARTBEATS_MISSED_REASON))
  {
    if ts != [] {
      var front, t := ts[..|ts| - 1], ts[|ts| - 1];
      BeatingPeerStaysConnected(m, id, from, front);
      assert front + [t] == ts;
      FinalOfSnoc(m, front, t);
      FieldsFollow(Final(m, front), t);
      EntersOrStays(Final(m, front), t, Connected);
      EntersOrStays(Final(m, front), t, Degraded);
    }
  }

  /** The machine as the source keeps it: five fields changed in place. A refused call
      leaves every field alone. */
  class StateMachine {
    var state: HostState
    var sessionId: Option<SessionId>
    var lastHeartbeat: Option<nat>
    var missedHeartbeats: nat
    var reason: Option<string>

    function Model(): Machine
      reads this
    {
      Machine(state, sessionId, lastHeartbeat, missedHeartbeats, reason)
    }

    constructor ()
      ensures Model() == INITIAL
    {
      state, sessionId, lastHeartbeat, missedHeartbeats, reason := Stopped, None, None, 0, None;
    }

    method Begin(id: SessionId) returns (ok: bool)
      modifies this
      ensures Model() == Apply(old(Model()), BeginStart(id)) && ok == old(Accepts(Model(), BeginStart(id)))
    {
      if state != Stopped && state != Error { return false; }
      state, sessionId, lastHeartbeat, missedHeartbeats, reason := Preparing, Some(id), None, 0, None;
      return true;
    }

    method Started(id: SessionId, now: nat) returns (ok: bool)
      modifies this
      ensures Model() == Apply(old(Model()), PeerStarted(id, now))
      ensures ok == old(Accepts(Model(), PeerStarted(id, now)))
    {
      if sessionId != Some(id) { return false; }
      if state != Preparing && state != Connected && state != Degraded { return false; }
      state, lastHeartbeat, missedHeartbeats, reason := Connected, Some(now), 0, None;
      return true;
    }

    method Beat(id: SessionId, now: nat) returns (ok: bool)
      modifies this
      ensures Model() == Apply(old(Model()), Heartbeat(id, now))
      ensures ok == old(Accepts(Model(), Heartbeat(id, now)))
    {
      if sessionId != Some(id) { return false; }
      if state == Degraded && reason == Some(HEADSET_SUSPENDED_REASON) {
        lastHeartbeat, missedHeartbeats := Some(now), 0;
        return true;
      }
      if state != Connected && state != Degraded { return false; }
      state, lastHeartbeat, missedHeartbeats, reason := Connected, Some(now), 0, None;
      return true;
    }

    method Advance(now: nat)
      modifies this
      ensures Model() == Apply(old(Model()), Tick(now))
    {
      if state != Connected || lastHeartbeat == None { return; }
      missedHeartbeats := MissedIntervals(lastHeartbeat.value, now);
      if missedHeartbeats >= HEARTBEAT_MISS_LIMIT {
        state, reason := Degraded, Some(HEARTBEATS_MISSED_REASON);
      }
    }

    method LoseTransport(why: string)
      modifies this
      ensures Model() == Apply(old(Model()), TransportLost(why))
    {
      if state == Preparing || state == Connected {
        state, reason := Degraded, Some(why);
      } else if state == Degraded && reason != Some(HEADSET_SUSPENDED_REASON) {
        reason := Some(why);
      }
    }

    method Suspend(id: SessionId) returns (ok: bool)
      modifies this
      ensures Model() == Apply(old(Model()), PeerSuspended(id))
      ensures ok == old(Accepts(Model(), PeerSuspended(id)))
    {
      if sessionId != Some(id) || (state != Connected && state != Degraded) { return false; }
      state, lastHeartbeat, missedHeartbeats, reason := Degraded, None, 0, Some(HEADSET_SUSPENDED_REASON);
      return true;
    }

    method Stop() returns (ok: bool)
      modifies this
      ensures Model() == Apply(old(Model()), BeginStop) && ok == old(Accepts(Model(), BeginStop))
    {
      if state == Stopped || state == Stopping { return false; }
      state, reason := Stopping, None;
      return true;
    }

    method FinishStop() returns (ok: bool)
      modifies this
      ensures Model() == Apply(old(Model()), StoppedByPeer) && ok == old(Accepts(Model(), StoppedByPeer))
    {
      if state != Stopping { return false; }
      state, sessionId, lastHeartbeat, missedHeartbeats, reason := Stopped, None, None, 0, None;
      return true;
    }

    method Break(why: string)
      modifies this
      ensures Model() == Apply(old(Model()), Transition.Fail(why))
    {
      state, lastHeartbeat, reason := Error, None, Some(why);
    }
  }
}
