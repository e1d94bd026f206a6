/** Explicit Stop against repair work (runtime.rs): the stop flag, the operation lock and the
    flag check before every blocking ADB call, for any number of reconcile, recovery and
    restart runs in any interleaving. */
module StopDrain {
  import opened Base

  /** One blocking call made with the operation lock held. */
  datatype Work =
    | ProbeMappings | AddMapping | VerifyMappings | ReinstallMappings
    | AndroidStatus | ForceStop | VerifyVpnClosed(retries: nat) | StartIntent

  predicate Mutates(w: Work) { w in {AddMapping, ReinstallMappings, ForceStop, StartIntent} }

  /** Removals and a listing, three adds and a listing, and all the removals again if that fails. */
  const REINSTALL_COMMANDS: nat := 12

  /** How many ADB commands a call may issue. A closure check polls until its deadline, here its
      number of retries; a reinstall is a whole transaction; every other call is one command. */
  function Limit(w: Work): nat {
    match w
    case VerifyVpnClosed(retries) => retries + 1
    case ReinstallMappings => REINSTALL_COMMANDS
    case _ => 1
  }

  predicate MayIssue(w: Work, issued: nat) { issued < Limit(w) }

  predicate IssuesMany(w: Work) { w == ReinstallMappings || (w.VerifyVpnClosed? && w.retries > 0) }

  datatype Procedure = Reconcile(missing: nat) | SleepCheck | Recover | Restart(retries: nat)

  /** The blocking calls of a run that meets no error. A run may end after any of them. */
  function Script(p: Procedure): seq<Work> {
    match p
    case Reconcile(missing) =>
      if missing == 0 then [ProbeMappings] else [ProbeMappings] + seq(missing, _ => AddMapping) + [VerifyMappings]
    case SleepCheck => [ProbeMappings, AndroidStatus]
    case Recover => [ReinstallMappings]
    case Restart(retries) => [AndroidStatus, ForceStop, VerifyVpnClosed(retries), ReinstallMappings, StartIntent]
  }

  datatype Phase =
    | Outside
    | Waiting(todo: seq<Work>)   // wants the operation lock
    | Checking(todo: seq<Work>)  // holds it, about to read the stop flag
    | Cleared(todo: seq<Work>)   // read the flag as unset, call not started yet
    | Busy(todo: seq<Work>, call: nat, issued: nat)   // todo[0] is running, as call number `call`

  /** An ADB command of call number `call`, and whether a drain had returned before it. */
  datatype Command = Command(call: nat, work: Work, afterDrain: bool)

  datatype Host = Host(
    stopping: bool,
    drained: bool,                  // a drain that followed the flag has returned
    holder: Option<nat>,            // task that holds the operation lock
    tasks: seq<Phase>,
    calls: nat,                     // blocking calls started so far
    startedAfterStop: nat,          // of these, once the flag was set
    issuedAfterStop: seq<Command>,  // commands that reached ADB once the flag was set
    log: seq<Work>)                 // the call behind every command that reached ADB

  datatype Event =
    | Spawn
    | Enter(t: nat, p: Procedure)
    | Acquire(t: nat)
    | ReadFlag(t: nat)
    | BeginCall(t: nat)
    | IssueCommand(t: nat)
    | EndCall(t: nat, ok: bool)
    | SetFlag
    | DrainReturns

  const IDLE := Host(false, false, None, [], 0, 0, [], [])

  function Release(h: Host, t: nat): Host
    requires t < |h.tasks|
  {
    h.(holder := None, tasks := h.tasks[t := Outside])
  }

  function Step(h: Host, e: Event): Host {
    match e
    case Spawn => h.(tasks := h.tasks + [Outside])
    case SetFlag => h.(stopping := true)
    case DrainReturns => if h.stopping && h.holder == None then h.(drained := true) else h
    case _ => if e.t < |h.tasks| then TaskStep(h, e) else h
  }

  function TaskStep(h: Host, e: Event): Host
    requires OfTask(h, e)
  {
    var x := h.tasks[e.t];
    match e
    case Enter(t, p) => if x.Outside? then h.(tasks := h.tasks[t := Waiting(Script(p))]) else h
    case Acquire(t) =>
      if x.Waiting? && h.holder == None then h.(holder := Some(t), tasks := h.tasks[t := Checking(x.todo)]) else h
    case ReadFlag(t) =>
      if !x.Checking? then h
      else if h.stopping || x.todo == [] then Release(h, t)
      else h.(tasks := h.tasks[t := Cleared(x.todo)])
    case BeginCall(t) =>
      if !x.Cleared? then h
      else h.(tasks := h.tasks[t := Busy(x.todo, h.calls + 1, 0)], calls := h.calls + 1,
              startedAfterStop := h.startedAfterStop + if h.stopping then 1 else 0)
    case IssueCommand(t) =>
      if x.Busy? && x.todo != [] && MayIssue(x.todo[0], x.issued)
      then h.(tasks := h.tasks[t := x.(issued := x.issued + 1)], log := h.log + [x.todo[0]],
              issuedAfterStop := if h.stopping then h.issuedAfterStop + [Command(x.call, x.todo[0], h.drained)]
                                 else h.issuedAfterStop)
      else h
    case EndCall(t, ok) =>
      if !x.Busy? then h
      else if !ok || x.todo == [] then Release(h, t)
      else h.(tasks := h.tasks[t := Checking(x.todo[1..])])
  }

  predicate OfTask(h: Host, e: Event) { !e.Spawn? && !e.SetFlag? && !e.DrainReturns? && e.t < |h.tasks| }

  function Run(h: Host, es: seq<Event>): Host {
    if es == [] then h else Step(Run(h, es[..|es| - 1]), es[|es| - 1])
  }

  // ---------------------------------------------------------------- invariant

  predicate Inside(x: Phase) { x.Checking? || x.Cleared? || x.Busy? }

  /** A call is running, or its flag check is behind it. */
  predicate Open(x: Phase) { x.Cleared? || x.Busy? }

  predicate MayStart(h: Host) { h.holder.Some? && h.holder.value < |h.tasks| && h.tasks[h.holder.value].Cleared? }

  /** The lock: one task is inside, and nobody is past a flag check once drained. */
  ghost predicate LockOk(h: Host) {
    && (h.holder.Some? ==> h.holder.value < |h.tasks|)
    && (forall t :: 0 <= t < |h.tasks| ==> (Inside(h.tasks[t]) <==> h.holder == Some(t)))
    && (forall t :: 0 <= t < |h.tasks| ==> (Open(h.tasks[t]) ==> h.tasks[t].todo != []))
    && (h.drained ==> h.stopping && forall t :: 0 <= t < |h.tasks| ==> !Open(h.tasks[t]))
    && (if h.stopping then h.startedAfterStop + (if MayStart(h) then 1 else 0) <= 1 else h.startedAfterStop == 0)
  }

  /** What has been issued since the flag belongs to one call, the one that is running if any is. */
  ghost predicate IssuedOk(h: Host) {
    && (!h.stopping ==> h.issuedAfterStop == [])
    && OneCall(h.issuedAfterStop)
    && (forall t :: 0 <= t < |h.tasks| ==> Accounts(h, h.tasks[t]))
  }

  ghost predicate OneCall(cs: seq<Command>) {
    && (forall i :: 0 <= i < |cs| ==> cs[i] == cs[0] && !cs[i].afterDrain)
    && (|cs| > 1 ==> IssuesMany(cs[0].work))
    && (cs != [] ==> |cs| <= Limit(cs[0].work))
  }

  ghost predicate Accounts(h: Host, x: Phase) {
    && (x.Cleared? ==> h.issuedAfterStop == [])
    && (x.Busy? && x.todo != [] && h.issuedAfterStop != [] ==>
          h.issuedAfterStop[0] == Command(x.call, x.todo[0], false) && |h.issuedAfterStop| <= x.issued <= Limit(x.todo[0]))
  }

  ghost predicate Inv(h: Host) { LockOk(h) && IssuedOk(h) }

  lemma StepKeepsLock(h: Host, e: Event)
    requires LockOk(h)
    ensures LockOk(Step(h, e))
  {
  }

  lemma StepKeepsIssued(h: Host, e: Event)
    requires Inv(h)
    ensures IssuedOk(Step(h, e))
  {
    hide OneCall;
    var h' := Step(h, e);
    if e.IssueCommand? && OfTask(h, e) {
      IssueKeepsOneCall(h, e.t);
    }
    if OfTask(h, e) {
      forall t | 0 <= t < |h'.tasks| ensures Accounts(h', h'.tasks[t]) {
        assert Accounts(h, h.tasks[t]) && (Inside(h.tasks[t]) <==> h.holder == Some(t));
        assert Accounts(h, h.tasks[e.t]) && (Inside(h.tasks[e.t]) <==> h.holder == Some(e.t));
      }
    } else {
      forall t | 0 <= t < |h'.tasks| ensures Accounts(h', h'.tasks[t]) {
        if t < |h.tasks| { assert Accounts(h, h.tasks[t]); }
      }
    }
  }

  lemma IssueKeepsOneCall(h: Host, t: nat)
    requires Inv(h) && t < |h.tasks|
    ensures OneCall(Step(h, IssueCommand(t)).issuedAfterStop)
  {
    assert Accounts(h, h.tasks[t]);
    assert h.tasks[t].Busy? ==> Open(h.tasks[t]) && !h.drained;
  }

  lemma StepKeepsInv(h: Host, e: Event)
    requires Inv(h)
    ensures Inv(Step(h, e))
  {
    hide Step, LockOk, IssuedOk;
    StepKeepsLock(h, e);
    StepKeepsIssued(h, e);
  }

  lemma {:induction false} RunKeepsInv(h: Host, es: seq<Event>)
    requires Inv(h)
    ensures Inv(Run(h, es))
  {
    hide Inv, Step;
    if es != [] {
      RunKeepsInv(h, es[..|es| - 1]);
      StepKeepsInv(Run(h, es[..|es| - 1]), es[|es| - 1]);
    }
  }

  /** Once Stop has set the flag and a drain has returned, no run of reconcile, recovery or
      restart issues a command again, whatever was in flight. Between the flag and the drain at
      most one blocking call starts, everything issued belongs to one and the same call, and
      after the drain no call is running. */
  lemma {:induction false} DrainedMeansSilent(es: seq<Event>)
    ensures var h := Run(IDLE, es);
            && Inv(h) && h.startedAfterStop <= 1
            && (forall i :: 0 <= i < |h.issuedAfterStop| ==>
                  !h.issuedAfterStop[i].afterDrain && h.issuedAfterStop[i] == h.issuedAfterStop[0])
            && (|h.issuedAfterStop| > 1 ==> IssuesMany(h.issuedAfterStop[0].work))
            && (h.drained ==> forall t :: 0 <= t < |h.tasks| ==> !h.tasks[t].Busy? && !h.tasks[t].Cleared?)
  {
    RunKeepsInv(IDLE, es);
  }

  /** A drain is stable: nothing that happens later can undo it. */
  lemma {:induction false} DrainIsForever(h: Host, es: seq<Event>)
    requires h.drained
    ensures Run(h, es).drained
  {
    if es != [] {
      DrainIsForever(h, es[..|es| - 1]);
    }
  }

  /** The one late call is real: a recovery that read the flag just before Stop set it starts
      its rebuild after the flag, and only the drain keeps Stop waiting for it. */
  lemma OneCallMayStartLate(h: Host, t: nat)
    requires Inv(h) && t < |h.tasks| && h.tasks[t] == Cleared([ReinstallMappings]) && !h.stopping
    ensures var late := Step(Step(h, SetFlag), BeginCall(t));
            late.startedAfterStop == 1 && Mutates(late.tasks[t].todo[0]) && Step(late, DrainReturns) == late
  {
    var late := Step(Step(h, SetFlag), BeginCall(t));
    assert h.holder == Some(t) && late.holder == Some(t);
  }

  // ------------------------------------------- how many commands Stop may wait for

  /** The call that Stop finds past its flag check is a closure poll or a reinstall with at least two of
      its commands to go. */
  predicate CanIssueTwo(h: Host) {
    && h.holder.Some? && h.holder.value < |h.tasks|
    && var x := h.tasks[h.holder.value];
       && Open(x) && x.todo != []
       && IssuesMany(x.todo[0]) && (x.Busy? ==> x.issued + 2 <= Limit(x.todo[0]))
  }

  /** More than one command follows the flag in some run exactly when the call in flight is such a
      call: Stop then waits for a whole transaction or a whole poll, not for one bounded command. */
  lemma ManyCommandsIff(h: Host)
    requires Inv(h) && !h.stopping
    ensures (exists es: seq<Event> :: |Run(Step(h, SetFlag), es).issuedAfterStop| > 1) <==> CanIssueTwo(h)
  {
    hide Run;
    var s := Step(h, SetFlag);
    StepKeepsInv(h, SetFlag);
    if CanIssueTwo(h) {
      var es := TwoCommands(s);
      assert |Run(s, es).issuedAfterStop| > 1;
    } else {
      OneAtMost(h);
      forall es: seq<Event> ensures |Run(s, es).issuedAfterStop| <= 1 { NeverMoreThanOne(s, es); }
    }
  }

  ghost predicate AtMostOneMore(h: Host) {
    && h.stopping
    && (forall t :: 0 <= t < |h.tasks| && Open(h.tasks[t]) && h.tasks[t].todo != [] ==> LittleLeft(h, h.tasks[t]))
    && |h.issuedAfterStop| <= 1
  }

  /** The open call can issue nothing more, or exactly one command and has issued none since the flag. */
  ghost predicate LittleLeft(h: Host, x: Phase)
    requires Open(x) && x.todo != []
  {
    var issued := if x.Busy? then x.issued else 0;
    MayIssue(x.todo[0], issued) ==> !MayIssue(x.todo[0], issued + 1) && h.issuedAfterStop == []
  }

  lemma OneAtMost(h: Host)
    requires Inv(h) && !h.stopping && !CanIssueTwo(h)
    ensures AtMostOneMore(Step(h, SetFlag))
  {
    var s := Step(h, SetFlag);
    forall t | 0 <= t < |s.tasks| && Open(s.tasks[t]) && s.tasks[t].todo != [] ensures LittleLeft(s, s.tasks[t]) {
      assert Inside(h.tasks[t]) && h.holder == Some(t);
    }
  }

  lemma StepKeepsAtMostOne(h: Host, e: Event)
    requires Inv(h) && AtMostOneMore(h)
    ensures AtMostOneMore(Step(h, e))
  {
    var h' := Step(h, e);
    if OfTask(h, e) && Open(h.tasks[e.t]) {
      assert Open(h.tasks[e.t]) && h.tasks[e.t].todo != [] && LittleLeft(h, h.tasks[e.t]);
      assert Inside(h.tasks[e.t]) && h.holder == Some(e.t);
    }
    forall t | 0 <= t < |h'.tasks| && Open(h'.tasks[t]) && h'.tasks[t].todo != [] ensures LittleLeft(h', h'.tasks[t]) {
      if t < |h.tasks| { assert Inside(h.tasks[t]) <==> h.holder == Some(t); }
    }
  }

  lemma {:induction false} NeverMoreThanOne(h: Host, es: seq<Event>)
    requires Inv(h) && AtMostOneMore(h)
    ensures Inv(Run(h, es)) && AtMostOneMore(Run(h, es)) && |Run(h, es).issuedAfterStop| <= 1
  {
    hide Inv, Step;
    if es != [] {
      NeverMoreThanOne(h, es[..|es| - 1]);
      StepKeepsInv(Run(h, es[..|es| - 1]), es[|es| - 1]);
      StepKeepsAtMostOne(Run(h, es[..|es| - 1]), es[|es| - 1]);
    }
  }

  lemma TwoCommands(s: Host) returns (es: seq<Event>)
    requires s.stopping && CanIssueTwo(s)
    ensures |Run(s, es).issuedAfterStop| > 1
  {
    var t := s.holder.value;
    var x := s.tasks[t];
    if x.Busy? {
      es := [IssueCommand(t), IssueCommand(t)];
      RunTwo(s, es[0], es[1]);
    } else {
      es := [BeginCall(t), IssueCommand(t), IssueCommand(t)];
      RunTwo(s, es[0], es[1]);
      assert [BeginCall(t), IssueCommand(t)] + [IssueCommand(t)] == es;
      RunSnoc(s, [BeginCall(t), IssueCommand(t)], IssueCommand(t));
    }
  }

  lemma RunSnoc(h: Host, es: seq<Event>, e: Event)
    ensures Run(h, es + [e]) == Step(Run(h, es), e)
  {
    hide Step;
    assert (es + [e])[..|es|] == es;
  }

  lemma RunTwo(h: Host, a: Event, b: Event)
    ensures Run(h, [a, b]) == Step(Step(h, a), b)
  {
    hide Step;
    assert Run(h, []) == h;
    RunSnoc(h, [], a);
    RunSnoc(h, [a], b);
    assert [] + [a] == [a] && [a] + [b] == [a, b];
  }

  /** It happens: a recovery whose reinstall is running when Stop sets the flag. */
  lemma ReinstallOutlastsTheFlag() returns (before: seq<Event>, after: seq<Event>)
    ensures var h := Run(IDLE, before); Inv(h) && !h.stopping && CanIssueTwo(h)
    ensures |Run(Step(Run(IDLE, before), SetFlag), after).issuedAfterStop| > 1
  {
    hide Run, Inv;
    before := [Spawn, Enter(0, Recover)] + [Acquire(0)] + [ReadFlag(0)] + [BeginCall(0)];
    RunTwo(IDLE, Spawn, Enter(0, Recover));
    RunSnoc(IDLE, [Spawn, Enter(0, Recover)], Acquire(0));
    RunSnoc(IDLE, [Spawn, Enter(0, Recover)] + [Acquire(0)], ReadFlag(0));
    RunSnoc(IDLE, [Spawn, Enter(0, Recover)] + [Acquire(0)] + [ReadFlag(0)], BeginCall(0));
    var h := Run(IDLE, before);
    assert h == Host(false, false, Some(0), [Busy([ReinstallMappings], 1, 0)], 1, 0, [], []);
    assert Inv(IDLE) by { DrainedMeansSilent([]); EmptyRun(); }
    RunKeepsInv(IDLE, before);
    assert CanIssueTwo(h);
    ManyCommandsIff(h);
    after :| |Run(Step(h, SetFlag), after).issuedAfterStop| > 1;
  }

  lemma EmptyRun()
    ensures Run(IDLE, []) == IDLE
  {
  }

  // ------------------------------------------------------ what a run does when left alone

  /** One call from its flag check to its end, with one command. */
  function OneCallEvents(t: nat): seq<Event> { [ReadFlag(t), BeginCall(t), IssueCommand(t), EndCall(t, true)] }

  function CallEvents(t: nat, n: nat): seq<Event> { if n == 0 then [] else OneCallEvents(t) + CallEvents(t, n - 1) }

  lemma OneCallWorks(h: Host, t: nat, todo: seq<Work>)
    requires t < |h.tasks| && h.tasks[t] == Checking(todo) && todo != [] && !h.stopping
    ensures Run(h, OneCallEvents(t))
            == h.(tasks := h.tasks[t := Checking(todo[1..])], calls := h.calls + 1, log := h.log + [todo[0]])
  {
    hide Run;
    var es := OneCallEvents(t);
    RunTwo(h, es[0], es[1]);
    RunSnoc(h, [es[0], es[1]], es[2]);
    RunSnoc(h, [es[0], es[1]] + [es[2]], es[3]);
    assert [es[0], es[1]] + [es[2]] + [es[3]] == es;
  }

  lemma {:induction false} RunConcat(h: Host, a: seq<Event>, b: seq<Event>)
    ensures Run(h, a + b) == Run(Run(h, a), b)
  {
    hide Step;
    if b == [] {
      assert a + b == a;
    } else {
      assert (a + b)[..|a + b| - 1] == a + b[..|b| - 1];
      RunConcat(h, a, b[..|b| - 1]);
    }
  }

  lemma {:induction false} CallsWork(h: Host, t: nat, todo: seq<Work>)
    requires t < |h.tasks| && h.tasks[t] == Checking(todo) && !h.stopping
    ensures Run(h, CallEvents(t, |todo|))
            == h.(tasks := h.tasks[t := Checking([])], calls := h.calls + |todo|, log := h.log + todo)
    decreases |todo|
  {
    hide Run, OneCallEvents;
    if todo == [] {
      EmptyRunFrom(h);
      assert h.tasks[t := Checking([])] == h.tasks && h.log + [] == h.log;
    } else {
      OneCallWorks(h, t, todo);
      var next := Run(h, OneCallEvents(t));
      CallsWork(next, t, todo[1..]);
      RunConcat(h, OneCallEvents(t), CallEvents(t, |todo| - 1));
      assert h.log + [todo[0]] + todo[1..] == h.log + todo;
      assert next.tasks[t := Checking([])] == h.tasks[t := Checking([])];
    }
  }

  lemma EmptyRunFrom(h: Host)
    ensures Run(h, []) == h
  {
  }

  /** Left alone, a run takes the lock, makes all its calls in order and gives the lock back: a reconcile
      probes, adds every missing mapping and verifies; a recovery reinstalls; a restart reads the
      status, force-stops, checks that the VPN is closed, reinstalls and only then sends START. */
  lemma UndisturbedRunDoesItsWork(h: Host, t: nat, p: Procedure) returns (es: seq<Event>)
    requires t < |h.tasks| && h.tasks[t] == Outside && h.holder == None && !h.stopping
    ensures var work := match p
                        case Reconcile(missing) =>
                          if missing == 0 then [ProbeMappings]
                          else [ProbeMappings] + seq(missing, _ => AddMapping) + [VerifyMappings]
                        case SleepCheck => [ProbeMappings, AndroidStatus]
                        case Recover => [ReinstallMappings]
                        case Restart(retries) =>
                          [AndroidStatus, ForceStop, VerifyVpnClosed(retries), ReinstallMappings, StartIntent];
            Run(h, es) == h.(calls := h.calls + |work|, log := h.log + work)
  {
    hide Run, CallEvents;
    var todo := Script(p);
    RunTwo(h, Enter(t, p), Acquire(t));
    var h1 := Run(h, [Enter(t, p), Acquire(t)]);
    assert h1 == h.(holder := Some(t), tasks := h.tasks[t := Checking(todo)]);
    CallsWork(h1, t, todo);
    RunConcat(h, [Enter(t, p), Acquire(t)], CallEvents(t, |todo|));
    var middle := [Enter(t, p), Acquire(t)] + CallEvents(t, |todo|);
    RunSnoc(h, middle, ReadFlag(t));
    es := middle + [ReadFlag(t)];
    assert Run(h, es).tasks == h.tasks;
  }

  /** A drain returns exactly when the flag is set and nobody holds the lock. */
  lemma DrainReturnsIff(h: Host)
    ensures Step(h, DrainReturns) == if h.stopping && h.holder == None then h.(drained := true) else h
  {
  }

  /** How the run that holds the lock comes to give it up once the flag is set: the call it is in, or has
      been cleared for, ends one way or the other, and the next flag check sees the flag. */
  function LetGo(h: Host, ok: bool): seq<Event> {
    if h.holder == None || h.holder.value >= |h.tasks| then []
    else
      var t := h.holder.value;
      match h.tasks[t]
      case Cleared(_) => [BeginCall(t), EndCall(t, ok), ReadFlag(t)]
      case Busy(_, _, _) => [EndCall(t, ok), ReadFlag(t)]
      case _ => [ReadFlag(t)]
  }

  lemma HolderLetsGo(h: Host, ok: bool)
    requires Inv(h) && h.stopping
    ensures Run(h, LetGo(h, ok)).holder == None && Run(h, LetGo(h, ok)).stopping
  {
    hide Run, IssuedOk;
    EmptyRunFrom(h);
    if h.holder.Some? {
      var t := h.holder.value;
      assert Inside(h.tasks[t]);
      match h.tasks[t]
      case Checking(_) => RunSnoc(h, [], ReadFlag(t));
                          assert [] + [ReadFlag(t)] == LetGo(h, ok);
      case Busy(_, _, _) => RunTwo(h, EndCall(t, ok), ReadFlag(t));
      case Cleared(_) => RunTwo(h, BeginCall(t), EndCall(t, ok));
                         RunSnoc(h, [BeginCall(t), EndCall(t, ok)], ReadFlag(t));
                         assert [BeginCall(t), EndCall(t, ok)] + [ReadFlag(t)] == LetGo(h, ok);
    }
  }

  /** Stopping waits for one call at most: in every reachable host whose flag is set, the holder of the
      lock gives it up after the call it is in, however that call ends, and the drain returns. */
  lemma DrainCanReturn(es: seq<Event>, ok: bool)
    ensures var h := Run(IDLE, es);
            h.stopping ==> Run(h, LetGo(h, ok) + [DrainReturns]).drained
  {
    hide Run, LetGo;
    RunKeepsInv(IDLE, es);
    var h := Run(IDLE, es);
    if h.stopping {
      HolderLetsGo(h, ok);
      RunSnoc(h, LetGo(h, ok), DrainReturns);
    }
  }
}
