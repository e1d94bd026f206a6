/** The ADB start transaction (adb.rs) against an arbitrary executor: `script(i)` is whatever the
    i-th command happens to return, already classified, so every behaviour is covered. */
module AdbStart {
  import opened Base

  datatype Mapping = Mapping(remote: nat, local: nat)

  const SOCKS := Mapping(31_416, 31_416)
  const CONTROL := Mapping(31_417, 31_417)
  const UDP_STREAM := Mapping(31_418, 31_418)

  /** Control is installed last, so a wake proves both data lanes came back first. */
  const MAPPINGS := [SOCKS, UDP_STREAM, CONTROL]

  datatype Command =
    | GetState | RecoverServer | Wake | StopIntent | DumpService | ForceStop
    | Add(m: Mapping) | Remove(m: Mapping) | List | StartIntent

  /** A command's outcome as the parsers classify it. */
  datatype Reply =
    | Success(deviceReady: bool, vpnClosed: bool, listed: set<Mapping>)
    | Exit(alreadyAbsent: bool)
    | Timeout

  datatype Entry = Entry(cmd: Command, reply: Reply)

  type Trace = seq<Entry>
  type Script = nat -> Reply

  datatype Phase =
    | DeviceCheck | DeviceWake | StartForceQuiesce | ReverseSetup | ReverseVerify | AndroidStart

  function Do(script: Script, t: Trace, c: Command): Trace { t + [Entry(c, script(|t|))] }

  /** From `from` on, the trace records what the executor answered. */
  ghost predicate Recorded(script: Script, t: Trace, from: nat) { forall i :: from <= i < |t| ==> t[i].reply == script(i) }

  lemma DoRecords(script: Script, t: Trace, from: nat, c: Command)
    requires Recorded(script, t, from)
    ensures Recorded(script, Do(script, t, c), from)
  {
  }

  lemma RecordedTrans(script: Script, from: nat, b: Trace, c: Trace)
    requires Recorded(script, b, from) && Recorded(script, c, |b|) && b <= c
    ensures Recorded(script, c, from)
  {
  }

  lemma NothingToRecord(script: Script, t: Trace)
    ensures Recorded(script, t, |t|)
  {
  }

  function Last(t: Trace): Reply
    requires t != []
  {
    t[|t| - 1].reply
  }

  predicate OwnsMapping(listed: set<Mapping>) {
    exists m :: m in listed && (m.remote == SOCKS.remote || m.remote == UDP_STREAM.remote || m.remote == CONTROL.remote)
  }

  predicate Healthy(r: Reply) { r.Success? && SOCKS in r.listed && UDP_STREAM in r.listed && CONTROL in r.listed }

  predicate Clean(r: Reply) { r.Success? && !OwnsMapping(r.listed) }

  /** A listing is clean when no product port is mapped, whoever it points to, and healthy when all three
      product ports are mapped to themselves. */
  lemma ListingMeans(r: Reply)
    ensures Clean(r) <==> r.Success? && forall m :: m in r.listed ==> m.remote != 31_416 && m.remote != 31_417 && m.remote != 31_418
    ensures Healthy(r) <==> r.Success? && forall p :: p in {31_416, 31_417, 31_418} ==> Mapping(p, p) in r.listed
  {
    if r.Success? && forall p :: p in {31_416, 31_417, 31_418} ==> Mapping(p, p) in r.listed {
      assert 31_416 in {31_416, 31_417, 31_418} && 31_417 in {31_416, 31_417, 31_418} && 31_418 in {31_416, 31_417, 31_418};
    }
  }

  /** SOCKS first, then the UDP stream, and control last. */
  lemma InstallOrder()
    ensures MAPPINGS == [Mapping(31_416, 31_416), Mapping(31_418, 31_418), Mapping(31_417, 31_417)]
  {
  }

  /** The trace ends with an attempt to remove every product mapping and the listing after it. */
  predicate EndsWithRemoval(t: Trace) {
    && |t| >= 4
    && t[|t| - 4].cmd == Remove(SOCKS) && t[|t| - 3].cmd == Remove(UDP_STREAM)
    && t[|t| - 2].cmd == Remove(CONTROL) && t[|t| - 1].cmd == List
  }

  /** The trace ends with a probe accepted as VPN-closed, a removal and a listing without any
      product mapping. */
  predicate EndsQuiesced(t: Trace) {
    && |t| >= 5 && EndsWithRemoval(t) && Clean(Last(t))
    && t[|t| - 5].cmd == DumpService && t[|t| - 5].reply.Success? && t[|t| - 5].reply.vpnClosed
  }

  /** The removal the trace ends with went well: each mapping was removed or already absent. */
  predicate Removed(t: Trace) {
    |t| >= 4 && RemovalFine(t[|t| - 4].reply) && RemovalFine(t[|t| - 3].reply) && RemovalFine(t[|t| - 2].reply)
  }

  predicate RemovalFine(r: Reply) { r.Success? || (r.Exit? && r.alreadyAbsent) }

  predicate Quiesced(t: Trace) { EndsQuiesced(t) && Removed(t) }

  /** Nothing in the trace starts Android or adds a mapping. */
  predicate Preparatory(t: Trace) { forall e :: e in t ==> !e.cmd.StartIntent? && !e.cmd.Add? }

  /** The trace ends with everything a START needs, back to back: the accepted probe, the clean
      removal, the three adds in order, and a listing with all three. */
  predicate Ready(t: Trace) {
    var n := |t|;
    && n >= 9 && EndsQuiesced(t[..n - 4])
    && t[n - 4].cmd == Add(SOCKS) && t[n - 4].reply.Success?
    && t[n - 3].cmd == Add(UDP_STREAM) && t[n - 3].reply.Success?
    && t[n - 2].cmd == Add(CONTROL) && t[n - 2].reply.Success?
    && t[n - 1].cmd == List && Healthy(t[n - 1].reply)
  }

  predicate GuardedStart(t: Trace, i: nat) { i < |t| && Ready(t[..i]) }

  /** `more` extends `t` by preparatory commands only. */
  predicate Extends(t: Trace, more: Trace) { t <= more && Preparatory(more[|t|..]) }

  lemma ExtendsTrans(a: Trace, b: Trace, c: Trace)
    requires Extends(a, b) && Extends(b, c)
    ensures Extends(a, c)
  {
    assert c[|a|..] == b[|a|..] + c[|b|..];
  }

  /** Asks once, and once more after a timeout if the server could be recovered. */
  method RequireDevice(script: Script, t: Trace) returns (t': Trace, ok: bool)
    ensures Recorded(script, t', |t|)
    ensures Extends(t, t') && |t| < |t'| <= |t| + 3 && t'[|t|].cmd == GetState
    ensures ok <==> t'[|t'| - 1].cmd == GetState && Last(t').Success? && Last(t').deviceReady
    ensures |t'| > |t| + 1 ==> t'[|t|].reply.Timeout? && t'[|t| + 1].cmd == RecoverServer
    ensures |t'| == |t| + 1 ==> !t'[|t|].reply.Timeout?
    ensures |t'| == |t| + 2 ==> !Last(t').Success?
    ensures |t'| == |t| + 3 ==> t'[|t| + 1].reply.Success? && t'[|t| + 2].cmd == GetState
    ensures forall i :: |t| <= i < |t'| ==> !t'[i].cmd.Wake?
  {
    t' := Do(script, t, GetState);
    if Last(t').Timeout? {
      t' := Do(script, t', RecoverServer);
      if !Last(t').Success? { return t', false; }
      t' := Do(script, t', GetState);
    }
    ok := Last(t').Success? && Last(t').deviceReady;
  }

  /** Polls until the descriptor is seen closed, the probe fails, or `polls` retries have passed. */
  method VerifyVpnClosed(script: Script, t: Trace, polls: nat) returns (t': Trace, ok: bool)
    ensures Recorded(script, t', |t|)
    ensures Extends(t, t') && |t| < |t'| <= |t| + polls + 1
    ensures forall i :: |t| <= i < |t'| ==> t'[i].cmd == DumpService
    ensures forall i :: |t| <= i < |t'| - 1 ==> t'[i].reply.Success? && !t'[i].reply.vpnClosed
    ensures ok <==> Last(t').Success? && Last(t').vpnClosed
    ensures !ok && Last(t').Success? ==> |t'| == |t| + polls + 1
  {
    t' := Do(script, t, DumpService);
    var left := polls;
    while Last(t').Success? && !Last(t').vpnClosed && left > 0
      invariant Recorded(script, t', |t|) && Extends(t, t') && |t| < |t'| && |t'| + left == |t| + polls + 1
      invariant forall i :: |t| <= i < |t'| ==> t'[i].cmd == DumpService
      invariant forall i :: |t| <= i < |t'| - 1 ==> t'[i].reply.Success? && !t'[i].reply.vpnClosed
      decreases left
    {
      t', left := Do(script, t', DumpService), left - 1;
    }
    ok := Last(t').Success? && Last(t').vpnClosed;
  }

  /** Every product mapping gets a removal attempt, whatever the earlier ones returned. */
  method RemoveAllMappings(script: Script, t: Trace) returns (t': Trace, ok: bool)
    ensures Recorded(script, t', |t|)
    ensures |t'| == |t| + 4 && Extends(t, t') && EndsWithRemoval(t')
    ensures ok <==> Clean(Last(t')) && Removed(t')
  {
    hide Recorded;
    NothingToRecord(script, t);
    t', ok := t, true;
    for i := 0 to 3
      invariant |t'| == |t| + i && t <= t' && Recorded(script, t', |t|)
      invariant forall k :: |t| <= k < |t'| ==> t'[k].cmd == Remove(MAPPINGS[k - |t|])
      invariant ok <==> forall k :: |t| <= k < |t'| ==> RemovalFine(t'[k].reply)
    {
      ghost var before := t';
      DoRecords(script, t', |t|, Remove(MAPPINGS[i]));
      t' := Do(script, t', Remove(MAPPINGS[i]));
      assert forall k :: |t| <= k < |before| ==> t'[k] == before[k];
      ok := ok && RemovalFine(Last(t'));
    }
    DoRecords(script, t', |t|, List);
    t' := Do(script, t', List);
    ok := ok && Clean(Last(t'));
  }

  /** Both stop forms: a request whose own failure only matters if the VPN is not seen closed
      (graceful), or always matters (forced). */
  method StopSession(script: Script, t: Trace, polls: nat, forced: bool) returns (t': Trace, ok: bool)
    ensures Recorded(script, t', |t|)
    ensures Extends(t, t') && EndsWithRemoval(t') && |t| + 6 <= |t'|
    ensures t'[|t|].cmd == if forced then ForceStop else StopIntent
    ensures forall i :: |t| < i < |t'| ==> !t'[i].cmd.ForceStop? && !t'[i].cmd.StopIntent?
    ensures ok <==> Quiesced(t') && (forced ==> t'[|t|].reply.Success?)
  {
    hide Recorded;
    NothingToRecord(script, t);
    DoRecords(script, t, |t|, if forced then ForceStop else StopIntent);
    t' := Do(script, t, if forced then ForceStop else StopIntent);
    var requested := Last(t').Success?;
    ghost var t1 := t';
    var closed;
    t', closed := VerifyVpnClosed(script, t', polls);
    ghost var t2 := t';
    ExtendsTrans(t, t1, t2);
    RecordedTrans(script, |t|, t1, t2);
    var removed;
    t', removed := RemoveAllMappings(script, t');
    ExtendsTrans(t, t2, t');
    RecordedTrans(script, |t|, t2, t');
    assert t'[|t2| - 1] == t2[|t2| - 1] && t'[|t|] == t1[|t|];
    ok := closed && removed && (!forced || requested);
  }

  /** Graceful first; the process is killed only when that stop could not be verified. */
  method Quiesce(script: Script, t: Trace, polls: nat) returns (t': Trace, ok: bool)
    ensures Recorded(script, t', |t|)
    ensures Extends(t, t') && EndsWithRemoval(t') && |t| < |t'| && t'[|t|].cmd == StopIntent
    ensures ok <==> Quiesced(t') && forall i :: |t| <= i < |t'| && t'[i].cmd.ForceStop? ==> t'[i].reply.Success?
    ensures forall i :: |t| <= i < |t'| && t'[i].cmd.ForceStop? ==> !Quiesced(t'[..i])
    ensures !ok ==> ForcedInVain(t')
  {
    hide Recorded;
    t', ok := StopSession(script, t, polls, false);
    if !ok {
      ghost var t1 := t';
      t', ok := StopSession(script, t', polls, true);
      ExtendsTrans(t, t1, t');
      RecordedTrans(script, |t|, t1, t');
      assert t'[..|t1|] == t1;
      assert forall i :: |t| <= i < |t1| ==> t'[i] == t1[i];
    }
  }

  /** Adds the mappings in order and stops at the first failure. */
  method AddMappings(script: Script, t: Trace) returns (t': Trace, ok: bool)
    ensures Recorded(script, t', |t|)
    ensures t <= t' && |t'| <= |t| + 3
    ensures forall k :: |t| <= k < |t'| ==> t'[k].cmd == Add(MAPPINGS[k - |t|])
    ensures forall k :: |t| <= k < |t'| - 1 ==> t'[k].reply.Success?
    ensures ok ==> |t'| == |t| + 3 && Last(t').Success?
    ensures !ok ==> |t| < |t'| && !Last(t').Success?
  {
    t', ok := t, true;
    for i := 0 to 3
      invariant ok && |t'| == |t| + i && t <= t' && Recorded(script, t', |t|)
      invariant forall k :: |t| <= k < |t'| ==> t'[k].cmd == Add(MAPPINGS[k - |t|]) && t'[k].reply.Success?
    {
      t' := Do(script, t', Add(MAPPINGS[i]));
      if !Last(t').Success? { return t', false; }
    }
  }

  ghost predicate NoStart(t: Trace) { forall i :: 0 <= i < |t| ==> !t[i].cmd.StartIntent? }

  ghost predicate NoAdd(t: Trace) { forall i :: 0 <= i < |t| ==> !t[i].cmd.Add? }

  /** A ready device was seen and then woken. */
  ghost predicate Woken(t: Trace) {
    exists i :: 0 <= i < |t| - 1 && t[i].cmd == GetState && t[i].reply.Success? && t[i].reply.deviceReady
                && t[i + 1].cmd == Wake && t[i + 1].reply.Success?
  }

  ghost predicate Asked(t: Trace, c: Command) { exists i :: 0 <= i < |t| && t[i].cmd == c }

  /** The graceful stop was not verified, and neither was the forced one after it. */
  ghost predicate ForcedInVain(t: Trace) {
    exists i :: 0 <= i < |t| && t[i].cmd.ForceStop? && !Quiesced(t[..i]) && !(t[i].reply.Success? && Quiesced(t))
  }

  lemma WokenStays(t: Trace, t': Trace)
    requires Woken(t) && t <= t'
    ensures Woken(t')
  {
    var i :| 0 <= i < |t| - 1 && t[i].cmd == GetState && t[i].reply.Success? && t[i].reply.deviceReady
             && t[i + 1].cmd == Wake && t[i + 1].reply.Success?;
    assert t'[i] == t[i] && t'[i + 1] == t[i + 1];
  }

  /** Device check, wake and quiescing: each failure phase names the step that failed. */
  method Prepare(script: Script, polls: nat) returns (t: Trace, failed: Option<Phase>)
    ensures Recorded(script, t, 0)
    ensures Preparatory(t) && t != []
    ensures failed.Some? ==> failed.value in {DeviceCheck, DeviceWake, StartForceQuiesce}
    ensures failed == Some(DeviceCheck) ==> !(Last(t).Success? && Last(t).deviceReady) && !Asked(t, Wake)
    ensures failed == Some(DeviceWake) ==> t[|t| - 1].cmd == Wake && !Last(t).Success?
    ensures failed == Some(StartForceQuiesce) ==> Woken(t) && EndsWithRemoval(t) && ForcedInVain(t)
    ensures failed == None ==> Woken(t) && Quiesced(t)
  {
    hide EndsWithRemoval, Quiesced, Recorded, ForcedInVain;
    var ok;
    t, ok := RequireDevice(script, []);
    assert t[0..] == t;
    if !ok { return t, Some(DeviceCheck); }
    ghost var n := |t|;
    DoRecords(script, t, 0, Wake);
    t := Do(script, t, Wake);
    if !Last(t).Success? { return t, Some(DeviceWake); }
    assert Woken(t) by { assert t[n - 1].cmd == GetState && t[n - 1 + 1].cmd == Wake; }
    ghost var t1 := t;
    t, ok := Quiesce(script, t, polls);
    WokenStays(t1, t);
    PreparatoryAfter(t1, t);
    RecordedTrans(script, 0, t1, t);
    failed := if ok then None else Some(StartForceQuiesce);
  }

  lemma PreparatoryAfter(t: Trace, t': Trace)
    requires Preparatory(t) && Extends(t, t')
    ensures Preparatory(t')
  {
    assert t' == t + t'[|t|..];
  }

  lemma PreparatoryNoStart(t: Trace)
    requires Preparatory(t)
    ensures NoStart(t) && NoAdd(t)
  {
    forall i | 0 <= i < |t| ensures !t[i].cmd.StartIntent? && !t[i].cmd.Add? { assert t[i] in t; }
  }

  /** Installs and verifies the mappings, or withdraws whatever was installed. */
  method Install(script: Script, t: Trace) returns (t': Trace, failed: Option<Phase>)
    requires Quiesced(t) && NoStart(t) && NoAdd(t)
    ensures Recorded(script, t', |t|)
    ensures t <= t' && NoStart(t')
    ensures failed == None ==> Ready(t')
    ensures failed.Some? ==> failed.value in {ReverseSetup, ReverseVerify} && EndsWithRemoval(t')
    ensures failed == Some(ReverseSetup) ==> AddFailed(t')
    ensures failed == Some(ReverseVerify) ==> VerifyFailed(t', |t|)
  {
    hide EndsWithRemoval, Removed, Healthy, Recorded;
    var ok;
    t', ok := AddMappings(script, t);
    assert NoStart(t');
    ghost var t1 := t';
    if !ok {
      assert AddFailed(t1);
      t' := Withdraw(script, t');
      AddFailedStays(t1, t');
      RecordedTrans(script, |t|, t1, t');
      return t', Some(ReverseSetup);
    }
    DoRecords(script, t', |t|, List);
    t' := Do(script, t', List);
    if !Healthy(Last(t')) {
      ghost var t2 := t';
      assert VerifyFailed(t2, |t|);
      t' := Withdraw(script, t');
      RecordedTrans(script, |t|, t2, t');
      assert t'[|t| + 3] == t2[|t| + 3] && forall k :: |t| <= k < |t| + 3 ==> t'[k] == t2[k];
      return t', Some(ReverseVerify);
    }
    assert t'[..|t'| - 4] == t;
    assert forall k :: |t| <= k < |t| + 3 ==> t'[k] == t1[k];
    assert t1[|t| + 0].cmd == Add(MAPPINGS[0]) && t1[|t| + 1].cmd == Add(MAPPINGS[1]) && t1[|t| + 2].cmd == Add(MAPPINGS[2]);
    failed := None;
  }

  /** Some add was refused. */
  ghost predicate AddFailed(t: Trace) { exists i :: 0 <= i < |t| && t[i].cmd.Add? && !t[i].reply.Success? }

  lemma AddFailedStays(t: Trace, t': Trace)
    requires AddFailed(t) && t <= t'
    ensures AddFailed(t')
  {
    var i :| 0 <= i < |t| && t[i].cmd.Add? && !t[i].reply.Success?;
    assert t'[i] == t[i];
  }

  /** All three adds at `at` were accepted, but the listing after them was not healthy. */
  ghost predicate VerifyFailed(t: Trace, at: nat) {
    && at + 4 <= |t|
    && (forall k :: at <= k < at + 3 ==> t[k].cmd.Add? && t[k].reply.Success?)
    && t[at + 3].cmd == List && !Healthy(t[at + 3].reply)
  }

  /** Why the transaction ended where it did. */
  ghost predicate Explains(t: Trace, failed: Option<Phase>) {
    match failed
    case None => t != [] && t[|t| - 1].cmd.StartIntent? && Last(t).Success?
    case Some(DeviceCheck) => Preparatory(t) && t != [] && !(Last(t).Success? && Last(t).deviceReady) && !Asked(t, Wake)
    case Some(DeviceWake) => Preparatory(t) && t != [] && t[|t| - 1].cmd == Wake && !Last(t).Success?
    case Some(StartForceQuiesce) => Preparatory(t) && ForcedInVain(t)
    case Some(ReverseSetup) => NoStart(t) && AddFailed(t)
    case Some(ReverseVerify) => NoStart(t) && exists at: nat :: VerifyFailed(t, at)
    case Some(AndroidStart) => exists i :: 0 <= i < |t| && t[i].cmd.StartIntent? && !t[i].reply.Success?
  }

  /** For every executor: START is issued at most once, and only as a guarded start on a woken
      device; a failure after the device checks has just attempted to remove all three mappings;
      the outcome names the step that ended the transaction. */
  method Start(script: Script, polls: nat) returns (t: Trace, failed: Option<Phase>)
    ensures Recorded(script, t, 0)
    ensures forall i :: 0 <= i < |t| && t[i].cmd.StartIntent? ==> GuardedStart(t, i)
    ensures forall i, j :: 0 <= i < j < |t| && t[i].cmd.StartIntent? ==> !t[j].cmd.StartIntent?
    ensures failed == Some(DeviceCheck) || failed == Some(DeviceWake) || Woken(t)
    ensures failed.Some? && failed.value !in {DeviceCheck, DeviceWake} ==> EndsWithRemoval(t)
    ensures Explains(t, failed)
  {
    hide Ready, EndsWithRemoval, EndsQuiesced, Quiesced, Preparatory, Woken, AddFailed, VerifyFailed, Asked, Recorded, ForcedInVain;
    t, failed := Prepare(script, polls);
    PreparatoryNoStart(t);
    if failed.Some? { return; }
    ghost var prepared := t;
    t, failed := Install(script, t);
    WokenStays(prepared, t);
    RecordedTrans(script, 0, prepared, t);
    if failed.Some? { return; }
    ghost var ready := t;
    t, failed := Launch(script, t, polls);
    WokenStays(ready, t);
    RecordedTrans(script, 0, ready, t);
  }

  /** Issues START on a ready trace and rolls a refused one back. */
  method Launch(script: Script, t: Trace, polls: nat) returns (t': Trace, failed: Option<Phase>)
    requires Ready(t) && NoStart(t)
    ensures Recorded(script, t', |t|)
    ensures t <= t' && GuardedStart(t', |t|) && t'[|t|].cmd.StartIntent?
    ensures forall i :: 0 <= i < |t'| && t'[i].cmd.StartIntent? ==> i == |t|
    ensures if t'[|t|].reply.Success? then failed == None && |t'| == |t| + 1
            else failed == Some(AndroidStart) && EndsWithRemoval(t')
  {
    hide Ready, EndsWithRemoval, Recorded;
    NothingToRecord(script, t);
    DoRecords(script, t, |t|, StartIntent);
    t', failed := Do(script, t, StartIntent), None;
    assert t'[..|t|] == t;
    if !Last(t').Success? {
      ghost var refused := t';
      t' := RollBackStart(script, t', |t|, polls);
      RecordedTrans(script, |t|, refused, t');
      assert t'[|t|] == refused[|t|];
      failed := Some(AndroidStart);
    }
  }

  lemma NoStartAfter(t: Trace, t': Trace)
    requires NoStart(t) && Extends(t, t')
    ensures NoStart(t')
  {
    forall i | 0 <= i < |t'| ensures !t'[i].cmd.StartIntent? {
      if i >= |t| { assert t'[i] == t'[|t|..][i - |t|]; }
    }
  }

  method Withdraw(script: Script, t: Trace) returns (t': Trace)
    requires NoStart(t)
    ensures Recorded(script, t', |t|)
    ensures t <= t' && EndsWithRemoval(t') && NoStart(t')
  {
    var removed;
    t', removed := RemoveAllMappings(script, t);
    NoStartAfter(t, t');
  }

  /** A refused START is followed by a stop request, a closure check and the removals. */
  method RollBackStart(script: Script, t: Trace, ghost at: nat, polls: nat) returns (t': Trace)
    requires at == |t| - 1 && NoStart(t[..at]) && GuardedStart(t, at) && t[at].cmd.StartIntent? && !t[at].reply.Success?
    ensures Recorded(script, t', |t|)
    ensures EndsWithRemoval(t') && t <= t' && GuardedStart(t', at)
    ensures at + 6 < |t'| && t'[at + 1].cmd == StopIntent && t'[at + 2].cmd == DumpService
    ensures forall i :: 0 <= i < |t'| && t'[i].cmd.StartIntent? ==> i == at
  {
    hide Recorded, Ready;
    NothingToRecord(script, t);
    DoRecords(script, t, |t|, StopIntent);
    t' := Do(script, t, StopIntent);
    ghost var t1 := t';
    var ignored;
    t', ignored := VerifyVpnClosed(script, t', polls);
    ExtendsTrans(t, t1, t');
    RecordedTrans(script, |t|, t1, t');
    ghost var t2 := t';
    t', ignored := RemoveAllMappings(script, t');
    ExtendsTrans(t, t2, t');
    RecordedTrans(script, |t|, t2, t');
    forall i | 0 <= i < |t'| && i != at ensures !t'[i].cmd.StartIntent? {
      if i < at { assert t'[i] == t[..at][i]; } else { assert t'[i] == t'[|t|..][i - |t|]; }
    }
    assert t'[..at] == t[..at];
  }
}
