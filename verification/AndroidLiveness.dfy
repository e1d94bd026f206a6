/** Liveness supervision of a wedged headset service (runtime.rs): when a restart may happen
    and how far apart restarts must be. Times are milliseconds on one monotonic clock. */
module AndroidLiveness {
  import opened Base

  const GRACE: nat := 10_000
  const AWAKE_PROBE_INTERVAL: nat := 5_000
  const ASLEEP_PROBE_INTERVAL: nat := 15_000
  const INITIAL_BACKOFF: nat := 60_000
  const MAX_BACKOFF: nat := 300_000

  datatype Liveness = Liveness(
    silentSince: Option<nat>,
    awakeSince: Option<nat>,
    nextProbeAt: Option<nat>,
    nextRestartAt: Option<nat>,
    restarts: nat)

  const FRESH := Liveness(None, None, None, None, 0)

  function Pow2(n: nat): nat { if n == 0 then 1 else 2 * Pow2(n - 1) }

  /** The source's shift, capped at eight doublings, then at five minutes. */
  function Backoff(restarts: nat): nat {
    Min(INITIAL_BACKOFF * Pow2(Min(Monus(restarts, 1), 8)), MAX_BACKOFF)
  }

  function Ineligible(l: Liveness): Liveness { l.(silentSince := None, awakeSince := None, nextProbeAt := None) }

  function Silent(l: Liveness, now: nat): Liveness {
    if l.silentSince.Some? then l else l.(silentSince := Some(now))
  }

  predicate ProbeDue(l: Liveness, now: nat) { l.nextProbeAt.Some? ==> now >= l.nextProbeAt.value }

  function Observed(l: Liveness, awake: bool, now: nat): Liveness {
    if awake
    then l.(awakeSince := if l.awakeSince.Some? then l.awakeSince else Some(now),
            nextProbeAt := Some(now + AWAKE_PROBE_INTERVAL))
    else l.(awakeSince := None, nextProbeAt := Some(now + ASLEEP_PROBE_INTERVAL))
  }

  predicate Elapsed(since: Option<nat>, now: nat) { since.Some? && Monus(now, since.value) >= GRACE }

  predicate RestartDue(l: Liveness, now: nat) {
    Elapsed(l.silentSince, now) && Elapsed(l.awakeSince, now)
    && (l.nextRestartAt.Some? ==> now >= l.nextRestartAt.value)
  }

  function Restarted(l: Liveness, now: nat): Liveness {
    var restarts := Min(l.restarts + 1, U32_MAX);
    Liveness(Some(now), None, Some(now + AWAKE_PROBE_INTERVAL), Some(now + Backoff(restarts)), restarts)
  }

  /** One pass of `supervise_android` that is allowed to act: the clock is read when silence is
      noted, when the probe is considered, after it, and again once the operation lock is held. */
  datatype Pass =
    | SeenConnected
    | NotEligible
    | Supervise(noted: nat, checked: nat, awake: bool, probed: nat, locked: nat, stopping: bool)

  predicate Restarts(l: Liveness, p: Pass) {
    && p.Supervise?
    && ProbeDue(Silent(l, p.noted), p.checked)
    && RestartDue(Observed(Silent(l, p.noted), p.awake, p.probed), p.probed)
    && !p.stopping
  }

  /** Whether the pass ends in a probe that says asleep (or fails, which counts the same). */
  predicate ProbesAsleep(l: Liveness, p: Pass) {
    p.Supervise? && ProbeDue(Silent(l, p.noted), p.checked) && !p.awake
  }

  function Supervised(l: Liveness, p: Pass): Liveness {
    match p
    case SeenConnected => FRESH
    case NotEligible => Ineligible(l)
    case Supervise(noted, checked, awake, probed, locked, _) =>
      var l' := Silent(l, noted);
      if !ProbeDue(l', checked) then l'
      else
        var l'' := Observed(l', awake, probed);
        if Restarts(l, p) then Restarted(l'', locked) else l''
  }

  /** The clock never runs backwards, within a pass or between passes. */
  ghost predicate Monotone(ps: seq<Pass>, from: nat)
    decreases |ps|
  {
    ps == [] ||
    (if ps[0].Supervise?
     then from <= ps[0].noted <= ps[0].checked <= ps[0].probed <= ps[0].locked && Monotone(ps[1..], ps[0].locked)
     else Monotone(ps[1..], from))
  }

  ghost predicate NeverConnected(ps: seq<Pass>) { forall i :: 0 <= i < |ps| ==> !ps[i].SeenConnected? }

  /** The times at which a run restarts the headset service. */
  function RestartTimes(l: Liveness, ps: seq<Pass>): seq<nat>
    decreases |ps|
  {
    if ps == [] then []
    else (if Restarts(l, ps[0]) then [ps[0].locked] else []) + RestartTimes(Supervised(l, ps[0]), ps[1..])
  }

  // ------------------------------------------------------------------ backoff

  /** The capped shift is what it is meant to be: a minute doubled per restart, at most five. */
  function Gap(n: nat): nat
    requires n >= 1
  {
    Min(INITIAL_BACKOFF * Pow2(n - 1), MAX_BACKOFF)
  }

  lemma {:induction false} Pow2Grows(a: nat, b: nat)
    requires a <= b
    ensures 1 <= Pow2(a) <= Pow2(b)
  {
    if a < b {
      Pow2Grows(a, b - 1);
    } else if a > 0 {
      Pow2Grows(a - 1, a - 1);
    }
  }

  lemma BackoffIsGap(n: nat)
    requires n >= 1
    ensures Backoff(Min(n, U32_MAX)) == Gap(n)
  {
    if n > 9 {
      Pow2Grows(3, 8);
      Pow2Grows(8, n - 1);
      assert Pow2(3) == 8;
    }
  }

  // ------------------------------------------------------------- whole-run laws

  /** `l` remembers that `n` restarts happened, the last of them at `last`. */
  ghost predicate Remembers(l: Liveness, n: nat, last: nat) {
    && l.restarts == Min(n, U32_MAX)
    && (n > 0 ==> l.nextRestartAt == Some(last + Gap(n)))
  }

  function GapSum(first: nat, k: nat): nat
    requires first >= 1
    decreases k
  {
    if k == 0 then 0 else Gap(first) + GapSum(first + 1, k - 1)
  }

  lemma RestartRemembers(l: Liveness, p: Pass, n: nat, last: nat)
    requires Remembers(l, n, last) && Restarts(l, p) && p.noted <= p.checked <= p.probed <= p.locked
    ensures Remembers(Supervised(l, p), n + 1, p.locked)
    ensures Supervised(l, p).silentSince == Some(p.locked) && Supervised(l, p).awakeSince == None
    ensures Supervised(l, p).nextProbeAt == Some(p.locked + 5_000)
    ensures n > 0 ==> p.locked >= last + Gap(n)
  {
    BackoffIsGap(n + 1);
  }

  lemma OtherPassRemembers(l: Liveness, p: Pass, n: nat, last: nat)
    requires Remembers(l, n, last) && !Restarts(l, p) && !p.SeenConnected?
    ensures Remembers(Supervised(l, p), n, last)
  {
  }

  /** Consecutive times are apart by the gaps from number `n + 1` on. */
  ghost predicate Spaced(ts: seq<nat>, n: nat) {
    forall i :: 0 <= i < |ts| - 1 ==> ts[i + 1] >= ts[i] + Gap(n + i + 1)
  }

  /** In a run that never sees Connected, restart `i` and the next one are at least
      min(60 * 2^(i-1), 300) seconds apart, counting from the restarts already remembered. */
  lemma {:induction false} RestartsBackOff(l: Liveness, ps: seq<Pass>, from: nat, n: nat, last: nat)
    requires Monotone(ps, from) && NeverConnected(ps) && Remembers(l, n, last)
    ensures var ts := RestartTimes(l, ps);
            && (n > 0 && ts != [] ==> ts[0] >= last + Gap(n))
            && Spaced(ts, n)
    decreases |ps|
  {
    if ps != [] {
      var p, l' := ps[0], Supervised(l, ps[0]);
      var from' := if p.Supervise? then p.locked else from;
      if Restarts(l, p) {
        RestartRemembers(l, p, n, last);
        RestartsBackOff(l', ps[1..], from', n + 1, p.locked);
        var ts, rest := RestartTimes(l, ps), RestartTimes(l', ps[1..]);
        forall i | 0 <= i < |ts| - 1 ensures ts[i + 1] >= ts[i] + Gap(n + i + 1) {
          if i > 0 {
            assert ts[i] == rest[i - 1] && ts[i + 1] == rest[i - 1 + 1];
          }
        }
      } else {
        OtherPassRemembers(l, p, n, last);
        RestartsBackOff(l', ps[1..], from', n, last);
        assert RestartTimes(l, ps) == RestartTimes(l', ps[1..]);
      }
    }
  }

  /** So `k + 1` restarts from a fresh start span at least the sum of the first `k` gaps. */
  lemma RestartsSpanTheirGaps(ps: seq<Pass>, from: nat)
    requires Monotone(ps, from) && NeverConnected(ps)
    ensures var ts := RestartTimes(FRESH, ps); ts != [] ==> ts[|ts| - 1] >= ts[0] + GapSum(1, |ts| - 1)
  {
    RestartsBackOff(FRESH, ps, from, 0, 0);
    var ts := RestartTimes(FRESH, ps);
    if ts != [] {
      SpanFrom(ts, 0);
    }
  }

  lemma {:induction false} SpanFrom(ts: seq<nat>, i: nat)
    requires i < |ts| && Spaced(ts, 0)
    ensures ts[|ts| - 1] >= ts[i] + GapSum(i + 1, |ts| - 1 - i)
    decreases |ts| - i
  {
    if i < |ts| - 1 {
      SpanFrom(ts, i + 1);
      assert ts[i + 1] >= ts[i] + Gap(0 + i + 1);
    }
  }

  /** `awakeSince` never claims a wake from before the last asleep probe. */
  ghost predicate AwakeAfter(l: Liveness, asleepAt: nat) { l.awakeSince.Some? ==> l.awakeSince.value >= asleepAt }

  lemma {:induction false} AwakeStaysAfter(l: Liveness, ps: seq<Pass>, from: nat, asleepAt: nat)
    requires Monotone(ps, from) && asleepAt <= from && AwakeAfter(l, asleepAt)
    ensures forall i :: 0 <= i < |RestartTimes(l, ps)| ==> RestartTimes(l, ps)[i] >= asleepAt + GRACE
    decreases |ps|
  {
    if ps != [] {
      var from' := if ps[0].Supervise? then ps[0].locked else from;
      AwakeStaysAfter(Supervised(l, ps[0]), ps[1..], from', asleepAt);
    }
  }

  /** No restart follows an asleep probe by less than ten seconds, whatever happens between. */
  lemma NoRestartSoonAfterAsleep(l: Liveness, p: Pass, later: seq<Pass>)
    requires ProbesAsleep(l, p) && Monotone([p] + later, 0)
    ensures forall i :: 0 <= i < |RestartTimes(Supervised(l, p), later)| ==>
              RestartTimes(Supervised(l, p), later)[i] >= p.probed + GRACE
  {
    assert ([p] + later)[1..] == later;
    AwakeStaysAfter(Supervised(l, p), later, p.locked, p.probed);
  }

  /** Restarts do happen: two awake probes in silence, the second at least the grace after the first
      and not before the backoff, restart the service unless Stop intervenes. */
  lemma SilentAndAwakeRestarts(l: Liveness, p: Pass, q: Pass)
    requires p.Supervise? && q.Supervise? && p.awake && q.awake && !q.stopping
    requires Monotone([p, q], 0) && l.silentSince == None && l.awakeSince == None && l.nextProbeAt == None
    requires q.probed >= p.probed + GRACE && q.checked >= p.probed + AWAKE_PROBE_INTERVAL
    ensures (l.nextRestartAt.Some? ==> q.probed >= l.nextRestartAt.value) <==> q.locked in RestartTimes(Supervised(l, p), [q])
  {
    assert [p, q][1..] == [q] && [q][1..] == [];
    var l' := Supervised(l, p);
    assert RestartTimes(l', [q]) == if Restarts(l', q) then [q.locked] else [];
  }

  /** `silentSince` never claims a silence from before the last interruption. */
  ghost predicate SilentAfter(l: Liveness, heardAt: nat) { l.silentSince.Some? ==> l.silentSince.value >= heardAt }

  /** Silence counts from the last interruption: after the lifecycle was seen connected, or was somebody
      else's to mend, no restart comes before the grace has passed. */
  lemma {:induction false} InterruptionRestartsTheGrace(l: Liveness, ps: seq<Pass>, from: nat)
    requires Monotone(ps, from) && SilentAfter(l, from)
    ensures forall i :: 0 <= i < |RestartTimes(l, ps)| ==> RestartTimes(l, ps)[i] >= from + GRACE
    decreases |ps|
  {
    SilenceStaysAfter(l, ps, from, from);
  }

  lemma {:induction false} SilenceStaysAfter(l: Liveness, ps: seq<Pass>, from: nat, heardAt: nat)
    requires Monotone(ps, from) && heardAt <= from && SilentAfter(l, heardAt)
    ensures forall i :: 0 <= i < |RestartTimes(l, ps)| ==> RestartTimes(l, ps)[i] >= heardAt + GRACE
    decreases |ps|
  {
    if ps != [] {
      var from' := if ps[0].Supervise? then ps[0].locked else from;
      SilenceStaysAfter(Supervised(l, ps[0]), ps[1..], from', heardAt);
    }
  }

  lemma InterruptionsForgetSilence(l: Liveness, p: Pass, from: nat)
    requires p.SeenConnected? || p.NotEligible?
    ensures SilentAfter(Supervised(l, p), from)
  {
  }

  /** A connection forgets the backoff: two awake probes a grace apart restart again, however often the
      service was restarted before it. An ineligible pass does not: the backoff still has to pass. */
  lemma ConnectionForgetsTheBackoff(l: Liveness, seen: Pass, p: Pass, q: Pass)
    requires p.Supervise? && q.Supervise? && p.awake && q.awake && !q.stopping && Monotone([p, q], 0)
    requires q.probed >= p.probed + GRACE && q.checked >= p.probed + AWAKE_PROBE_INTERVAL
    ensures seen.SeenConnected? ==> q.locked in RestartTimes(Supervised(Supervised(l, seen), p), [q])
    ensures seen.NotEligible? ==>
              (q.locked in RestartTimes(Supervised(Supervised(l, seen), p), [q])
               <==> (l.nextRestartAt.Some? ==> q.probed >= l.nextRestartAt.value))
  {
    hide RestartTimes;
    if seen.SeenConnected? || seen.NotEligible? { SilentAndAwakeRestarts(Supervised(l, seen), p, q); }
  }

  predicate Probes(l: Liveness, p: Pass) { p.Supervise? && ProbeDue(Silent(l, p.noted), p.checked) }

  /** After a probe the next pass probes again exactly when five seconds have passed, fifteen if the
      headset was asleep, counted from the restart if there was one; a pass that does not probe does not
      move that time. */
  lemma ProbesAreSpaced(l: Liveness, p: Pass, q: Pass)
    requires p.Supervise? && q.Supervise?
    ensures Probes(l, p) ==>
              (Probes(Supervised(l, p), q) <==>
                 q.checked >= if Restarts(l, p) then p.locked + 5_000 else p.probed + if p.awake then 5_000 else 15_000)
    ensures !Probes(l, p) ==> (Probes(Supervised(l, p), q) <==> Probes(l, q)) && !Restarts(l, p)
  {
  }
}
