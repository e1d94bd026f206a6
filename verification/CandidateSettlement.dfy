/** Settling duplicate Streamer connections (socks.rs): several client sockets share one
    upstream through a bounded replay buffer until exactly one of them is kept.

    The environment is a list of rounds, one per turn of the loop: how many sockets joined, what
    the clock says, which readiness event the poll returned and how the socket call went. A
    readiness event the poll could not have returned does nothing. */
module CandidateSettlement {
  import opened Base

  const JOIN_WINDOW: nat := 500
  const DECISION_TIMEOUT: nat := 250
  const UNRESOLVED_LIMIT: nat := 10_000
  const REPLAY_LIMIT: nat := 64 * 1024
  const BUFFER: nat := 16 * 1024

  datatype Candidate = Candidate(arrival: nat, delivered: nat)

  /** A socket call: `Moved(n)` offers to move n bytes; a read that moves none means closed. */
  datatype Io = Moved(n: nat) | WouldBlock | Broken

  datatype Event = Joined | Deadline | Upstream(io: Io) | Readable(index: nat, io: Io) | Writable(index: nat, io: Io)

  datatype Round = Round(joins: nat, now: nat, event: Event)

  datatype Outcome = AllClosed | Single | SoleSurvivor | TimedOut | ClientData

  datatype Chosen = Chosen(arrival: nat, prefix: seq<byte>, delivered: nat, suffix: seq<byte>)

  datatype Settlement = Settlement(arrivals: nat, outcome: Outcome, chosen: Option<Chosen>)

  /** The loop's variables, with what each client socket has been sent so far: `wire[a]` for
      the a-th arrival. */
  datatype Pool = Pool(
    candidates: seq<Candidate>,
    arrivals: nat,
    replay: seq<byte>,
    upstreamClosed: bool,
    wire: seq<seq<byte>>)

  const FIRST := Pool([Candidate(0, 0)], 1, [], false, [[]])

  /** Every client, kept or dropped, has been sent a prefix of the replay, every open candidate
      knows how long that prefix is, and the replay is a bounded prefix of the Streamer's bytes. */
  ghost predicate PoolOk(p: Pool, stream: seq<byte>) {
    && |p.wire| == p.arrivals
    && p.replay <= stream && |p.replay| <= REPLAY_LIMIT
    && (forall a :: 0 <= a < |p.wire| ==> p.wire[a] <= p.replay)
    && (forall i :: 0 <= i < |p.candidates| ==>
          p.candidates[i].arrival < p.arrivals && p.candidates[i].delivered == |p.wire[p.candidates[i].arrival]|)
    && (forall i, j :: 0 <= i < j < |p.candidates| ==> p.candidates[i].arrival < p.candidates[j].arrival)
  }

  function Join(p: Pool, k: nat): Pool {
    p.(candidates := p.candidates + seq(k, i requires 0 <= i => Candidate(p.arrivals + i, 0)),
       arrivals := p.arrivals + k,
       wire := p.wire + seq(k, _ => []))
  }

  lemma JoinKeepsPool(p: Pool, k: nat, stream: seq<byte>)
    requires PoolOk(p, stream)
    ensures PoolOk(Join(p, k), stream)
  {
  }

  predicate ReadsUpstream(p: Pool) { !p.upstreamClosed && |p.replay| < REPLAY_LIMIT }

  function OnUpstream(p: Pool, stream: seq<byte>, io: Io): Pool
    requires p.replay <= stream
  {
    if !ReadsUpstream(p) || io.WouldBlock? then p
    else if io.Broken? then p.(upstreamClosed := true)
    else
      var room := Min(REPLAY_LIMIT - |p.replay|, BUFFER);
      var n := Min(Min(io.n, room), |stream| - |p.replay|);
      if n == 0 then p.(upstreamClosed := true) else p.(replay := stream[..|p.replay| + n])
  }

  lemma UpstreamKeepsPool(p: Pool, stream: seq<byte>, io: Io)
    requires PoolOk(p, stream)
    ensures PoolOk(OnUpstream(p, stream, io), stream)
  {
  }

  function Drop(p: Pool, index: nat): Pool
    requires index < |p.candidates|
  {
    p.(candidates := p.candidates[..index] + p.candidates[index + 1..])
  }

  lemma DropKeepsPool(p: Pool, index: nat, stream: seq<byte>)
    requires PoolOk(p, stream) && index < |p.candidates|
    ensures PoolOk(Drop(p, index), stream)
  {
  }

  predicate CanWrite(p: Pool, index: nat) { index < |p.candidates| && p.candidates[index].delivered < |p.replay| }

  function OnWritable(p: Pool, index: nat, io: Io): Pool
    requires CanWrite(p, index)
    requires p.candidates[index].arrival < |p.wire|
  {
    var c := p.candidates[index];
    match io
    case WouldBlock => p
    case Broken => Drop(p, index)
    case Moved(n) =>
      var written := Min(n, |p.replay| - c.delivered);
      p.(candidates := p.candidates[index := c.(delivered := c.delivered + written)],
         wire := p.wire[c.arrival := p.wire[c.arrival] + p.replay[c.delivered..c.delivered + written]])
  }

  lemma WritableKeepsPool(p: Pool, index: nat, io: Io, stream: seq<byte>)
    requires PoolOk(p, stream) && CanWrite(p, index)
    ensures PoolOk(OnWritable(p, index, io), stream)
  {
    var c := p.candidates[index];
    if io.Moved? {
      var p' := OnWritable(p, index, io);
      assert p.wire[c.arrival] == p.replay[..c.delivered];
      assert p'.wire[c.arrival] == p.replay[..p'.candidates[index].delivered];
      forall i | 0 <= i < |p'.candidates|
        ensures p'.candidates[i].arrival < p'.arrivals
        ensures p'.candidates[i].delivered == |p'.wire[p'.candidates[i].arrival]|
      {
        if i != index {
          assert p'.candidates[i] == p.candidates[i] && p'.candidates[i].arrival != c.arrival;
        }
      }
    } else if io.Broken? {
      DropKeepsPool(p, index, stream);
    }
  }

  function Choose(p: Pool, index: nat, prefix: seq<byte>, outcome: Outcome): Settlement
    requires index < |p.candidates| && p.candidates[index].delivered <= |p.replay|
  {
    var c := p.candidates[index];
    Settlement(p.arrivals, outcome, Some(Chosen(c.arrival, prefix, c.delivered, p.replay[c.delivered..])))
  }

  /** What is promised of the kept client: it has been sent the Streamer's first bytes, what is
      still owed to it completes the replay, and what was read from it is its own first bytes. */
  ghost predicate GoodChoice(p: Pool, c: Chosen, stream: seq<byte>, clients: nat -> seq<byte>) {
    && c.arrival < |p.wire|
    && |p.wire[c.arrival]| == c.delivered
    && p.wire[c.arrival] + c.suffix == p.replay
    && p.replay <= stream
    && c.prefix <= clients(c.arrival)
  }

  /** How the outcome follows from the candidates that were still open. */
  ghost predicate GoodOutcome(p: Pool, s: Settlement) {
    && s.arrivals == p.arrivals
    && (s.chosen == None <==> s.outcome == AllClosed)
    && (s.outcome == AllClosed ==> p.candidates == [])
    && (s.outcome in {Single, SoleSurvivor} ==> |p.candidates| == 1 && (s.outcome == Single <==> s.arrivals == 1))
    && (s.outcome == TimedOut ==> |p.candidates| >= 2)
    && (s.chosen.Some? ==> (s.chosen.value.prefix != [] <==> s.outcome == ClientData))
    && (s.outcome in {Single, SoleSurvivor, TimedOut} ==>
          forall i :: 0 <= i < |p.candidates| ==> s.chosen.value.arrival <= p.candidates[i].arrival)
    && (s.outcome == ClientData ==> exists i :: 0 <= i < |p.candidates| && p.candidates[i].arrival == s.chosen.value.arrival)
  }

  lemma ChoiceIsGood(p: Pool, index: nat, prefix: seq<byte>, outcome: Outcome, stream: seq<byte>, clients: nat -> seq<byte>)
    requires PoolOk(p, stream) && index < |p.candidates| && prefix <= clients(p.candidates[index].arrival)
    ensures p.candidates[index].delivered <= |p.replay|
    ensures GoodChoice(p, Choose(p, index, prefix, outcome).chosen.value, stream, clients)
  {
    var c := p.candidates[index];
    assert p.wire[c.arrival] == p.replay[..c.delivered];
  }

  ghost predicate GoodSettlement(p: Pool, s: Settlement, stream: seq<byte>, clients: nat -> seq<byte>) {
    GoodOutcome(p, s) && (s.chosen.Some? ==> GoodChoice(p, s.chosen.value, stream, clients))
  }

  predicate Exhausted(p: Pool) { p.upstreamClosed || |p.replay| >= REPLAY_LIMIT }

  /** The decision deadline after a loop head: set once, when several candidates have all they can get. */
  function DecisionAt(p: Pool, now: nat, decision: Option<nat>): Option<nat> {
    if decision == None && |p.candidates| >= 2 && Exhausted(p) then Some(now + DECISION_TIMEOUT) else decision
  }

  /** When a loop head settles: with no or one candidate once nobody can join (one that has all it can
      get settles at once), with several at the decision deadline or the give-up time. */
  predicate HeadSettles(p: Pool, now: nat, joinDeadline: nat, giveUp: nat, decision: Option<nat>) {
    match |p.candidates|
    case 0 => now >= joinDeadline
    case 1 => now >= joinDeadline || Exhausted(p)
    case _ => now >= giveUp || (decision.Some? && now >= decision.value)
  }

  /** An event settles exactly when it is a client's first bytes. */
  predicate EventSettles(p: Pool, e: Event, clients: nat -> seq<byte>) {
    && e.Readable? && e.index < |p.candidates| && e.io.Moved? && e.io.n > 0
    && clients(p.candidates[e.index].arrival) != []
  }

  /** The loop head: settle now, or fix the decision deadline and go on. Past the give-up time it
      always settles. */
  method AtLoopHead(pool: Pool, now: nat, joinDeadline: nat, giveUp: nat, decision: Option<nat>,
                    stream: seq<byte>, clients: nat -> seq<byte>)
    returns (settled: Option<Settlement>, decision': Option<nat>)
    requires PoolOk(pool, stream) && joinDeadline <= giveUp
    ensures settled.Some? ==> GoodSettlement(pool, settled.value, stream, clients)
    ensures settled.Some? ==> settled.value.outcome != ClientData
    ensures now >= giveUp ==> settled.Some?
    ensures decision' == DecisionAt(pool, now, decision)
    ensures settled.Some? <==> HeadSettles(pool, now, joinDeadline, giveUp, decision')
  {
    settled, decision' := None, decision;
    var joining, count := now < joinDeadline, |pool.candidates|;
    var exhausted := pool.upstreamClosed || |pool.replay| >= REPLAY_LIMIT;
    if count == 0 {
      if !joining { settled := Some(Settlement(pool.arrivals, AllClosed, None)); }
    } else if count == 1 {
      if !joining || exhausted {
        var outcome := if pool.arrivals > 1 then SoleSurvivor else Single;
        ChoiceIsGood(pool, 0, [], outcome, stream, clients);
        settled := Some(Choose(pool, 0, [], outcome));
      }
    } else {
      if exhausted && decision' == None { decision' := Some(now + DECISION_TIMEOUT); }
      var deadline := if decision'.Some? then Min(decision'.value, giveUp) else giveUp;
      if now >= deadline {
        ChoiceIsGood(pool, 0, [], TimedOut, stream, clients);
        settled := Some(Choose(pool, 0, [], TimedOut));
      }
    }
  }

  /** A readable client settles with its bytes or, having none, is dropped. */
  method OnReadable(pool: Pool, index: nat, io: Io, stream: seq<byte>, clients: nat -> seq<byte>)
    returns (settled: Option<Settlement>, pool': Pool)
    requires PoolOk(pool, stream) && index < |pool.candidates|
    ensures PoolOk(pool', stream)
    ensures settled.Some? ==> pool' == pool && settled.value.outcome == ClientData
    ensures settled.Some? ==> GoodSettlement(pool', settled.value, stream, clients)
    ensures settled.Some? ==> settled.value.chosen.value.arrival == pool.candidates[index].arrival
    ensures settled.Some? <==> io.Moved? && io.n > 0 && clients(pool.candidates[index].arrival) != []
    ensures settled.Some? ==>
              var sent := clients(pool.candidates[index].arrival);
              settled.value.chosen.value.prefix == sent[..Min(Min(io.n, 16_384), |sent|)]
    ensures settled == None ==> pool' == if io.WouldBlock? then pool else Drop(pool, index)
  {
    settled, pool' := None, pool;
    if io.WouldBlock? { return; }
    var sent := clients(pool.candidates[index].arrival);
    var n := if io.Moved? then Min(Min(io.n, BUFFER), |sent|) else 0;
    if n > 0 {
      ChoiceIsGood(pool, index, sent[..n], ClientData, stream, clients);
      settled := Some(Choose(pool, index, sent[..n], ClientData));
    } else {
      DropKeepsPool(pool, index, stream);
      pool' := Drop(pool, index);
    }
  }

  /** What one event does to the pool when it settles nothing. */
  ghost function Handle(p: Pool, e: Event, stream: seq<byte>): (p': Pool)
    requires PoolOk(p, stream)
    ensures PoolOk(p', stream)
  {
    match e
    case Upstream(io) => UpstreamKeepsPool(p, stream, io); OnUpstream(p, stream, io)
    case Readable(index, io) =>
      if index >= |p.candidates| || io.WouldBlock? then p else DropKeepsPool(p, index, stream); Drop(p, index)
    case Writable(index, io) =>
      if !CanWrite(p, index) then p else WritableKeepsPool(p, index, io, stream); OnWritable(p, index, io)
    case _ => p
  }

  method OnEvent(pool: Pool, event: Event, stream: seq<byte>, clients: nat -> seq<byte>)
    returns (settled: Option<Settlement>, pool': Pool)
    requires PoolOk(pool, stream)
    ensures pool' == if settled.Some? then pool else Handle(pool, event, stream)
    ensures settled.Some? ==> GoodSettlement(pool', settled.value, stream, clients)
    ensures settled.Some? <==> EventSettles(pool, event, clients)
    ensures settled.Some? ==> settled.value.outcome == ClientData
    ensures settled.Some? ==> settled.value.chosen.value.arrival == pool.candidates[event.index].arrival
  {
    settled, pool' := None, pool;
    match event {
      case Joined =>
      case Deadline =>
      case Upstream(io) => pool' := OnUpstream(pool, stream, io);
      case Readable(index, io) =>
        if index < |pool.candidates| { settled, pool' := OnReadable(pool, index, io, stream, clients); }
      case Writable(index, io) =>
        if CanWrite(pool, index) { pool' := OnWritable(pool, index, io); }
    }
  }

  ghost function AfterRound(p: Pool, round: Round, stream: seq<byte>): (p': Pool)
    requires PoolOk(p, stream)
    ensures PoolOk(p', stream)
  {
    JoinKeepsPool(p, round.joins, stream);
    Handle(Join(p, round.joins), round.event, stream)
  }

  predicate TurnSettles(p: Pool, round: Round, joinDeadline: nat, giveUp: nat, decision: Option<nat>, clients: nat -> seq<byte>) {
    var joined := Join(p, round.joins);
    || HeadSettles(joined, round.now, joinDeadline, giveUp, DecisionAt(joined, round.now, decision))
    || EventSettles(joined, round.event, clients)
  }

  /** The loop head has the first word; only if it does not settle can a client's bytes, and then the
      client that sent them is kept. */
  ghost predicate OutcomeOfTurn(p: Pool, round: Round, joinDeadline: nat, giveUp: nat, decision: Option<nat>, s: Settlement) {
    var joined := Join(p, round.joins);
    && (s.outcome == ClientData <==> !HeadSettles(joined, round.now, joinDeadline, giveUp, DecisionAt(joined, round.now, decision)))
    && (s.outcome == ClientData ==>
          && round.event.Readable? && round.event.index < |joined.candidates| && s.chosen.Some?
          && s.chosen.value.arrival == joined.candidates[round.event.index].arrival)
  }

  /** One turn of the loop. */
  method Turn(pool: Pool, round: Round, joinDeadline: nat, giveUp: nat, decision: Option<nat>,
              stream: seq<byte>, clients: nat -> seq<byte>)
    returns (settled: Option<Settlement>, pool': Pool, decision': Option<nat>)
    requires PoolOk(pool, stream) && joinDeadline <= giveUp
    ensures pool' == if settled.Some? then Join(pool, round.joins) else AfterRound(pool, round, stream)
    ensures settled.Some? ==> PoolOk(pool', stream) && GoodSettlement(pool', settled.value, stream, clients)
    ensures decision' == DecisionAt(Join(pool, round.joins), round.now, decision)
    ensures settled.Some? <==> TurnSettles(pool, round, joinDeadline, giveUp, decision, clients)
    ensures settled.Some? ==> OutcomeOfTurn(pool, round, joinDeadline, giveUp, decision, settled.value)
    ensures round.now >= giveUp ==> settled.Some?
  {
    JoinKeepsPool(pool, round.joins, stream);
    pool' := Join(pool, round.joins);
    settled, decision' := AtLoopHead(pool', round.now, joinDeadline, giveUp, decision, stream, clients);
    if settled == None {
      settled, pool' := OnEvent(pool', round.event, stream, clients);
    }
  }

  /** The pool once `n` whole rounds have passed without settling. */
  ghost function PoolAfter(rounds: seq<Round>, n: nat, stream: seq<byte>): (p: Pool)
    requires n <= |rounds|
    ensures PoolOk(p, stream)
  {
    if n == 0 then FIRST else AfterRound(PoolAfter(rounds, n - 1, stream), rounds[n - 1], stream)
  }

  /** The decision deadline once `n` whole rounds have passed without settling. */
  ghost function DecisionAfter(rounds: seq<Round>, n: nat, stream: seq<byte>): Option<nat>
    requires n <= |rounds|
  {
    if n == 0 then None
    else DecisionAt(Join(PoolAfter(rounds, n - 1, stream), rounds[n - 1].joins), rounds[n - 1].now,
                    DecisionAfter(rounds, n - 1, stream))
  }

  ghost predicate RoundSettles(rounds: seq<Round>, i: nat, created: nat, start: nat, stream: seq<byte>, clients: nat -> seq<byte>)
    requires i < |rounds|
  {
    TurnSettles(PoolAfter(rounds, i, stream), rounds[i], created + JOIN_WINDOW, start + UNRESOLVED_LIMIT,
                DecisionAfter(rounds, i, stream), clients)
  }

  /** The settlement loop. `created` is when the group opened and `start` when the loop began. It
      settles in exactly the first round that calls for it, with a good choice, and goes on only
      while every loop head came before the give-up time. */
  method SettleCandidates(created: nat, start: nat, stream: seq<byte>, clients: nat -> seq<byte>, rounds: seq<Round>)
    returns (settled: Option<Settlement>, pool: Pool, used: nat)
    requires created <= start
    ensures used <= |rounds| && (settled.Some? ==> used < |rounds|) && (settled == None ==> used == |rounds|)
    ensures pool == if settled == None then PoolAfter(rounds, used, stream)
                    else Join(PoolAfter(rounds, used, stream), rounds[used].joins)
    ensures PoolOk(pool, stream)
    ensures settled.Some? ==> GoodSettlement(pool, settled.value, stream, clients)
    ensures forall i :: 0 <= i < used ==> !RoundSettles(rounds, i, created, start, stream, clients)
    ensures settled.Some? ==> RoundSettles(rounds, used, created, start, stream, clients)
    ensures settled.Some? ==> OutcomeOfTurn(PoolAfter(rounds, used, stream), rounds[used], created + JOIN_WINDOW,
                                            start + UNRESOLVED_LIMIT, DecisionAfter(rounds, used, stream), settled.value)
    ensures forall i :: 0 <= i < used ==> rounds[i].now < start + UNRESOLVED_LIMIT
  {
    hide AfterRound, Join, PoolOk, GoodSettlement, TurnSettles, OutcomeOfTurn, DecisionAt;
    var giveUp, joinDeadline := start + UNRESOLVED_LIMIT, created + JOIN_WINDOW;
    settled, pool, used := None, FIRST, 0;
    assert PoolAfter(rounds, 0, stream) == FIRST;
    var decision: Option<nat> := None;
    while used < |rounds|
      invariant used <= |rounds| && settled == None
      invariant pool == PoolAfter(rounds, used, stream) && decision == DecisionAfter(rounds, used, stream)
      invariant forall i :: 0 <= i < used ==> !RoundSettles(rounds, i, created, start, stream, clients)
      invariant forall i :: 0 <= i < used ==> rounds[i].now < giveUp
    {
      settled, pool, decision := Turn(pool, rounds[used], joinDeadline, giveUp, decision, stream, clients);
      if settled.Some? { return; }
      used := used + 1;
    }
  }

  // ------------------------------------------------------- what each round must achieve

  /** Bytes an upstream event moves when `k` of `total` have been read: at most 16 KiB at a time and
      64 KiB in all. */
  function ReadBy(e: Event, k: nat, total: nat): nat
    requires k <= 65_536 && k <= total
  {
    if !e.Upstream? || !e.io.Moved? then 0 else Min(Min(e.io.n, 16_384), Min(65_536 - k, total - k))
  }

  /** How many bytes the reads of the first `n` rounds moved, and whether one of them ended the stream. */
  function Upstreamed(rounds: seq<Round>, n: nat, total: nat): (r: (nat, bool))
    requires n <= |rounds|
    ensures r.0 <= 65_536 && r.0 <= total
  {
    if n == 0 then (0, false)
    else
      var (k, closed) := Upstreamed(rounds, n - 1, total);
      var e := rounds[n - 1].event;
      if closed || k == 65_536 || !e.Upstream? || e.io.WouldBlock? then (k, closed)
      else (k + ReadBy(e, k, total), ReadBy(e, k, total) == 0)
  }

  /** The replay is exactly what the reads moved, from byte 0, and upstream counts as closed exactly
      when a read before the limit moved nothing or broke. */
  lemma {:induction false} ReplayIsWhatWasRead(rounds: seq<Round>, n: nat, stream: seq<byte>)
    requires n <= |rounds|
    ensures var p, r := PoolAfter(rounds, n, stream), Upstreamed(rounds, n, |stream|);
            p.replay == stream[..r.0] && p.upstreamClosed == r.1
  {
    if n > 0 {
      ReplayIsWhatWasRead(rounds, n - 1, stream);
      var p, round := PoolAfter(rounds, n - 1, stream), rounds[n - 1];
      JoinKeepsPool(p, round.joins, stream);
      assert PoolAfter(rounds, n, stream) == Handle(Join(p, round.joins), round.event, stream);
      ReplayAfterEvent(Join(p, round.joins), round.event, stream);
    }
  }

  lemma ReplayAfterEvent(p: Pool, e: Event, stream: seq<byte>)
    requires PoolOk(p, stream)
    ensures var p', k := Handle(p, e, stream), |p.replay|;
            if p.upstreamClosed || k == 65_536 || !e.Upstream? || e.io.WouldBlock?
            then p'.replay == p.replay && p'.upstreamClosed == p.upstreamClosed
            else p'.replay == stream[..k + ReadBy(e, k, |stream|)] && p'.upstreamClosed == (ReadBy(e, k, |stream|) == 0)
  {
    assert p.replay == stream[..|p.replay|];
  }

  function Joined(rounds: seq<Round>, n: nat): nat
    requires n <= |rounds|
  {
    if n == 0 then 1 else Joined(rounds, n - 1) + rounds[n - 1].joins
  }

  /** Every socket that joined is counted, the first one included. */
  lemma {:induction false} ArrivalsAreCounted(rounds: seq<Round>, n: nat, stream: seq<byte>)
    requires n <= |rounds|
    ensures PoolAfter(rounds, n, stream).arrivals == Joined(rounds, n)
  {
    if n > 0 { ArrivalsAreCounted(rounds, n - 1, stream); }
  }

  /** The arrivals still open, in order. */
  function Open(p: Pool): (r: seq<nat>)
    ensures |r| == |p.candidates| && forall i :: 0 <= i < |r| ==> r[i] == p.candidates[i].arrival
  {
    seq(|p.candidates|, i requires 0 <= i < |p.candidates| => p.candidates[i].arrival)
  }

  lemma JoinersAreOpen(p: Pool, k: nat)
    ensures Open(Join(p, k)) == Open(p) + seq(k, i requires 0 <= i => p.arrivals + i)
    ensures forall i :: |p.candidates| <= i < |p.candidates| + k ==> Join(p, k).candidates[i].delivered == 0
  {
  }

  /** The event closes the candidate at its index: a read found it closed or broken, or a write broke. */
  predicate Closes(p: Pool, e: Event) {
    || (e.Readable? && e.index < |p.candidates| && !e.io.WouldBlock?)
    || (e.Writable? && e.index < |p.candidates| && p.candidates[e.index].delivered < |p.replay| && e.io.Broken?)
  }

  /** An event that settles nothing closes at most its own candidate and leaves every other open. */
  lemma OpenAfterEvent(p: Pool, e: Event, stream: seq<byte>)
    requires PoolOk(p, stream)
    ensures Open(Handle(p, e, stream)) == if Closes(p, e) then Open(p)[..e.index] + Open(p)[e.index + 1..] else Open(p)
  {
  }

  /** A write that the socket accepts sends the candidate the next bytes of the replay, as many as were
      accepted, and nobody else anything; accepted in full, it has been sent the whole replay. */
  lemma WriteDelivers(p: Pool, index: nat, n: nat, stream: seq<byte>)
    requires PoolOk(p, stream) && index < |p.candidates| && p.candidates[index].delivered < |p.replay|
    ensures var p', c := Handle(p, Writable(index, Moved(n)), stream), p.candidates[index];
            var sent := Min(c.delivered + n, |p.replay|);
            && p'.replay == p.replay && p'.upstreamClosed == p.upstreamClosed && p'.arrivals == p.arrivals
            && |p'.wire| == |p.wire| && p'.wire[c.arrival] == p.replay[..sent]
            && (forall a :: 0 <= a < |p.wire| && a != c.arrival ==> p'.wire[a] == p.wire[a])
            && |p'.candidates| == |p.candidates| && p'.candidates[index] == Candidate(c.arrival, sent)
            && (forall i :: 0 <= i < |p.candidates| && i != index ==> p'.candidates[i] == p.candidates[i])
            && (n >= |p.replay| - c.delivered ==> p'.wire[c.arrival] == p.replay)
  {
    var c := p.candidates[index];
    assert p.wire[c.arrival] == p.replay[..c.delivered];
    WritableKeepsPool(p, index, Moved(n), stream);
  }

  /** Several candidates are open at the head of round `j` and none can be sent more. */
  ghost predicate ManyExhausted(rounds: seq<Round>, j: nat, stream: seq<byte>)
    requires j < |rounds|
  {
    var p := Join(PoolAfter(rounds, j, stream), rounds[j].joins);
    |p.candidates| >= 2 && (p.upstreamClosed || |p.replay| == 65_536)
  }

  ghost predicate FirstExhausted(rounds: seq<Round>, j: nat, stream: seq<byte>)
    requires j < |rounds|
  {
    ManyExhausted(rounds, j, stream) && forall i :: 0 <= i < j ==> !ManyExhausted(rounds, i, stream)
  }

  /** The decision deadline runs from the first such head, and nothing moves it. */
  lemma {:induction false} DecisionIsFixedOnce(rounds: seq<Round>, n: nat, stream: seq<byte>)
    requires n <= |rounds|
    ensures DecisionAfter(rounds, n, stream) == None <==> forall j :: 0 <= j < n ==> !ManyExhausted(rounds, j, stream)
    ensures forall j :: 0 <= j < n && FirstExhausted(rounds, j, stream) ==>
              DecisionAfter(rounds, n, stream) == Some(rounds[j].now + 250)
  {
    hide PoolAfter, Join;
    if n > 0 {
      DecisionIsFixedOnce(rounds, n - 1, stream);
      DecisionStep(rounds, n, stream);
      if DecisionAfter(rounds, n - 1, stream) != None {
        var j :| 0 <= j < n - 1 && ManyExhausted(rounds, j, stream);
        forall i | 0 <= i < n && FirstExhausted(rounds, i, stream) ensures i < n - 1 {}
      }
    }
  }

  lemma DecisionStep(rounds: seq<Round>, n: nat, stream: seq<byte>)
    requires 0 < n <= |rounds|
    ensures DecisionAfter(rounds, n, stream) ==
            if DecisionAfter(rounds, n - 1, stream) == None && ManyExhausted(rounds, n - 1, stream)
            then Some(rounds[n - 1].now + 250) else DecisionAfter(rounds, n - 1, stream)
  {
    hide PoolAfter;
    var p := PoolAfter(rounds, n - 1, stream);
    var joined := Join(p, rounds[n - 1].joins);
    assert joined.replay == p.replay && joined.upstreamClosed == p.upstreamClosed;
    assert |p.replay| <= 65_536 by { assert PoolOk(p, stream); }
  }

  /** Exactly when a round settles, in clock terms: with nobody left half a second after the group
      opened; with one left then or as soon as it has all it can get; with several ten seconds after the
      loop began or a quarter second after the first head at which they had; or on a client's bytes. */
  lemma RoundSettlesIff(rounds: seq<Round>, i: nat, created: nat, start: nat, stream: seq<byte>, clients: nat -> seq<byte>)
    requires i < |rounds|
    ensures var p, now := Join(PoolAfter(rounds, i, stream), rounds[i].joins), rounds[i].now;
            RoundSettles(rounds, i, created, start, stream, clients) <==>
              || EventSettles(p, rounds[i].event, clients)
              || (|p.candidates| == 0 && now >= created + 500)
              || (|p.candidates| == 1 && (now >= created + 500 || p.upstreamClosed || |p.replay| == 65_536))
              || (|p.candidates| >= 2 && (now >= start + 10_000
                    || exists j :: 0 <= j <= i && FirstExhausted(rounds, j, stream) && now >= rounds[j].now + 250))
  {
    hide PoolAfter, Join, EventSettles, FirstExhausted, DecisionAfter, DecisionAt;
    var p := PoolAfter(rounds, i, stream);
    var joined := Join(p, rounds[i].joins);
    assert |joined.replay| <= 65_536 by { JoinKeepsPool(p, rounds[i].joins, stream); ReplayBound(joined, stream); }
    DecisionUnfolds(rounds, i, stream);
    DecisionHasPassedIff(rounds, i, stream);
  }

  lemma DecisionHasPassedIff(rounds: seq<Round>, i: nat, stream: seq<byte>)
    requires i < |rounds|
    ensures var decision, now := DecisionAfter(rounds, i + 1, stream), rounds[i].now;
            decision.Some? && now >= decision.value <==>
              exists j :: 0 <= j <= i && FirstExhausted(rounds, j, stream) && now >= rounds[j].now + 250
  {
    hide ManyExhausted, DecisionAfter;
    DecisionIsFixedOnce(rounds, i + 1, stream);
    if DecisionAfter(rounds, i + 1, stream) != None {
      var j :| 0 <= j < i + 1 && ManyExhausted(rounds, j, stream);
      var first := LeastExhausted(rounds, j, stream);
      forall k | 0 <= k <= i && FirstExhausted(rounds, k, stream) ensures k == first {}
    }
  }

  lemma ReplayBound(p: Pool, stream: seq<byte>)
    requires PoolOk(p, stream)
    ensures |p.replay| <= 65_536
  {
  }

  lemma DecisionUnfolds(rounds: seq<Round>, i: nat, stream: seq<byte>)
    requires i < |rounds|
    ensures var joined := Join(PoolAfter(rounds, i, stream), rounds[i].joins);
            DecisionAfter(rounds, i + 1, stream) == DecisionAt(joined, rounds[i].now, DecisionAfter(rounds, i, stream))
  {
    hide PoolAfter, Join, DecisionAt;
  }

  lemma {:induction false} LeastExhausted(rounds: seq<Round>, j: nat, stream: seq<byte>) returns (first: nat)
    requires j < |rounds| && ManyExhausted(rounds, j, stream)
    ensures first <= j && FirstExhausted(rounds, first, stream)
    decreases j
  {
    hide ManyExhausted;
    if i :| 0 <= i < j && ManyExhausted(rounds, i, stream) {
      first := LeastExhausted(rounds, i, stream);
    } else {
      first := j;
    }
  }

  /** What `relay_flow` puts on each side after a choice, once `up` further bytes of the client and
      `down` further bytes of the Streamer have been copied, with the totals it reports. */
  datatype Relayed = Relayed(toUpstream: seq<byte>, toClient: seq<byte>, txBytes: nat, rxBytes: nat)

  function RelayFlow(c: Chosen, clientRest: seq<byte>, streamRest: seq<byte>, up: nat, down: nat): Relayed
    requires up <= |clientRest| && down <= |streamRest|
  {
    Relayed(c.prefix + clientRest[..up], c.suffix + streamRest[..down],
            up + |c.prefix|, down + |c.suffix| + c.delivered)
  }

  /** End to end, the kept client is sent exactly the Streamer's bytes from byte 0, the Streamer is
      sent exactly the kept client's bytes from byte 0 and nobody else's, none lost or repeated, and
      the reported totals are those lengths. */
  lemma FlowIsExact(p: Pool, c: Chosen, stream: seq<byte>, clients: nat -> seq<byte>, up: nat, down: nat)
    requires GoodChoice(p, c, stream, clients)
    requires up <= |clients(c.arrival)| - |c.prefix| && down <= |stream| - |p.replay|
    ensures var r := RelayFlow(c, clients(c.arrival)[|c.prefix|..], stream[|p.replay|..], up, down);
            && p.wire[c.arrival] + r.toClient == stream[..|p.replay| + down]
            && r.toUpstream == clients(c.arrival)[..|c.prefix| + up]
            && r.rxBytes == |p.wire[c.arrival] + r.toClient| && r.txBytes == |r.toUpstream|
  {
    var sent := clients(c.arrival);
    assert stream[..|p.replay| + down] == p.replay + stream[|p.replay|..][..down];
    assert p.wire[c.arrival] + (c.suffix + stream[|p.replay|..][..down]) == p.replay + stream[|p.replay|..][..down];
    assert sent[..|c.prefix| + up] == c.prefix + sent[|c.prefix|..][..up];
  }
}
