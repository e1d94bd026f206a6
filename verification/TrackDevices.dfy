/** The `adb track-devices` stream decoder (runtime.rs): a binary framing or plain text, told apart
    by the first four bytes, fed in arbitrary chunks.

    The header line, what counts as UTF-8 and what counts as a line in state `device` are
    parameters: every law holds for every such classification. */
module TrackDevices {
  import opened Base

  const MAX_PAYLOAD: nat := 16 * 1024
  const NEWLINE: byte := 10
  const CARRIAGE_RETURN: byte := 13
  const TAB: byte := 9

  datatype Classes = Classes(
    header: seq<byte>,                 // "List of devices attached"
    utf8: seq<byte> -> bool,
    deviceLine: seq<byte> -> bool,     // the line names a tab-separated entry in state `device`
    anyDevice: seq<byte> -> bool)      // some line of the payload does

  datatype Mode = Unknown | Framed | Text

  datatype LineParser = LineParser(inSnapshot: bool, available: bool)

  datatype Decoder = Decoder(mode: Mode, buffer: seq<byte>, text: LineParser, last: Option<bool>)

  const FRESH := Decoder(Unknown, [], LineParser(false, false), None)

  datatype DecodeError = InvalidLength | Oversized(len: nat) | InvalidUtf8

  datatype Outcome = Done(updates: seq<bool>, decoder: Decoder) | Failed(error: DecodeError)

  function HexDigit(b: byte): Option<nat> {
    if 48 <= b <= 57 then Some(b - 48)
    else if 97 <= b <= 102 then Some(b - 87)
    else if 65 <= b <= 70 then Some(b - 55)
    else None
  }

  predicate AllHex(s: seq<byte>) { forall i :: 0 <= i < |s| ==> HexDigit(s[i]).Some? }

  function Length(s: seq<byte>): nat
    requires AllHex(s)
  {
    if s == [] then 0 else 16 * Length(s[..|s| - 1]) + HexDigit(s[|s| - 1]).value
  }

  /** Index of the first newline, or the length of `s`. */
  function NewlineAt(s: seq<byte>): (n: nat)
    ensures n <= |s| && (n < |s| ==> s[n] == NEWLINE) && forall i :: 0 <= i < n ==> s[i] != NEWLINE
  {
    if s == [] || s[0] == NEWLINE then 0 else 1 + NewlineAt(s[1..])
  }

  function TrimCarriageReturns(s: seq<byte>): seq<byte> {
    if s != [] && s[|s| - 1] == CARRIAGE_RETURN then TrimCarriageReturns(s[..|s| - 1]) else s
  }

  function OneLess(s: seq<byte>): seq<byte> {
    if s != [] && s[|s| - 1] == CARRIAGE_RETURN then s[..|s| - 1] else s
  }

  function PushLine(p: LineParser, raw: seq<byte>, cl: Classes): (LineParser, Option<bool>) {
    var line := TrimCarriageReturns(raw);
    if line == cl.header then
      (LineParser(true, false), if p.inSnapshot then Some(p.available) else None)
    else if line == [] then
      (LineParser(false, false), Some(p.inSnapshot && p.available))
    else
      var p' := if !p.inSnapshot && TAB in line then LineParser(true, false) else p;
      if !p'.inSnapshot then (p', None)
      else
        var available := cl.deviceLine(line);
        (p'.(available := p'.available || available), if available then Some(true) else None)
  }

  function Emitted(d: Decoder, update: Option<bool>): seq<bool> {
    if update.Some? && d.last != update then [update.value] else []
  }

  function Noted(d: Decoder, update: Option<bool>): Decoder { if update.Some? then d.(last := update) else d }

  function Prepend(us: seq<bool>, o: Outcome): Outcome {
    match o case Done(more, d) => Done(us + more, d) case Failed(e) => Failed(e)
  }

  /** What one turn of the push loop achieves. */
  datatype Turn = Took(emitted: seq<bool>, next: Decoder) | Waiting | Refused(error: DecodeError)

  /** The turn that consumes `used` bytes and reports `update`. */
  function Consume(d: Decoder, used: nat, text: LineParser, update: Option<bool>): (t: Turn)
    requires 0 < used <= |d.buffer|
    ensures t.Took? && t.next.mode == d.mode && t.next.buffer == d.buffer[used..]
  {
    Took(Emitted(d, update), Noted(d.(buffer := d.buffer[used..], text := text), update))
  }

  /** Tells the two stream forms apart once four bytes are there. */
  function Detect(d: Decoder): Turn {
    if |d.buffer| < 4 then Waiting
    else if !AllHex(d.buffer[..4]) then Took([], d.(mode := Text))
    else if Length(d.buffer[..4]) > MAX_PAYLOAD then Refused(Oversized(Length(d.buffer[..4])))
    else Took([], d.(mode := Framed))
  }

  function FrameTurn(d: Decoder, cl: Classes): Turn {
    if |d.buffer| < 4 then Waiting
    else if !AllHex(d.buffer[..4]) then Refused(InvalidLength)
    else
      var n := Length(d.buffer[..4]);
      if n > MAX_PAYLOAD then Refused(Oversized(n))
      else if |d.buffer| < 4 + n then Waiting
      else if !cl.utf8(d.buffer[4..4 + n]) then Refused(InvalidUtf8)
      else Consume(d, 4 + n, d.text, Some(cl.anyDevice(d.buffer[4..4 + n])))
  }

  function LineTurn(d: Decoder, cl: Classes): Turn {
    var n := NewlineAt(d.buffer);
    if n == |d.buffer| then
      if n > MAX_PAYLOAD then Refused(Oversized(n)) else Waiting
    else
      var line := OneLess(d.buffer[..n]);
      if !cl.utf8(line) then Refused(InvalidUtf8)
      else
        var (text, update) := PushLine(d.text, line, cl);
        Consume(d, n + 1, text, update)
  }

  function Rank(d: Decoder): nat { 2 * |d.buffer| + if d.mode == Unknown then 1 else 0 }

  /** One turn of the loop. Outside mode detection it consumes input whenever it makes progress,
      and the mode, once known, is never reconsidered. */
  function TakeTurn(d: Decoder, cl: Classes): (t: Turn)
    ensures t.Took? ==> Rank(t.next) < Rank(d) && t.next.mode != Unknown
    ensures t.Took? && d.mode != Unknown ==> t.next.mode == d.mode && |t.next.buffer| < |d.buffer|
    ensures t.Waiting? ==> |d.buffer| < 4 + MAX_PAYLOAD
  {
    match d.mode
    case Unknown => Detect(d)
    case Framed => FrameTurn(d, cl)
    case Text => LineTurn(d, cl)
  }

  /** Everything the buffer already holds, decoded: the meaning of one `push`. */
  function Drain(d: Decoder, cl: Classes): Outcome
    decreases Rank(d)
  {
    match TakeTurn(d, cl)
    case Waiting => Done([], d)
    case Refused(e) => Failed(e)
    case Took(us, d') => Prepend(us, Drain(d', cl))
  }

  function Extend(d: Decoder, b: seq<byte>): Decoder { d.(buffer := d.buffer + b) }

  function Push(d: Decoder, bytes: seq<byte>, cl: Classes): Outcome { Drain(Extend(d, bytes), cl) }

  function PushAll(d: Decoder, chunks: seq<seq<byte>>, cl: Classes): Outcome
    decreases |chunks|
  {
    if chunks == [] then Done([], d)
    else match Push(d, chunks[0], cl)
      case Failed(e) => Failed(e)
      case Done(us, d') => Prepend(us, PushAll(d', chunks[1..], cl))
  }

  // ------------------------------------------------------------------- chunking

  lemma PrependTwice(a: seq<bool>, b: seq<bool>, o: Outcome)
    ensures Prepend(a, Prepend(b, o)) == Prepend(a + b, o) && Prepend([], o) == o
  {
    if o.Done? {
      assert a + (b + o.updates) == (a + b) + o.updates && [] + o.updates == o.updates;
    }
  }

  lemma NewlineOfExtension(s: seq<byte>, t: seq<byte>)
    requires NewlineAt(s) < |s|
    ensures NewlineAt(s + t) == NewlineAt(s)
  {
    var n, m := NewlineAt(s), NewlineAt(s + t);
    assert (s + t)[n] == NEWLINE && m <= n;
    assert (s + t)[m] == s[m];
  }

  /** A turn that makes progress makes the same progress when more input is behind it. */
  lemma TurnExtends(d: Decoder, b: seq<byte>, cl: Classes)
    requires TakeTurn(d, cl).Took?
    ensures var t := TakeTurn(d, cl);
            TakeTurn(Extend(d, b), cl) == Took(t.emitted, Extend(t.next, b))
  {
    match d.mode
    case Unknown => DetectExtends(d, b);
    case Framed => FrameExtends(d, b, cl);
    case Text => LineExtends(d, b, cl);
  }

  lemma DetectExtends(d: Decoder, b: seq<byte>)
    requires Detect(d).Took?
    ensures Detect(Extend(d, b)) == Took(Detect(d).emitted, Extend(Detect(d).next, b))
  {
    assert (d.buffer + b)[..4] == d.buffer[..4];
  }

  lemma ConsumeExtends(d: Decoder, b: seq<byte>, used: nat, text: LineParser, update: Option<bool>)
    requires 0 < used <= |d.buffer|
    ensures var t := Consume(d, used, text, update);
            Consume(Extend(d, b), used, text, update) == Took(t.emitted, Extend(t.next, b))
  {
    assert (d.buffer + b)[used..] == d.buffer[used..] + b;
  }

  lemma FrameExtends(d: Decoder, b: seq<byte>, cl: Classes)
    requires FrameTurn(d, cl).Took?
    ensures var t := FrameTurn(d, cl);
            FrameTurn(Extend(d, b), cl) == Took(t.emitted, Extend(t.next, b))
  {
    hide Length, AllHex, Consume;
    var all, n := d.buffer + b, Length(d.buffer[..4]);
    assert all[..4] == d.buffer[..4] && all[4..4 + n] == d.buffer[4..4 + n];
    ConsumeExtends(d, b, 4 + n, d.text, Some(cl.anyDevice(d.buffer[4..4 + n])));
  }

  lemma LineExtends(d: Decoder, b: seq<byte>, cl: Classes)
    requires LineTurn(d, cl).Took?
    ensures var t := LineTurn(d, cl);
            LineTurn(Extend(d, b), cl) == Took(t.emitted, Extend(t.next, b))
  {
    hide NewlineAt, PushLine, Consume;
    var n := NewlineAt(d.buffer);
    NewlineOfExtension(d.buffer, b);
    assert (d.buffer + b)[..n] == d.buffer[..n];
    var (text, update) := PushLine(d.text, OneLess(d.buffer[..n]), cl);
    ConsumeExtends(d, b, n + 1, text, update);
  }

  /** A push that succeeds may be followed by a second one, or the two may be one push: the updates
      are the same and so is the outcome, also when the second part fails. */
  lemma {:induction false} PushSplits(d: Decoder, b: seq<byte>, cl: Classes)
    requires Drain(d, cl).Done?
    ensures var first := Drain(d, cl);
            Push(d, b, cl) == Prepend(first.updates, Push(first.decoder, b, cl))
    decreases Rank(d)
  {
    hide TakeTurn;
    match TakeTurn(d, cl)
    case Waiting => PrependTwice([], [], Push(d, b, cl));
    case Took(us, d') =>
      TurnExtends(d, b, cl);
      PushSplits(d', b, cl);
      var first := Drain(d', cl);
      PrependTwice(us, first.updates, Push(first.decoder, b, cl));
  }

  /** A decoder between two pushes: nothing more can be decoded from what it retains. */
  predicate Settled(d: Decoder, cl: Classes) { TakeTurn(d, cl).Waiting? }

  /** No update repeats its neighbour, nor the one emitted before the list. */
  ghost predicate NoRepeat(last: Option<bool>, us: seq<bool>) {
    && (us != [] ==> last != Some(us[0]))
    && forall i :: 0 <= i < |us| - 1 ==> us[i] != us[i + 1]
  }

  function LastOf(last: Option<bool>, us: seq<bool>): Option<bool> {
    if us == [] then last else Some(us[|us| - 1])
  }

  lemma NoRepeatAppend(last: Option<bool>, us: seq<bool>, more: seq<bool>)
    requires NoRepeat(last, us) && NoRepeat(LastOf(last, us), more)
    ensures NoRepeat(last, us + more) && LastOf(last, us + more) == LastOf(LastOf(last, us), more)
  {
    if us == [] {
      assert us + more == more;
    } else if more == [] {
      assert us + more == us;
    }
  }

  lemma TurnRemembers(d: Decoder, cl: Classes)
    requires TakeTurn(d, cl).Took?
    ensures var t := TakeTurn(d, cl);
            NoRepeat(d.last, t.emitted) && t.next.last == LastOf(d.last, t.emitted)
  {
    hide Length, AllHex, NewlineAt, PushLine;
  }

  /** Every push that succeeds leaves a settled decoder, emits no update equal to the one before
      it, and remembers its last update. */
  lemma {:induction false} DrainSettles(d: Decoder, cl: Classes)
    requires Drain(d, cl).Done?
    ensures var o := Drain(d, cl);
            Settled(o.decoder, cl) && NoRepeat(d.last, o.updates) && o.decoder.last == LastOf(d.last, o.updates)
    decreases Rank(d)
  {
    hide TakeTurn;
    match TakeTurn(d, cl)
    case Waiting =>
    case Took(us, d') =>
      TurnRemembers(d, cl);
      DrainSettles(d', cl);
      NoRepeatAppend(d.last, us, Drain(d', cl).updates);
  }

  /** If every push of a chunked stream succeeds, one push of the whole stream succeeds too, with
      the same updates and the same final decoder. */
  lemma {:induction false} ChunkingIsInvisible(d: Decoder, chunks: seq<seq<byte>>, cl: Classes)
    requires Settled(d, cl) && PushAll(d, chunks, cl).Done?
    ensures Push(d, Concat(chunks), cl) == PushAll(d, chunks, cl)
    ensures Settled(PushAll(d, chunks, cl).decoder, cl)
    decreases |chunks|
  {
    if chunks == [] {
      assert d.buffer + [] == d.buffer;
    } else {
      var a, rest := chunks[0], Concat(chunks[1..]);
      var d1 := Extend(d, a);
      var first := Drain(d1, cl);
      DrainSettles(d1, cl);
      ChunkingIsInvisible(first.decoder, chunks[1..], cl);
      PushSplits(d1, rest, cl);
      assert d.buffer + (a + rest) == d1.buffer + rest;
    }
  }

  /** Across the pushes of a run no update repeats its predecessor, and what the decoder retains
      between pushes is bounded. */
  lemma {:induction false} RunNeverRepeats(d: Decoder, chunks: seq<seq<byte>>, cl: Classes)
    requires Settled(d, cl) && PushAll(d, chunks, cl).Done?
    ensures NoRepeat(d.last, PushAll(d, chunks, cl).updates)
    ensures |PushAll(d, chunks, cl).decoder.buffer| < 4 + MAX_PAYLOAD
  {
    ChunkingIsInvisible(d, chunks, cl);
    DrainSettles(Extend(d, Concat(chunks)), cl);
  }

  /** A refusal stands when more input is behind it, but for a text line still without its end. */
  lemma RefusalExtends(d: Decoder, b: seq<byte>, cl: Classes)
    requires TakeTurn(d, cl).Refused?
    ensures var t := TakeTurn(d, cl);
            TakeTurn(Extend(d, b), cl) == t || (d.mode == Text && t.error == Oversized(|d.buffer|))
  {
    match d.mode
    case Unknown => assert (d.buffer + b)[..4] == d.buffer[..4];
    case Framed => FrameRefusalExtends(d, b, cl);
    case Text => LineRefusalExtends(d, b, cl);
  }

  lemma FrameRefusalExtends(d: Decoder, b: seq<byte>, cl: Classes)
    requires FrameTurn(d, cl).Refused?
    ensures FrameTurn(Extend(d, b), cl) == FrameTurn(d, cl)
  {
    hide Length, AllHex;
    var all := d.buffer + b;
    assert all[..4] == d.buffer[..4];
    if AllHex(d.buffer[..4]) && |d.buffer| >= 4 + Length(d.buffer[..4]) {
      var n := Length(d.buffer[..4]);
      assert all[4..4 + n] == d.buffer[4..4 + n];
    }
  }

  lemma LineRefusalExtends(d: Decoder, b: seq<byte>, cl: Classes)
    requires LineTurn(d, cl).Refused?
    ensures LineTurn(Extend(d, b), cl) == LineTurn(d, cl) || LineTurn(d, cl).error == Oversized(|d.buffer|)
  {
    hide NewlineAt, PushLine;
    var n := NewlineAt(d.buffer);
    if n < |d.buffer| {
      NewlineOfExtension(d.buffer, b);
      assert (d.buffer + b)[..n] == d.buffer[..n];
    }
  }

  lemma {:induction false} FailureExtends(d: Decoder, b: seq<byte>, cl: Classes)
    requires Drain(d, cl).Failed? && Drain(Extend(d, b), cl).Done?
    ensures Drain(d, cl).error.Oversized? && Drain(Extend(d, b), cl).decoder.mode == Text
    decreases Rank(d)
  {
    hide TakeTurn;
    match TakeTurn(d, cl)
    case Refused(e) =>
      RefusalExtends(d, b, cl);
      ModeStays(Extend(d, b), cl);
    case Took(us, d') =>
      TurnExtends(d, b, cl);
      FailureExtends(d', b, cl);
  }

  lemma {:induction false} ModeStays(d: Decoder, cl: Classes)
    requires d.mode != Unknown && Drain(d, cl).Done?
    ensures Drain(d, cl).decoder.mode == d.mode
    decreases Rank(d)
  {
    hide TakeTurn;
    match TakeTurn(d, cl)
    case Waiting =>
    case Took(us, d') => ModeStays(d', cl);
  }

  // ----------------------------------------------------- when chunking shows, exactly

  /** How many bytes follow the last newline. */
  function Tail(s: seq<byte>): (n: nat)
    ensures n <= |s|
  {
    if s == [] || s[|s| - 1] == NEWLINE then 0 else 1 + Tail(s[..|s| - 1])
  }

  /** The bytes after the last newline: what a text decoder has to retain. */
  function Unended(s: seq<byte>): seq<byte> { s[|s| - Tail(s)..] }

  lemma {:induction false} TailOfOneLine(s: seq<byte>)
    requires NEWLINE !in s
    ensures Tail(s) == |s|
  {
    if s != [] { TailOfOneLine(s[..|s| - 1]); }
  }

  /** A finished line in front changes nothing about the tail. */
  lemma {:induction false} TailAfterLine(a: seq<byte>, b: seq<byte>)
    requires a != [] && a[|a| - 1] == NEWLINE
    ensures Tail(a + b) == Tail(b)
    decreases |b|
  {
    if b == [] {
      assert a + b == a;
    } else {
      assert (a + b)[..|a + b| - 1] == a + b[..|b| - 1];
      if b[|b| - 1] != NEWLINE { TailAfterLine(a, b[..|b| - 1]); }
    }
  }

  lemma {:induction false} TailIsPrecededByNewline(s: seq<byte>)
    requires Tail(s) < |s|
    ensures s[|s| - Tail(s) - 1] == NEWLINE
  {
    if s[|s| - 1] != NEWLINE { TailIsPrecededByNewline(s[..|s| - 1]); }
  }

  /** Only the unended part of what came before matters to a later tail. */
  lemma TailOfUnended(s: seq<byte>, b: seq<byte>)
    ensures Tail(s + b) == Tail(Unended(s) + b)
  {
    var n := |s| - Tail(s);
    if n == 0 {
      assert Unended(s) == s;
    } else {
      TailIsPrecededByNewline(s);
      assert s + b == s[..n] + (Unended(s) + b);
      TailAfterLine(s[..n], Unended(s) + b);
    }
  }

  /** A text decoder that some continuation drains drains by itself exactly when its tail is within
      the bound, and that tail is what it retains. */
  lemma {:induction false} TextDrainsIff(d: Decoder, b: seq<byte>, cl: Classes)
    requires d.mode == Text && Drain(Extend(d, b), cl).Done?
    ensures Drain(d, cl).Done? <==> Tail(d.buffer) <= MAX_PAYLOAD
    ensures Drain(d, cl).Done? ==> Drain(d, cl).decoder.buffer == Unended(d.buffer)
    decreases Rank(d)
  {
    hide TakeTurn, NewlineAt, Tail, Extend;
    var n := NewlineAt(d.buffer);
    if n == |d.buffer| {
      UnendedLineDrains(d, cl);
      TailOfOneLine(d.buffer);
      assert Unended(d.buffer) == d.buffer;
    } else {
      EndedLineIsTaken(d, b, cl);
      var next := TakeTurn(d, cl).next;
      TextDrainsIff(next, b, cl);
      LineInFront(d.buffer[..n + 1], next.buffer);
      assert d.buffer[..n + 1] + next.buffer == d.buffer;
    }
  }

  lemma UnendedLineDrains(d: Decoder, cl: Classes)
    requires d.mode == Text && NewlineAt(d.buffer) == |d.buffer|
    ensures Drain(d, cl) == if |d.buffer| <= MAX_PAYLOAD then Done([], d) else Failed(Oversized(|d.buffer|))
  {
  }

  lemma LineInFront(line: seq<byte>, rest: seq<byte>)
    requires line != [] && line[|line| - 1] == NEWLINE
    ensures Tail(line + rest) == Tail(rest) && Unended(line + rest) == Unended(rest)
  {
    TailAfterLine(line, rest);
    SuffixBehind(line, rest, Tail(rest));
  }

  lemma SuffixBehind(a: seq<byte>, b: seq<byte>, k: nat)
    requires k <= |b|
    ensures (a + b)[|a + b| - k..] == b[|b| - k..]
  {
  }

  lemma EndedLineIsTaken(d: Decoder, b: seq<byte>, cl: Classes)
    requires d.mode == Text && NewlineAt(d.buffer) < |d.buffer| && Drain(Extend(d, b), cl).Done?
    ensures var t := TakeTurn(d, cl);
            && t.Took? && t.next.mode == Text && t.next.buffer == d.buffer[NewlineAt(d.buffer) + 1..]
            && Drain(Extend(t.next, b), cl).Done?
  {
    hide Drain, PushLine;
    var t := TakeTurn(d, cl);
    if t.Took? {
      TurnExtends(d, b, cl);
      DrainOfTook(Extend(d, b), cl);
    } else {
      LineRefusalStands(d, b, cl);
      DrainOfRefused(Extend(d, b), cl);
    }
  }

  lemma LineRefusalStands(d: Decoder, b: seq<byte>, cl: Classes)
    requires d.mode == Text && NewlineAt(d.buffer) < |d.buffer| && TakeTurn(d, cl).Refused?
    ensures TakeTurn(Extend(d, b), cl) == TakeTurn(d, cl)
  {
    hide NewlineAt, PushLine;
    NewlineOfExtension(d.buffer, b);
    var n := NewlineAt(d.buffer);
    assert (d.buffer + b)[..n] == d.buffer[..n];
  }

  lemma DrainOfTook(d: Decoder, cl: Classes)
    requires TakeTurn(d, cl).Took?
    ensures Drain(d, cl).Done? <==> Drain(TakeTurn(d, cl).next, cl).Done?
  {
    hide TakeTurn;
  }

  lemma DrainOfRefused(d: Decoder, cl: Classes)
    requires TakeTurn(d, cl).Refused?
    ensures Drain(d, cl).Failed?
  {
    hide TakeTurn;
  }

  /** Whether the decoder reads, or will read, the stream as text: something a caller can see. */
  predicate TextStream(d: Decoder, stream: seq<byte>) {
    d.mode == Text || (d.mode == Unknown && |d.buffer + stream| >= 4 && !AllHex((d.buffer + stream)[..4]))
  }

  ghost predicate TailsFit(buffer: seq<byte>, chunks: seq<seq<byte>>) {
    forall k :: 0 <= k <= |chunks| ==> Tail(buffer + Concat(chunks[..k])) <= MAX_PAYLOAD
  }

  lemma TailsFitStep(buffer: seq<byte>, chunks: seq<seq<byte>>)
    requires chunks != []
    ensures TailsFit(buffer, chunks) <==> Tail(buffer) <= MAX_PAYLOAD && TailsFit(buffer + chunks[0], chunks[1..])
  {
    forall k | 1 <= k <= |chunks|
      ensures buffer + Concat(chunks[..k]) == (buffer + chunks[0]) + Concat(chunks[1..][..k - 1])
    {
      assert chunks[..k][1..] == chunks[1..][..k - 1];
    }
    assert buffer + Concat(chunks[..0]) == buffer;
    if TailsFit(buffer, chunks) {
      assert Tail(buffer + Concat(chunks[..0])) <= MAX_PAYLOAD;
      forall j | 0 <= j <= |chunks| - 1 ensures Tail((buffer + chunks[0]) + Concat(chunks[1..][..j])) <= MAX_PAYLOAD {
        assert Tail(buffer + Concat(chunks[..j + 1])) <= MAX_PAYLOAD;
      }
    }
    if Tail(buffer) <= MAX_PAYLOAD && TailsFit(buffer + chunks[0], chunks[1..]) {
      forall k | 0 <= k <= |chunks| ensures Tail(buffer + Concat(chunks[..k])) <= MAX_PAYLOAD {
        if k > 0 { assert Tail((buffer + chunks[0]) + Concat(chunks[1..][..k - 1])) <= MAX_PAYLOAD; }
      }
    }
  }

  lemma TailsFitUnended(buffer: seq<byte>, chunks: seq<seq<byte>>)
    ensures TailsFit(Unended(buffer), chunks) <==> TailsFit(buffer, chunks)
  {
    forall k | 0 <= k <= |chunks|
      ensures Tail(buffer + Concat(chunks[..k])) == Tail(Unended(buffer) + Concat(chunks[..k]))
    {
      TailOfUnended(buffer, Concat(chunks[..k]));
    }
  }

  /** The same as text: mode detection on four bytes emits nothing and keeps the buffer. */
  lemma DrainsAsText(d: Decoder, cl: Classes)
    requires d.mode == Unknown && |d.buffer| >= 4 && !AllHex(d.buffer[..4])
    ensures Drain(d, cl) == Drain(d.(mode := Text), cl)
  {
    hide AllHex, LineTurn;
    PrependTwice([], [], Drain(d.(mode := Text), cl));
  }

  /** Chunks of a text stream that one push accepts are all accepted exactly when the unended line
      at every chunk boundary is within the bound. */
  lemma {:induction false} TextChunksAcceptedIff(d: Decoder, chunks: seq<seq<byte>>, cl: Classes)
    requires Settled(d, cl) && TextStream(d, Concat(chunks)) && Push(d, Concat(chunks), cl).Done?
    ensures PushAll(d, chunks, cl).Done? <==> TailsFit(d.buffer, chunks)
    decreases |chunks|
  {
    hide TakeTurn, Drain, TailsFit, AllHex;
    SettledTail(d, cl);
    if chunks == [] {
      NoChunks(d.buffer);
    } else {
      var a, rest := chunks[0], Concat(chunks[1..]);
      var d1 := Extend(d, a);
      assert d.buffer + (a + rest) == d1.buffer + rest;
      TailsFitStep(d.buffer, chunks);
      FirstChunkOfText(d, a, rest, cl);
      if Drain(d1, cl).Done? {
        var d2 := Drain(d1, cl).decoder;
        DrainSettles(d1, cl);
        PushSplits(d1, rest, cl);
        TextStreamShifts(d, a, rest);
        TextChunksAcceptedIff(d2, chunks[1..], cl);
        if d2.mode == Text { TailsFitUnended(d1.buffer, chunks[1..]); }
      } else {
        TailsFitFirst(d1.buffer, chunks[1..]);
      }
    }
  }

  lemma NoChunks(buffer: seq<byte>)
    ensures Tail(buffer) <= MAX_PAYLOAD <==> TailsFit(buffer, [])
  {
    assert buffer + Concat<byte>([][..0]) == buffer;
    if TailsFit(buffer, []) { assert Tail(buffer + Concat([][..0])) <= MAX_PAYLOAD; }
  }

  lemma TailsFitFirst(buffer: seq<byte>, chunks: seq<seq<byte>>)
    ensures TailsFit(buffer, chunks) ==> Tail(buffer) <= MAX_PAYLOAD
  {
    assert buffer + Concat(chunks[..0]) == buffer;
    if TailsFit(buffer, chunks) { assert Tail(buffer + Concat(chunks[..0])) <= MAX_PAYLOAD; }
  }

  /** What a settled decoder of a text stream retains is within the bound. */
  lemma SettledTail(d: Decoder, cl: Classes)
    requires Settled(d, cl) && d.mode != Framed
    ensures Tail(d.buffer) <= MAX_PAYLOAD && (d.mode == Unknown ==> |d.buffer| < 4)
  {
  }

  /** The first chunk drains exactly when its own tail fits; the decoder then keeps that tail, or
      everything while the mode is still unknown. */
  lemma FirstChunkOfText(d: Decoder, a: seq<byte>, rest: seq<byte>, cl: Classes)
    requires Settled(d, cl) && TextStream(d, a + rest) && Push(d, a + rest, cl).Done?
    ensures var d1 := Extend(d, a);
            && (Drain(d1, cl).Done? <==> Tail(d1.buffer) <= MAX_PAYLOAD)
            && (Drain(d1, cl).Done? ==>
                  var d2 := Drain(d1, cl).decoder;
                  if d.mode == Unknown && |d1.buffer| < 4 then d2 == d1
                  else d2.mode == Text && d2.buffer == Unended(d1.buffer))
  {
    hide LineTurn, AllHex;
    var d1 := Extend(d, a);
    assert d.buffer + (a + rest) == d1.buffer + rest;
    if d.mode == Text {
      TextDrainsIff(d1, rest, cl);
      if Drain(d1, cl).Done? { ModeStays(d1, cl); }
    } else if |d1.buffer| >= 4 {
      assert (d1.buffer + rest)[..4] == d1.buffer[..4];
      var t1 := d1.(mode := Text);
      DrainsAsText(d1, cl);
      DrainsAsText(Extend(d1, rest), cl);
      assert Extend(t1, rest) == Extend(d1, rest).(mode := Text);
      TextDrainsIff(t1, rest, cl);
      if Drain(t1, cl).Done? { ModeStays(t1, cl); }
    }
  }

  lemma TextStreamShifts(d: Decoder, a: seq<byte>, rest: seq<byte>)
    requires TextStream(d, a + rest)
    ensures TextStream(Extend(d, a), rest)
  {
    hide AllHex;
    assert d.buffer + (a + rest) == (d.buffer + a) + rest;
  }

  /** Whatever is not a text stream never shows its chunks. */
  lemma {:induction false} OtherChunksAreAccepted(d: Decoder, chunks: seq<seq<byte>>, cl: Classes)
    requires Settled(d, cl) && Push(d, Concat(chunks), cl).Done? && !TextStream(d, Concat(chunks))
    ensures PushAll(d, chunks, cl).Done?
  {
    if PushAll(d, chunks, cl).Failed? {
      FailedChunksAreText(d, chunks, cl);
      FinalMode(Extend(d, Concat(chunks)), cl);
    }
  }

  lemma FinalMode(d: Decoder, cl: Classes)
    requires Drain(d, cl).Done?
    ensures Drain(d, cl).decoder.mode == Text <==> d.mode == Text || (d.mode == Unknown && |d.buffer| >= 4 && !AllHex(d.buffer[..4]))
  {
    hide AllHex, LineTurn, FrameTurn;
    if d.mode != Unknown {
      ModeStays(d, cl);
    } else if |d.buffer| >= 4 {
      ModeStays(TakeTurn(d, cl).next, cl);
    }
  }

  lemma {:induction false} FailedChunksAreText(d: Decoder, chunks: seq<seq<byte>>, cl: Classes)
    requires Settled(d, cl) && Push(d, Concat(chunks), cl).Done? && PushAll(d, chunks, cl).Failed?
    ensures Push(d, Concat(chunks), cl).decoder.mode == Text
    decreases |chunks|
  {
    hide TakeTurn;
    if chunks != [] {
      var a, rest := chunks[0], Concat(chunks[1..]);
      var d1 := Extend(d, a);
      assert d.buffer + (a + rest) == d1.buffer + rest;
      if Drain(d1, cl).Failed? {
        FailureExtends(d1, rest, cl);
      } else {
        DrainSettles(d1, cl);
        PushSplits(d1, rest, cl);
        FailedChunksAreText(Drain(d1, cl).decoder, chunks[1..], cl);
      }
    }
  }

  /** Exactly when chunking is invisible for a stream that one push accepts: every push succeeds if and
      only if the stream is not text, or the unended line at every chunk boundary is within the bound. */
  lemma ChunksAcceptedIff(d: Decoder, chunks: seq<seq<byte>>, cl: Classes)
    requires Settled(d, cl) && Push(d, Concat(chunks), cl).Done?
    ensures PushAll(d, chunks, cl).Done? <==> !TextStream(d, Concat(chunks)) || TailsFit(d.buffer, chunks)
  {
    hide TakeTurn, Drain, TailsFit, AllHex;
    if TextStream(d, Concat(chunks)) {
      TextChunksAcceptedIff(d, chunks, cl);
    } else {
      OtherChunksAreAccepted(d, chunks, cl);
    }
  }

  ghost predicate AcceptsAscii(cl: Classes) { forall s: seq<byte> :: (forall b :: b in s ==> b < 128) ==> cl.utf8(s) }

  /** A fresh decoder accepts a long line that comes with its newline and refuses it when a chunk ends
      inside it. */
  lemma LongLineDependsOnChunking(cl: Classes)
    requires AcceptsAscii(cl)
    ensures var line := seq<byte>(MAX_PAYLOAD + 1, _ => TAB);
            Push(FRESH, line + [NEWLINE], cl).Done? && PushAll(FRESH, [line, [NEWLINE]], cl).Failed?
  {
    hide Drain, TakeTurn, Tail;
    var line := seq<byte>(MAX_PAYLOAD + 1, _ => TAB);
    var chunks: seq<seq<byte>> := [line, [NEWLINE]];
    var all := line + [NEWLINE];
    assert Concat(chunks) == all by {
      assert chunks[1..] == [[NEWLINE]] && |chunks[1..][1..]| == 0;
      assert Concat([[NEWLINE]]) == [NEWLINE] + Concat<byte>([]);
    }
    assert FRESH.buffer + all == all && all[0] == TAB;
    LongLineIsText(all);
    WholeLineDecodes(FRESH.(buffer := all, mode := Text), line, cl);
    DrainsAsText(FRESH.(buffer := all), cl);
    assert Extend(FRESH, all) == FRESH.(buffer := all);
    FreshIsSettled(cl);
    ChunksAcceptedIff(FRESH, chunks, cl);
    assert FRESH.buffer + Concat(chunks[..1]) == line by {
      assert chunks[..1] == [line];
      assert Concat([line]) == line + Concat<byte>([]);
    }
    TailOfOneLine(line);
    assert Tail(FRESH.buffer + Concat(chunks[..1])) > MAX_PAYLOAD;
  }

  lemma FreshIsSettled(cl: Classes)
    ensures Settled(FRESH, cl)
  {
  }

  lemma LongLineIsText(s: seq<byte>)
    requires |s| >= 4 && s[0] == TAB
    ensures !AllHex(s[..4])
  {
    assert HexDigit(s[..4][0]) == None;
  }

  lemma NewlineEnds(line: seq<byte>)
    requires NEWLINE !in line
    ensures NewlineAt(line) == |line| == NewlineAt(line + [NEWLINE])
  {
    var n := NewlineAt(line + [NEWLINE]);
    assert (line + [NEWLINE])[|line|] == NEWLINE && n <= |line|;
    assert forall i :: 0 <= i < |line| ==> (line + [NEWLINE])[i] == line[i];
  }

  lemma WholeLineDecodes(d: Decoder, line: seq<byte>, cl: Classes)
    requires d.mode == Text && d.buffer == line + [NEWLINE] && AcceptsAscii(cl)
    requires forall b :: b in line ==> b < 128 && b != NEWLINE
    ensures Drain(d, cl).Done?
  {
    hide PushLine;
    NewlineEnds(line);
    assert d.buffer[..|line|] == line;
    forall b | b in OneLess(line) ensures b < 128 { assert b in line; }
    var t := LineTurn(d, cl);
    assert t.Took? && t.next.buffer == [];
    assert LineTurn(t.next, cl) == Waiting;
    assert Drain(t.next, cl).Done?;
  }

  // -------------------------------------------------------- what a stream must decode to

  function HexByte(n: nat): byte
    requires n < 16
  {
    if n < 10 then 48 + n else 87 + n
  }

  /** A length in four hex digits, the most significant first. */
  function Hex4(n: nat): (s: seq<byte>)
    requires n < 65_536
    ensures |s| == 4
  {
    [HexByte(n / 16 / 16 / 16), HexByte(n / 16 / 16 % 16), HexByte(n / 16 % 16), HexByte(n % 16)]
  }

  function FrameOf(p: seq<byte>): seq<byte>
    requires |p| < 65_536
  {
    Hex4(|p|) + p
  }

  lemma HexByteReads(n: nat)
    requires n < 16
    ensures HexDigit(HexByte(n)) == Some(n)
  {
  }

  /** The length field is read most significant digit first. */
  lemma Hex4Reads(n: nat)
    requires n < 65_536
    ensures AllHex(Hex4(n)) && Length(Hex4(n)) == n
  {
    hide HexByte, HexDigit, AllHex, Length;
    var x := n / 16;
    var y := x / 16;
    var a, b, c, d := y / 16, y % 16, x % 16, n % 16;
    HexByteReads(a);
    HexByteReads(b);
    HexByteReads(c);
    HexByteReads(d);
    FourDigits(HexByte(a), HexByte(b), HexByte(c), HexByte(d));
    assert n == 16 * x + d && x == 16 * y + c && y == 16 * a + b;
  }

  function LowerCase(b: byte): byte { if 65 <= b <= 90 then b + 32 else b }

  /** Lengths in upper case are read like those in lower case. */
  lemma {:induction false} LengthIgnoresCase(s: seq<byte>, t: seq<byte>)
    requires |s| == |t| && forall i :: 0 <= i < |s| ==> LowerCase(s[i]) == LowerCase(t[i])
    ensures AllHex(s) <==> AllHex(t)
    ensures AllHex(s) ==> Length(s) == Length(t)
  {
    forall i | 0 <= i < |s| ensures HexDigit(s[i]) == HexDigit(t[i]) {}
    if AllHex(s) && s != [] {
      LengthIgnoresCase(s[..|s| - 1], t[..|t| - 1]);
    }
  }

  lemma FourDigits(a: byte, b: byte, c: byte, d: byte)
    requires HexDigit(a).Some? && HexDigit(b).Some? && HexDigit(c).Some? && HexDigit(d).Some?
    ensures AllHex([a, b, c, d])
    ensures Length([a, b, c, d])
            == 4096 * HexDigit(a).value + 256 * HexDigit(b).value + 16 * HexDigit(c).value + HexDigit(d).value
  {
    assert AllHex([a, b, c, d]);
    assert [a, b, c, d][..3] == [a, b, c] && [a, b, c][..2] == [a, b] && [a, b][..1] == [a] && [a][..0] == [];
    assert Length([]) == 0;
    assert Length([a]) == HexDigit(a).value;
    assert Length([a, b]) == 16 * HexDigit(a).value + HexDigit(b).value;
    assert Length([a, b, c]) == 16 * Length([a, b]) + HexDigit(c).value;
  }

  function Frames(ps: seq<seq<byte>>): seq<byte>
    requires forall i :: 0 <= i < |ps| ==> |ps[i]| < 65_536
  {
    if ps == [] then [] else FrameOf(ps[0]) + Frames(ps[1..])
  }

  /** A list of observations without repeated neighbours, `last` being what was observed before it. */
  function Changes(last: Option<bool>, us: seq<bool>): seq<bool>
    decreases |us|
  {
    if us == [] then []
    else (if last == Some(us[0]) then [] else [us[0]]) + Changes(Some(us[0]), us[1..])
  }

  function Availability(ps: seq<seq<byte>>, cl: Classes): seq<bool> {
    seq(|ps|, i requires 0 <= i < |ps| => cl.anyDevice(ps[i]))
  }

  ghost predicate GoodPayloads(ps: seq<seq<byte>>, cl: Classes) {
    forall i :: 0 <= i < |ps| ==> |ps[i]| <= MAX_PAYLOAD && cl.utf8(ps[i])
  }

  /** One well-formed frame in front of anything is taken whole. */
  lemma FrameIsTaken(d: Decoder, p: seq<byte>, more: seq<byte>, cl: Classes)
    requires d.mode == Framed && |p| <= MAX_PAYLOAD && cl.utf8(p) && d.buffer == FrameOf(p) + more
    ensures var up := Some(cl.anyDevice(p));
            TakeTurn(d, cl) == Took(if d.last == up then [] else [cl.anyDevice(p)], d.(buffer := more, last := up))
  {
    hide Length, AllHex, Hex4;
    Hex4Reads(|p|);
    assert d.buffer[..4] == Hex4(|p|) && d.buffer[4..4 + |p|] == p && d.buffer[4 + |p|..] == more;
  }

  /** Frames in front of anything are decoded one by one. */
  lemma {:induction false} FramesAreDecoded(d: Decoder, ps: seq<seq<byte>>, more: seq<byte>, cl: Classes)
    requires d.mode == Framed && GoodPayloads(ps, cl) && d.buffer == Frames(ps) + more
    ensures var us := Availability(ps, cl);
            Drain(d, cl) == Prepend(Changes(d.last, us), Drain(d.(buffer := more, last := LastOf(d.last, us)), cl))
    decreases |ps|
  {
    hide TakeTurn, FrameOf;
    var us := Availability(ps, cl);
    if ps == [] {
      assert d.buffer == more;
      PrependTwice([], [], Drain(d, cl));
      assert d.(buffer := more, last := LastOf(d.last, us)) == d;
    } else {
      var rest := Frames(ps[1..]) + more;
      assert d.buffer == FrameOf(ps[0]) + rest;
      FrameIsTaken(d, ps[0], rest, cl);
      var next := TakeTurn(d, cl).next;
      FramesAreDecoded(next, ps[1..], more, cl);
      assert us[1..] == Availability(ps[1..], cl);
      LastOfTail(d.last, us);
      PrependTwice(TakeTurn(d, cl).emitted, Changes(next.last, us[1..]), Drain(d.(buffer := more, last := LastOf(d.last, us)), cl));
      assert next.(buffer := more, last := LastOf(next.last, us[1..])) == d.(buffer := more, last := LastOf(d.last, us));
    }
  }

  lemma LastOfTail(last: Option<bool>, us: seq<bool>)
    requires us != []
    ensures LastOf(Some(us[0]), us[1..]) == LastOf(last, us)
  {
  }

  lemma DetectsFrames(p: seq<byte>, more: seq<byte>, cl: Classes)
    requires |p| <= MAX_PAYLOAD
    ensures var d := FRESH.(buffer := FrameOf(p) + more);
            Drain(d, cl) == Drain(d.(mode := Framed), cl)
  {
    hide Length, AllHex, Hex4;
    Hex4Reads(|p|);
    var d := FRESH.(buffer := FrameOf(p) + more);
    assert d.buffer[..4] == Hex4(|p|);
    PrependTwice([], [], Drain(d.(mode := Framed), cl));
  }

  /** A stream of well-formed frames decodes to exactly the availability of its payloads without repeated
      neighbours, and nothing is retained. */
  lemma FramedStreamDecodes(ps: seq<seq<byte>>, cl: Classes)
    requires ps != [] && GoodPayloads(ps, cl)
    ensures var us := Availability(ps, cl);
            Push(FRESH, Frames(ps), cl)
            == Done(Changes(None, us), FRESH.(mode := Framed, last := Some(cl.anyDevice(ps[|ps| - 1]))))
  {
    hide TakeTurn, Frames, Drain, Changes, Availability;
    var us := Availability(ps, cl);
    LastAvailability(ps, cl);
    assert Frames(ps) + [] == Frames(ps);
    AfterFrames(ps, [], cl);
    EmptyFramedDrains(FRESH.(mode := Framed, buffer := [], last := LastOf(None, us)), cl);
    assert Changes(None, us) + [] == Changes(None, us);
  }

  lemma LastAvailability(ps: seq<seq<byte>>, cl: Classes)
    requires ps != []
    ensures LastOf(None, Availability(ps, cl)) == Some(cl.anyDevice(ps[|ps| - 1]))
  {
  }

  lemma EmptyFramedDrains(d: Decoder, cl: Classes)
    requires d.mode == Framed && |d.buffer| < 4
    ensures Drain(d, cl) == Done([], d)
  {
  }

  /** After any good frames, a payload that is not UTF-8, a length over the bound and a length that is not
      hex are each refused for what they are. */
  lemma BadFrameIsRefused(ps: seq<seq<byte>>, bad: seq<byte>, header: seq<byte>, more: seq<byte>, n: nat, cl: Classes)
    requires ps != [] && GoodPayloads(ps, cl)
    ensures |bad| <= MAX_PAYLOAD && !cl.utf8(bad) ==> Push(FRESH, Frames(ps) + (FrameOf(bad) + more), cl) == Failed(InvalidUtf8)
    ensures MAX_PAYLOAD < n < 65_536 ==> Push(FRESH, Frames(ps) + (Hex4(n) + more), cl) == Failed(Oversized(n))
    ensures |header| == 4 && !AllHex(header) ==> Push(FRESH, Frames(ps) + (header + more), cl) == Failed(InvalidLength)
  {
    hide TakeTurn, FrameOf, Drain, Hex4, AllHex;
    if |bad| <= MAX_PAYLOAD && !cl.utf8(bad) {
      AfterFrames(ps, FrameOf(bad) + more, cl);
      BadTurn(FRESH.(mode := Framed, buffer := FrameOf(bad) + more, last := LastOf(None, Availability(ps, cl))), bad, header, more, n, cl);
    }
    if MAX_PAYLOAD < n < 65_536 {
      AfterFrames(ps, Hex4(n) + more, cl);
      BadTurn(FRESH.(mode := Framed, buffer := Hex4(n) + more, last := LastOf(None, Availability(ps, cl))), bad, header, more, n, cl);
    }
    if |header| == 4 && !AllHex(header) {
      AfterFrames(ps, header + more, cl);
      BadTurn(FRESH.(mode := Framed, buffer := header + more, last := LastOf(None, Availability(ps, cl))), bad, header, more, n, cl);
    }
  }

  lemma AfterFrames(ps: seq<seq<byte>>, more: seq<byte>, cl: Classes)
    requires ps != [] && GoodPayloads(ps, cl)
    ensures var us := Availability(ps, cl);
            Push(FRESH, Frames(ps) + more, cl)
            == Prepend(Changes(None, us), Drain(FRESH.(mode := Framed, buffer := more, last := LastOf(None, us)), cl))
  {
    hide TakeTurn, FrameOf, Drain;
    assert FRESH.buffer + (Frames(ps) + more) == FrameOf(ps[0]) + (Frames(ps[1..]) + more) == Frames(ps) + more;
    DetectsFrames(ps[0], Frames(ps[1..]) + more, cl);
    FramesAreDecoded(FRESH.(mode := Framed, buffer := Frames(ps) + more), ps, more, cl);
  }

  lemma BadTurn(d: Decoder, bad: seq<byte>, header: seq<byte>, more: seq<byte>, n: nat, cl: Classes)
    requires d.mode == Framed
    ensures |bad| <= MAX_PAYLOAD && !cl.utf8(bad) && d.buffer == FrameOf(bad) + more ==> Drain(d, cl) == Failed(InvalidUtf8)
    ensures MAX_PAYLOAD < n < 65_536 && d.buffer == Hex4(n) + more ==> Drain(d, cl) == Failed(Oversized(n))
    ensures |header| == 4 && !AllHex(header) && d.buffer == header + more ==> Drain(d, cl) == Failed(InvalidLength)
  {
    hide Length, AllHex, Hex4;
    if |bad| <= MAX_PAYLOAD && d.buffer == FrameOf(bad) + more {
      Hex4Reads(|bad|);
      assert d.buffer[..4] == Hex4(|bad|) && d.buffer[4..4 + |bad|] == bad;
    }
    if MAX_PAYLOAD < n < 65_536 && d.buffer == Hex4(n) + more {
      Hex4Reads(n);
      assert d.buffer[..4] == Hex4(n);
    }
    if |header| == 4 && d.buffer == header + more { assert d.buffer[..4] == header; }
  }

  // ------------------------------------------------------------------- text snapshots

  /** A line as the stream carries it, with or without a carriage return. */
  function LineText(line: seq<byte>, cr: bool): seq<byte> { line + (if cr then [CARRIAGE_RETURN] else []) + [NEWLINE] }

  predicate PlainLine(line: seq<byte>, cl: Classes) {
    NEWLINE !in line && CARRIAGE_RETURN !in line && cl.utf8(line)
  }

  lemma {:induction false} NothingToTrim(line: seq<byte>)
    requires CARRIAGE_RETURN !in line
    ensures TrimCarriageReturns(line) == line && OneLess(line) == line
    ensures OneLess(line + [CARRIAGE_RETURN]) == line
  {
    if line != [] { assert line[|line| - 1] in line; }
    assert (line + [CARRIAGE_RETURN])[..|line|] == line;
  }

  function CarriageReturns(k: nat): seq<byte> { seq(k, _ => CARRIAGE_RETURN) }

  /** However many carriage returns a line ends with, the parser sees the same line. */
  lemma {:induction false} LineEndingsAreIgnored(p: LineParser, line: seq<byte>, k: nat, cl: Classes)
    ensures PushLine(p, line + CarriageReturns(k), cl) == PushLine(p, line, cl)
  {
    TrimmedAlike(line, k);
  }

  lemma {:induction false} TrimmedAlike(line: seq<byte>, k: nat)
    ensures TrimCarriageReturns(line + CarriageReturns(k)) == TrimCarriageReturns(line)
  {
    var all := line + CarriageReturns(k);
    if k == 0 {
      assert all == line;
    } else {
      assert all[|all| - 1] == CARRIAGE_RETURN && all[..|all| - 1] == line + CarriageReturns(k - 1);
      TrimmedAlike(line, k - 1);
    }
  }

  /** A whole line in front of anything is taken without its ending. */
  lemma LineIsTaken(d: Decoder, line: seq<byte>, cr: bool, more: seq<byte>, cl: Classes)
    requires d.mode == Text && PlainLine(line, cl) && d.buffer == LineText(line, cr) + more
    ensures var (text, update) := PushLine(d.text, line, cl);
            TakeTurn(d, cl) == Took(Emitted(d, update), Noted(d.(buffer := more, text := text), update))
  {
    hide NewlineAt, PushLine, TrimCarriageReturns;
    var raw := line + (if cr then [CARRIAGE_RETURN] else []);
    NothingToTrim(line);
    assert OneLess(raw) == line by { if !cr { assert raw == line; } }
    assert NEWLINE !in raw;
    NewlineEnds(raw);
    NewlineOfExtension(raw + [NEWLINE], more);
    assert d.buffer[..|raw|] == raw && d.buffer[|raw| + 1..] == more;
  }

  /** A whole line that is not UTF-8 is refused for it, whatever follows. */
  lemma BadLineIsRefused(d: Decoder, line: seq<byte>, cr: bool, more: seq<byte>, cl: Classes)
    requires d.mode == Text && NEWLINE !in line && CARRIAGE_RETURN !in line && !cl.utf8(line)
    requires d.buffer == LineText(line, cr) + more
    ensures Drain(d, cl) == Failed(InvalidUtf8)
  {
    hide NewlineAt, PushLine, TrimCarriageReturns;
    var raw := line + (if cr then [CARRIAGE_RETURN] else []);
    NothingToTrim(line);
    assert OneLess(raw) == line by { if !cr { assert raw == line; } }
    assert NEWLINE !in raw;
    NewlineEnds(raw);
    NewlineOfExtension(raw + [NEWLINE], more);
    assert d.buffer[..|raw|] == raw;
  }

  datatype Line = Line(text: seq<byte>, cr: bool)

  function Body(ls: seq<Line>): seq<byte> { if ls == [] then [] else LineText(ls[0].text, ls[0].cr) + Body(ls[1..]) }

  /** Some device of the listing is in state `device`. */
  ghost predicate AnyDevice(ls: seq<Line>, cl: Classes) { exists i :: 0 <= i < |ls| && cl.deviceLine(ls[i].text) }

  ghost predicate Listing(ls: seq<Line>, cl: Classes) {
    forall i :: 0 <= i < |ls| ==> PlainLine(ls[i].text, cl) && ls[i].text != [] && ls[i].text != cl.header
  }

  /** Inside a snapshot the device lines are read off; the first one in state `device` reports it. */
  lemma {:induction false} ListingIsRead(d: Decoder, ls: seq<Line>, more: seq<byte>, cl: Classes)
    requires d.mode == Text && d.text.inSnapshot && Listing(ls, cl) && d.buffer == Body(ls) + more
    ensures var seen := AnyDevice(ls, cl);
            var us := if seen && d.last != Some(true) then [true] else [];
            Drain(d, cl) == Prepend(us, Drain(d.(buffer := more, text := LineParser(true, d.text.available || seen),
                                                 last := if seen then Some(true) else d.last), cl))
    decreases |ls|
  {
    hide TakeTurn, LineText, PlainLine;
    if ls == [] {
      assert d.buffer == more;
      PrependTwice([], [], Drain(d, cl));
    } else {
      var rest, line := Body(ls[1..]) + more, ls[0].text;
      assert d.buffer == LineText(line, ls[0].cr) + rest;
      LineIsTaken(d, line, ls[0].cr, rest, cl);
      DeviceLine(d.text, line, cl);
      var turn := TakeTurn(d, cl);
      ListingIsRead(turn.next, ls[1..], more, cl);
      assert AnyDevice(ls, cl) <==> cl.deviceLine(line) || AnyDevice(ls[1..], cl) by { AnyDeviceStep(ls, cl); }
      var seen := AnyDevice(ls[1..], cl);
      var us := if seen && turn.next.last != Some(true) then [true] else [];
      PrependTwice(turn.emitted, us, Drain(d.(buffer := more, text := LineParser(true, d.text.available || AnyDevice(ls, cl)),
                                              last := if AnyDevice(ls, cl) then Some(true) else d.last), cl));
    }
  }

  lemma AnyDeviceStep(ls: seq<Line>, cl: Classes)
    requires ls != []
    ensures AnyDevice(ls, cl) <==> cl.deviceLine(ls[0].text) || AnyDevice(ls[1..], cl)
  {
    if i :| 0 <= i < |ls| && cl.deviceLine(ls[i].text) { if i > 0 { assert ls[1..][i - 1] == ls[i]; } }
    if i :| 0 <= i < |ls[1..]| && cl.deviceLine(ls[1..][i].text) { assert ls[i + 1] == ls[1..][i]; }
  }

  lemma DeviceLine(p: LineParser, line: seq<byte>, cl: Classes)
    requires p.inSnapshot && PlainLine(line, cl) && line != [] && line != cl.header
    ensures PushLine(p, line, cl)
            == (LineParser(true, p.available || cl.deviceLine(line)), if cl.deviceLine(line) then Some(true) else None)
  {
    NothingToTrim(line);
  }

  lemma HeaderAndBlank(p: LineParser, cl: Classes)
    requires PlainLine(cl.header, cl)
    ensures PushLine(p, cl.header, cl) == (LineParser(true, false), if p.inSnapshot then Some(p.available) else None)
    ensures cl.header != [] ==> PushLine(p, [], cl) == (LineParser(false, false), Some(p.inSnapshot && p.available))
  {
    NothingToTrim(cl.header);
  }

  /** A whole snapshot as text, the header, the devices and the blank line, reports whether any device is
      in state `device`, once and without repeating what was reported last, and leaves the decoder
      between snapshots with nothing retained. */
  lemma SnapshotIsReported(d: Decoder, ls: seq<Line>, a: bool, b: bool, cl: Classes)
    requires d.mode == Text && d.buffer == [] && !d.text.inSnapshot && Listing(ls, cl)
    requires PlainLine(cl.header, cl) && cl.header != [] && PlainLine([], cl)
    ensures var any := AnyDevice(ls, cl);
            Push(d, LineText(cl.header, a) + (Body(ls) + LineText([], b)), cl)
            == Done(if d.last == Some(any) then [] else [any], d.(text := LineParser(false, false), last := Some(any)))
  {
    hide TakeTurn, LineText, PlainLine, Listing, PushLine;
    var any := AnyDevice(ls, cl);
    var blank := LineText([], b);
    var rest := Body(ls) + blank;
    var d0 := d.(buffer := LineText(cl.header, a) + rest);
    assert Extend(d, LineText(cl.header, a) + rest) == d0 by { assert [] + (LineText(cl.header, a) + rest) == LineText(cl.header, a) + rest; }
    LineIsTaken(d0, cl.header, a, rest, cl);
    HeaderAndBlank(d.text, cl);
    var d1 := d.(buffer := rest, text := LineParser(true, false));
    assert TakeTurn(d0, cl) == Took([], d1);
    ListingIsRead(d1, ls, blank, cl);
    var d2 := d.(buffer := blank, text := LineParser(true, any), last := if any then Some(true) else d.last);
    var us := if any && d.last != Some(true) then [true] else [];
    assert d1.(buffer := blank, text := LineParser(true, false || any), last := if any then Some(true) else d1.last) == d2;
    BlankEndsSnapshot(d2, b, cl);
    var vs := if d2.last == Some(any) then [] else [any];
    PrependTwice([], us, Drain(d2, cl));
    PrependTwice(us, vs, Done([], d.(text := LineParser(false, false), last := Some(any))));
    assert us + vs == if d.last == Some(any) then [] else [any];
  }

  lemma BlankEndsSnapshot(d: Decoder, b: bool, cl: Classes)
    requires d.mode == Text && d.text.inSnapshot && d.buffer == LineText([], b) && PlainLine(cl.header, cl) && cl.header != []
    requires PlainLine([], cl)
    ensures var any := d.text.available;
            Drain(d, cl) == Prepend(if d.last == Some(any) then [] else [any],
                                    Done([], d.(buffer := [], text := LineParser(false, false), last := Some(any))))
  {
    hide TakeTurn, LineText, PlainLine, PushLine;
    assert d.buffer == LineText([], b) + [];
    LineIsTaken(d, [], b, [], cl);
    HeaderAndBlank(d.text, cl);
    var next := d.(buffer := [], text := LineParser(false, false), last := Some(d.text.available));
    assert TakeTurn(d, cl).next == next;
    EmptyTextDrains(next, cl);
  }

  lemma EmptyTextDrains(d: Decoder, cl: Classes)
    requires d.mode == Text && d.buffer == []
    ensures Drain(d, cl) == Done([], d)
  {
  }

  /** Without a header, the first line with a tab opens the snapshot, and what comes before it is noise. */
  lemma FirstTabOpens(p: LineParser, line: seq<byte>, cl: Classes)
    requires !p.inSnapshot && PlainLine(line, cl) && line != [] && line != cl.header
    ensures PushLine(p, line, cl) ==
            if TAB in line
            then (LineParser(true, cl.deviceLine(line)), if cl.deviceLine(line) then Some(true) else None) else (p, None)
  {
    NothingToTrim(line);
  }

  // ------------------------------------------------------------ the source's object

  class TrackDevicesDecoder {
    var mode: Mode
    var buffer: seq<byte>
    var text: LineParser
    var last: Option<bool>

    function Model(): Decoder
      reads this
    {
      Decoder(mode, buffer, text, last)
    }

    constructor ()
      ensures Model() == FRESH
    {
      mode, buffer, text, last := Unknown, [], LineParser(false, false), None;
    }

    /** Records an update unless it repeats the last one. */
    method Note(update: Option<bool>) returns (emitted: seq<bool>)
      modifies this`last
      ensures emitted == Emitted(old(Model()), update) && Model() == Noted(old(Model()), update)
    {
      emitted := [];
      if update.Some? && last != update {
        last, emitted := update, [update.value];
      }
    }

    /** Takes one whole frame off the buffer. */
    method TakeFrame(cl: Classes) returns (r: Taken)
      requires mode == Framed
      modifies this
      ensures Agrees(r, Model(), old(Model()), FrameTurn(old(Model()), cl))
    {
      hide Length, AllHex;
      if |buffer| < 4 { return Later; }
      if !AllHex(buffer[..4]) { return Broken(InvalidLength); }
      var n := Length(buffer[..4]);
      if n > MAX_PAYLOAD { return Broken(Oversized(n)); }
      if |buffer| < 4 + n { return Later; }
      var payload := buffer[4..4 + n];
      if !cl.utf8(payload) { return Broken(InvalidUtf8); }
      buffer := buffer[4 + n..];
      var emitted := Note(Some(cl.anyDevice(payload)));
      return Emit(emitted);
    }

    /** Takes one whole line off the buffer. */
    method TakeLine(cl: Classes) returns (r: Taken)
      requires mode == Text
      modifies this
      ensures Agrees(r, Model(), old(Model()), LineTurn(old(Model()), cl))
    {
      hide NewlineAt, PushLine;
      var n := NewlineAt(buffer);
      if n == |buffer| {
        if n > MAX_PAYLOAD { return Broken(Oversized(n)); }
        return Later;
      }
      var line := OneLess(buffer[..n]);
      buffer := buffer[n + 1..];
      if !cl.utf8(line) { return Broken(InvalidUtf8); }
      var (text', update) := PushLine(text, line, cl);
      text := text';
      var emitted := Note(update);
      return Emit(emitted);
    }

    /** Tells the two stream forms apart once four bytes are there. */
    method DetectMode() returns (r: Taken)
      requires mode == Unknown
      modifies this`mode
      ensures Agrees(r, Model(), old(Model()), Detect(old(Model())))
    {
      hide Length, AllHex;
      if |buffer| < 4 { return Later; }
      if !AllHex(buffer[..4]) {
        mode := Text;
      } else {
        var n := Length(buffer[..4]);
        if n > MAX_PAYLOAD { return Broken(Oversized(n)); }
        mode := Framed;
      }
      return Emit([]);
    }

    /** A successful push returns what draining the extended buffer emits and leaves the drained
        decoder; a failed one returns the same error. */
    method PushBytes(bytes: seq<byte>, cl: Classes) returns (r: Result<seq<bool>, DecodeError>)
      modifies this
      ensures match Push(old(Model()), bytes, cl)
              case Done(us, d) => r == Ok(us) && Model() == d
              case Failed(e) => r == Err(e)
    {
      hide Detect, FrameTurn, LineTurn;
      buffer := buffer + bytes;
      ghost var start := Drain(Model(), cl);
      var updates := [];
      PrependTwice([], [], start);
      while true
        invariant Prepend(updates, Drain(Model(), cl)) == start
        decreases Rank(Model())
      {
        ghost var d := Model();
        var taken: Taken;
        if mode == Unknown {
          taken := DetectMode();
        } else if mode == Framed {
          taken := TakeFrame(cl);
        } else {
          taken := TakeLine(cl);
        }
        assert Agrees(taken, Model(), d, TakeTurn(d, cl));
        match taken {
          case Broken(e) => return Err(e);
          case Later => assert updates + [] == updates; return Ok(updates);
          case Emit(emitted) =>
            PrependTwice(updates, emitted, Drain(Model(), cl));
            updates := updates + emitted;
        }
      }
    }
  }

  /** What the object's own turn hands back; the new state is in the object. */
  datatype Taken = Emit(emitted: seq<bool>) | Later | Broken(error: DecodeError)

  /** The object did exactly the turn `t` of the decoder it was before; what an error leaves behind
      is not looked at again. */
  ghost predicate Agrees(r: Taken, after: Decoder, before: Decoder, t: Turn) {
    match t
    case Took(us, d) => r == Emit(us) && after == d
    case Waiting => r == Later && after == before
    case Refused(e) => r == Broken(e)
  }
}
