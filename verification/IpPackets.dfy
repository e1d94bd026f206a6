/** Reassembly of IP packets from arbitrary writes (IPPacketOutputStream.java): one byte buffer with
    a position and a limit, drained packet by packet by the total-length field of section 3.1 of
    RFC 791. */
module IpPackets {
  import opened Base

  const MAX_PACKET: nat := 0x1_0000
  const CAPACITY: nat := 2 * MAX_PACKET

  type Packet = seq<byte>

  function Version(s: seq<byte>): nat
    requires s != []
  {
    s[0] / 16
  }

  function TotalLength(s: seq<byte>): nat
    requires |s| >= 4
  {
    (s[2] as int) * 256 + s[3]
  }

  /** What draining the buffered bytes does: it forwards whole packets and keeps the rest; on a
      version other than 4 it clears the buffer; on a zero total length it never returns. */
  datatype Drained = Kept(packets: seq<Packet>, rest: seq<byte>) | Cleared(packets: seq<Packet>) | Endless

  function Forward(p: Packet, d: Drained): Drained {
    match d
    case Kept(ps, rest) => Kept([p] + ps, rest)
    case Cleared(ps) => Cleared([p] + ps)
    case Endless => Endless
  }

  function Drain(s: seq<byte>): Drained
    decreases |s|
  {
    if s == [] then Kept([], s)
    else if Version(s) != 4 then Cleared([])
    else if |s| < 4 || TotalLength(s) > |s| then Kept([], s)
    else if TotalLength(s) == 0 then Endless
    else Forward(s[..TotalLength(s)], Drain(s[TotalLength(s)..]))
  }

  /** What draining does first. */
  lemma FirstMove(s: seq<byte>)
    ensures s == [] ==> Drain(s) == Kept([], s)
    ensures s != [] && Version(s) != 4 ==> Drain(s) == Cleared([])
    ensures s != [] && Version(s) == 4 && (|s| < 4 || TotalLength(s) > |s|) ==> Drain(s) == Kept([], s)
    ensures |s| >= 4 && Version(s) == 4 && TotalLength(s) == 0 ==> Drain(s) == Endless
    ensures |s| >= 4 && Version(s) == 4 && 0 < TotalLength(s) <= |s| ==>
              Drain(s) == Forward(s[..TotalLength(s)], Drain(s[TotalLength(s)..]))
  {
  }

  /** One `write` on what the buffer retained: `None` if it throws, clears or hangs. */
  function Feed(pending: seq<byte>, chunk: seq<byte>): Option<(seq<Packet>, seq<byte>)> {
    if |chunk| > MAX_PACKET || |pending| + |chunk| > CAPACITY then None
    else match Drain(pending + chunk)
      case Kept(ps, rest) => Some((ps, rest))
      case _ => None
  }

  function FeedAll(pending: seq<byte>, chunks: seq<seq<byte>>): Option<(seq<Packet>, seq<byte>)>
    decreases |chunks|
  {
    if chunks == [] then Some(([], pending))
    else match Feed(pending, chunks[0])
      case None => None
      case Some((ps, rest)) =>
        match FeedAll(rest, chunks[1..])
        case None => None
        case Some((more, rest')) => Some((ps + more, rest'))
  }

  // ------------------------------------------------------------------- exactness

  /** An IPv4 packet whose total-length field is its length. */
  predicate ValidPacket(p: Packet) { |p| >= 4 && Version(p) == 4 && TotalLength(p) == |p| }

  predicate AllValid(ps: seq<Packet>) { forall i :: 0 <= i < |ps| ==> ValidPacket(ps[i]) }

  /** What a valid packet is, byte by byte: version 4 in the high half of the first byte, the length in
      the third and fourth, most significant first. */
  lemma ValidPacketIff(p: Packet)
    ensures ValidPacket(p) <==>
              4 <= |p| < 65_536 && 64 <= p[0] < 80 && p[2] == |p| / 256 && p[3] == |p| % 256
  {
  }

  /** `s` is the first `j` packets followed by a proper part of the next one. */
  ghost predicate CutsAt(ps: seq<Packet>, s: seq<byte>, j: nat, rest: seq<byte>) {
    && j <= |ps| && s == Concat(ps[..j]) + rest
    && (if j < |ps| then |rest| < |ps[j]| && rest <= ps[j] else rest == [])
  }

  lemma WholePacketDrains(p: Packet, s: seq<byte>)
    requires ValidPacket(p)
    ensures Drain(p + s) == Forward(p, Drain(s))
  {
    var all := p + s;
    assert all[0] == p[0] && all[2] == p[2] && all[3] == p[3];
    assert all[..|p|] == p && all[|p|..] == s;
  }

  lemma PartOfPacketStays(p: Packet, s: seq<byte>)
    requires ValidPacket(p) && s <= p && |s| < |p|
    ensures Drain(s) == Kept([], s)
  {
  }

  /** Draining any prefix of a packet stream forwards exactly its whole packets, in order, and keeps
      the unfinished one. */
  lemma {:induction false} PrefixDrains(ps: seq<Packet>, s: seq<byte>) returns (j: nat, rest: seq<byte>)
    requires AllValid(ps) && s <= Concat(ps)
    ensures CutsAt(ps, s, j, rest) && Drain(s) == Kept(ps[..j], rest)
    decreases |ps|
  {
    hide Drain, ValidPacket, Concat;
    if ps == [] {
      j, rest := 0, [];
      EmptyStream(ps, s);
    } else {
      var p, tail := ps[0], Concat(ps[1..]);
      assert ValidPacket(p) && Concat(ps) == p + tail by { FirstPart(ps); }
      if |s| < |p| {
        j, rest := 0, s;
        assert s == p[..|s|];
        PartOfPacketStays(p, s);
        EmptyStream(ps[..0], []);
      } else {
        var s' := s[|p|..];
        assert s == p + s' && s' <= tail;
        var i;
        i, rest := PrefixDrains(ps[1..], s');
        j := i + 1;
        WholePacketDrains(p, s');
        assert ps[..j] == [p] + ps[1..][..i];
        assert Concat(ps[..j]) == p + Concat(ps[1..][..i]) by { FirstPart(ps[..j]); assert ps[..j][1..] == ps[1..][..i]; }
        assert s == p + (Concat(ps[1..][..i]) + rest) == Concat(ps[..j]) + rest;
      }
    }
  }

  lemma FirstPart(ps: seq<Packet>)
    requires ps != []
    ensures Concat(ps) == ps[0] + Concat(ps[1..])
  {
  }

  lemma EmptyStream(ps: seq<Packet>, s: seq<byte>)
    requires ps == [] && s <= Concat(ps)
    ensures s == Concat(ps) == [] && Drain(s) == Kept([], [])
  {
  }

  /** `s` is a proper part of the packet that comes next. */
  ghost predicate Unfinished(ps: seq<Packet>, s: seq<byte>) {
    if ps == [] then s == [] else |s| < |ps[0]| && s <= ps[0]
  }

  /** One write in the middle of a packet stream finds room, forwards the packets it completes, and
      leaves the stream again in the middle of the next one. */
  lemma OneWrite(ps: seq<Packet>, pending: seq<byte>, chunk: seq<byte>, later: seq<byte>) returns (j: nat, rest: seq<byte>)
    requires AllValid(ps) && Unfinished(ps, pending) && |chunk| <= MAX_PACKET
    requires pending + chunk + later == Concat(ps)
    ensures j <= |ps| && Feed(pending, chunk) == Some((ps[..j], rest))
    ensures Unfinished(ps[j..], rest) && rest + later == Concat(ps[j..])
  {
    hide Drain, Concat;
    var all := pending + chunk;
    assert all == Concat(ps)[..|all|];
    j, rest := PrefixDrains(ps, all);
    assert |pending| <= MAX_PACKET by { if ps != [] { assert ValidPacket(ps[0]); } }
    assert ps == ps[..j] + ps[j..];
    ConcatAppend(ps[..j], ps[j..]);
    assert Concat(ps[..j]) + (rest + later) == Concat(ps[..j]) + Concat(ps[j..]);
    SameAfter(Concat(ps[..j]), rest + later, Concat(ps[j..]));
  }

  lemma SameAfter(a: seq<byte>, b: seq<byte>, c: seq<byte>)
    requires a + b == a + c
    ensures b == c
  {
    assert b == (a + b)[|a|..] && c == (a + c)[|a|..];
  }

  lemma NoPacketLeft(ps: seq<Packet>, pending: seq<byte>)
    requires Unfinished(ps, pending) && pending == Concat(ps)
    ensures ps == [] && pending == []
  {
    if ps != [] { FirstPart(ps); assert false; }
  }

  lemma ValidTail(ps: seq<Packet>, j: nat)
    requires AllValid(ps) && j <= |ps|
    ensures AllValid(ps[j..])
  {
  }

  /** For any stream of IPv4 packets with correct lengths, cut into writes of at most 65536 bytes in
      any way, every write finds room, the target gets one write per packet in order, and nothing
      is left over. `pending` is what earlier writes left of the first packet. */
  lemma {:induction false} ReassemblyIsExact(ps: seq<Packet>, pending: seq<byte>, chunks: seq<seq<byte>>)
    requires AllValid(ps) && Unfinished(ps, pending)
    requires forall i :: 0 <= i < |chunks| ==> |chunks[i]| <= MAX_PACKET
    requires pending + Concat(chunks) == Concat(ps)
    ensures FeedAll(pending, chunks) == Some((ps, []))
    decreases |chunks|
  {
    hide Drain, AllValid;
    if chunks == [] {
      assert pending + [] == pending;
      NoPacketLeft(ps, pending);
    } else {
      var later := Concat(chunks[1..]);
      assert pending + chunks[0] + later == pending + Concat(chunks);
      var j, rest := OneWrite(ps, pending, chunks[0], later);
      ValidTail(ps, j);
      ReassemblyIsExact(ps[j..], rest, chunks[1..]);
      assert ps[..j] + ps[j..] == ps;
    }
  }

  /** Between writes less than one packet is retained, so the buffer always has room for another
      full write. */
  lemma AlwaysRoom(ps: seq<Packet>, fed: seq<byte>) returns (j: nat, rest: seq<byte>)
    requires AllValid(ps) && fed <= Concat(ps)
    ensures j <= |ps| && Drain(fed) == Kept(ps[..j], rest) && |rest| + MAX_PACKET <= CAPACITY
  {
    j, rest := PrefixDrains(ps, fed);
    if j < |ps| { assert ValidPacket(ps[j]); }
  }

  // ----------------------------------------------- when the promise of room is kept

  /** `k` is reached from the start by stepping over whole, non-empty packets. */
  predicate Boundary(s: seq<byte>, k: nat)
    decreases |s|
  {
    k == 0
    || (|s| >= 4 && Version(s) == 4 && 0 < TotalLength(s) <= |s| && TotalLength(s) <= k
        && Boundary(s[TotalLength(s)..], k - TotalLength(s)))
  }

  /** A header of another version stands where a packet begins. */
  ghost predicate OtherVersionAhead(s: seq<byte>) { exists k: nat :: OtherVersionAt(s, k) }

  predicate OtherVersionAt(s: seq<byte>, k: nat) { Boundary(s, k) && k < |s| && s[k] / 16 != 4 }

  /** A header with a zero total length stands where a packet begins. */
  ghost predicate ZeroLengthAhead(s: seq<byte>) { exists k: nat :: ZeroLengthAt(s, k) }

  predicate ZeroLengthAt(s: seq<byte>, k: nat) { Boundary(s, k) && k <= |s| && ZeroLength(s[k..]) }

  /** An IPv4 header with a zero total length: a packet that moves nothing. */
  predicate ZeroLength(s: seq<byte>) { |s| >= 4 && Version(s) == 4 && TotalLength(s) == 0 }

  /** What ends a drain, seen on the bytes: it clears exactly on another version, and is endless exactly
      on a zero total length, where a packet begins. */
  lemma {:induction false} DrainEndsIff(s: seq<byte>)
    ensures Drain(s).Cleared? <==> OtherVersionAhead(s)
    ensures Drain(s).Endless? <==> ZeroLengthAhead(s)
    decreases |s|
  {
    if s == [] || Version(s) != 4 || |s| < 4 || TotalLength(s) > |s| || TotalLength(s) == 0 {
      StopsAtOnce(s);
    } else {
      var n := TotalLength(s);
      DrainEndsIff(s[n..]);
      BoundaryBehindPacket(s);
    }
  }

  lemma StopsAtOnce(s: seq<byte>)
    requires s == [] || Version(s) != 4 || |s| < 4 || TotalLength(s) > |s| || TotalLength(s) == 0
    ensures Drain(s).Cleared? <==> OtherVersionAhead(s)
    ensures Drain(s).Endless? <==> ZeroLengthAhead(s)
  {
    assert s[0..] == s && Boundary(s, 0);
    if s != [] && Version(s) != 4 { assert OtherVersionAt(s, 0); }
    if ZeroLength(s) { assert ZeroLengthAt(s, 0); }
  }

  /** Behind a whole packet the same headers stand ahead. */
  lemma BoundaryBehindPacket(s: seq<byte>)
    requires |s| >= 4 && Version(s) == 4 && 0 < TotalLength(s) <= |s|
    ensures OtherVersionAhead(s) <==> OtherVersionAhead(s[TotalLength(s)..])
    ensures ZeroLengthAhead(s) <==> ZeroLengthAhead(s[TotalLength(s)..])
  {
    var n := TotalLength(s);
    forall k: nat | k <= |s| - n ensures s[n..][k..] == s[n + k..] {}
    if k: nat :| OtherVersionAt(s, k) { assert OtherVersionAt(s[n..], k - n); }
    if k: nat :| OtherVersionAt(s[n..], k) { assert OtherVersionAt(s, n + k); }
    if k: nat :| ZeroLengthAt(s, k) {
      assert k != 0 by { assert s[0..] == s; }
      assert ZeroLengthAt(s[n..], k - n);
    }
    if k: nat :| ZeroLengthAt(s[n..], k) { assert ZeroLengthAt(s, n + k); }
  }

  /** What a drain keeps is shorter than the longest packet, whatever the bytes are. */
  lemma {:induction false} KeptIsShort(s: seq<byte>)
    ensures Drain(s).Kept? ==> |Drain(s).rest| < MAX_PACKET
    decreases |s|
  {
    if |s| >= 4 && Version(s) == 4 && 0 < TotalLength(s) <= |s| {
      KeptIsShort(s[TotalLength(s)..]);
    }
  }

  // ------------------------------------------------------------ the source's object

  /** How a write ends; `Spinning` stands for a call that never returns. */
  datatype WriteResult = Written | TooLong | Overflow | Spinning

  class IPPacketOutputStream {
    const buffer: array<byte>
    var position: nat
    var limit: nat
    var sent: seq<Packet>     // what the target stream was given, one entry per write

    /** The buffer between two calls: bytes before the position are retained. */
    ghost predicate Valid()
      reads this
    {
      buffer.Length == CAPACITY && position <= limit == CAPACITY
    }

    ghost function Pending(): seq<byte>
      requires Valid()
      reads this, buffer
    {
      buffer[..position]
    }

    constructor ()
      ensures Valid() && fresh(buffer) && Pending() == [] && sent == []
    {
      buffer := new byte[CAPACITY](_ => 0);
      position, limit, sent := 0, CAPACITY, [];
    }

    /** Forwards one whole packet, or says that there is none to forward. A zero total length is
        forwarded as an empty write that leaves the position where it is. */
    method SinkPacket() returns (more: bool)
      requires buffer.Length == CAPACITY && position <= limit <= CAPACITY
      modifies this
      ensures position <= limit <= CAPACITY
      ensures more ==> limit == old(limit) && |sent| > 0 && sent[..|sent| - 1] == old(sent)
      ensures more ==> if ZeroLength(old(buffer[position..limit]))
                       then position == old(position) && sent[|sent| - 1] == [] else position > old(position)
      ensures ZeroLength(old(buffer[position..limit])) ==> more
      ensures more ==> Drain(old(buffer[position..limit])) == Forward(sent[|sent| - 1], Drain(buffer[position..limit]))
      ensures !more ==> sent == old(sent)
      ensures !more ==> if Drain(old(buffer[position..limit])).Cleared?
                        then Drain(old(buffer[position..limit])) == Cleared([]) && position == 0 && limit == CAPACITY
                        else position == old(position) && limit == old(limit)
                             && Drain(buffer[position..limit]) == Kept([], buffer[position..limit])
    {
      hide Drain;
      ghost var view := buffer[position..limit];
      FirstMove(view);
      if position == limit { return false; }
      assert view[0] == buffer[position];
      if buffer[position] / 16 != 4 {
        position, limit := 0, CAPACITY;
        return false;
      }
      if limit < position + 4 { return false; }
      var n := (buffer[position + 2] as int) * 256 + buffer[position + 3];
      assert view[2] == buffer[position + 2] && view[3] == buffer[position + 3];
      assert n == TotalLength(view);
      if n > limit - position { return false; }
      var packet := buffer[position..position + n];
      SliceOfSlice(buffer[..], position, n, limit);
      sent, position := sent + [packet], position + n;
      assert n == 0 ==> buffer[position..limit] == view;
      return true;
    }

    /** Forwards whole packets from the position to the limit, watched for `turns` turns. The loop
        ends within one turn more than there are bytes, or it never does: then it is still going
        after any number of turns. */
    method Sink(turns: nat) returns (finished: bool)
      requires buffer.Length == CAPACITY && position <= limit <= CAPACITY
      modifies this
      ensures position <= limit <= CAPACITY
      ensures Drain(old(buffer[position..limit])).Endless? ==> !finished
      ensures !Drain(old(buffer[position..limit])).Endless? && turns > old(limit - position) ==> finished
      ensures finished ==>
                match Drain(old(buffer[position..limit]))
                case Kept(ps, rest) => sent == old(sent) + ps && buffer[position..limit] == rest && limit == old(limit)
                case Cleared(ps) => sent == old(sent) + ps && position == 0 && limit == CAPACITY
                case Endless => false
    {
      hide Drain;
      ghost var start, from := Drain(buffer[position..limit]), position;
      ghost var forwarded: seq<Packet> := [];
      assert After([], start) == start by { if !start.Endless? { assert [] + start.packets == start.packets; } }
      var more, left := true, turns;
      while more && left > 0
        invariant left <= turns && position <= limit <= CAPACITY
        invariant sent == old(sent) + forwarded
        invariant more ==> limit == old(limit) && After(forwarded, Drain(buffer[position..limit])) == start
        invariant more && !start.Endless? ==> position - from >= turns - left
        invariant start.Endless? ==> more
        invariant !more && start.Kept? ==> limit == old(limit) && start == Kept(forwarded, buffer[position..limit])
        invariant !more && start.Cleared? ==> position == 0 && limit == CAPACITY && start == Cleared(forwarded)
        decreases left
      {
        ghost var view, before := buffer[position..limit], sent;
        ZeroLengthIsEndless(view);
        left := left - 1;
        more := SinkPacket();
        if more {
          AfterForward(forwarded, sent[|sent| - 1], Drain(buffer[position..limit]));
          forwarded := forwarded + [sent[|sent| - 1]];
          assert sent == before + [sent[|sent| - 1]];
        } else {
          assert forwarded + [] == forwarded;
        }
      }
      finished := !more;
    }

    /** `write(byte[], int, int)`. It refuses without change, spins for ever exactly when the
        buffered bytes lead to a zero total length, or has forwarded and retained what draining
        says. Room for another full packet is left exactly when they do not lead to a header of
        another version; after one the compacted buffer is full. */
    method Write(bytes: seq<byte>) returns (r: WriteResult)
      requires Valid()
      modifies this, buffer
      ensures r == (if |bytes| > MAX_PACKET then TooLong
                    else if |old(Pending())| + |bytes| > CAPACITY then Overflow
                    else if Drain(old(Pending()) + bytes).Endless? then Spinning else Written)
      ensures r != Spinning ==> Valid()
      ensures r == TooLong || r == Overflow ==> Pending() == old(Pending()) && sent == old(sent)
      ensures r == Written ==>
                match Drain(old(Pending()) + bytes)
                case Kept(ps, rest) => sent == old(sent) + ps && Pending() == rest
                case Cleared(ps) => sent == old(sent) + ps && |Pending()| == CAPACITY
                case Endless => false
      ensures r == Spinning <==> |bytes| <= MAX_PACKET && |old(Pending())| + |bytes| <= CAPACITY
                                 && ZeroLengthAhead(old(Pending()) + bytes)
      ensures r == Written ==> (|Pending()| + MAX_PACKET <= CAPACITY <==> !OtherVersionAhead(old(Pending()) + bytes))
    {
      hide Drain, OtherVersionAhead, ZeroLengthAhead;
      DrainEndsIff(Pending() + bytes);
      KeptIsShort(Pending() + bytes);
      if |bytes| > MAX_PACKET { return TooLong; }
      if |bytes| > limit - position { return Overflow; }
      forall i | 0 <= i < |bytes| {
        buffer[position + i] := bytes[i];
      }
      position := position + |bytes|;
      assert buffer[..position] == old(Pending()) + bytes;
      position, limit := 0, position;
      var finished := Sink(CAPACITY + 1);
      if !finished { return Spinning; }
      Compact();
      return Written;
    }

    /** A whole run: the packets of a stream, cut into writes in any way, reach the target one write
        per packet, in order, and nothing is retained. */
    method WriteStream(chunks: seq<seq<byte>>, ghost ps: seq<Packet>)
      requires Valid() && AllValid(ps) && Unfinished(ps, Pending())
      requires forall i :: 0 <= i < |chunks| ==> |chunks[i]| <= MAX_PACKET
      requires Pending() + Concat(chunks) == Concat(ps)
      modifies this, buffer
      ensures Valid() && sent == old(sent) + ps && Pending() == []
    {
      hide Drain, AllValid, Concat;
      ghost var done := 0;
      assert ps[0..] == ps && chunks[0..] == chunks;
      for i := 0 to |chunks|
        invariant Valid() && done <= |ps| && sent == old(sent) + ps[..done]
        invariant AllValid(ps[done..]) && Unfinished(ps[done..], Pending())
        invariant Pending() + Concat(chunks[i..]) == Concat(ps[done..])
      {
        ghost var todo, later := ps[done..], Concat(chunks[i + 1..]);
        assert Concat(chunks[i..]) == chunks[i] + later by { FirstPart(chunks[i..]); assert chunks[i..][1..] == chunks[i + 1..]; }
        assert Pending() + chunks[i] + later == Concat(todo);
        ghost var j, rest := OneWrite(todo, Pending(), chunks[i], later);
        var r := Write(chunks[i]);
        ValidTail(todo, j);
        assert todo[j..] == ps[done + j..] && ps[..done] + todo[..j] == ps[..done + j];
        done := done + j;
      }
      assert Concat(chunks[|chunks|..]) == [] by { ConcatNone(chunks); }
      assert Pending() + [] == Pending();
      NoPacketLeft(ps[done..], Pending());
      assert ps[..done] == ps;
    }

    /** One byte of another version, and from then on every write that carries anything is refused and
        the buffer stays full. */
    static method JamWithOtherVersion(later: seq<seq<byte>>) returns (o: IPPacketOutputStream, first: WriteResult, rest: seq<WriteResult>)
      requires forall i :: 0 <= i < |later| ==> 0 < |later[i]| <= MAX_PACKET
      ensures fresh(o) && fresh(o.buffer) && o.Valid() && first == Written
      ensures |rest| == |later| && forall i :: 0 <= i < |rest| ==> rest[i] == Overflow
      ensures |o.Pending()| == CAPACITY && o.sent == []
    {
      hide Drain, OtherVersionAhead, ZeroLengthAhead;
      o := new IPPacketOutputStream();
      assert o.Pending() + [0x60] == [0x60];
      FirstMove([0x60]);
      first := o.Write([0x60]);
      rest := [];
      for i := 0 to |later|
        invariant o.Valid() && fresh(o) && fresh(o.buffer) && |o.Pending()| == CAPACITY && o.sent == []
        invariant |rest| == i && forall k :: 0 <= k < i ==> rest[k] == Overflow
      {
        var r := o.Write(later[i]);
        rest := rest + [r];
      }
    }

    /** Moves what lies between position and limit to the front and reopens the rest for writing. */
    method Compact()
      requires buffer.Length == CAPACITY && position <= limit <= CAPACITY
      modifies this`position, this`limit, buffer
      ensures Valid() && Pending() == old(buffer[position..limit])
    {
      var n := limit - position;
      forall i | 0 <= i < n {
        buffer[i] := buffer[position + i];
      }
      position, limit := n, CAPACITY;
    }
  }

  lemma ZeroLengthIsEndless(s: seq<byte>)
    ensures ZeroLength(s) ==> Drain(s).Endless?
  {
  }

  lemma ConcatNone(parts: seq<seq<byte>>)
    ensures Concat(parts[|parts|..]) == []
  {
  }

  lemma SliceOfSlice(s: seq<byte>, from: nat, n: nat, to: nat)
    requires from + n <= to <= |s|
    ensures s[from..to][..n] == s[from..from + n] && s[from..to][n..] == s[from + n..to]
  {
  }

  /** The packets in `ps` forwarded before what `d` describes. */
  function After(ps: seq<Packet>, d: Drained): Drained {
    match d
    case Kept(more, rest) => Kept(ps + more, rest)
    case Cleared(more) => Cleared(ps + more)
    case Endless => Endless
  }

  lemma AfterForward(ps: seq<Packet>, p: Packet, d: Drained)
    ensures After(ps, Forward(p, d)) == After(ps + [p], d)
  {
    if d.Kept? || d.Cleared? {
      assert ps + ([p] + d.packets) == (ps + [p]) + d.packets;
    }
  }
}
