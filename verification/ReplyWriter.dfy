/** The reply writer of a UDP association (udp.rs), over any self-delimiting frame form: it drains
    queued replies, drops the old and the unaffordable, and batches the rest onto one stream. */
module ReplyWriter {
  import opened Base

  const MAX_UDP_PAYLOAD: nat := 65_507
  const MAX_WRITE_BATCH: nat := 255 + MAX_UDP_PAYLOAD

  type Encoder<!T> = T -> Option<seq<byte>>
  type Reader<!T> = seq<byte> -> Option<(T, seq<byte>)>

  /** A reader takes exactly the encoding of `f` off any stream that starts with it. */
  ghost predicate SelfDelimiting<T>(encode: Encoder<T>, read: Reader<T>, f: T) {
    encode(f).Some? ==> forall rest: seq<byte> :: read(encode(f).value + rest) == Some((f, rest))
  }

  predicate WithinBatch<T>(encode: Encoder<T>, f: T) { encode(f).Some? ==> 0 < |encode(f).value| <= MAX_WRITE_BATCH }

  function Bytes<T>(f: T, encode: Encoder<T>): seq<byte> { if encode(f).Some? then encode(f).value else [] }

  /** The in-order concatenation of the encodings of `fs`. */
  function EncodeAll<T>(fs: seq<T>, encode: Encoder<T>): seq<byte> {
    if fs == [] then [] else EncodeAll(fs[..|fs| - 1], encode) + Bytes(fs[|fs| - 1], encode)
  }

  lemma EncodeAllSnoc<T>(fs: seq<T>, f: T, encode: Encoder<T>)
    ensures EncodeAll(fs + [f], encode) == EncodeAll(fs, encode) + Bytes(f, encode)
  {
    assert (fs + [f])[..|fs|] == fs;
  }

  lemma {:induction false} EncodeAllConcat<T>(a: seq<T>, b: seq<T>, encode: Encoder<T>)
    ensures EncodeAll(a + b, encode) == EncodeAll(a, encode) + EncodeAll(b, encode)
  {
    if b == [] {
      assert a + b == a;
    } else {
      assert (a + b)[..|a + b| - 1] == a + b[..|b| - 1];
      EncodeAllConcat(a, b[..|b| - 1], encode);
    }
  }

  /** Reads frames until the stream ends; `None` when it does not end on a frame boundary. */
  function ReadAll<T>(stream: seq<byte>, read: Reader<T>): Option<seq<T>>
    decreases |stream|
  {
    if stream == [] then Some([])
    else
      var r := read(stream);
      if r == None || |r.value.1| >= |stream| then None
      else
        var more := ReadAll(r.value.1, read);
        if more == None then None else Some([r.value.0] + more.value)
  }

  /** Reading frames off a concatenation of encodings gives the same list back. */
  lemma {:induction false} StreamReadsBack<T>(fs: seq<T>, encode: Encoder<T>, read: Reader<T>)
    requires forall i :: 0 <= i < |fs| ==>
               encode(fs[i]).Some? && SelfDelimiting(encode, read, fs[i]) && WithinBatch(encode, fs[i])
    ensures ReadAll(EncodeAll(fs, encode), read) == Some(fs)
  {
    if fs != [] {
      var f, rest := fs[0], EncodeAll(fs[1..], encode);
      StreamReadsBack(fs[1..], encode, read);
      assert fs == [f] + fs[1..];
      EncodeAllConcat([f], fs[1..], encode);
      assert EncodeAll([f], encode) == encode(f).value by { EncodeAllSnoc([], f, encode); assert [] + [f] == [f]; }
      assert SelfDelimiting(encode, read, f);
      assert read(encode(f).value + rest) == Some((f, rest));
    }
  }

  /** A queued reply with what the environment decides about it: whether it waited too long, and
      whether the byte budget admits its batch reservation. */
  datatype Reply<T> = Reply(frame: T, tooOld: bool, admitted: bool)

  predicate Kept<T>(r: Reply<T>) { !r.tooOld && r.admitted }

  function KeptFrames<T>(rs: seq<Reply<T>>): seq<T> {
    if rs == [] then []
    else if Kept(rs[|rs| - 1]) then KeptFrames(rs[..|rs| - 1]) + [rs[|rs| - 1].frame] else KeptFrames(rs[..|rs| - 1])
  }

  lemma KeptSnoc<T>(rs: seq<Reply<T>>, r: Reply<T>)
    ensures KeptFrames(rs + [r]) == if Kept(r) then KeptFrames(rs) + [r.frame] else KeptFrames(rs)
  {
    assert (rs + [r])[..|rs|] == rs;
  }

  function Sum(ns: seq<nat>): nat { if ns == [] then 0 else Sum(ns[..|ns| - 1]) + ns[|ns| - 1] }

  lemma SumSnoc(ns: seq<nat>, n: nat)
    ensures Sum(ns + [n]) == Sum(ns) + n
  {
    assert (ns + [n])[..|ns|] == ns;
  }

  /** One write to the TCP stream, with the reservations that were held for it. */
  datatype Batch = Batch(data: seq<byte>, reserved: seq<nat>)

  /** The reservations held for a batch add up to its length, and it is within the bound. */
  predicate Balanced(b: Batch) { |b.data| <= MAX_WRITE_BATCH && Sum(b.reserved) == |b.data| }

  predicate BatchOk(b: Batch) { Balanced(b) && b.data != [] }

  function Written(bs: seq<Batch>): seq<byte> {
    if bs == [] then [] else Written(bs[..|bs| - 1]) + bs[|bs| - 1].data
  }

  lemma WrittenSnoc(bs: seq<Batch>, b: Batch)
    ensures Written(bs + [b]) == Written(bs) + b.data
  {
    assert (bs + [b])[..|bs|] == bs;
  }

  lemma {:induction false} WrittenConcat(a: seq<Batch>, b: seq<Batch>)
    ensures Written(a + b) == Written(a) + Written(b)
  {
    if b == [] {
      assert a + b == a;
    } else {
      assert (a + b)[..|a + b| - 1] == a + b[..|b| - 1];
      WrittenConcat(a, b[..|b| - 1]);
    }
  }

  /** Flushes the open batch when the next encoding would not fit beside it. */
  method FlushIfFull(batches: seq<Batch>, open: Batch, next: nat) returns (batches': seq<Batch>, open': Batch)
    requires forall i :: 0 <= i < |batches| ==> BatchOk(batches[i])
    requires Balanced(open) && 0 < next <= MAX_WRITE_BATCH
    ensures forall i :: 0 <= i < |batches'| ==> BatchOk(batches'[i])
    ensures Written(batches') + open'.data == Written(batches) + open.data
    ensures |open'.data| + next <= MAX_WRITE_BATCH && Balanced(open')
    ensures if open.data != [] && |open.data| + next > MAX_WRITE_BATCH
            then batches' == batches + [open] && open' == Batch([], []) else batches' == batches && open' == open
  {
    batches', open' := batches, open;
    if open.data != [] && |open.data| + next > MAX_WRITE_BATCH {
      WrittenSnoc(batches, open);
      batches', open' := batches + [open], Batch([], []);
    }
  }

  /** Appends an encoding together with the reservation taken for it. */
  method AddTo(open: Batch, encoded: seq<byte>) returns (open': Batch)
    requires Balanced(open) && |open.data| + |encoded| <= MAX_WRITE_BATCH
    ensures Balanced(open') && open'.data == open.data + encoded && open'.reserved == open.reserved + [|encoded|]
  {
    SumSnoc(open.reserved, |encoded|);
    open' := Batch(open.data + encoded, open.reserved + [|encoded|]);
  }

  lemma BalancedFits(b: Batch)
    requires Balanced(b)
    ensures |b.data| <= MAX_WRITE_BATCH
  {
  }

  lemma NothingYet<T>(encode: Encoder<T>)
    ensures Written([]) == [] && EncodeAll(KeptFrames<T>([]), encode) == [] && Balanced(Batch([], []))
  {
  }

  /** The writer ended at reply `i`, which has no encoding, and of the replies before it at most the
      batch being filled was not written. */
  ghost predicate LosesOnlyTheOpenBatch<T>(batches: seq<Batch>, group: seq<Reply<T>>, i: nat, encode: Encoder<T>) {
    && i < |group| && !group[i].tooOld && encode(group[i].frame) == None
    && |EncodeAll(KeptFrames(group[..i]), encode)| <= |Written(batches)| + MAX_WRITE_BATCH
  }

  /** One wake of the writer task over the replies it could take without waiting. An unencodable
      reply ends the writer; the batch being filled is then lost with it. */
  method WriteGroup<T>(group: seq<Reply<T>>, encode: Encoder<T>) returns (batches: seq<Batch>, ok: bool, sent: nat)
    requires forall i :: 0 <= i < |group| ==> WithinBatch(encode, group[i].frame)
    ensures forall i :: 0 <= i < |batches| ==> BatchOk(batches[i])
    ensures ok <==> forall i :: 0 <= i < |group| ==> group[i].tooOld || encode(group[i].frame).Some?
    ensures sent <= |group| && (ok ==> sent == |group|)
    ensures forall i :: 0 <= i < sent ==> group[i].tooOld || encode(group[i].frame).Some?
    ensures Written(batches) == EncodeAll(KeptFrames(group[..sent]), encode)
    ensures !ok ==> exists i :: LosesOnlyTheOpenBatch(batches, group, i, encode)
  {
    hide EncodeAll, KeptFrames, Written, Balanced, Sum;
    NothingYet(encode);
    batches, sent := [], 0;
    var open := Batch([], []);
    for i := 0 to |group|
      invariant sent <= i
      invariant forall k :: 0 <= k < |batches| ==> BatchOk(batches[k])
      invariant forall k :: 0 <= k < i ==> group[k].tooOld || encode(group[k].frame).Some?
      invariant Balanced(open)
      invariant Written(batches) == EncodeAll(KeptFrames(group[..sent]), encode)
      invariant Written(batches) + open.data == EncodeAll(KeptFrames(group[..i]), encode)
    {
      var reply := group[i];
      assert group[..i + 1] == group[..i] + [reply];
      KeptSnoc(group[..i], reply);
      if reply.tooOld { continue; }
      if encode(reply.frame) == None {
        assert |open.data| <= MAX_WRITE_BATCH by { BalancedFits(open); }
        assert LosesOnlyTheOpenBatch(batches, group, i, encode);
        return batches, false, sent;
      }
      var encoded := encode(reply.frame).value;
      assert WithinBatch(encode, reply.frame);
      var flushed, rest := FlushIfFull(batches, open, |encoded|);
      if rest.data == [] {
        assert Written(flushed) + rest.data == Written(flushed);
        sent := i;
      }
      batches, open := flushed, rest;
      if !reply.admitted { continue; }
      EncodeAllSnoc(KeptFrames(group[..i]), reply.frame, encode);
      open := AddTo(open, encoded);
      assert Written(batches) + open.data == (Written(batches) + rest.data) + encoded;
    }
    assert group[..|group|] == group;
    if open.data != [] {
      WrittenSnoc(batches, open);
      batches := batches + [open];
    }
    return batches, true, |group|;
  }

  lemma {:induction false} KeptConcat<T>(a: seq<Reply<T>>, b: seq<Reply<T>>)
    ensures KeptFrames(a + b) == KeptFrames(a) + KeptFrames(b)
  {
    if b == [] {
      assert a + b == a;
    } else {
      assert (a + b)[..|a + b| - 1] == a + b[..|b| - 1];
      KeptConcat(a, b[..|b| - 1]);
    }
  }

  lemma {:induction false} KeptAreQueued<T>(rs: seq<Reply<T>>, encode: Encoder<T>)
    requires forall r :: r in rs ==> r.tooOld || encode(r.frame).Some?
    ensures forall i :: 0 <= i < |KeptFrames(rs)| ==>
              encode(KeptFrames(rs)[i]).Some? && exists r :: r in rs && r.frame == KeptFrames(rs)[i]
  {
    if rs != [] {
      var front, last := rs[..|rs| - 1], rs[|rs| - 1];
      KeptAreQueued(front, encode);
      forall i | 0 <= i < |KeptFrames(rs)| ensures exists r :: r in rs && r.frame == KeptFrames(rs)[i] {
        if i < |KeptFrames(front)| {
          var r :| r in front && r.frame == KeptFrames(front)[i];
          assert r in rs;
        } else {
          assert last in rs && last.frame == KeptFrames(rs)[i];
        }
      }
    }
  }

  /** Everything written so far, by the groups handled so far. */
  ghost predicate Progress<T>(batches: seq<Batch>, sent: seq<Reply<T>>, encode: Encoder<T>) {
    && (forall i :: 0 <= i < |batches| ==> BatchOk(batches[i]))
    && (forall r :: r in sent ==> r.tooOld || encode(r.frame).Some?)
    && Written(batches) == EncodeAll(KeptFrames(sent), encode)
  }

  lemma ProgressAdds<T>(a: seq<Batch>, x: seq<Reply<T>>, b: seq<Batch>, y: seq<Reply<T>>, encode: Encoder<T>)
    requires Progress(a, x, encode) && Progress(b, y, encode)
    ensures Progress(a + b, x + y, encode)
  {
    WrittenConcat(a, b);
    KeptConcat(x, y);
    EncodeAllConcat(KeptFrames(x), KeptFrames(y), encode);
  }

  /** What a group loses at its end is what the whole run loses, everything before it being written. */
  lemma LossIsLifted<T>(before: seq<Batch>, sent: seq<Reply<T>>, more: seq<Batch>, group: seq<Reply<T>>, i: nat,
                        all: seq<Reply<T>>, encode: Encoder<T>)
    requires Progress(before, sent, encode) && LosesOnlyTheOpenBatch(more, group, i, encode) && sent + group <= all
    ensures LosesOnlyTheOpenBatch(before + more, all, |sent| + i, encode)
  {
    hide EncodeAll, KeptFrames, Written;
    assert all[..|sent| + i] == sent + group[..i];
    assert all[|sent| + i] == (sent + group)[|sent| + i] == group[i];
    WrittenConcat(before, more);
    KeptConcat(sent, group[..i]);
    EncodeAllConcat(KeptFrames(sent), KeptFrames(group[..i]), encode);
  }

  /** The whole writer task over the groups it wakes up for: its output is exactly the in-order
      encodings of the replies it did not drop, in batches within the bound whose reservations
      add up to them, and reading frames off that output gives those replies back. A reply with no
      encoding ends it, and then at most the batch being filled was not written. */
  method WriteReplies<T>(groups: seq<seq<Reply<T>>>, encode: Encoder<T>, ghost read: Reader<T>)
    returns (batches: seq<Batch>, ok: bool, sent: seq<Reply<T>>)
    requires forall r :: r in Concat(groups) ==> WithinBatch(encode, r.frame) && SelfDelimiting(encode, read, r.frame)
    ensures sent <= Concat(groups) && (ok ==> sent == Concat(groups))
    ensures ok <==> forall r :: r in Concat(groups) ==> r.tooOld || encode(r.frame).Some?
    ensures Progress(batches, sent, encode)
    ensures ReadAll(Written(batches), read) == Some(KeptFrames(sent))
    ensures !ok ==> exists i :: LosesOnlyTheOpenBatch(batches, Concat(groups), i, encode)
  {
    hide EncodeAll, KeptFrames, Written, Concat, ReadAll, SelfDelimiting, WithinBatch, LosesOnlyTheOpenBatch;
    NothingYet(encode);
    batches, sent, ok := [], [], true;
    var g := 0;
    assert Concat(groups[..0]) == [] by { NoParts(groups); }
    while g < |groups| && ok
      invariant g <= |groups|
      invariant Progress(batches, sent, encode)
      invariant sent <= Concat(groups[..g]) && (ok ==> sent == Concat(groups[..g]))
      invariant ok <==> forall r :: r in Concat(groups[..g]) ==> r.tooOld || encode(r.frame).Some?
      invariant !ok ==> exists i :: LosesOnlyTheOpenBatch(batches, Concat(groups), i, encode)
    {
      PrefixOfConcat(groups, g + 1);
      assert groups[..g + 1] == groups[..g] + [groups[g]];
      ConcatSnoc(groups[..g], groups[g]);
      var group := groups[g];
      assert forall i :: 0 <= i < |group| ==> group[i] in Concat(groups[..g + 1]);
      var more, fine, n := WriteGroup(group, encode);
      assert Progress(more, group[..n], encode);
      ProgressAdds(batches, sent, more, group[..n], encode);
      if !fine {
        ghost var i :| LosesOnlyTheOpenBatch(more, group, i, encode);
        LossIsLifted(batches, sent, more, group, i, Concat(groups), encode);
      }
      batches, sent, ok, g := batches + more, sent + group[..n], fine, g + 1;
    }
    PrefixOfConcat(groups, g);
    KeptAreQueued(sent, encode);
    StreamReadsBack(KeptFrames(sent), encode, read);
  }

  lemma NoParts<T>(parts: seq<seq<T>>)
    ensures Concat(parts[..0]) == []
  {
  }

  lemma PrefixOfConcat<T>(parts: seq<seq<T>>, n: nat)
    requires n <= |parts|
    ensures Concat(parts[..n]) <= Concat(parts)
    ensures n == |parts| ==> Concat(parts[..n]) == Concat(parts)
  {
    assert parts == parts[..n] + parts[n..];
    ConcatAppend(parts[..n], parts[n..]);
  }
}
