/** The bounded diagnostics log (diagnostics.rs): numbered files, newest at index 0, rotated by
    renaming, exported oldest first. A file is the list of whole records it holds. */
module RotatingLog {
  import opened Base

  type Record = r: seq<byte> | r != [] witness [10]   // every record ends in a newline

  type Files = map<nat, seq<Record>>

  function At(files: Files, i: nat): seq<Record> { if i in files then files[i] else [] }

  function Size(rs: seq<Record>): nat { if rs == [] then 0 else Size(rs[..|rs| - 1]) + |rs[|rs| - 1]| }

  /** What an export reads: the files from the highest index down to 0, missing ones skipped. */
  function ReadBack(files: Files, count: nat): seq<Record> {
    if count == 0 then [] else At(files, count - 1) + ReadBack(files, count - 1)
  }

  ghost predicate IsSuffix(a: seq<Record>, h: seq<Record>) { |a| <= |h| && h[|h| - |a|..] == a }

  /** All files one index up, the oldest gone, a new empty file 0. Other files stay as they are. */
  function Rotated(files: Files, count: nat): Files
    requires count >= 1
  {
    map i | i in RotatedKeys(files, count) ::
      if i == 0 then [] else if i < count then At(files, i - 1) else At(files, i)
  }

  function RotatedKeys(files: Files, count: nat): set<nat> {
    {0} + (set i | i in files && i + 1 < count :: i + 1) + (set i | i in files && i >= count)
  }

  lemma {:induction false} RotationDropsTheOldest(files: Files, count: nat)
    requires count >= 1
    ensures ReadBack(Rotated(files, count), count) == ReadBack(files, count - 1)
  {
    ShiftedReadBack(files, count, count);
  }

  lemma {:induction false} ShiftedReadBack(files: Files, count: nat, k: nat)
    requires 1 <= k <= count
    ensures ReadBack(Rotated(files, count), k) == ReadBack(files, k - 1)
  {
    if k > 1 {
      ShiftedReadBack(files, count, k - 1);
      assert At(Rotated(files, count), k - 1) == At(files, k - 2);
    } else {
      assert At(Rotated(files, count), 0) == [];
    }
  }

  lemma {:induction false} AppendingToNewest(files: Files, count: nat, r: Record)
    requires count >= 1
    ensures ReadBack(files[0 := At(files, 0) + [r]], count) == ReadBack(files, count) + [r]
  {
    if count > 1 {
      AppendingToNewest(files, count - 1, r);
      assert At(files[0 := At(files, 0) + [r]], count - 1) == At(files, count - 1);
    } else {
      assert ReadBack(files, 0) == [] && ReadBack(files[0 := At(files, 0) + [r]], 0) == [];
    }
  }

  lemma SizeSnoc(rs: seq<Record>, r: Record)
    ensures Size(rs + [r]) == Size(rs) + |r|
  {
    assert (rs + [r])[..|rs|] == rs;
  }

  lemma {:induction false} OnlyEmptyHasNoSize(rs: seq<Record>)
    ensures Size(rs) == 0 ==> rs == []
  {
  }

  /** A file is within the bound, or it holds exactly one record that alone exceeds it. */
  predicate FileOk(rs: seq<Record>, maxBytes: nat) { Size(rs) <= maxBytes || |rs| == 1 }

  datatype Log = Log(files: Files, bytes: nat, maxBytes: nat, count: nat)

  predicate NeedsRotation(l: Log, r: Record) { l.bytes > 0 && l.bytes + |r| > l.maxBytes }

  function Append(l: Log, r: Record): Log {
    l.(files := l.files[0 := At(l.files, 0) + [r]], bytes := l.bytes + |r|)
  }

  function Write(l: Log, r: Record): Log
    requires l.count >= 1
  {
    Append(if NeedsRotation(l, r) then Rotation(l) else l, r)
  }

  function WriteAll(l: Log, rs: seq<Record>): (l': Log)
    requires l.count >= 1
    ensures l'.count == l.count
  {
    if rs == [] then l else Write(WriteAll(l, rs[..|rs| - 1]), rs[|rs| - 1])
  }

  /** The log's promise against the whole history of records written to the directory. */
  ghost predicate Faithful(l: Log, history: seq<Record>) {
    && l.count >= 1 && l.maxBytes >= 1
    && l.bytes == Size(At(l.files, 0))
    && (forall i :: 0 <= i < l.count ==> FileOk(At(l.files, i), l.maxBytes))
    && IsSuffix(ReadBack(l.files, l.count), history)
  }

  lemma FaithfulLog(l: Log, history: seq<Record>)
    requires Faithful(l, history)
    ensures l.count >= 1
  {
  }

  lemma DropIsSuffix(a: seq<Record>, b: seq<Record>, h: seq<Record>)
    requires IsSuffix(a + b, h)
    ensures IsSuffix(b, h)
  {
    assert b == (a + b)[|a|..];
  }

  lemma SuffixSnoc(a: seq<Record>, h: seq<Record>, r: Record)
    requires IsSuffix(a, h)
    ensures IsSuffix(a + [r], h + [r])
  {
  }

  lemma SuffixOfLonger(b: seq<Record>, a: seq<Record>, h: seq<Record>)
    requires IsSuffix(b, h)
    ensures IsSuffix(b, a + h)
  {
    assert (a + h)[|a + h| - |b|..] == h[|h| - |b|..];
  }

  lemma RotatedAt(files: Files, count: nat, i: nat)
    requires i < count
    ensures At(Rotated(files, count), i) == if i == 0 then [] else At(files, i - 1)
  {
  }

  function Rotation(l: Log): Log
    requires l.count >= 1
  {
    l.(files := Rotated(l.files, l.count), bytes := 0)
  }

  lemma RotationIsFaithful(l: Log, history: seq<Record>)
    requires Faithful(l, history)
    ensures Faithful(Rotation(l), history)
  {
    RotationDropsTheOldest(l.files, l.count);
    DropIsSuffix(At(l.files, l.count - 1), ReadBack(l.files, l.count - 1), history);
    forall i | 0 <= i < l.count ensures FileOk(At(Rotation(l).files, i), l.maxBytes) { RotatedAt(l.files, l.count, i); }
    RotatedAt(l.files, l.count, 0);
  }

  lemma WriteKeepsFaith(l: Log, history: seq<Record>, r: Record)
    requires Faithful(l, history)
    ensures Faithful(Write(l, r), history + [r])
  {
    if NeedsRotation(l, r) {
      RotationIsFaithful(l, history);
      AppendIsFaithful(Rotation(l), history, r);
    } else {
      AppendIsFaithful(l, history, r);
    }
  }

  lemma AppendIsFaithful(l: Log, history: seq<Record>, r: Record)
    requires Faithful(l, history) && !NeedsRotation(l, r)
    ensures Faithful(Append(l, r), history + [r])
  {
    hide ReadBack;
    SizeSnoc(At(l.files, 0), r);
    OnlyEmptyHasNoSize(At(l.files, 0));
    AppendingToNewest(l.files, l.count, r);
    SuffixSnoc(ReadBack(l.files, l.count), history, r);
    forall i | 0 <= i < l.count ensures FileOk(At(Append(l, r).files, i), l.maxBytes) {
      assert At(Append(l, r).files, i) == if i == 0 then At(l.files, 0) + [r] else At(l.files, i);
    }
  }

  /** However many records are written, an export reads a contiguous in-order suffix of the record
      history that ends with the newest, the byte counter is the size of file 0, and every file
      is within the bound or holds one oversize record. */
  lemma {:induction false} ExportIsASuffix(l: Log, history: seq<Record>, rs: seq<Record>)
    requires Faithful(l, history)
    ensures Faithful(WriteAll(l, rs), history + rs)
  {
    hide Faithful, Write;
    assert l.count >= 1 by { FaithfulLog(l, history); }
    if rs == [] {
      assert history + rs == history;
    } else {
      var n := |rs| - 1;
      ExportIsASuffix(l, history, rs[..n]);
      assert history + rs == history + rs[..n] + [rs[n]];
      WriteKeepsFaith(WriteAll(l, rs[..n]), history + rs[..n], rs[n]);
    }
  }

  /** A file was closed only when the record that opened the next one would not fit beside it. */
  ghost predicate ClosedWhenFull(files: Files, i: nat, maxBytes: nat)
    requires i >= 1
  {
    At(files, i) != [] ==> At(files, i - 1) != [] && Size(At(files, i)) + |At(files, i - 1)[0]| > maxBytes
  }

  ghost predicate Packed(l: Log) {
    && l.bytes == Size(At(l.files, 0))
    && forall i :: 1 <= i < l.count ==> ClosedWhenFull(l.files, i, l.maxBytes)
  }

  /** No record is given up early: whatever is written, every older file is full. */
  lemma {:induction false} OlderFilesAreFull(l: Log, rs: seq<Record>)
    requires l.count >= 1 && Packed(l)
    ensures Packed(WriteAll(l, rs))
  {
    hide Write, Packed;
    if rs != [] {
      OlderFilesAreFull(l, rs[..|rs| - 1]);
      WriteKeepsPacked(WriteAll(l, rs[..|rs| - 1]), rs[|rs| - 1]);
    }
  }

  lemma WriteKeepsPacked(l: Log, r: Record)
    requires l.count >= 1 && Packed(l)
    ensures Packed(Write(l, r))
  {
    var l' := Write(l, r);
    if NeedsRotation(l, r) {
      SizeSnoc([], r);
      assert [] + [r] == [r];
      RotatedAt(l.files, l.count, 0);
      assert At(l'.files, 0) == [r];
      forall i | 1 <= i < l.count ensures ClosedWhenFull(l'.files, i, l.maxBytes) {
        RotatedAt(l.files, l.count, i);
        assert At(l'.files, i) == At(l.files, i - 1);
        if i > 1 {
          RotatedAt(l.files, l.count, i - 1);
          assert At(l'.files, i - 1) == At(l.files, i - 2);
          assert ClosedWhenFull(l.files, i - 1, l.maxBytes);
        }
      }
    } else {
      SizeSnoc(At(l.files, 0), r);
      forall i | 1 <= i < l.count ensures ClosedWhenFull(l'.files, i, l.maxBytes) {
        assert ClosedWhenFull(l.files, i, l.maxBytes);
        assert At(l'.files, i) == At(l.files, i);
      }
    }
  }

  /** One write, exactly: an export afterwards reads what it read before, without the oldest file if the
      record did not fit into the newest one, followed by the record. */
  lemma WriteIsExact(l: Log, r: Record)
    requires l.count >= 1 && l.bytes == Size(At(l.files, 0))
    ensures var full := Size(At(l.files, 0)) > 0 && Size(At(l.files, 0)) + |r| > l.maxBytes;
            && ReadBack(Write(l, r).files, l.count) == ReadBack(l.files, if full then l.count - 1 else l.count) + [r]
            && At(Write(l, r).files, 0) == (if full then [] else At(l.files, 0)) + [r]
            && Write(l, r).bytes == (if full then 0 else l.bytes) + |r| && Write(l, r).maxBytes == l.maxBytes
  {
    hide ReadBack;
    if NeedsRotation(l, r) {
      RotationDropsTheOldest(l.files, l.count);
      AppendingToNewest(Rotation(l).files, l.count, r);
      RotatedAt(l.files, l.count, 0);
    } else {
      AppendingToNewest(l.files, l.count, r);
    }
  }

  /** As long as a history fits into the newest file, all of it is exported. */
  lemma {:induction false} SmallHistoryIsKept(l: Log, rs: seq<Record>)
    requires l.count >= 1 && l.bytes == Size(At(l.files, 0)) && l.bytes + Size(rs) <= l.maxBytes
    ensures ReadBack(WriteAll(l, rs).files, l.count) == ReadBack(l.files, l.count) + rs
    ensures WriteAll(l, rs).bytes == l.bytes + Size(rs) && At(WriteAll(l, rs).files, 0) == At(l.files, 0) + rs
    ensures WriteAll(l, rs).maxBytes == l.maxBytes
  {
    hide ReadBack, Write, At;
    if rs == [] {
      assert ReadBack(l.files, l.count) + rs == ReadBack(l.files, l.count) && At(l.files, 0) + rs == At(l.files, 0);
    } else {
      var front, r := rs[..|rs| - 1], rs[|rs| - 1];
      SmallHistoryIsKept(l, front);
      SizeConcat(At(l.files, 0), front);
      assert Size(rs) == Size(front) + |r|;
      WriteIsExact(WriteAll(l, front), r);
      assert front + [r] == rs;
      assert ReadBack(l.files, l.count) + front + [r] == ReadBack(l.files, l.count) + rs;
      assert At(l.files, 0) + front + [r] == At(l.files, 0) + rs;
    }
  }

  /** What reopening keeps: files at or above the count are pruned. */
  function Pruned(files: Files, count: nat): Files { map i | i in files && i < count :: files[i] }

  /** Reopening with a lower file count still reads a suffix of what was there, and with the same
      or a higher count reads all of it. */
  lemma {:induction false} PruningKeepsASuffix(files: Files, count: nat, older: nat)
    requires count <= older
    ensures IsSuffix(ReadBack(Pruned(files, count), count), ReadBack(files, older))
    ensures ReadBack(Pruned(files, count), count) == ReadBack(files, count)
    decreases older
  {
    SameBelow(files, count, count);
    if older > count {
      PruningKeepsASuffix(files, count, older - 1);
      SuffixOfLonger(ReadBack(Pruned(files, count), count), At(files, older - 1), ReadBack(files, older - 1));
    }
  }

  lemma {:induction false} SameBelow(files: Files, count: nat, k: nat)
    requires k <= count
    ensures ReadBack(Pruned(files, count), k) == ReadBack(files, k)
  {
    if k > 0 {
      SameBelow(files, count, k - 1);
    }
  }

  /** Reopening a directory left by a log with the same bound is faithful to all it still holds. */
  lemma ReopeningIsFaithful(directory: Files, maxBytes: nat, count: nat, older: nat)
    requires 1 <= count <= older && maxBytes >= 1
    requires forall i :: 0 <= i < count ==> FileOk(At(directory, i), maxBytes)
    ensures Faithful(Log(Pruned(directory, count)[0 := At(directory, 0)], Size(At(directory, 0)), maxBytes, count),
                     ReadBack(directory, older))
  {
    PruningKeepsASuffix(directory, count, older);
    var files := Pruned(directory, count)[0 := At(directory, 0)];
    SameFiles(files, directory, count);
    forall i | 0 <= i < count ensures FileOk(At(files, i), maxBytes) { assert At(files, i) == At(directory, i); }
  }

  lemma {:induction false} SameFiles(a: Files, b: Files, count: nat)
    requires forall i :: 0 <= i < count ==> At(a, i) == At(b, i)
    ensures ReadBack(a, count) == ReadBack(b, count)
  {
    if count > 0 {
      SameFiles(a, b, count - 1);
    }
  }

  /** With no oversize record the whole log stays within `count * maxBytes`. */
  lemma {:induction false} TotalIsBounded(files: Files, count: nat, maxBytes: nat)
    requires forall i :: 0 <= i < count ==> Size(At(files, i)) <= maxBytes
    ensures Size(ReadBack(files, count)) <= count * maxBytes
  {
    if count > 0 {
      TotalIsBounded(files, count - 1, maxBytes);
      SizeConcat(At(files, count - 1), ReadBack(files, count - 1));
      assert count * maxBytes == (count - 1) * maxBytes + maxBytes;
    }
  }

  lemma {:induction false} SizeConcat(a: seq<Record>, b: seq<Record>)
    ensures Size(a + b) == Size(a) + Size(b)
  {
    if b == [] {
      assert a + b == a;
    } else {
      assert (a + b)[..|a + b| - 1] == a + b[..|b| - 1];
      SizeConcat(a, b[..|b| - 1]);
    }
  }

  /** How far the renaming got: nothing at `hole`, the files above it one up, the others untouched. */
  ghost predicate HoleAt(was: Files, files: Files, hole: nat, count: nat) {
    forall i: nat :: Entry(files, i) == WithHole(was, hole, count, i)
  }

  function WithHole(was: Files, hole: nat, count: nat, i: nat): Option<seq<Record>> {
    if i == hole then None else if hole < i < count then Entry(was, i - 1) else Entry(was, i)
  }

  function Entry(files: Files, i: nat): Option<seq<Record>> { if i in files then Some(files[i]) else None }

  lemma HoleOpens(was: Files, count: nat)
    requires count >= 1
    ensures HoleAt(was, was - {count - 1}, count - 1, count)
  {
  }

  function RenamedUp(files: Files, i: nat): Files {
    if i in files then files[i + 1 := files[i]] - {i} else files
  }

  lemma HoleMoves(was: Files, files: Files, i: nat, count: nat)
    requires i + 1 < count && HoleAt(was, files, i + 1, count)
    ensures HoleAt(was, RenamedUp(files, i), i, count)
  {
    assert Entry(files, i) == Entry(was, i) && Entry(files, i + 1) == None;
    forall k: nat ensures Entry(RenamedUp(files, i), k) == WithHole(was, i, count, k) {
      assert Entry(files, k) == WithHole(was, i + 1, count, k);
    }
  }

  /** With the hole at 0, opening a new file there completes the rotation. */
  lemma HoleReachesZero(was: Files, files: Files, count: nat)
    requires count >= 1 && HoleAt(was, files, 0, count)
    ensures files[0 := []] == Rotated(was, count)
  {
    var after := files[0 := []];
    forall i: nat ensures Entry(after, i) == Entry(Rotated(was, count), i) {
      assert Entry(files, i) == WithHole(was, 0, count, i);
      RotatedEntry(was, count, i);
    }
    SameEntries(after, Rotated(was, count));
  }

  lemma RotatedEntry(files: Files, count: nat, i: nat)
    requires count >= 1
    ensures Entry(Rotated(files, count), i) ==
              if i == 0 then Some([]) else if i < count then Entry(files, i - 1) else Entry(files, i)
  {
    if 0 < i < count { assert i in RotatedKeys(files, count) <==> i - 1 in files; }
  }

  lemma SameEntries(a: Files, b: Files)
    requires forall i: nat :: Entry(a, i) == Entry(b, i)
    ensures a == b
  {
    forall i: nat ensures (i in a <==> i in b) && (i in a ==> a[i] == b[i]) { assert Entry(a, i) == Entry(b, i); }
  }

  // ------------------------------------------------------------ the source's object

  class RotatingWriter {
    var files: Files
    var bytes: nat
    const maxBytes: nat
    const fileCount: nat

    function Model(): Log
      reads this
    {
      Log(files, bytes, maxBytes, fileCount)
    }

    constructor (directory: Files, maxBytes: nat, fileCount: nat)
      requires maxBytes > 0 && fileCount > 0
      ensures this.maxBytes == maxBytes && this.fileCount == fileCount
      ensures files == Pruned(directory, fileCount)[0 := At(directory, 0)] && bytes == Size(At(directory, 0))
    {
      this.maxBytes, this.fileCount := maxBytes, fileCount;
      files := Pruned(directory, fileCount)[0 := At(directory, 0)];
      bytes := Size(At(directory, 0));
    }

    /** Zero bounds are refused; otherwise the directory is pruned and file 0 opened. */
    static method Open(directory: Files, maxBytes: nat, fileCount: nat) returns (w: RotatingWriter?)
      ensures w == null <==> maxBytes == 0 || fileCount == 0
      ensures w != null ==> w.maxBytes == maxBytes && w.fileCount == fileCount
      ensures w != null ==> w.files == Pruned(directory, fileCount)[0 := At(directory, 0)] && w.bytes == Size(At(directory, 0))
    {
      if maxBytes == 0 || fileCount == 0 { return null; }
      w := new RotatingWriter(directory, maxBytes, fileCount);
    }

    /** Removes the oldest file, renames the others one up from the top, and opens a new file 0. */
    method Rotate()
      requires fileCount >= 1
      modifies this
      ensures files == Rotated(old(files), fileCount) && bytes == 0
    {
      hide Rotated, HoleAt;
      ghost var was := files;
      HoleOpens(was, fileCount);
      if fileCount > 1 {
        files := files - {fileCount - 1};
        var index := fileCount - 1;
        while index > 0
          invariant 0 <= index <= fileCount - 1
          invariant HoleAt(was, files, index, fileCount)
        {
          HoleMoves(was, files, index - 1, fileCount);
          index := index - 1;
          files := RenamedUp(files, index);
        }
      } else {
        files := files - {0};
      }
      HoleReachesZero(was, files, fileCount);
      files := files[0 := []];
      bytes := 0;
    }

    method WriteRecord(r: Record) returns (rotated: bool)
      requires fileCount >= 1
      modifies this
      ensures Model() == Write(old(Model()), r) && rotated == NeedsRotation(old(Model()), r)
    {
      rotated := bytes > 0 && bytes + |r| > maxBytes;
      if rotated { Rotate(); }
      files := files[0 := At(files, 0) + [r]];
      bytes := bytes + |r|;
    }

    method Export() returns (out: seq<Record>)
      ensures out == ReadBack(files, fileCount)
    {
      out := [];
      var index := fileCount;
      assert [] + ReadBack(files, index) == ReadBack(files, index);
      while index > 0
        invariant 0 <= index <= fileCount
        invariant out + ReadBack(files, index) == ReadBack(files, fileCount)
      {
        index := index - 1;
        assert out + (At(files, index) + ReadBack(files, index)) == (out + At(files, index)) + ReadBack(files, index);
        out := out + At(files, index);
      }
    }
  }
}
