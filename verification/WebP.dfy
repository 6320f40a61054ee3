/**
 The WebP splitter: a stream of concatenated RIFF files (section 2.4 of RFC 9649).

 The reference is a scan that moves on by one byte whenever no file starts at the
 current position. The reader works on a buffer, skips four bytes after a false
 RIFF and shortens the buffer between reads; it delivers the same files.
 */
module WebP {
  import opened Streams

  const MAX_FILE: nat := 32 * MIB
  const MAX_BUFFER: nat := 48 * MIB

  const RIFF: Bytes := [0x52, 0x49, 0x46, 0x46]
  const WEBP: Bytes := [0x57, 0x45, 0x42, 0x50]

  // ----- reference

  predicate RiffAt(s: Bytes, i: int) { OccursAt(s, i, RIFF) }

  /** A RIFF header of a WebP file of acceptable length starts at `i`. */
  predicate HeaderAt(s: Bytes, i: int) {
    RiffAt(s, i) && OccursAt(s, i + 8, WEBP) && 8 + Le32(s, i + 4) <= MAX_FILE
  }

  /** The files found from `i` on; stops at a header or a file that is not all there. */
  function Scan(s: Bytes, i: nat): seq<Bytes>
    decreases |s| - i
  {
    if i >= |s| then []
    else if !RiffAt(s, i) then Scan(s, i + 1)
    else if i + 12 > |s| then []
    else if !HeaderAt(s, i) then Scan(s, i + 1)
    else if i + 8 + Le32(s, i + 4) > |s| then []
    else [s[i..i + 8 + Le32(s, i + 4)]] + Scan(s, i + 8 + Le32(s, i + 4))
  }

  ghost predicate NoRiff(s: Bytes, i: nat, j: nat) {
    forall k :: i <= k < j ==> !RiffAt(s, k)
  }

  lemma {:induction false} ScanSkips(s: Bytes, i: nat, j: nat)
    requires i <= j && NoRiff(s, i, j)
    ensures Scan(s, i) == Scan(s, j)
    decreases j - i
  {
    if i < j {
      assert !RiffAt(s, i);
      ScanSkips(s, i + 1, j);
    }
  }

  lemma HeaderShift(s: Bytes, k: nat, i: nat)
    requires k <= |s|
    ensures RiffAt(s[k..], i) == RiffAt(s, k + i)
    ensures k + i + 12 <= |s| ==>
              Le32(s[k..], i + 4) == Le32(s, k + i + 4) && HeaderAt(s[k..], i) == HeaderAt(s, k + i)
  {
    if k + i + 4 <= |s| {
      assert s[k..][i..i + 4] == s[k + i..k + i + 4];
    }
    if k + i + 12 <= |s| {
      assert s[k..][i + 8..i + 12] == s[k + i + 8..k + i + 12];
    }
  }

  lemma {:induction false} ScanShift(s: Bytes, k: nat, i: nat)
    requires k <= |s|
    ensures Scan(s[k..], i) == Scan(s, k + i)
    decreases |s| - i
  {
    var t := s[k..];
    if i < |t| {
      HeaderShift(s, k, i);
      if HeaderAt(t, i) && i + 8 + Le32(t, i + 4) <= |t| && i + 12 <= |t| {
        var n := 8 + Le32(t, i + 4);
        assert t[i..i + n] == s[k + i..k + i + n];
        ScanShift(s, k, i + n);
      } else {
        ScanShift(s, k, i + 1);
      }
    }
  }

  /** RIFF does not overlap itself, so after a RIFF the next three positions hold none. */
  lemma NoOverlap(s: Bytes, i: nat)
    requires RiffAt(s, i)
    ensures NoRiff(s, i + 1, i + 4)
  {
    forall k | i + 1 <= k < i + 4
      ensures !RiffAt(s, k)
    {
      assert s[k] == s[i..i + 4][k - i] != 0x52;
      if k + 4 <= |s| {
        assert s[k..k + 4][0] != 0x52;
      }
    }
  }

  // ----- what the reader's buffer operations preserve

  /** Dropping `k` bytes that start no RIFF changes nothing, whatever follows. */
  lemma DropKeeps(buf: Bytes, more: Bytes, k: nat)
    requires k <= |buf| && NoRiff(buf + more, 0, k)
    ensures Scan(buf + more, 0) == Scan(buf[k..] + more, 0)
  {
    ScanSkips(buf + more, 0, k);
    ScanShift(buf + more, k, 0);
    assert (buf + more)[k..] == buf[k..] + more;
  }

  /** A RIFF that fits into the buffer is there whatever follows. */
  lemma RiffStable(buf: Bytes, more: Bytes, k: nat)
    requires k + 4 <= |buf|
    ensures RiffAt(buf + more, k) == RiffAt(buf, k)
  {
    assert (buf + more)[k..k + 4] == buf[k..k + 4];
  }

  /** Keeping the last four bytes of a buffer without RIFF never loses the start of one. */
  lemma TruncateKeeps(buf: Bytes, more: Bytes)
    requires |buf| >= 4 && Index(buf, RIFF) < 0
    ensures Scan(buf + more, 0) == Scan(buf[|buf| - 4..] + more, 0)
    ensures Scan(buf[|buf| - 4..], 0) == []
  {
    IndexIsFirst(buf, RIFF, 0);
    forall k | 0 <= k < |buf| - 4
      ensures !RiffAt(buf + more, k)
    {
      RiffStable(buf, more, k);
    }
    DropKeeps(buf, more, |buf| - 4);
    ScanSkips(buf, |buf| - 4, |buf|);
    ScanShift(buf, |buf| - 4, 0);
  }

  lemma AdvanceKeeps(buf: Bytes, more: Bytes)
    requires Index(buf, RIFF) >= 0
    ensures Scan(buf + more, 0) == Scan(buf[Index(buf, RIFF)..] + more, 0)
    ensures RiffAt(buf[Index(buf, RIFF)..], 0)
  {
    IndexIsFirst(buf, RIFF, 0);
    forall k | 0 <= k < Index(buf, RIFF)
      ensures !RiffAt(buf + more, k)
    {
      RiffStable(buf, more, k);
    }
    DropKeeps(buf, more, Index(buf, RIFF));
  }

  lemma HeaderStable(buf: Bytes, more: Bytes)
    requires |buf| >= 12
    ensures RiffAt(buf + more, 0) == RiffAt(buf, 0)
    ensures HeaderAt(buf + more, 0) == HeaderAt(buf, 0)
    ensures Le32(buf + more, 4) == Le32(buf, 4)
  {
    RiffStable(buf, more, 0);
    assert (buf + more)[8..12] == buf[8..12];
  }

  /** Skipping all four bytes of a rejected RIFF delivers what a one-byte skip delivers. */
  lemma ResyncKeeps(buf: Bytes, more: Bytes)
    requires |buf| >= 12 && RiffAt(buf, 0) && !HeaderAt(buf, 0)
    ensures Scan(buf + more, 0) == Scan(buf[4..] + more, 0)
  {
    HeaderStable(buf, more);
    NoOverlap(buf + more, 0);
    ScanSkips(buf + more, 1, 4);
    ScanShift(buf + more, 4, 0);
    assert (buf + more)[4..] == buf[4..] + more;
  }

  lemma FileTaken(buf: Bytes, more: Bytes)
    requires |buf| >= 12 && HeaderAt(buf, 0) && 8 + Le32(buf, 4) <= |buf|
    ensures var n := 8 + Le32(buf, 4);
            Scan(buf + more, 0) == [buf[..n]] + Scan(buf[n..] + more, 0)
  {
    var n := 8 + Le32(buf, 4);
    HeaderStable(buf, more);
    ScanShift(buf + more, n, 0);
    assert (buf + more)[n..] == buf[n..] + more;
    assert (buf + more)[0..n] == buf[..n];
  }

  // ----- the reader

  /** The inner loop: deliver every file that is all there. The buffer it leaves holds no
      complete file and is never larger than one file may be. */
  method Extract(buf: Bytes, frames: seq<Bytes>, ghost more: Bytes) returns (buf': Bytes, frames': seq<Bytes>)
    ensures frames' + Scan(buf' + more, 0) == frames + Scan(buf + more, 0)
    ensures Scan(buf', 0) == []
    ensures |buf'| <= MAX_FILE
  {
    buf', frames' := buf, frames;
    while true
      invariant frames' + Scan(buf' + more, 0) == frames + Scan(buf + more, 0)
      decreases |buf'|
    {
      var start := Index(buf', RIFF);
      if start < 0 {
        IndexIsFirst(buf', RIFF, 0);
        ScanSkips(buf', 0, |buf'|);
        if |buf'| > 12 {
          TruncateKeeps(buf', more);
          buf' := buf'[|buf'| - 4..];
        }
        return;
      }
      AdvanceKeeps(buf', more);
      if start > 0 {
        buf' := buf'[start..];
      }
      assert RiffAt(buf', 0);
      if |buf'| < 12 {
        return;
      }
      if buf'[8..12] != WEBP {
        ResyncKeeps(buf', more);
        buf' := buf'[4..];
        continue;
      }
      var total := 8 + Le32(buf', 4);
      if total > MAX_FILE {
        ResyncKeeps(buf', more);
        buf' := buf'[4..];
        continue;
      }
      if |buf'| < total {
        return;
      }
      FileTaken(buf', more);
      Assoc(frames', [buf'[..total]], Scan(buf'[total..] + more, 0));
      frames' := frames' + [buf'[..total]];
      buf' := buf'[total..];
    }
  }

  /** Chunk independence with no premise: for every cutting the reader delivers what the
      one-byte scan finds in the whole stream. The second reset is never reached. */
  method ReadWebPFrames(chunks: seq<Bytes>) returns (frames: seq<Bytes>)
    ensures frames == Scan(Flatten(chunks), 0)
  {
    frames := [];
    var buf: Bytes := [];
    var k := 0;
    assert chunks[0..] == chunks;
    assert [] + Flatten(chunks) == Flatten(chunks);
    while k < |chunks|
      invariant k <= |chunks|
      invariant frames + Scan(buf + Flatten(chunks[k..]), 0) == Scan(Flatten(chunks), 0)
      invariant Scan(buf, 0) == []
    {
      ghost var more := Flatten(chunks[k + 1..]);
      assert chunks[k..][1..] == chunks[k + 1..];
      Assoc(buf, chunks[k], more);
      buf := buf + chunks[k];
      buf, frames := Extract(buf, frames, more);
      if |buf| > MAX_BUFFER {
        buf := [];
      }
      k := k + 1;
    }
    assert buf + [] == buf;
  }

  // ----- round trip

  /** One WebP file: RIFF, the length of what follows, WEBP, anything. */
  ghost predicate IsFile(f: Bytes) {
    12 <= |f| && HeaderAt(f, 0) && |f| == 8 + Le32(f, 4)
  }

  /** Concatenated files are recovered exactly, and so, by ReadWebPFrames, under every cutting. */
  lemma {:induction false} FilesRecovered(files: seq<Bytes>)
    requires forall i :: 0 <= i < |files| ==> IsFile(files[i])
    ensures Scan(Flatten(files), 0) == files
  {
    if files != [] {
      assert IsFile(files[0]);
      FilesRecovered(files[1..]);
      FileTaken(files[0], Flatten(files[1..]));
      assert files[0][|files[0]|..] + Flatten(files[1..]) == Flatten(files[1..]);
    }
  }

  // ----- what the scan finds

  // The length of the file that the header at `i` announces.
  function FileLen(s: Bytes, i: nat): nat
    requires HeaderAt(s, i)
  {
    8 + Le32(s, i + 4)
  }

  ghost predicate NoHeader(s: Bytes, i: nat, j: nat) {
    forall k :: i <= k < j ==> !HeaderAt(s, k)
  }

  /** `f` is the stretch of `s` at `at` that the first header at or after `low` announces. */
  ghost predicate FileAt(s: Bytes, low: nat, f: Bytes, at: nat) {
    && low <= at && NoHeader(s, low, at) && HeaderAt(s, at)
    && |f| == FileLen(s, at) && at + |f| <= |s| && f == s[at..at + |f|]
  }

  /** The first header at or after `i`, if there is one, announces more than is there. */
  ghost predicate Unfinished(s: Bytes, i: nat) {
    forall k :: i <= k && NoHeader(s, i, k) && HeaderAt(s, k) ==> k + FileLen(s, k) > |s|
  }

  /** The files lie in `s` one after the other from `low` on, no header being passed over
      before, between or after them. */
  ghost predicate FilesAt(s: Bytes, low: nat, files: seq<Bytes>, starts: seq<nat>)
    decreases |files|
  {
    && |starts| == |files|
    && if files == [] then Unfinished(s, low)
       else FileAt(s, low, files[0], starts[0]) && FilesAt(s, starts[0] + |files[0]|, files[1..], starts[1..])
  }

  lemma NoFiles(s: Bytes, low: nat)
    requires low >= |s| || (RiffAt(s, low) && low + 12 > |s|)
             || (HeaderAt(s, low) && low + FileLen(s, low) > |s|)
    ensures FilesAt(s, low, [], [])
  {
  }

  lemma FirstFile(s: Bytes, at: nat)
    requires HeaderAt(s, at) && at + FileLen(s, at) <= |s|
    ensures FileAt(s, at, s[at..at + FileLen(s, at)], at)
  {
  }

  lemma ConsFile(s: Bytes, low: nat, f: Bytes, files: seq<Bytes>, starts: seq<nat>)
    requires FileAt(s, low, f, low) && FilesAt(s, low + |f|, files, starts)
    ensures FilesAt(s, low, [f] + files, [low] + starts)
  {
    hide FileAt, Unfinished;
    assert ([f] + files)[1..] == files && ([low] + starts)[1..] == starts;
  }

  lemma LaterUnfinished(s: Bytes, i: nat)
    requires !HeaderAt(s, i) && Unfinished(s, i + 1)
    ensures Unfinished(s, i)
  {
    hide HeaderAt, FileLen;
    forall k | i <= k && NoHeader(s, i, k) && HeaderAt(s, k)
      ensures k + FileLen(s, k) > |s|
    {
      assert NoHeader(s, i + 1, k);
    }
  }

  lemma LaterFile(s: Bytes, low: nat, f: Bytes, at: nat)
    requires !HeaderAt(s, low) && FileAt(s, low + 1, f, at)
    ensures FileAt(s, low, f, at)
  {
    hide HeaderAt;
    assert at >= low + 1 && NoHeader(s, low + 1, at);
  }

  lemma LaterFiles(s: Bytes, low: nat, files: seq<Bytes>, starts: seq<nat>)
    requires !HeaderAt(s, low) && FilesAt(s, low + 1, files, starts)
    ensures FilesAt(s, low, files, starts)
  {
    hide HeaderAt, FileAt, Unfinished;
    if files == [] {
      LaterUnfinished(s, low);
    } else {
      LaterFile(s, low, files[0], starts[0]);
    }
  }

  /** What is delivered are disjoint stretches of the stream, in order: each is the file that
      the first header after the one before announces, and after the last one no header
      announces a file that is all there. */
  lemma {:induction false} ScanFindsFiles(s: Bytes, i: nat) returns (starts: seq<nat>)
    ensures FilesAt(s, i, Scan(s, i), starts)
    decreases |s| - i
  {
    hide FilesAt;
    if i >= |s| || (RiffAt(s, i) && i + 12 > |s|) {
      NoFiles(s, i);
      starts := [];
    } else if !HeaderAt(s, i) {
      starts := ScanFindsFiles(s, i + 1);
      LaterFiles(s, i, Scan(s, i + 1), starts);
    } else if i + 8 + Le32(s, i + 4) > |s| {
      NoFiles(s, i);
      starts := [];
    } else {
      var later := ScanFindsFiles(s, i + FileLen(s, i));
      FirstFile(s, i);
      ConsFile(s, i, s[i..i + FileLen(s, i)], Scan(s, i + FileLen(s, i)), later);
      starts := [i] + later;
    }
  }
}
