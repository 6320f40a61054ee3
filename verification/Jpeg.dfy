/**
 The JPEG splitter: frames from an SOI marker to the first EOI marker after it.

 The reader empties its buffer when it sees no SOI, so a read boundary between the
 two bytes of an SOI loses a byte, and it empties the buffer past 8 MiB. Exactly
 these two events decide whether a list of JPEGs is recovered.
 */
module Jpeg {
  import opened Streams

  const CAP: nat := 8 * MIB

  const SOI: Bytes := [0xFF, 0xD8]
  const EOI: Bytes := [0xFF, 0xD9]

  // ----- one buffer

  predicate HasFrame(b: Bytes) {
    Index(b, SOI) >= 0 && IndexFrom(b, EOI, Index(b, SOI) + 2) >= 0
  }

  function FrameEnd(b: Bytes): (e: nat)
    requires HasFrame(b)
    ensures Index(b, SOI) + 4 <= e <= |b|
  {
    IndexFrom(b, EOI, Index(b, SOI) + 2) + 2
  }

  /** The complete frames of a buffer. */
  function Frames(b: Bytes): seq<Bytes>
    decreases |b|
  {
    if HasFrame(b) then [b[Index(b, SOI)..FrameEnd(b)]] + Frames(b[FrameEnd(b)..]) else []
  }

  /** What the buffer holds after they are taken: an unfinished frame, or nothing. */
  function Kept(b: Bytes): (r: Bytes)
    ensures |r| <= |b|
    decreases |b|
  {
    if HasFrame(b) then Kept(b[FrameEnd(b)..])
    else if Index(b, SOI) >= 0 then b[Index(b, SOI)..]
    else []
  }

  function Capped(b: Bytes): (r: Bytes)
    ensures |r| <= |b|
  {
    if |b| > CAP then [] else b
  }

  /** Everything delivered for buffer `buf` and the reads still to come. */
  function Delivered(buf: Bytes, chunks: seq<Bytes>): seq<Bytes>
    decreases |chunks|
  {
    if chunks == [] then []
    else Frames(buf + chunks[0]) + Delivered(Capped(Kept(buf + chunks[0])), chunks[1..])
  }

  /** The search in the rest of the buffer, as the reader does it. */
  lemma IndexShift(b: Bytes, pat: Bytes, k: nat)
    requires k <= |b|
    ensures IndexFrom(b, pat, k) == if Index(b[k..], pat) < 0 then -1 else k + Index(b[k..], pat)
  {
    var r := Index(b[k..], pat);
    IndexIsFirst(b[k..], pat, 0);
    forall i | k <= i && (r < 0 || i < k + r)
      ensures !OccursAt(b, i, pat)
    {
      assert !OccursAt(b[k..], i - k, pat);
      if i + |pat| <= |b| {
        assert b[k..][i - k..i - k + |pat|] == b[i..i + |pat|];
      }
    }
    if r >= 0 {
      assert b[k..][r..r + |pat|] == b[k + r..k + r + |pat|];
    }
    IndexUnique(b, pat, k, if r < 0 then -1 else k + r);
  }

  lemma SameFirst(b: Bytes, s: nat)
    requires s == Index(b, SOI)
    ensures Index(b[s..], SOI) == 0
  {
    IndexIsFirst(b, SOI, 0);
    IndexUnique(b, SOI, s, s);
    IndexShift(b, SOI, s);
  }

  lemma KeptIsKept(b: Bytes)
    requires Index(b, SOI) >= 0 && !HasFrame(b)
    ensures var r := b[Index(b, SOI)..]; Kept(r) == Kept(b) == r && Frames(r) == Frames(b) == []
  {
    var s := Index(b, SOI);
    var r := b[s..];
    SameFirst(b, s);
    SliceOfSlice(b, s, |b|, 2, |b| - s);
    IndexShift(b, EOI, s + 2);
    IndexShift(r, EOI, 2);
    assert r[2..] == b[s + 2..];
    assert r[0..] == r;
  }

  // ----- the reader

  method Extract(buf: Bytes, frames: seq<Bytes>) returns (buf': Bytes, frames': seq<Bytes>)
    ensures buf' == Kept(buf)
    ensures frames' == frames + Frames(buf)
  {
    buf', frames' := buf, frames;
    while true
      invariant Kept(buf') == Kept(buf)
      invariant frames' + Frames(buf') == frames + Frames(buf)
      decreases |buf'|
    {
      var start := Index(buf', SOI);
      if start < 0 {
        buf' := [];
        break;
      }
      var end := Index(buf'[start + 2..], EOI);
      IndexShift(buf', EOI, start + 2);
      if end < 0 {
        KeptIsKept(buf');
        if start > 0 {
          buf' := buf'[start..];
        }
        break;
      }
      end := start + 2 + end + 2;
      assert HasFrame(buf') && end == FrameEnd(buf');
      Assoc(frames', [buf'[start..end]], Frames(buf'[end..]));
      frames' := frames' + [buf'[start..end]];
      buf' := buf'[end..];
    }
  }

  method ReadJPEGFrames(chunks: seq<Bytes>) returns (frames: seq<Bytes>)
    ensures frames == Delivered([], chunks)
  {
    frames := [];
    var buf: Bytes := [];
    var k := 0;
    assert chunks[0..] == chunks;
    while k < |chunks|
      invariant k <= |chunks|
      invariant frames + Delivered(buf, chunks[k..]) == Delivered([], chunks)
    {
      assert chunks[k..][1..] == chunks[k + 1..];
      buf := buf + chunks[k];
      Assoc(frames, Frames(buf), Delivered(Capped(Kept(buf)), chunks[k + 1..]));
      buf, frames := Extract(buf, frames);
      if |buf| > CAP {
        buf := [];
      }
      k := k + 1;
    }
  }

  // ----- delivered frames are slices of the stream

  /** From an SOI to the first EOI after it. */
  predicate IsJpeg(f: Bytes) {
    4 <= |f| && f[..2] == SOI && IndexFrom(f, EOI, 2) == |f| - 2
  }

  datatype Span = Span(from: nat, to: nat)

  /** The frames sit at the spans, one after the other, between `low` and `high`. */
  ghost predicate SitAt(stream: Bytes, low: nat, high: nat, frames: seq<Bytes>, spans: seq<Span>) {
    && |spans| == |frames|
    && (forall k :: 0 <= k < |spans| ==> InSpan(stream, low, high, frames[k], spans[k]))
    && (forall k :: 0 < k < |spans| ==> spans[k - 1].to <= spans[k].from)
  }

  ghost predicate InSpan(stream: Bytes, low: nat, high: nat, f: Bytes, s: Span) {
    low <= s.from <= s.to <= high && high <= |stream| && f == stream[s.from..s.to] && IsJpeg(f)
  }

  lemma FirstFrameIsJpeg(b: Bytes)
    requires HasFrame(b)
    ensures IsJpeg(b[Index(b, SOI)..FrameEnd(b)])
  {
    var s, e := Index(b, SOI), FrameEnd(b);
    var f := b[s..e];
    IndexIsFirst(b, SOI, 0);
    IndexIsFirst(b, EOI, s + 2);
    SliceOfSlice(b, s, e, 0, 2);
    SliceOfSlice(b, s, e, |f| - 2, |f|);
    forall i | 2 <= i < |f| - 2
      ensures !OccursAt(f, i, EOI)
    {
      assert !OccursAt(b, s + i, EOI);
      SliceOfSlice(b, s, e, i, i + 2);
    }
    IndexUnique(f, EOI, 2, |f| - 2);
  }

  lemma ConsSpan(stream: Bytes, low: nat, high: nat, f: Bytes, span: Span, frames: seq<Bytes>, spans: seq<Span>)
    requires InSpan(stream, low, high, f, span) && SitAt(stream, span.to, high, frames, spans)
    ensures SitAt(stream, low, high, [f] + frames, [span] + spans)
  {
    forall k | 0 <= k < |[span] + spans|
      ensures InSpan(stream, low, high, ([f] + frames)[k], ([span] + spans)[k])
    {
      if k > 0 {
        assert InSpan(stream, span.to, high, frames[k - 1], spans[k - 1]);
      }
    }
    if spans != [] {
      assert InSpan(stream, span.to, high, frames[0], spans[0]);
    }
  }

  /** What is kept of a buffer is the end of it. */
  lemma {:induction false} KeptIsEnd(b: Bytes)
    ensures Kept(b) == b[|b| - |Kept(b)|..]
    decreases |b|
  {
    if HasFrame(b) {
      var rest := b[FrameEnd(b)..];
      KeptIsEnd(rest);
      assert rest[|rest| - |Kept(rest)|..] == b[|b| - |Kept(rest)|..];
    }
  }

  /** Frames of a buffer that is a stretch of the stream. */
  lemma {:induction false} SpansOfBuffer(stream: Bytes, low: nat, high: nat) returns (spans: seq<Span>)
    requires low <= high <= |stream|
    ensures var b := stream[low..high]; SitAt(stream, low, high - |Kept(b)|, Frames(b), spans)
    decreases high - low
  {
    var b := stream[low..high];
    if HasFrame(b) {
      var s, e := Index(b, SOI), FrameEnd(b);
      assert b[e..] == stream[low + e..high] && b[s..e] == stream[low + s..low + e] by {
        SliceOfSlice(stream, low, high, e, high - low);
        SliceOfSlice(stream, low, high, s, e);
      }
      var later := SpansOfBuffer(stream, low + e, high);
      FirstFrameIsJpeg(b);
      ConsSpan(stream, low, high - |Kept(b)|, b[s..e], Span(low + s, low + e), Frames(b[e..]), later);
      spans := [Span(low + s, low + e)] + later;
    } else {
      spans := [];
    }
  }

  lemma JoinSpans(stream: Bytes, low: nat, mid: nat, fs: seq<Bytes>, ss: seq<Span>, gs: seq<Bytes>, ts: seq<Span>)
    requires low <= mid <= |stream|
    requires SitAt(stream, low, mid, fs, ss) && SitAt(stream, mid, |stream|, gs, ts)
    ensures SitAt(stream, low, |stream|, fs + gs, ss + ts)
  {
    forall k | 0 <= k < |ss + ts|
      ensures InSpan(stream, low, |stream|, (fs + gs)[k], (ss + ts)[k])
    {
      if k < |ss| {
        assert InSpan(stream, low, mid, fs[k], ss[k]);
      } else {
        assert InSpan(stream, mid, |stream|, gs[k - |ss|], ts[k - |ss|]);
      }
    }
    if ss != [] && ts != [] {
      assert InSpan(stream, low, mid, fs[|ss| - 1], ss[|ss| - 1]);
      assert InSpan(stream, mid, |stream|, gs[0], ts[0]);
    }
  }

  /** One read: `b` is the buffer with the new bytes, `more` the bytes after it. */
  lemma OneRead(stream: Bytes, low: nat, b: Bytes, more: Bytes) returns (spans: seq<Span>, low': nat)
    requires low <= |stream| && stream[low..] == b + more
    ensures var kept := Capped(Kept(b));
            && low <= low' <= |stream| && stream[low'..] == kept + more
            && SitAt(stream, low, low', Frames(b), spans)
  {
    var kept := Capped(Kept(b));
    var high := low + |b|;
    assert stream[low..high] == b by {
      assert stream[low..][..|b|] == b;
    }
    KeptIsEnd(b);
    low' := high - |kept|;
    assert stream[low'..] == kept + more by {
      assert stream[low..][|b| - |kept|..] == stream[low'..];
    }
    spans := SpansOfBuffer(stream, low, high);
    Widen(stream, low, low, high - |Kept(b)|, low', Frames(b), spans);
  }

  /** For every cutting the delivered frames are disjoint stretches of the stream, in order,
      each running from an SOI to the first EOI after it. */
  lemma {:induction false} Slices(stream: Bytes, low: nat, buf: Bytes, chunks: seq<Bytes>) returns (spans: seq<Span>)
    requires low <= |stream| && stream[low..] == buf + Flatten(chunks)
    ensures SitAt(stream, low, |stream|, Delivered(buf, chunks), spans)
    decreases |chunks|
  {
    if chunks == [] {
      return [];
    }
    var b, tl := buf + chunks[0], chunks[1..];
    Assoc(buf, chunks[0], Flatten(tl));
    var front, low' := OneRead(stream, low, b, Flatten(tl));
    var kept := Capped(Kept(b));
    var back := Slices(stream, low', kept, tl);
    JoinSpans(stream, low, low', Frames(b), front, Delivered(kept, tl), back);
    spans := front + back;
  }

  lemma Widen(stream: Bytes, low': nat, low: nat, high: nat, high': nat, fs: seq<Bytes>, ss: seq<Span>)
    requires low' <= low && high <= high' <= |stream| && SitAt(stream, low, high, fs, ss)
    ensures SitAt(stream, low', high', fs, ss)
  {
    forall k | 0 <= k < |ss|
      ensures InSpan(stream, low', high', fs[k], ss[k])
    {
      assert InSpan(stream, low, high, fs[k], ss[k]);
    }
  }

  // ----- exact recovery

  function Total(frames: seq<Bytes>): nat {
    if frames == [] then 0 else |frames[0]| + Total(frames[1..])
  }

  lemma {:induction false} TotalAppend(xs: seq<Bytes>, ys: seq<Bytes>)
    ensures Total(xs + ys) == Total(xs) + Total(ys)
  {
    if xs == [] {
      assert xs + ys == ys;
    } else {
      TotalAppend(xs[1..], ys);
      assert (xs + ys)[1..] == xs[1..] + ys;
    }
  }

  lemma {:induction false} TotalFlatten(xs: seq<Bytes>)
    ensures Total(xs) == |Flatten(xs)|
  {
    if xs != [] {
      TotalFlatten(xs[1..]);
    }
  }

  /** One buffer delivers and keeps no more bytes than it holds. */
  lemma {:induction false} BufferConserves(b: Bytes)
    ensures Total(Frames(b)) + |Kept(b)| <= |b|
    decreases |b|
  {
    if HasFrame(b) {
      var rest := b[FrameEnd(b)..];
      BufferConserves(rest);
      assert ([b[Index(b, SOI)..FrameEnd(b)]] + Frames(rest))[1..] == Frames(rest);
    }
  }

  /** No byte is delivered twice. */
  lemma {:induction false} RunConserves(buf: Bytes, chunks: seq<Bytes>)
    ensures Total(Delivered(buf, chunks)) <= |buf| + |Flatten(chunks)|
    decreases |chunks|
  {
    if chunks != [] {
      var b := buf + chunks[0];
      var kept := Capped(Kept(b));
      BufferConserves(b);
      RunConserves(kept, chunks[1..]);
      TotalAppend(Frames(b), Delivered(kept, chunks[1..]));
    }
  }

  ghost predicate AllJpeg(fs: seq<Bytes>) {
    forall i :: 0 <= i < |fs| ==> IsJpeg(fs[i])
  }

  /** How far into its frame position `pos` of the concatenated frames lies. */
  function Offset(fs: seq<Bytes>, pos: nat): nat {
    if fs == [] || pos < |fs[0]| then pos else Offset(fs[1..], pos - |fs[0]|)
  }

  /** A read boundary neither between the two bytes of an SOI nor more than 8 MiB into a frame. */
  predicate GoodCut(fs: seq<Bytes>, pos: nat) {
    Offset(fs, pos) != 1 && Offset(fs, pos) <= CAP
  }

  // The boundaries after each read, `pos` bytes having been read before.
  ghost predicate GoodCuts(fs: seq<Bytes>, pos: nat, chunks: seq<Bytes>)
    decreases |chunks|
  {
    chunks == [] || (GoodCut(fs, pos + |chunks[0]|) && GoodCuts(fs, pos + |chunks[0]|, chunks[1..]))
  }

  /** How many of the frames lie wholly before `pos`. */
  function Whole(fs: seq<Bytes>, pos: nat): (n: nat)
    ensures n <= |fs|
  {
    if fs == [] || pos < |fs[0]| then 0 else 1 + Whole(fs[1..], pos - |fs[0]|)
  }

  lemma JpegFirst(f: Bytes, tail: Bytes)
    requires IsJpeg(f)
    ensures HasFrame(f + tail) && Index(f + tail, SOI) == 0 && FrameEnd(f + tail) == |f|
  {
    var b := f + tail;
    IndexIsFirst(f, EOI, 2);
    assert b[0..2] == f[..2];
    IndexUnique(b, SOI, 0, 0);
    assert OccursAt(f, |f| - 2, EOI);
    assert b[|f| - 2..|f|] == f[|f| - 2..|f|];
    forall i | 2 <= i < |f| - 2
      ensures !OccursAt(b, i, EOI)
    {
      assert !OccursAt(f, i, EOI);
      assert b[i..i + 2] == f[i..i + 2];
    }
    IndexUnique(b, EOI, 2, |f| - 2);
  }

  /** A proper beginning of a JPEG is kept whole, except for the single byte FF, which is lost. */
  lemma JpegBegun(f: Bytes, n: nat)
    requires IsJpeg(f) && n < |f|
    ensures Frames(f[..n]) == [] && Kept(f[..n]) == if n == 1 then [] else f[..n]
  {
    var b := f[..n];
    IndexIsFirst(f, EOI, 2);
    if n < 2 {
      IndexUnique(b, SOI, 0, -1);
    } else {
      assert b[0..2] == f[..2];
      IndexUnique(b, SOI, 0, 0);
      forall i | 2 <= i
        ensures !OccursAt(b, i, EOI)
      {
        assert !OccursAt(f, i, EOI) || i == |f| - 2;
        if i + 2 <= n {
          assert b[i..i + 2] == f[i..i + 2];
        }
      }
      IndexUnique(b, EOI, 2, -1);
      assert b[0..] == b;
    }
  }

  /** The begun frame, `d` bytes of it, at the end of a buffer; a single FF is lost. */
  function Begun(b: Bytes, d: nat): Bytes
    requires d <= |b|
  {
    if d == 1 then [] else b[|b| - d..]
  }

  /** A beginning of concatenated JPEGs delivers the whole ones and keeps the begun one. */
  lemma {:induction false} PrefixParsed(fs: seq<Bytes>, b: Bytes)
    requires AllJpeg(fs) && b <= Flatten(fs)
    ensures Offset(fs, |b|) <= |b|
    ensures Frames(b) == fs[..Whole(fs, |b|)]
    ensures Kept(b) == Begun(b, Offset(fs, |b|))
    decreases |fs|
  {
    if fs != [] {
      var f, r := fs[0], fs[1..];
      assert IsJpeg(f);
      if |b| < |f| {
        JpegBegun(f, |b|);
        assert b == f[..|b|];
      } else {
        var b' := b[|f|..];
        assert b == f + b';
        PrefixParsed(r, b');
        OneMore(f, b', Offset(r, |b'|));
        TakeCons(fs, Whole(r, |b'|));
      }
    }
  }

  lemma TakeCons<T>(s: seq<T>, n: nat)
    requires n < |s|
    ensures s[..n + 1] == [s[0]] + s[1..][..n]
  {
  }

  lemma OneMore(f: Bytes, b: Bytes, d: nat)
    requires IsJpeg(f) && d <= |b|
    ensures Frames(f + b) == [f] + Frames(b) && Kept(f + b) == Kept(b)
    ensures Begun(f + b, d) == Begun(b, d)
  {
    JpegFirst(f, b);
    assert (f + b)[|f|..] == b;
    assert (f + b)[0..|f|] == f;
  }

  lemma {:induction false} GoodCutsShift(fs: seq<Bytes>, pos: nat, chunks: seq<Bytes>)
    requires fs != [] && |fs[0]| <= pos
    ensures GoodCuts(fs, pos, chunks) == GoodCuts(fs[1..], pos - |fs[0]|, chunks)
    decreases |chunks|
  {
    if chunks != [] {
      GoodCutsShift(fs, pos + |chunks[0]|, chunks[1..]);
    }
  }

  /** Frames that lie wholly before a position may be forgotten. */
  lemma {:induction false} DropWhole(fs: seq<Bytes>, pos: nat, chunks: seq<Bytes>)
    requires pos <= |Flatten(fs)|
    ensures var n, d := Whole(fs, pos), Offset(fs, pos);
            && (if n < |fs| then d < |fs[n]| else d == 0)
            && |Flatten(fs[..n])| + d == pos
            && Flatten(fs) == Flatten(fs[..n]) + Flatten(fs[n..])
            && Offset(fs[n..], d) == d
            && GoodCuts(fs[n..], d, chunks) == GoodCuts(fs, pos, chunks)
  {
    if fs == [] {
    } else if pos < |fs[0]| {
      assert fs[0..] == fs;
      assert [] + Flatten(fs) == Flatten(fs);
    } else {
      var r := fs[1..];
      var n := Whole(r, pos - |fs[0]|);
      DropWhole(r, pos - |fs[0]|, chunks);
      GoodCutsShift(fs, pos, chunks);
      assert fs[n + 1..] == r[n..];
      assert fs[..n + 1] == [fs[0]] + r[..n];
      FlattenCons(fs[0], r[..n]);
      Assoc(fs[0], Flatten(r[..n]), Flatten(r[n..]));
    }
  }

  /** The buffer holds less than the next frame. */
  ghost predicate Within(fs: seq<Bytes>, buf: Bytes) {
    AllJpeg(fs) && if fs == [] then buf == [] else |buf| < |fs[0]|
  }

  /** The state of the reader after a read that ends at a good boundary: the whole frames
      are out, the begun frame is in the buffer. */
  lemma AtGoodBoundary(fs: seq<Bytes>, b: Bytes, tl: seq<Bytes>) returns (fs': seq<Bytes>)
    requires AllJpeg(fs) && b + Flatten(tl) == Flatten(fs) && GoodCut(fs, |b|)
    ensures var kept := Capped(Kept(b));
            && fs == Frames(b) + fs' && Within(fs', kept)
            && kept + Flatten(tl) == Flatten(fs')
            && GoodCuts(fs', |kept|, tl) == GoodCuts(fs, |b|, tl)
            && |Flatten(fs)| == Total(Frames(b)) + |Flatten(fs')|
  {
    hide IsJpeg, HasFrame, Frames, Kept;
    var n, d := Whole(fs, |b|), Offset(fs, |b|);
    fs' := fs[n..];
    PrefixParsed(fs, b);
    DropWhole(fs, |b|, tl);
    TotalFlatten(fs[..n]);
    SameTail(b, Flatten(tl), Flatten(fs[..n]), Flatten(fs'), d);
    assert fs == fs[..n] + fs';
  }

  /** After a read that ends at a bad boundary the buffer is empty and bytes are missing. */
  lemma AtBadBoundary(fs: seq<Bytes>, b: Bytes)
    requires AllJpeg(fs) && b <= Flatten(fs) && !GoodCut(fs, |b|)
    ensures Capped(Kept(b)) == [] && Total(Frames(b)) < |b|
  {
    PrefixParsed(fs, b);
    DropWhole(fs, |b|, []);
    TotalFlatten(fs[..Whole(fs, |b|)]);
  }

  lemma SameTail(b: Bytes, more: Bytes, front: Bytes, back: Bytes, d: nat)
    requires b + more == front + back && |front| + d == |b|
    ensures b[|b| - d..] + more == back
  {
    assert back == (front + back)[|front|..];
    assert b[|b| - d..] + more == (b + more)[|front|..];
  }

  /** From a good boundary on: if the later boundaries are good too, exactly the frames are
      delivered; otherwise fewer bytes are delivered than the frames have. */
  lemma {:induction false} RecoveredFrom(fs: seq<Bytes>, buf: Bytes, chunks: seq<Bytes>)
    requires Within(fs, buf)
    requires buf + Flatten(chunks) == Flatten(fs)
    ensures GoodCuts(fs, |buf|, chunks) ==> Delivered(buf, chunks) == fs
    ensures !GoodCuts(fs, |buf|, chunks) ==> Total(Delivered(buf, chunks)) < |Flatten(fs)|
    decreases |chunks|
  {
    if chunks == [] {
      assert buf + [] == buf;
    } else {
      var b, tl := buf + chunks[0], chunks[1..];
      var kept := Capped(Kept(b));
      Assoc(buf, chunks[0], Flatten(tl));
      TotalAppend(Frames(b), Delivered(kept, tl));
      if GoodCut(fs, |b|) {
        var fs' := AtGoodBoundary(fs, b, tl);
        RecoveredFrom(fs', kept, tl);
      } else {
        AtBadBoundary(fs, b);
        RunConserves([], tl);
      }
    }
  }

  /** Concatenated JPEGs are recovered exactly if and only if every read boundary is good. */
  lemma RecoveredIff(fs: seq<Bytes>, chunks: seq<Bytes>)
    requires AllJpeg(fs) && Flatten(chunks) == Flatten(fs)
    ensures Delivered([], chunks) == fs <==> GoodCuts(fs, 0, chunks)
  {
    if fs != [] {
      assert IsJpeg(fs[0]);
    }
    assert [] + Flatten(chunks) == Flatten(fs);
    RecoveredFrom(fs, [], chunks);
    TotalFlatten(fs);
  }

  /** A one-frame stream read in one piece is recovered; cut inside its SOI it is lost. */
  lemma SoiCutLosesFrame()
    ensures IsJpeg([0xFF, 0xD8, 0xFF, 0xD9])
    ensures Delivered([], [[0xFF, 0xD8, 0xFF, 0xD9]]) == [[0xFF, 0xD8, 0xFF, 0xD9]]
    ensures Delivered([], [[0xFF], [0xD8, 0xFF, 0xD9]]) == []
  {
    var f: Bytes := [0xFF, 0xD8, 0xFF, 0xD9];
    assert f[..2] == SOI && f[2..4] == EOI;
    assert OccursAt(f, 2, EOI);
    IndexUnique(f, EOI, 2, 2);
    RecoveredIff([f], [f]);
    FlattenCons(f, []);
    assert GoodCut([f], 4);
    var b: Bytes := [0xD8, 0xFF, 0xD9];
    assert [0xFF][0..] == [0xFF as byte];
    IndexUnique([0xFF], SOI, 0, -1);
    assert b[0..2][0] != SOI[0] && b[1..3][1] != SOI[1];
    IndexUnique(b, SOI, 0, -1);
    assert [] + [0xFF] == [0xFF as byte];
    assert [] + b == b;
    assert Delivered([], [b]) == Frames(b) + Delivered([], []);
  }
}
