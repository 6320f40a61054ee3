/**
 The H.264 Annex B splitter: start-code search, NAL units and access units.
 */
module AnnexB {
  import opened Streams

  // The buffer is thrown away once it grows past this many bytes.
  const CAP: nat := 32 * MIB

  // ----- start codes

  predicate StartCodeAt(b: Bytes, i: int) {
    && 0 <= i && i + 3 <= |b|
    && b[i] == 0 && b[i + 1] == 0
    && (b[i + 2] == 1 || (i + 4 <= |b| && b[i + 2] == 0 && b[i + 3] == 1))
  }

  /** The first start code at or after `off`, or -1. */
  function FirstCode(b: Bytes, off: nat): (r: int)
    ensures r == -1 || off <= r <= |b| - 3
    decreases |b| - off
  {
    if off + 3 > |b| then -1
    else if StartCodeAt(b, off) then off
    else FirstCode(b, off + 1)
  }

  lemma {:induction false} FirstCodeIsFirst(b: Bytes, off: nat)
    ensures FirstCode(b, off) >= 0 ==> StartCodeAt(b, FirstCode(b, off))
    ensures forall i :: off <= i && (FirstCode(b, off) < 0 || i < FirstCode(b, off)) ==> !StartCodeAt(b, i)
    decreases |b| - off
  {
    if off + 3 <= |b| && !StartCodeAt(b, off) {
      FirstCodeIsFirst(b, off + 1);
    }
  }

  /** There is only one first start code. */
  lemma {:induction false} FirstCodeUnique(b: Bytes, off: nat, r: int)
    requires r == -1 || (off <= r && StartCodeAt(b, r))
    requires forall i :: off <= i && (r == -1 || i < r) ==> !StartCodeAt(b, i)
    ensures FirstCode(b, off) == r
  {
    FirstCodeIsFirst(b, off);
    if r >= 0 {
      assert !(FirstCode(b, off) > r);
    }
  }

  method IndexStartCode(b: Bytes, off: nat) returns (r: int)
    ensures r == FirstCode(b, off)
  {
    var i := off;
    while i + 3 <= |b|
      invariant off <= i
      invariant FirstCode(b, off) == FirstCode(b, i)
      decreases |b| - i
    {
      if b[i] == 0 && b[i + 1] == 0 {
        if b[i + 2] == 1 {
          return i;
        }
        if i + 4 <= |b| && b[i + 2] == 0 && b[i + 3] == 1 {
          return i;
        }
      }
      i := i + 1;
    }
    return -1;
  }

  function StartCodeLen(b: Bytes, s: nat): (n: nat)
    requires s + 2 < |b|
    ensures s + n <= |b| && 3 <= n <= 4
  {
    if s + 3 < |b| && b[s + 2] == 0 && b[s + 3] == 1 then 4 else 3
  }

  /** A start code found stays the first one found, however the buffer grows. */
  lemma FirstCodeStable(b: Bytes, c: Bytes, off: nat)
    requires FirstCode(b, off) >= 0
    ensures FirstCode(b + c, off) == FirstCode(b, off)
    ensures StartCodeLen(b + c, FirstCode(b, off)) == StartCodeLen(b, FirstCode(b, off))
  {
    var s := FirstCode(b, off);
    FirstCodeIsFirst(b, off);
    forall i | off <= i < s
      ensures !StartCodeAt(b + c, i)
    {
      assert !StartCodeAt(b, i);
    }
    FirstCodeUnique(b + c, off, s);
  }

  /** Bytes before a position do not influence the search from there on. */
  lemma FirstCodeShift(b: Bytes, k: nat, off: nat)
    requires k <= |b|
    ensures FirstCode(b[k..], off) ==
            if FirstCode(b, k + off) < 0 then -1 else FirstCode(b, k + off) - k
  {
    var r := FirstCode(b, k + off);
    FirstCodeIsFirst(b, k + off);
    forall i | off <= i && (r < 0 || i < r - k)
      ensures !StartCodeAt(b[k..], i)
    {
      assert !StartCodeAt(b, k + i);
    }
    FirstCodeUnique(b[k..], off, if r < 0 then -1 else r - k);
  }

  // ----- one-shot parse of a byte string

  /** The start code that ends the first NAL unit of `b`, or -1. */
  function NextCode(b: Bytes): (r: int)
    requires FirstCode(b, 0) >= 0
    ensures r == -1 || FirstCode(b, 0) + 3 <= r
  {
    FirstCode(b, FirstCode(b, 0) + StartCodeLen(b, FirstCode(b, 0)))
  }

  predicate HasNal(b: Bytes) {
    FirstCode(b, 0) >= 0 && NextCode(b) >= 0
  }

  function FirstNal(b: Bytes): (nal: Bytes)
    requires HasNal(b)
  {
    b[FirstCode(b, 0)..NextCode(b)]
  }

  /** The complete NAL units of `b`, each with its own leading start code. */
  function Nals(b: Bytes): seq<Bytes>
    decreases |b|
  {
    if HasNal(b) then [FirstNal(b)] + Nals(b[NextCode(b)..]) else []
  }

  /** What is still undecided after the complete NAL units of `b`. */
  function Rest(b: Bytes): (r: Bytes)
    ensures |r| <= |b|
    decreases |b|
  {
    if HasNal(b) then Rest(b[NextCode(b)..])
    else if FirstCode(b, 0) >= 0 then b[FirstCode(b, 0)..]
    else b
  }

  /** Dropping what precedes the first start code moves both boundaries of the first NAL unit. */
  lemma ShiftToCode(b: Bytes)
    requires FirstCode(b, 0) >= 0
    ensures var b' := b[FirstCode(b, 0)..];
            && FirstCode(b', 0) == 0
            && StartCodeLen(b', 0) == StartCodeLen(b, FirstCode(b, 0))
            && NextCode(b') == if HasNal(b) then NextCode(b) - FirstCode(b, 0) else -1
  {
    var s := FirstCode(b, 0);
    FirstCodeShift(b, s, 0);
    FirstCodeAgain(b, 0);
    FirstCodeShift(b, s, StartCodeLen(b, s));
  }

  lemma FirstCodeAgain(b: Bytes, off: nat)
    requires FirstCode(b, off) >= 0
    ensures FirstCode(b, FirstCode(b, off)) == FirstCode(b, off)
  {
    FirstCodeIsFirst(b, off);
  }

  lemma NextCodeStarts(b: Bytes)
    requires HasNal(b)
    ensures FirstCode(b[NextCode(b)..], 0) == 0 && b[NextCode(b)..][0..] == b[NextCode(b)..]
  {
    FirstCodeShift(b, NextCode(b), 0);
    FirstCodeAgain(b, FirstCode(b, 0) + StartCodeLen(b, FirstCode(b, 0)));
  }

  /** What is left over holds no complete NAL unit. */
  lemma {:induction false} RestIsDry(b: Bytes)
    ensures !HasNal(Rest(b))
    decreases |b|
  {
    if HasNal(b) {
      RestIsDry(b[NextCode(b)..]);
    } else if FirstCode(b, 0) >= 0 {
      ShiftToCode(b);
    }
  }

  /** Bytes before the first start code are never part of a NAL unit. */
  lemma {:induction false} DropPrefix(b: Bytes)
    requires FirstCode(b, 0) >= 0
    ensures Nals(b) == Nals(b[FirstCode(b, 0)..])
    ensures Rest(b) == Rest(b[FirstCode(b, 0)..])
  {
    var b' := b[FirstCode(b, 0)..];
    ShiftToCode(b);
    if HasNal(b) {
      assert b'[NextCode(b')..] == b[NextCode(b)..];
      assert FirstNal(b') == FirstNal(b);
    } else {
      assert b'[0..] == b';
    }
  }

  /** The first NAL unit stays what it is, however the buffer grows. */
  lemma FirstNalStable(b: Bytes, c: Bytes)
    requires HasNal(b)
    ensures HasNal(b + c) && FirstNal(b + c) == FirstNal(b)
    ensures (b + c)[NextCode(b + c)..] == b[NextCode(b)..] + c
  {
    var s := FirstCode(b, 0);
    FirstCodeStable(b, c, 0);
    FirstCodeStable(b, c, s + StartCodeLen(b, s));
  }

  /** Parsing may stop anywhere and go on later with what was left over. */
  lemma {:induction false} NalsAppend(b: Bytes, c: Bytes)
    ensures Nals(b + c) == Nals(b) + Nals(Rest(b) + c)
    ensures Rest(b + c) == Rest(Rest(b) + c)
    decreases |b|
  {
    if HasNal(b) {
      FirstNalStable(b, c);
      var b' := b[NextCode(b)..];
      NalsAppend(b', c);
      Assoc([FirstNal(b)], Nals(b'), Nals(Rest(b) + c));
    } else if FirstCode(b, 0) >= 0 {
      var s := FirstCode(b, 0);
      FirstCodeStable(b, c, 0);
      DropPrefix(b + c);
      assert (b + c)[s..] == b[s..] + c;
    }
  }

  /** Only bytes before the first start code are outside the NAL units and the rest. */
  lemma {:induction false} NalsConserve(b: Bytes)
    ensures FirstCode(b, 0) < 0 ==> Nals(b) == [] && Rest(b) == b
    ensures FirstCode(b, 0) >= 0 ==> b[FirstCode(b, 0)..] == Flatten(Nals(b)) + Rest(b)
    decreases |b|
  {
    if HasNal(b) {
      var s, n := FirstCode(b, 0), NextCode(b);
      var b' := b[n..];
      NextCodeStarts(b);
      NalsConserve(b');
      assert b' == Flatten(Nals(b')) + Rest(b');
      SplitAt(b, s, n);
      FlattenCons(FirstNal(b), Nals(b'));
      Assoc(FirstNal(b), Flatten(Nals(b')), Rest(b'));
    }
  }

  /** The rest runs from the last start code, if there is one, and no other start code follows in it. */
  lemma {:induction false} RestHasOneCode(b: Bytes)
    requires FirstCode(b, 0) >= 0
    ensures FirstCode(Rest(b), 0) == 0 && NextCode(Rest(b)) < 0
    decreases |b|
  {
    if HasNal(b) {
      NextCodeStarts(b);
      RestHasOneCode(b[NextCode(b)..]);
    } else {
      ShiftToCode(b);
    }
  }

  // ----- access units

  datatype Unit = Unit(data: Bytes, key: bool)

  // The unit being accumulated: au, auHasVCL and auIsKey of the reader.
  datatype Pending = Pending(au: Bytes, hasVcl: bool, isKey: bool)

  const NOTHING: Pending := Pending([], false, false)

  function Kind(nal: Bytes): nat {
    if 2 < |nal| && StartCodeLen(nal, 0) < |nal| then (nal[StartCodeLen(nal, 0)] % 32) as nat else 0
  }

  predicate IsSlice(nal: Bytes) { Kind(nal) == 1 || Kind(nal) == 5 }

  predicate IsPrefix(nal: Bytes) { Kind(nal) == 6 || Kind(nal) == 7 || Kind(nal) == 8 }

  predicate Opens(nal: Bytes) { IsSlice(nal) || IsPrefix(nal) }

  predicate MarksKey(nal: Bytes) { Kind(nal) == 5 || Kind(nal) == 7 }

  function Flushed(p: Pending): seq<Unit> {
    if |p.au| > 0 && p.hasVcl then [Unit(p.au, p.isKey)] else []
  }

  /** The accumulator after one more NAL unit; a completed unit is flushed first. */
  function After(p: Pending, nal: Bytes): Pending {
    var q := if Opens(nal) && p.hasVcl then NOTHING else p;
    Pending(q.au + nal, q.hasVcl || IsSlice(nal), q.isKey || MarksKey(nal))
  }

  /** Everything delivered for `nals`, the flush at the end of the stream included. */
  function Finish(p: Pending, nals: seq<Bytes>): seq<Unit>
    decreases |nals|
  {
    if nals == [] then Flushed(p)
    else (if Opens(nals[0]) && p.hasVcl then Flushed(p) else []) + Finish(After(p, nals[0]), nals[1..])
  }

  // ----- the reader

  function Capped(b: Bytes): (r: Bytes)
    ensures |r| <= CAP && (|b| <= CAP ==> r == b)
  {
    if |b| > CAP then [] else b
  }

  /** The NAL units consumed from buffer `buf` and the chunks still to come. */
  function NalsFrom(buf: Bytes, chunks: seq<Bytes>): seq<Bytes>
    decreases |chunks|
  {
    if chunks == [] then []
    else
      Nals(buf + chunks[0]) + NalsFrom(Capped(Rest(buf + chunks[0])), chunks[1..])
  }

  /** The stream cut where the buffer is reset; `cur` is what came since the last reset. */
  function Segments(cur: Bytes, chunks: seq<Bytes>): seq<Bytes>
    decreases |chunks|
  {
    if chunks == [] then [cur]
    else if |Rest(cur + chunks[0])| > CAP then [cur + chunks[0]] + Segments([], chunks[1..])
    else Segments(cur + chunks[0], chunks[1..])
  }

  function NalsOfAll(segments: seq<Bytes>): seq<Bytes> {
    if segments == [] then [] else Nals(segments[0]) + NalsOfAll(segments[1..])
  }

  predicate NoReset(cur: Bytes, chunks: seq<Bytes>)
    decreases |chunks|
  {
    chunks == [] || (|Rest(cur + chunks[0])| <= CAP && NoReset(cur + chunks[0], chunks[1..]))
  }

  /** The reader's flush: deliver a unit that holds a slice, forget the rest. */
  method Flush(frames: seq<Unit>, au: Bytes, auHasVCL: bool, auIsKey: bool)
    returns (frames': seq<Unit>, au': Bytes, auHasVCL': bool, auIsKey': bool)
    ensures frames' == frames + Flushed(Pending(au, auHasVCL, auIsKey))
    ensures Pending(au', auHasVCL', auIsKey') == NOTHING
  {
    frames' := frames;
    if |au| > 0 && auHasVCL {
      frames' := frames' + [Unit(au, auIsKey)];
    }
    au', auHasVCL', auIsKey' := [], false, false;
  }

  /** The reader's switch over one complete NAL unit. */
  method Accept(nal: Bytes, nalType: nat, frames: seq<Unit>, au: Bytes, auHasVCL: bool, auIsKey: bool)
    returns (frames': seq<Unit>, au': Bytes, auHasVCL': bool, auIsKey': bool)
    requires nalType == Kind(nal)
    ensures var p := Pending(au, auHasVCL, auIsKey);
            && frames' == frames + (if Opens(nal) && p.hasVcl then Flushed(p) else [])
            && Pending(au', auHasVCL', auIsKey') == After(p, nal)
  {
    frames', au', auHasVCL', auIsKey' := frames, au, auHasVCL, auIsKey;
    if nalType == 1 {
      if auHasVCL' {
        frames', au', auHasVCL', auIsKey' := Flush(frames', au', auHasVCL', auIsKey');
      }
      au' := au' + nal;
      auHasVCL' := true;
    } else if nalType == 5 {
      if auHasVCL' {
        frames', au', auHasVCL', auIsKey' := Flush(frames', au', auHasVCL', auIsKey');
      }
      au' := au' + nal;
      auHasVCL' := true;
      auIsKey' := true;
    } else if nalType == 7 || nalType == 8 || nalType == 6 {
      if auHasVCL' {
        frames', au', auHasVCL', auIsKey' := Flush(frames', au', auHasVCL', auIsKey');
      }
      au' := au' + nal;
      if nalType == 7 {
        auIsKey' := true;
      }
    } else {
      au' := au' + nal;
    }
  }

  lemma KindOfFirst(b: Bytes)
    requires HasNal(b)
    ensures var s := FirstCode(b, 0);
            Kind(FirstNal(b)) ==
            if s + StartCodeLen(b, s) < NextCode(b) then (b[s + StartCodeLen(b, s)] % 32) as nat else 0
  {
  }

  lemma FinishCons(p: Pending, nal: Bytes, nals: seq<Bytes>)
    ensures Finish(p, [nal] + nals) ==
            (if Opens(nal) && p.hasVcl then Flushed(p) else []) + Finish(After(p, nal), nals)
  {
    assert ([nal] + nals)[1..] == nals;
  }

  lemma ExtractStep(buf: Bytes, frames: seq<Unit>, p: Pending, more: seq<Bytes>)
    requires HasNal(buf)
    ensures var nal := FirstNal(buf);
            frames + Finish(p, Nals(buf) + more) ==
            frames + (if Opens(nal) && p.hasVcl then Flushed(p) else [])
            + Finish(After(p, nal), Nals(buf[NextCode(buf)..]) + more)
  {
    var nal := FirstNal(buf);
    var tail := Nals(buf[NextCode(buf)..]);
    Assoc([nal], tail, more);
    FinishCons(p, nal, tail + more);
    Assoc(frames, if Opens(nal) && p.hasVcl then Flushed(p) else [], Finish(After(p, nal), tail + more));
  }

  lemma LastNalWaits(buf: Bytes)
    requires FirstCode(buf, 0) >= 0 && !HasNal(buf)
    ensures var buf' := buf[FirstCode(buf, 0)..];
            !HasNal(buf') && Nals(buf') == Nals(buf) == [] && Rest(buf') == Rest(buf) == buf'
  {
    DropPrefix(buf);
    ShiftToCode(buf);
    assert buf[FirstCode(buf, 0)..][0..] == buf[FirstCode(buf, 0)..];
  }

  /** The reader's inner loop: consume every NAL unit whose end is in sight; the buffer it
      leaves holds none. */
  method Extract(buf: Bytes, frames: seq<Unit>, au: Bytes, auHasVCL: bool, auIsKey: bool, ghost more: seq<Bytes>)
    returns (buf': Bytes, frames': seq<Unit>, au': Bytes, auHasVCL': bool, auIsKey': bool)
    ensures buf' == Rest(buf) && !HasNal(buf')
    ensures frames' + Finish(Pending(au', auHasVCL', auIsKey'), more) ==
            frames + Finish(Pending(au, auHasVCL, auIsKey), Nals(buf) + more)
  {
    buf', frames', au', auHasVCL', auIsKey' := buf, frames, au, auHasVCL, auIsKey;
    ghost var goal := frames + Finish(Pending(au, auHasVCL, auIsKey), Nals(buf) + more);
    while true
      invariant Rest(buf') == Rest(buf)
      invariant frames' + Finish(Pending(au', auHasVCL', auIsKey'), Nals(buf') + more) == goal
      decreases |buf'|
    {
      var s := IndexStartCode(buf', 0);
      if s < 0 {
        break;
      }
      var scLen := StartCodeLen(buf', s);
      var next := IndexStartCode(buf', s + scLen);
      if next < 0 {
        LastNalWaits(buf');
        if s > 0 {
          buf' := buf'[s..];
        }
        break;
      }
      assert s == FirstCode(buf', 0) && next == NextCode(buf');
      var nal := buf'[s..next];
      assert nal == FirstNal(buf');
      var nalType := 0;
      if s + scLen < next {
        nalType := (nal[scLen] % 32) as int;
      }
      assert nalType == Kind(nal) by {
        KindOfFirst(buf');
      }
      ExtractStep(buf', frames', Pending(au', auHasVCL', auIsKey'), more);
      frames', au', auHasVCL', auIsKey' := Accept(nal, nalType, frames', au', auHasVCL', auIsKey');
      buf' := buf'[next..];
    }
    assert [] + more == more;
    RestIsDry(buf);
  }

  /** What the reader delivers for a list of reads. */
  function Delivered(chunks: seq<Bytes>): seq<Unit> {
    Finish(NOTHING, NalsFrom([], chunks))
  }

  method ReadAnnexBFrames(chunks: seq<Bytes>) returns (frames: seq<Unit>)
    ensures frames == Delivered(chunks)
  {
    frames := [];
    var buf: Bytes := [];
    var au: Bytes, auHasVCL, auIsKey := [], false, false;
    var k := 0;
    while k < |chunks|
      invariant k <= |chunks|
      invariant frames + Finish(Pending(au, auHasVCL, auIsKey), NalsFrom(buf, chunks[k..])) ==
                Finish(NOTHING, NalsFrom([], chunks))
    {
      assert chunks[k..][1..] == chunks[k + 1..];
      ghost var more := NalsFrom(Capped(Rest(buf + chunks[k])), chunks[k + 1..]);
      buf := buf + chunks[k];
      buf, frames, au, auHasVCL, auIsKey := Extract(buf, frames, au, auHasVCL, auIsKey, more);
      if |buf| > CAP {
        buf := [];
      }
      k := k + 1;
    }
    frames, au, auHasVCL, auIsKey := Flush(frames, au, auHasVCL, auIsKey);
  }
}
