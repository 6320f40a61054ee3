/**
 What the Annex B splitter guarantees: independence from the cutting of the
 stream, the shape of the delivered units, conservation, and the round trip.
 */
module AnnexBTheorems {
  import opened Streams
  import opened AnnexB

  // ----- the cutting of the stream

  lemma {:induction false} SegmentsPartition(cur: Bytes, chunks: seq<Bytes>)
    ensures Flatten(Segments(cur, chunks)) == cur + Flatten(chunks)
    ensures NoReset(cur, chunks) ==> Segments(cur, chunks) == [cur + Flatten(chunks)]
    decreases |chunks|
  {
    if chunks == [] {
      assert cur + Flatten(chunks) == cur;
      FlattenCons(cur, []);
      assert cur + [] == cur;
    } else {
      var b := cur + chunks[0];
      Assoc(cur, chunks[0], Flatten(chunks[1..]));
      if |Rest(b)| > CAP {
        SegmentsPartition([], chunks[1..]);
        FlattenCons(b, Segments([], chunks[1..]));
        assert [] + Flatten(chunks[1..]) == Flatten(chunks[1..]);
      } else {
        SegmentsPartition(b, chunks[1..]);
      }
    }
  }

  lemma {:induction false} NalsOfSegments(cur: Bytes, chunks: seq<Bytes>)
    requires |Rest(cur)| <= CAP
    ensures Nals(cur) + NalsFrom(Rest(cur), chunks) == NalsOfAll(Segments(cur, chunks))
    decreases |chunks|
  {
    if chunks == [] {
      assert NalsOfAll([cur]) == Nals(cur) + NalsOfAll([]);
    } else {
      var b := cur + chunks[0];
      NalsAppend(cur, chunks[0]);
      var later := NalsFrom(Capped(Rest(b)), chunks[1..]);
      Assoc(Nals(cur), Nals(Rest(cur) + chunks[0]), later);
      if |Rest(b)| > CAP {
        NalsOfSegments([], chunks[1..]);
        assert Nals([]) + later == later;
        assert ([b] + Segments([], chunks[1..]))[1..] == Segments([], chunks[1..]);
      } else {
        NalsOfSegments(b, chunks[1..]);
      }
    }
  }

  lemma NalsIndependent(chunks: seq<Bytes>)
    ensures NalsFrom([], chunks) == NalsOfAll(Segments([], chunks))
    ensures Flatten(Segments([], chunks)) == Flatten(chunks)
    ensures NoReset([], chunks) ==> NalsFrom([], chunks) == Nals(Flatten(chunks))
  {
    NalsOfSegments([], chunks);
    assert Nals([]) + NalsFrom([], chunks) == NalsFrom([], chunks);
    SegmentsPartition([], chunks);
    assert [] + Flatten(chunks) == Flatten(chunks);
    if NoReset([], chunks) {
      var stream := Flatten(chunks);
      assert NalsOfAll([stream]) == Nals(stream) + NalsOfAll([]);
    }
  }

  /** For every cutting: the NAL units consumed are those of the stretches between resets,
      each parsed in one go, and the stretches make up the stream. Without a reset the
      delivered units are those of a one-shot parse of the stream, whatever the cutting. */
  lemma ChunkIndependence(chunks: seq<Bytes>)
    ensures Delivered(chunks) == Finish(NOTHING, NalsOfAll(Segments([], chunks)))
    ensures Flatten(Segments([], chunks)) == Flatten(chunks)
    ensures NoReset([], chunks) ==> Delivered(chunks) == Finish(NOTHING, Nals(Flatten(chunks)))
  {
    NalsIndependent(chunks);
  }

  // ----- the shape of the delivered units

  ghost predicate NoSlices(nals: seq<Bytes>) {
    forall i :: 0 <= i < |nals| ==> !IsSlice(nals[i])
  }

  /** One slice at `v`; before it no slice, after it nothing that opens a unit. */
  ghost predicate SliceAt(group: seq<Bytes>, v: nat) {
    && v < |group| && IsSlice(group[v])
    && (forall i :: 0 <= i < v ==> !IsSlice(group[i]))
    && (forall i :: v < i < |group| ==> !Opens(group[i]))
  }

  ghost predicate OneSlice(group: seq<Bytes>) {
    exists v :: SliceAt(group, v)
  }

  /** A grouping of NAL units into access units, followed by an unfinished one. */
  ghost predicate Grouping(groups: seq<seq<Bytes>>, tail: seq<Bytes>) {
    && (forall k :: 0 <= k < |groups| ==> OneSlice(groups[k]))
    && (forall k :: 0 < k < |groups| ==> Opens(groups[k][0]))
    && NoSlices(tail)
    && (groups != [] && tail != [] ==> Opens(tail[0]))
  }

  ghost predicate HasKey(group: seq<Bytes>) {
    exists i :: 0 <= i < |group| && MarksKey(group[i])
  }

  ghost function UnitsOf(groups: seq<seq<Bytes>>): seq<Unit> {
    if groups == [] then [] else [Unit(Flatten(groups[0]), HasKey(groups[0]))] + UnitsOf(groups[1..])
  }

  function DataOf(units: seq<Unit>): Bytes {
    if units == [] then [] else units[0].data + DataOf(units[1..])
  }

  // The accumulator after `nals` when no unit is completed in between.
  ghost function Gathered(p: Pending, nals: seq<Bytes>): Pending {
    Pending(p.au + Flatten(nals),
            p.hasVcl || exists i :: 0 <= i < |nals| && IsSlice(nals[i]),
            p.isKey || HasKey(nals))
  }

  ghost predicate Quiet(hasVcl: bool, nals: seq<Bytes>) {
    forall i :: 0 <= i < |nals| && Opens(nals[i]) ==> !hasVcl && NoSlices(nals[..i])
  }

  /** A run of NAL units that completes nothing is simply gathered. */
  lemma {:induction false} FinishQuiet(p: Pending, nals: seq<Bytes>, more: seq<Bytes>)
    requires Quiet(p.hasVcl, nals)
    ensures Finish(p, nals + more) == Finish(Gathered(p, nals), more)
    decreases |nals|
  {
    if nals == [] {
      assert nals + more == more;
      assert Gathered(p, nals) == p;
    } else {
      var q := After(p, nals[0]);
      assert nals + more == [nals[0]] + (nals[1..] + more);
      FinishCons(p, nals[0], nals[1..] + more);
      forall i | 0 <= i < |nals[1..]| && Opens(nals[1..][i])
        ensures !q.hasVcl && NoSlices(nals[1..][..i])
      {
        assert Opens(nals[i + 1]);
        assert forall j :: 0 <= j < i ==> nals[1..][..i][j] == nals[..i + 1][j + 1];
        assert nals[..i + 1][0] == nals[0];
      }
      FinishQuiet(q, nals[1..], more);
      GatheredCons(p, nals);
    }
  }

  lemma GatheredCons(p: Pending, nals: seq<Bytes>)
    requires nals != [] && (Opens(nals[0]) ==> !p.hasVcl)
    ensures var q := Pending(p.au + nals[0], p.hasVcl || IsSlice(nals[0]), p.isKey || MarksKey(nals[0]));
            Gathered(q, nals[1..]) == Gathered(p, nals)
  {
    var r := nals[1..];
    Assoc(p.au, nals[0], Flatten(r));
    assert forall i :: 0 <= i < |r| ==> r[i] == nals[i + 1];
    assert forall i :: 0 < i < |nals| ==> nals[i] == r[i - 1];
    if i :| 0 <= i < |nals| && IsSlice(nals[i]) {
      assert i == 0 || IsSlice(r[i - 1]);
    }
    if i :| 0 <= i < |nals| && MarksKey(nals[i]) {
      assert i == 0 || MarksKey(r[i - 1]);
    }
  }

  /** A complete group delivers exactly one unit and leaves the accumulator empty. */
  lemma GroupDelivers(group: seq<Bytes>, more: seq<Bytes>)
    requires OneSlice(group)
    requires more != [] ==> Opens(more[0])
    ensures Finish(NOTHING, group + more) == [Unit(Flatten(group), HasKey(group))] + Finish(NOTHING, more)
  {
    var v :| SliceAt(group, v);
    forall i | 0 <= i < |group| && Opens(group[i])
      ensures NoSlices(group[..i])
    {
      assert i <= v;
    }
    FinishQuiet(NOTHING, group, more);
    FlattenHolds(group, v);
    assert [] + Flatten(group) == Flatten(group);
    var q := Gathered(NOTHING, group);
    assert q.hasVcl;
    if more != [] {
      assert After(q, more[0]) == After(NOTHING, more[0]);
    }
  }

  lemma {:induction false} FlattenHolds(pieces: seq<Bytes>, v: nat)
    requires v < |pieces|
    ensures |pieces[v]| <= |Flatten(pieces)|
  {
    if v > 0 {
      FlattenHolds(pieces[1..], v - 1);
    }
  }

  /** Any grouping of the NAL units names the delivered units: one for each group, in order. */
  lemma {:induction false} UnitsAreGroups(groups: seq<seq<Bytes>>, tail: seq<Bytes>)
    requires Grouping(groups, tail)
    ensures Finish(NOTHING, Flatten(groups) + tail) == UnitsOf(groups)
    decreases |groups|
  {
    if groups == [] {
      assert Flatten(groups) + tail == tail + [];
      FinishQuiet(NOTHING, tail, []);
    } else {
      var more := Flatten(groups[1..]) + tail;
      Assoc(groups[0], Flatten(groups[1..]), tail);
      if groups[1..] != [] {
        assert OneSlice(groups[1]) && more[0] == groups[1][0];
      }
      GroupDelivers(groups[0], more);
      UnitsAreGroups(groups[1..], tail);
    }
  }

  lemma {:induction false} GroupingExists(nals: seq<Bytes>) returns (groups: seq<seq<Bytes>>, tail: seq<Bytes>)
    ensures Grouping(groups, tail) && Flatten(groups) + tail == nals
    decreases |nals|
  {
    if nals == [] {
      return [], [];
    }
    var m := |nals| - 1;
    var x := nals[m];
    groups, tail := GroupingExists(nals[..m]);
    assert nals == nals[..m] + [x];
    Assoc(Flatten(groups), tail, [x]);
    if IsSlice(x) {
      var g := tail + [x];
      assert SliceAt(g, |tail|);
      FlattenSnoc(groups, g);
      assert Flatten(groups) + g + [] == Flatten(groups) + g;
      groups, tail := groups + [g], [];
    } else if IsPrefix(x) || tail != [] || groups == [] {
      tail := tail + [x];
    } else {
      groups := LastGroupGrows(groups, x);
    }
  }

  lemma LastGroupGrows(groups: seq<seq<Bytes>>, x: Bytes) returns (groups': seq<seq<Bytes>>)
    requires groups != [] && Grouping(groups, []) && !Opens(x)
    ensures Grouping(groups', []) && Flatten(groups') + [] == Flatten(groups) + [x]
  {
    var n := |groups| - 1;
    var g := groups[n];
    assert OneSlice(g);
    var v :| SliceAt(g, v);
    assert SliceAt(g + [x], v);
    assert groups == groups[..n] + [g];
    FlattenSnoc(groups[..n], g);
    FlattenSnoc(groups[..n], g + [x]);
    Assoc(Flatten(groups[..n]), g, [x]);
    groups' := groups[..n] + [g + [x]];
    assert Flatten(groups') + [] == Flatten(groups');
  }

  // ----- conservation

  lemma {:induction false} DataOfUnits(groups: seq<seq<Bytes>>)
    ensures DataOf(UnitsOf(groups)) == Flatten(Flatten(groups))
  {
    if groups != [] {
      DataOfUnits(groups[1..]);
      FlattenAppend(groups[0], Flatten(groups[1..]));
      var u := Unit(Flatten(groups[0]), HasKey(groups[0]));
      assert ([u] + UnitsOf(groups[1..]))[1..] == UnitsOf(groups[1..]);
    }
  }

  /** The delivered bytes, followed only by NAL units that are not slices, are exactly the
      bytes from the first start code of the stream to the last one. */
  lemma UnitsConserve(stream: Bytes) returns (groups: seq<seq<Bytes>>, tail: seq<Bytes>)
    requires FirstCode(stream, 0) >= 0
    ensures Grouping(groups, tail)
    ensures Finish(NOTHING, Nals(stream)) == UnitsOf(groups)
    ensures stream[FirstCode(stream, 0)..] ==
            DataOf(Finish(NOTHING, Nals(stream))) + Flatten(tail) + Rest(stream)
    ensures FirstCode(Rest(stream), 0) == 0 && NextCode(Rest(stream)) < 0
  {
    groups, tail := GroupingExists(Nals(stream));
    UnitsAreGroups(groups, tail);
    DataOfUnits(groups);
    FlattenAppend(Flatten(groups), tail);
    NalsConserve(stream);
    RestHasOneCode(stream);
  }

  // ----- round trip (Annex B of ITU-T H.264)

  datatype Coded = Coded(long: bool, payload: Bytes)

  function Code(long: bool): Bytes {
    if long then [0, 0, 0, 1] else [0, 0, 1]
  }

  function Printed(n: Coded): Bytes {
    Code(n.long) + n.payload
  }

  function PrintEach(ns: seq<Coded>): seq<Bytes> {
    if ns == [] then [] else [Printed(ns[0])] + PrintEach(ns[1..])
  }

  function Print(ns: seq<Coded>): Bytes {
    Flatten(PrintEach(ns))
  }

  /** No 00 00 00 and no 00 00 01 inside, no 00 at the end. */
  ghost predicate Clean(p: Bytes) {
    && (forall i :: 0 <= i && i + 2 < |p| && p[i] == 0 && p[i + 1] == 0 ==> p[i + 2] > 1)
    && (p != [] ==> p[|p| - 1] != 0)
  }

  /** A printed NAL unit ends where the next start code begins, and nowhere before. */
  lemma PrintedEnds(n: Coded, b: Bytes)
    requires Clean(n.payload)
    requires FirstCode(b, 0) == 0
    ensures FirstCode(Printed(n) + b, 0) == 0
    ensures HasNal(Printed(n) + b) && NextCode(Printed(n) + b) == |Printed(n)|
  {
    var s := Printed(n) + b;
    var c := |Code(n.long)|;
    assert StartCodeAt(s, 0);
    assert StartCodeLen(s, 0) == c;
    FirstCodeIsFirst(b, 0);
    var z := |Printed(n)|;
    assert b == s[z..];
    assert StartCodeAt(s, z);
    forall i | c <= i < z
      ensures !StartCodeAt(s, i)
    {
      assert s[i] == n.payload[i - c];
      if i + 1 < z {
        assert s[i + 1] == n.payload[i + 1 - c];
      }
      if i + 2 < z {
        assert s[i + 2] == n.payload[i + 2 - c];
      }
    }
    FirstCodeUnique(s, c, z);
  }

  lemma LastPrinted(n: Coded)
    requires Clean(n.payload)
    ensures FirstCode(Printed(n), 0) == 0 && !HasNal(Printed(n))
  {
    var s := Printed(n);
    var c := |Code(n.long)|;
    assert StartCodeAt(s, 0);
    forall i | c <= i
      ensures !StartCodeAt(s, i)
    {
      if i + 2 < |s| {
        assert s[i] == n.payload[i - c] && s[i + 1] == n.payload[i + 1 - c] && s[i + 2] == n.payload[i + 2 - c];
      }
    }
    FirstCodeUnique(s, c, -1);
  }

  ghost predicate AllClean(ns: seq<Coded>) {
    forall i :: 0 <= i < |ns| ==> Clean(ns[i].payload)
  }

  lemma {:induction false} NalsOfPrint(ns: seq<Coded>)
    requires ns != [] && AllClean(ns)
    ensures FirstCode(Print(ns), 0) == 0
    ensures Nals(Print(ns)) == PrintEach(ns[..|ns| - 1])
    ensures Rest(Print(ns)) == Printed(ns[|ns| - 1])
  {
    hide FirstCode, StartCodeLen, Clean;
    FlattenCons(Printed(ns[0]), PrintEach(ns[1..]));
    if |ns| == 1 {
      LastPrinted(ns[0]);
      assert Printed(ns[0]) + [] == Printed(ns[0]) == Printed(ns[0])[0..];
    } else {
      var r := ns[1..];
      NalsOfPrint(r);
      PrintedEnds(ns[0], Print(r));
      assert Print(ns) == Printed(ns[0]) + Print(r);
      assert Print(ns)[|Printed(ns[0])|..] == Print(r);
      assert FirstNal(Print(ns)) == Printed(ns[0]);
      assert ns[..|ns| - 1][1..] == r[..|r| - 1];
    }
  }

  ghost predicate AllShort(ns: seq<Coded>) {
    forall i :: 0 <= i < |ns| ==> |Printed(ns[i])| + 3 <= CAP
  }

  /** Wherever a printed stream is cut, little enough is left over. */
  lemma {:induction false} CutsAreShort(ns: seq<Coded>, p: Bytes)
    requires AllClean(ns) && AllShort(ns)
    requires p <= Print(ns)
    ensures |Rest(p)| <= CAP
    decreases |ns|
  {
    if ns != [] {
      FlattenCons(Printed(ns[0]), PrintEach(ns[1..]));
      var n := |Printed(ns[0])|;
      if n + 3 < |p| {
        var q := p[n..];
        assert p == Printed(ns[0]) + q;
        assert q <= Print(ns[1..]);
        NalsOfPrint(ns[1..]);
        FirstCodeIsFirst(Print(ns[1..]), 0);
        assert StartCodeAt(q, 0);
        FirstCodeUnique(q, 0, 0);
        PrintedEnds(ns[0], q);
        CutsAreShort(ns[1..], q);
        assert Rest(p) == Rest(q);
      }
    }
  }

  lemma {:induction false} NeverReset(ns: seq<Coded>, cur: Bytes, chunks: seq<Bytes>)
    requires AllClean(ns) && AllShort(ns)
    requires cur + Flatten(chunks) == Print(ns)
    ensures NoReset(cur, chunks)
    decreases |chunks|
  {
    if chunks != [] {
      Assoc(cur, chunks[0], Flatten(chunks[1..]));
      CutsAreShort(ns, cur + chunks[0]);
      NeverReset(ns, cur + chunks[0], chunks[1..]);
    }
  }

  /** Printing a NAL list and splitting it under any cutting in which the reset is not taken
      delivers the access units of all NAL units but the last: one for each group of any
      grouping of them. */
  lemma RoundTrip(ns: seq<Coded>, chunks: seq<Bytes>, groups: seq<seq<Bytes>>, tail: seq<Bytes>)
    requires ns != [] && AllClean(ns) && NoReset([], chunks)
    requires Flatten(chunks) == Print(ns)
    requires Grouping(groups, tail) && Flatten(groups) + tail == PrintEach(ns[..|ns| - 1])
    ensures Delivered(chunks) == UnitsOf(groups)
  {
    NalsIndependent(chunks);
    NalsOfPrint(ns);
    UnitsAreGroups(groups, tail);
  }

  /** With NAL units of at most 32 MiB less three bytes that holds for every cutting. */
  lemma ShortRoundTrip(ns: seq<Coded>, chunks: seq<Bytes>, groups: seq<seq<Bytes>>, tail: seq<Bytes>)
    requires ns != [] && AllClean(ns) && AllShort(ns)
    requires Flatten(chunks) == Print(ns)
    requires Grouping(groups, tail) && Flatten(groups) + tail == PrintEach(ns[..|ns| - 1])
    ensures Delivered(chunks) == UnitsOf(groups)
  {
    assert [] + Flatten(chunks) == Flatten(chunks);
    NeverReset(ns, [], chunks);
    RoundTrip(ns, chunks, groups, tail);
  }
}
