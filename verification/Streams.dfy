/**
 Byte strings, the pieces a reader hands over, and first-occurrence search.

 A reader is a sequence of chunks: one element for every Read call, empty chunks
 included. A cancelled context or a read error ends the sequence early.
 */
module Streams {

  newtype byte = x: int | 0 <= x < 256
  type Bytes = seq<byte>

  /** The concatenation of the pieces. */
  function Flatten<T>(pieces: seq<seq<T>>): seq<T> {
    if pieces == [] then [] else pieces[0] + Flatten(pieces[1..])
  }

  lemma Assoc<T>(a: seq<T>, b: seq<T>, c: seq<T>)
    ensures a + (b + c) == (a + b) + c
  {
  }

  lemma SplitAt<T>(s: seq<T>, i: nat, j: nat)
    requires i <= j <= |s|
    ensures s[i..] == s[i..j] + s[j..]
  {
  }

  lemma SliceOfSlice<T>(s: seq<T>, low: nat, high: nat, i: nat, j: nat)
    requires low <= high <= |s| && i <= j <= high - low
    ensures s[low..high][i..j] == s[low + i..low + j]
  {
    var x, y := s[low..high][i..j], s[low + i..low + j];
    assert |x| == |y| && forall k :: 0 <= k < |x| ==> x[k] == y[k];
  }

  lemma FlattenCons<T>(x: seq<T>, xs: seq<seq<T>>)
    ensures Flatten([x] + xs) == x + Flatten(xs)
  {
    assert ([x] + xs)[1..] == xs;
  }

  lemma {:induction false} FlattenAppend<T>(xs: seq<seq<T>>, ys: seq<seq<T>>)
    ensures Flatten(xs + ys) == Flatten(xs) + Flatten(ys)
  {
    if xs == [] {
      assert xs + ys == ys;
    } else {
      FlattenAppend(xs[1..], ys);
      assert (xs + ys)[1..] == xs[1..] + ys;
      Assoc(xs[0], Flatten(xs[1..]), Flatten(ys));
    }
  }

  lemma FlattenSnoc<T>(xs: seq<seq<T>>, y: seq<T>)
    ensures Flatten(xs + [y]) == Flatten(xs) + y
  {
    FlattenAppend(xs, [y]);
    assert Flatten([y]) == y + Flatten<T>([]);
  }

  /** Does `pat` occur in `b` at offset `i`? */
  predicate OccursAt(b: Bytes, i: int, pat: Bytes) {
    0 <= i && i + |pat| <= |b| && b[i..i + |pat|] == pat
  }

  /** The first offset at or after `off` where `pat` occurs, or -1. */
  function IndexFrom(b: Bytes, pat: Bytes, off: nat): (r: int)
    ensures r == -1 || off <= r <= |b| - |pat|
    decreases |b| - off
  {
    if off + |pat| > |b| then -1
    else if OccursAt(b, off, pat) then off
    else IndexFrom(b, pat, off + 1)
  }

  lemma {:induction false} IndexIsFirst(b: Bytes, pat: Bytes, off: nat)
    ensures IndexFrom(b, pat, off) >= 0 ==> OccursAt(b, IndexFrom(b, pat, off), pat)
    ensures forall i :: off <= i && (IndexFrom(b, pat, off) < 0 || i < IndexFrom(b, pat, off)) ==>
              !OccursAt(b, i, pat)
    decreases |b| - off
  {
    if off + |pat| <= |b| && !OccursAt(b, off, pat) {
      IndexIsFirst(b, pat, off + 1);
    }
  }

  lemma IndexUnique(b: Bytes, pat: Bytes, off: nat, r: int)
    requires r == -1 || (off <= r && OccursAt(b, r, pat))
    requires forall i :: off <= i && (r == -1 || i < r) ==> !OccursAt(b, i, pat)
    ensures IndexFrom(b, pat, off) == r
  {
    IndexIsFirst(b, pat, off);
    if r >= 0 {
      assert !(IndexFrom(b, pat, off) > r);
    }
  }

  /** Where `pat` first occurs in `b`, or -1. */
  function Index(b: Bytes, pat: Bytes): (r: int) {
    IndexFrom(b, pat, 0)
  }

  /** Little-endian value of four bytes at `i`. */
  function Le32(b: Bytes, i: nat): (v: nat)
    requires i + 4 <= |b|
    ensures v < 0x1_0000_0000
  {
    var b0: int, b1: int, b2: int, b3: int := b[i] as int, b[i + 1] as int, b[i + 2] as int, b[i + 3] as int;
    b0 + 0x100 * b1 + 0x1_0000 * b2 + 0x100_0000 * b3
  }

  /** The four little-endian bytes of `v`. */
  function PutLe32(v: nat): (b: Bytes)
    requires v < 0x1_0000_0000
    ensures |b| == 4
  {
    [(v % 0x100) as byte, (v / 0x100 % 0x100) as byte, (v / 0x1_0000 % 0x100) as byte, (v / 0x100_0000) as byte]
  }

  lemma Le32RoundTrip(v: nat)
    requires v < 0x1_0000_0000
    ensures Le32(PutLe32(v), 0) == v
  {
    var q := v / 0x100;
    assert v / 0x1_0000 == q / 0x100;
    assert v / 0x100_0000 == q / 0x100 / 0x100;
  }

  const MIB: nat := 1024 * 1024
}
