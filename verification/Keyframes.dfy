/**
 Key frame detection: LEB128, the walk over AV1 OBUs, and the MSB-first bit
 reader with the VP9 header test built on it.
 */
module Keyframes {
  import opened Streams

  function Pow(base: nat, n: nat): (p: nat)
    ensures base > 0 ==> p > 0
  {
    if n == 0 then 1 else base * Pow(base, n - 1)
  }

  // ----- LEB128 (section 4.10.5 of the AV1 bitstream specification)

  /** An encoding of at most eight bytes, shortest form not required. */
  ghost predicate IsLeb(e: Bytes) {
    && 1 <= |e| <= 8
    && (forall i :: 0 <= i < |e| - 1 ==> e[i] >= 128)
    && e[|e| - 1] < 128
  }

  function LebValue(e: Bytes): nat {
    if e == [] then 0 else (e[0] % 128) as nat + 128 * LebValue(e[1..])
  }

  /** The shortest encoding. */
  function LebEncode(v: nat): Bytes {
    if v < 128 then [v as byte] else [(v % 128 + 128) as byte] + LebEncode(v / 128)
  }

  lemma Times128(x: nat, p: nat)
    ensures 128 * (x * p) == x * (128 * p)
  {
  }

  lemma {:induction false} LebSnoc(e: Bytes, b: byte)
    ensures LebValue(e + [b]) == LebValue(e) + (b % 128) as nat * Pow(128, |e|)
  {
    if e == [] {
      assert e + [b] == [b];
      assert LebValue([b]) == (b % 128) as nat + 128 * LebValue([]);
    } else {
      LebSnoc(e[1..], b);
      assert (e + [b])[1..] == e[1..] + [b];
      Times128((b % 128) as nat, Pow(128, |e| - 1));
    }
  }

  lemma {:induction false} LebBound(e: Bytes)
    ensures LebValue(e) < Pow(128, |e|)
  {
    if e != [] {
      LebBound(e[1..]);
    }
  }

  lemma LebPrepend(b: byte, e: Bytes)
    requires b >= 128 && IsLeb(e) && |e| < 8
    ensures IsLeb([b] + e) && LebValue([b] + e) == (b - 128) as nat + 128 * LebValue(e)
  {
    assert ([b] + e)[1..] == e;
    assert b % 128 == b - 128;
  }

  lemma {:induction false} LebEncodes(v: nat, n: nat)
    requires v < Pow(128, n) && 1 <= n <= 8
    ensures IsLeb(LebEncode(v)) && |LebEncode(v)| <= n && LebValue(LebEncode(v)) == v
  {
    if v < 128 {
      assert LebValue([v as byte]) == (v as byte % 128) as nat + 128 * LebValue([]);
    } else {
      assert Pow(128, 1) == 128 * Pow(128, 0);
      LebEncodes(v / 128, n - 1);
      LebPrepend((v % 128 + 128) as byte, LebEncode(v / 128));
    }
  }

  /** How many bytes an encoding at the front of `b` takes; 0 when there is none. */
  function LebLen(b: Bytes, i: nat): (n: nat)
    ensures n != 0 ==> i < n <= |b| && n <= 8
    decreases |b| - i
  {
    if i >= |b| || i >= 8 then 0
    else if b[i] < 128 then i + 1
    else LebLen(b, i + 1)
  }

  lemma {:induction false} LebLenIs(e: Bytes, tail: Bytes, i: nat)
    requires IsLeb(e) && i < |e|
    ensures LebLen(e + tail, i) == |e|
    decreases |e| - i
  {
    if i < |e| - 1 {
      assert (e + tail)[i] == e[i];
      LebLenIs(e, tail, i + 1);
    } else {
      assert (e + tail)[i] == e[i];
    }
  }

  lemma {:induction false} LebLenSound(b: Bytes, i: nat)
    requires i <= |b| && (forall k :: 0 <= k < i ==> b[k] >= 128)
    ensures LebLen(b, i) != 0 ==> IsLeb(b[..LebLen(b, i)])
    ensures LebLen(b, i) == 0 ==> forall n :: i < n <= |b| ==> !IsLeb(b[..n])
    decreases |b| - i
  {
    if i < |b| && i < 8 && b[i] >= 128 {
      LebLenSound(b, i + 1);
      if LebLen(b, i) == 0 {
        assert b[..i + 1][i] >= 128;
      }
    }
  }

  /** Decoding finds an encoding if and only if one is a prefix, and returns its value. The
      bytes are combined by OR; the value so far is below 128^i, so that is a sum. */
  method ReadLeb128(b: Bytes) returns (v: nat, read: nat)
    ensures read == LebLen(b, 0)
    ensures v == (if read == 0 then 0 else LebValue(b[..read]))
    ensures read != 0 ==> IsLeb(b[..read])
    ensures read == 0 ==> forall n :: 0 < n <= |b| ==> !IsLeb(b[..n])
  {
    v := 0;
    LebLenSound(b, 0);
    for i := 0 to |b|
      invariant i <= 8
      invariant LebLen(b, 0) == LebLen(b, i)
      invariant v == LebValue(b[..i]) < Pow(128, i)
    {
      if i >= 8 {
        break;
      }
      LebSnoc(b[..i], b[i]);
      assert b[..i + 1] == b[..i] + [b[i]];
      LebBound(b[..i + 1]);
      v := v + (b[i] % 128) as nat * Pow(128, i);
      if b[i] < 128 {
        return v, i + 1;
      }
    }
    return 0, 0;
  }

  /** Any value below 2^56 comes back from its encoding, whatever follows; so does the value
      of any longer encoding in at most eight bytes. */
  lemma LebRoundTrip(v: nat, tail: Bytes)
    requires v < Pow(128, 8)
    ensures var b := LebEncode(v) + tail;
            LebLen(b, 0) == |LebEncode(v)| && LebValue(b[..LebLen(b, 0)]) == v
  {
    LebEncodes(v, 8);
    LebLenIs(LebEncode(v), tail, 0);
    assert (LebEncode(v) + tail)[..|LebEncode(v)|] == LebEncode(v);
  }

  // ----- the OBU walk (sections 5.3.1 to 5.3.3)

  // OutOfRange: the source slices past the end of the frame, which panics.
  datatype Verdict = Key | Delta | OutOfRange

  function ObuKind(h: byte): nat { (h / 8 % 16) as nat }

  function ExtLen(h: byte): (n: nat)
    ensures n < 2
  {
    (h / 4 % 2) as nat
  }

  predicate HasSize(h: byte) { h / 2 % 2 == 1 }

  function Walk(f: Bytes, i: nat): Verdict
    decreases |f| - i
  {
    if i >= |f| then Delta
    else
      var j := i + 1 + ExtLen(f[i]);
      if !HasSize(f[i]) then if ObuKind(f[i]) == 1 then Key else Delta
      else if j > |f| then OutOfRange
      else
        var n := LebLen(f[j..], 0);
        if n == 0 then Delta
        else if ObuKind(f[i]) == 1 then Key
        else Walk(f, j + n + LebValue(f[j..][..n]))
  }

  method Av1IsKeyframe(f: Bytes) returns (verdict: Verdict)
    ensures verdict == Walk(f, 0)
  {
    hide LebLen, LebValue, ObuKind, ExtLen, HasSize;
    var i := 0;
    while i < |f|
      invariant 0 <= i
      invariant Walk(f, i) == Walk(f, 0)
      decreases |f| - i
    {
      var hdr := f[i];
      var obuType, extFlag, hasSize := ObuKind(hdr), ExtLen(hdr), HasSize(hdr);
      i := i + 1;
      if extFlag == 1 {
        i := i + 1;
      }
      var size: int;
      if hasSize {
        if i > |f| {
          return OutOfRange;
        }
        var v, read := ReadLeb128(f[i..]);
        if read == 0 {
          break;
        }
        size := v;
        i := i + read;
      } else {
        size := |f| - i;
      }
      if obuType == 1 {
        return Key;
      }
      i := i + size;
    }
    return Delta;
  }

  // One OBU with a size field. `top` and `low` are the forbidden and the reserved bit.
  datatype Obu = Obu(top: nat, kind: nat, ext: Bytes, low: nat, size: Bytes, payload: Bytes)

  ghost predicate WellFormed(o: Obu) {
    && o.top < 2 && o.kind < 16 && |o.ext| <= 1 && o.low < 2
    && IsLeb(o.size) && LebValue(o.size) == |o.payload|
  }

  ghost function Header(o: Obu): byte
    requires WellFormed(o)
  {
    (128 * o.top + 8 * o.kind + 4 * |o.ext| + 2 + o.low) as byte
  }

  ghost function Encoded(o: Obu): Bytes
    requires WellFormed(o)
  {
    [Header(o)] + o.ext + o.size + o.payload
  }

  ghost predicate AllWellFormed(os: seq<Obu>) {
    forall i :: 0 <= i < |os| ==> WellFormed(os[i])
  }

  ghost function EncodedAll(os: seq<Obu>): Bytes
    requires AllWellFormed(os)
  {
    if os == [] then [] else Encoded(os[0]) + EncodedAll(os[1..])
  }

  ghost predicate HasSequenceHeader(os: seq<Obu>) {
    exists i :: 0 <= i < |os| && os[i].kind == 1
  }

  lemma {:induction false} WalkShift(f: Bytes, k: nat, i: nat)
    requires k <= |f|
    ensures Walk(f[k..], i) == Walk(f, k + i)
    decreases |f| - i
  {
    hide LebValue, LebLen, ObuKind, ExtLen, HasSize;
    var g := f[k..];
    if i < |g| {
      var j := i + 1 + ExtLen(g[i]);
      if HasSize(g[i]) && j <= |g| {
        assert g[j..] == f[k + j..];
        var n := LebLen(g[j..], 0);
        if n != 0 {
          WalkShift(f, k, j + n + LebValue(g[j..][..n]));
        }
      }
    }
  }

  lemma HeaderBits(o: Obu)
    requires WellFormed(o)
    ensures var h := Header(o); ObuKind(h) == o.kind && ExtLen(h) == |o.ext| && HasSize(h)
  {
    var h := 128 * o.top + 8 * o.kind + 4 * |o.ext| + 2 + o.low;
    assert h / 8 == 16 * o.top + o.kind;
    assert h / 4 == 2 * (16 * o.top + o.kind) + |o.ext|;
    assert h / 2 == 2 * (h / 4) + 1;
  }

  /** Walking over one OBU that is no sequence header leads to what follows it. */
  lemma WalkOne(o: Obu, tail: Bytes)
    requires WellFormed(o)
    ensures Walk(Encoded(o) + tail, 0) == if o.kind == 1 then Key else Walk(tail, 0)
  {
    hide LebLen, LebValue, IsLeb, Encoded, Header, ObuKind, ExtLen, HasSize;
    var f := Encoded(o) + tail;
    HeaderBits(o);
    EncodedParts(o, tail);
    LebLenIs(o.size, o.payload + tail, 0);
    WalkShift(f, |Encoded(o)|, 0);
  }

  lemma EncodedParts(o: Obu, tail: Bytes)
    requires WellFormed(o)
    ensures var f, j := Encoded(o) + tail, 1 + |o.ext|;
            && f[0] == Header(o) && f[j..] == o.size + (o.payload + tail) && |o.size| > 0
            && f[j..][..|o.size|] == o.size && f[|Encoded(o)|..] == tail
            && |Encoded(o)| == j + |o.size| + |o.payload|
  {
  }

  /** On well-formed OBUs followed by anything, the walk answers Key if and only if one is a
      sequence header; otherwise what follows decides. */
  lemma {:induction false} WalkAll(os: seq<Obu>, tail: Bytes)
    requires AllWellFormed(os)
    ensures Walk(EncodedAll(os) + tail, 0) == if HasSequenceHeader(os) then Key else Walk(tail, 0)
  {
    if os == [] {
      assert [] + tail == tail;
    } else {
      var r := os[1..];
      WalkAll(r, tail);
      WalkOne(os[0], EncodedAll(r) + tail);
      Assoc(Encoded(os[0]), EncodedAll(r), tail);
      assert HasSequenceHeader(os) <==> os[0].kind == 1 || HasSequenceHeader(r) by {
        if i :| 0 <= i < |os| && os[i].kind == 1 {
          assert i == 0 || r[i - 1].kind == 1;
        }
        if i :| 0 <= i < |r| && r[i].kind == 1 {
          assert os[i + 1].kind == 1;
        }
      }
    }
  }

  /** A temporal unit of well-formed OBUs, the last one possibly without a size field, is a
      key frame exactly when one of them is a sequence header. */
  lemma TemporalUnit(os: seq<Obu>, open: Bytes)
    requires AllWellFormed(os)
    requires open != [] ==> !HasSize(open[0])
    ensures Walk(EncodedAll(os) + open, 0) ==
            if HasSequenceHeader(os) || (open != [] && ObuKind(open[0]) == 1) then Key else Delta
  {
    WalkAll(os, open);
  }

  /** A lone byte asking for an extension byte and a size field. */
  ghost predicate CutHeader(tail: Bytes) {
    |tail| == 1 && HasSize(tail[0]) && ExtLen(tail[0]) == 1
  }

  ghost predicate EndsInCutHeader(f: Bytes, os: seq<Obu>, tail: Bytes) {
    AllWellFormed(os) && !HasSequenceHeader(os) && CutHeader(tail) && f == EncodedAll(os) + tail
  }

  /** The walk leaves the frame exactly when well-formed OBUs, none a sequence header, are
      followed by a lone header byte with both flags. */
  lemma OutOfRangeIff(f: Bytes)
    ensures Walk(f, 0) == OutOfRange <==> exists os, tail :: EndsInCutHeader(f, os, tail)
  {
    if Walk(f, 0) == OutOfRange {
      var os, tail := CutHeaderFound(f);
      assert EndsInCutHeader(f, os, tail);
    }
    if os, tail :| EndsInCutHeader(f, os, tail) {
      WalkAll(os, tail);
    }
  }

  /** The shortest such frame: one header byte with both flags. */
  lemma LoneHeaderFails()
    ensures Walk([0x06], 0) == OutOfRange
  {
    WalkAll([], [0x06]);
  }

  lemma {:induction false} CutHeaderFound(f: Bytes) returns (os: seq<Obu>, tail: Bytes)
    requires Walk(f, 0) == OutOfRange
    ensures EndsInCutHeader(f, os, tail)
    decreases |f|
  {
    var h := f[0];
    var j := 1 + ExtLen(h);
    if j > |f| {
      os, tail := [], f;
      assert [] + f == f;
    } else {
      var o := ObuAtFront(f);
      var k := |Encoded(o)|;
      assert f == Encoded(o) + f[k..];
      assert Walk(f[k..], 0) == OutOfRange by {
        WalkOne(o, f[k..]);
      }
      os, tail := CutHeaderFound(f[k..]);
      PrependObu(o, os, tail);
      os := [o] + os;
    }
  }

  lemma PrependObu(o: Obu, os: seq<Obu>, tail: Bytes)
    requires WellFormed(o) && AllWellFormed(os)
    ensures AllWellFormed([o] + os)
    ensures EncodedAll([o] + os) + tail == Encoded(o) + (EncodedAll(os) + tail)
  {
    assert ([o] + os)[1..] == os;
    Assoc(Encoded(o), EncodedAll(os), tail);
  }

  /** A walk that goes on past the first header has seen a well-formed OBU. */
  lemma ObuAtFront(f: Bytes) returns (o: Obu)
    requires Walk(f, 0) == OutOfRange && 1 + ExtLen(f[0]) <= |f|
    ensures WellFormed(o) && o.kind != 1 && Encoded(o) <= f
  {
    var h := f[0];
    var j := 1 + ExtLen(h);
    var n := LebLen(f[j..], 0);
    var e := f[j..][..n];
    var k := j + n + LebValue(e);
    LebLenSound(f[j..], 0);
    HeaderSplit(h);
    o := Obu((h / 128) as nat, ObuKind(h), f[1..j], (h % 2) as nat, e, f[j + n..k]);
    assert Encoded(o) == f[..k];
  }

  lemma HeaderSplit(h: byte)
    requires HasSize(h)
    ensures h / 128 < 2 && h % 2 < 2
    ensures h as int == 128 * (h / 128) as int + 8 * ObuKind(h) + 4 * ExtLen(h) + 2 + (h % 2) as int
  {
    var x := h as int;
    var a := x / 2;
    var b := a / 2;
    var c := b / 2;
    assert x / 4 == b && x / 8 == c && x / 128 == c / 16;
  }

  // ----- the bit reader

  const WORD: nat := 0x1_0000_0000

  /** Bit `pos` of `data`, most significant first; zero past the end. */
  function BitAt(data: Bytes, pos: nat): nat {
    if pos / 8 >= |data| then 0 else data[pos / 8] as nat / Pow(2, 7 - pos % 8) % 2
  }

  /** `n` bits from `pos` on as a number, kept in 32 bits. */
  function BitsAt(data: Bytes, pos: nat, n: nat): (v: nat)
    ensures v < WORD
  {
    if n == 0 then 0 else (2 * BitsAt(data, pos, n - 1) + BitAt(data, pos + n - 1)) % WORD
  }

  class BitReader {
    const data: Bytes
    var pos: nat

    constructor (data: Bytes)
      ensures this.data == data && pos == 0
    {
      this.data := data;
      pos := 0;
    }

    method Read(n: nat) returns (v: nat)
      modifies this`pos
      ensures v == BitsAt(data, old(pos), n)
      ensures pos == old(pos) + n
    {
      v := 0;
      for i := 0 to n
        invariant pos == old(pos) + i
        invariant v == BitsAt(data, old(pos), i)
      {
        var bytePos := pos / 8;
        if bytePos >= |data| {
          pos := pos + 1;
          v := 2 * v % WORD;
        } else {
          var bit := data[bytePos] as nat / Pow(2, 7 - pos % 8) % 2;
          v := (2 * v + bit) % WORD;
          pos := pos + 1;
        }
      }
    }
  }

  lemma {:induction false} BitsBound(data: Bytes, pos: nat, n: nat)
    ensures BitsAt(data, pos, n) < Pow(2, n)
  {
    if n != 0 {
      BitsBound(data, pos, n - 1);
      var x := 2 * BitsAt(data, pos, n - 1) + BitAt(data, pos + n - 1);
      assert x % WORD <= x;
    }
  }

  lemma ModStep(x: nat, y: nat, bit: nat)
    requires x == y % WORD
    ensures (2 * x + bit) % WORD == (2 * y + bit) % WORD
  {
    var q := y / WORD;
    assert y == q * WORD + x;
    assert 2 * y + bit == (2 * x + bit) + (2 * q) * WORD;
    ModAdd(2 * x + bit, 2 * q);
  }

  lemma {:induction false} ModAdd(a: nat, q: nat)
    ensures (a + q * WORD) % WORD == a % WORD
  {
    if q != 0 {
      ModAdd(a, q - 1);
      assert a + q * WORD == (a + (q - 1) * WORD) + WORD;
    }
  }

  lemma Glue(x: nat, p: nat, z: nat, bit: nat)
    ensures (2 * ((x * p + z) % WORD) + bit) % WORD == (x * (2 * p) + (2 * z + bit) % WORD) % WORD
  {
    var w, y := 2 * z + bit, x * p;
    ModStep((y + z) % WORD, y + z, bit);
    assert x * (2 * p) == 2 * y;
    ModAdd(2 * y + w % WORD, w / WORD);
    assert 2 * (y + z) + bit == 2 * y + w % WORD + (w / WORD) * WORD;
  }

  /** A high part shifted by factor `p` and a low part, in 32 bits. */
  function Joined(high: nat, p: nat, low: nat): nat {
    (high * p + low) % WORD
  }

  lemma JoinedAlone(high: nat)
    requires high < WORD
    ensures Joined(high, Pow(2, 0), 0) == high
  {
  }

  lemma GlueBits(x: nat, p: nat, p': nat, z: nat, z': nat, bit: nat, y: nat, y': nat)
    requires p' == 2 * p && z' == (2 * z + bit) % WORD
    requires y == Joined(x, p, z) && y' == (2 * y + bit) % WORD
    ensures y' == Joined(x, p', z')
  {
    Glue(x, p, z, bit);
  }

  /** Reading a bits and then b bits is reading a+b bits at once, in 32-bit arithmetic and
      with the zeros past the end included. */
  lemma {:induction false} BitsCompose(data: Bytes, pos: nat, a: nat, b: nat)
    ensures BitsAt(data, pos, a + b) ==
            Joined(BitsAt(data, pos, a), Pow(2, b), BitsAt(data, pos + a, b))
    decreases b
  {
    hide BitAt, Joined;
    var x := BitsAt(data, pos, a);
    if b == 0 {
      JoinedAlone(x);
    } else {
      BitsCompose(data, pos, a, b - 1);
      var z, z', y, y' := BitsAt(data, pos + a, b - 1), BitsAt(data, pos + a, b),
                          BitsAt(data, pos, a + b - 1), BitsAt(data, pos, a + b);
      var bit := BitAt(data, pos + a + b - 1);
      var p, p' := Pow(2, b - 1), Pow(2, b);
      GlueBits(x, p, p', z, z', bit, y, y');
    }
  }

  /** Up to 32 bits nothing is cut off: the two reads are the high and the low part. */
  lemma BitsConcatenate(data: Bytes, pos: nat, a: nat, b: nat)
    requires a + b <= 32
    ensures var whole := BitsAt(data, pos, a + b);
            && BitsAt(data, pos, a) == whole / Pow(2, b)
            && BitsAt(data, pos + a, b) == whole % Pow(2, b)
  {
    BitsCompose(data, pos, a, b);
    BitsBound(data, pos, a);
    BitsBound(data, pos + a, b);
    PowAdd(a, b);
    PowMonotone(a + b, 32);
    PowWord();
    NoCut(BitsAt(data, pos, a), BitsAt(data, pos + a, b), Pow(2, a), Pow(2, b), BitsAt(data, pos, a + b));
  }

  lemma NoCut(h: nat, l: nat, top: nat, p: nat, whole: nat)
    requires h < top && l < p && top * p <= WORD && whole == (h * p + l) % WORD
    ensures h == whole / p && l == whole % p
  {
    HighLow(h, l, top, p);
    DivModUnique(h, l, p);
  }

  lemma PowWord()
    ensures Pow(2, 32) == WORD
  {
    assert Pow(2, 4) == 16;
    PowAdd(4, 4);
    PowAdd(8, 8);
    PowAdd(16, 16);
  }

  lemma HighLow(h: nat, l: nat, top: nat, p: nat)
    requires h < top && l < p
    ensures h * p + l < top * p
  {
    assert (h + 1) * p <= top * p;
  }

  lemma DivModUnique(h: nat, l: nat, p: nat)
    requires l < p
    ensures (h * p + l) / p == h && (h * p + l) % p == l
  {
    var q, r := (h * p + l) / p, (h * p + l) % p;
    assert q * p + r == h * p + l;
    assert q < h ==> (q + 1) * p <= h * p;
    assert q > h ==> (h + 1) * p <= q * p;
  }

  lemma MulAssoc(x: nat, y: nat)
    ensures 2 * (x * y) == (2 * x) * y
  {
  }

  lemma {:induction false} PowAdd(a: nat, b: nat)
    ensures Pow(2, a + b) == Pow(2, a) * Pow(2, b)
  {
    if a != 0 {
      PowAdd(a - 1, b);
      MulAssoc(Pow(2, a - 1), Pow(2, b));
    }
  }

  lemma {:induction false} PowMonotone(a: nat, b: nat)
    requires a <= b
    ensures Pow(2, a) <= Pow(2, b)
    decreases b
  {
    if a < b {
      PowMonotone(a, b - 1);
    }
  }

  // ----- VP9 (section 6.2 of the VP9 bitstream specification)

  /** The header test, stated on the first byte alone: frame marker 10, then either profile 0
      to 2 with the next two bits 0, or profile 3, one reserved bit, and two bits 0. */
  predicate Vp9Key(f: Bytes) {
    && f != []
    && f[0] as nat / 64 == 2
    && (if f[0] as nat / 16 % 4 == 3 then f[0] as nat / 2 % 4 == 0 else f[0] as nat / 4 % 4 == 0)
  }

  lemma FirstByteBits(f: Bytes)
    requires f != []
    ensures var b := f[0] as nat;
            && BitsAt(f, 0, 2) == b / 64
            && BitsAt(f, 2, 1) == b / 32 % 2 && BitsAt(f, 3, 1) == b / 16 % 2
            && BitsAt(f, 4, 1) == b / 8 % 2 && BitsAt(f, 5, 1) == b / 4 % 2
            && BitsAt(f, 6, 1) == b / 2 % 2
  {
    var b := f[0] as nat;
    assert Pow(2, 1) == 2 && Pow(2, 2) == 4 && Pow(2, 3) == 8;
    assert Pow(2, 4) == 16 && Pow(2, 5) == 32 && Pow(2, 6) == 64 && Pow(2, 7) == 128;
    assert BitAt(f, 0) == b / 128 % 2 && BitAt(f, 1) == b / 64 % 2;
    assert BitsAt(f, 0, 1) == BitAt(f, 0);
    assert BitsAt(f, 0, 2) == 2 * BitAt(f, 0) + BitAt(f, 1);
    forall p | 2 <= p <= 6
      ensures BitsAt(f, p, 1) == BitAt(f, p)
    {
      assert BitsAt(f, p, 0) == 0;
    }
  }

  /** The same test along the bits the reader takes. */
  lemma Vp9ByBits(f: Bytes)
    requires f != []
    ensures var p := if 2 * BitsAt(f, 3, 1) + BitsAt(f, 2, 1) == 3 then 5 else 4;
            Vp9Key(f) <==> BitsAt(f, 0, 2) == 2 && BitsAt(f, p, 1) != 1 && BitsAt(f, p + 1, 1) == 0
  {
    FirstByteBits(f);
    TwoBits(f[0] as nat, 16, 32);
    TwoBits(f[0] as nat, 4, 8);
    TwoBits(f[0] as nat, 2, 4);
  }

  lemma TwoBits(b: nat, low: nat, high: nat)
    requires low > 0 && high == 2 * low
    ensures b / low % 4 == 2 * (b / high % 2) + b / low % 2
  {
    var c := b / low;
    HalfOf(b, low);
    assert c % 4 == 2 * (c / 2 % 2) + c % 2;
  }

  lemma HalfOf(b: nat, low: nat)
    requires low > 0
    ensures b / (2 * low) == b / low / 2
  {
    var q := b / low / 2;
    var r := b / low % 2;
    assert b == low * (2 * q + r) + b % low;
    assert b == q * (2 * low) + (low * r + b % low) by {
      assert low * (2 * q + r) == q * (2 * low) + low * r;
    }
    assert low * r <= low;
    DivModUnique(q, low * r + b % low, 2 * low);
  }

  method Vp9IsKeyframe(f: Bytes) returns (key: bool)
    ensures key == Vp9Key(f)
  {
    if |f| < 1 {
      return false;
    }
    Vp9ByBits(f);
    var br := new BitReader(f);
    var marker := br.Read(2);
    if marker != 2 {
      return false;
    }
    var pLow := br.Read(1);
    var pHigh := br.Read(1);
    if 2 * pHigh + pLow == 3 {
      var reserved := br.Read(1);
    }
    var shown := br.Read(1);
    if shown == 1 {
      return false;
    }
    var frameType := br.Read(1);
    return frameType == 0;
  }
}
