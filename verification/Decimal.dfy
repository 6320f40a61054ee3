/**
 Decimal printing and reading of 64-bit integers.
 */
module Decimal {
  import opened Options

  const MIN_INT: int := -0x8000_0000_0000_0000
  const MAX_INT: int := 0x7FFF_FFFF_FFFF_FFFF

  predicate IsInt(v: int) { MIN_INT <= v <= MAX_INT }

  /** 64-bit wrap-around. */
  function Wrap(v: int): (r: int)
    ensures IsInt(v) ==> r == v
  {
    (v - MIN_INT) % 0x1_0000_0000_0000_0000 + MIN_INT
  }

  predicate IsDigit(c: char) { '0' <= c <= '9' }

  function DigitOf(n: nat): (c: char)
    requires n < 10
    ensures IsDigit(c) && c as int - '0' as int == n
  {
    ('0' as int + n) as char
  }

  /** The digits of `n`, no leading zero. */
  function Digits(n: nat): (s: string)
    ensures s != ""
  {
    if n < 10 then [DigitOf(n)] else Digits(n / 10) + [DigitOf(n % 10)]
  }

  function Print(v: int): (s: string)
    ensures s != ""
  {
    if v < 0 then "-" + Digits(-v) else Digits(v)
  }

  ghost predicate AllDigits(s: string) {
    forall i :: 0 <= i < |s| ==> IsDigit(s[i])
  }

  /** The value of a string of digits; None for anything else and for the empty string. */
  function ReadDigits(s: string): Option<nat> {
    if s == "" || !IsDigit(s[|s| - 1]) then None
    else
      var d := s[|s| - 1] as int - '0' as int;
      if |s| == 1 then Some(d)
      else match ReadDigits(s[..|s| - 1])
        case None => None
        case Some(n) => Some(10 * n + d)
  }

  /** strconv.Atoi: an optional sign, digits, and a value that fits 64 bits. */
  function Atoi(s: string): (r: Option<int>)
    ensures r.Some? ==> IsInt(r.value)
  {
    var body := if s != "" && (s[0] == '-' || s[0] == '+') then s[1..] else s;
    match ReadDigits(body)
    case None => None
    case Some(n) =>
      var m: int := n;
      var v := if s[0] == '-' then -m else m;
      if IsInt(v) then Some(v) else None
  }

  lemma {:induction false} DigitsRead(n: nat)
    ensures AllDigits(Digits(n)) && ReadDigits(Digits(n)) == Some(n)
  {
    if n >= 10 {
      DigitsRead(n / 10);
      assert Digits(n)[..|Digits(n)| - 1] == Digits(n / 10);
    }
  }

  /** Reading what was printed gives the number back; printing is injective. */
  lemma PrintRead(v: int)
    requires IsInt(v)
    ensures Atoi(Print(v)) == Some(v)
  {
    DigitsRead(if v < 0 then -v else v);
    if v < 0 {
      assert Print(v)[1..] == Digits(-v);
    }
  }

  lemma {:induction false} DigitsGrow(m: nat, n: nat)
    requires m <= n
    ensures |Digits(m)| <= |Digits(n)|
    decreases n
  {
    if m >= 10 {
      DigitsGrow(m / 10, n / 10);
    }
  }

  function Pow10(n: nat): nat {
    if n == 0 then 1 else 10 * Pow10(n - 1)
  }

  lemma BufferSuffices()
    ensures MAX_INT < Pow10(19)
  {
    assert Pow10(5) == 100_000;
    assert Pow10(10) == 100_000 * 100_000;
    assert Pow10(15) == 100_000 * 100_000 * 100_000;
    assert Pow10(19) == 10_000 * Pow10(15);
  }

  lemma NegatedMin()
    ensures Wrap(-MIN_INT) == MIN_INT
  {
  }

  lemma OneDigit(w: nat, n: nat, tail: string)
    requires 0 < w < Pow10(n)
    ensures n > 0 && w / 10 < Pow10(n - 1)
    ensures Digits(w) + tail == (if w / 10 > 0 then Digits(w / 10) else "") + ([DigitOf(w % 10)] + tail)
  {
    if w >= 10 {
      var a, b := Digits(w / 10), [DigitOf(w % 10)];
      assert (a + b) + tail == a + (b + tail);
    }
  }

  /** Put one character in front of what the buffer holds from `i` on. */
  method PutBefore(b: array<char>, i: nat, c: char) returns (i': nat)
    requires 0 < i <= b.Length
    modifies b
    ensures i' == i - 1 && b[i'..] == [c] + old(b[i..])
  {
    i' := i - 1;
    b[i'] := c;
    assert b[i..] == old(b[i..]);
    assert b[i'..] == [c] + b[i..];
  }

  /** The digits of a positive number, filled in from the right. */
  method PutDigits(b: array<char>, v: nat) returns (i: nat)
    requires b.Length == 20 && 0 < v < Pow10(19)
    modifies b
    ensures 1 <= i <= 20 && b[i..] == Digits(v)
  {
    i := 20;
    var w := v;
    assert b[i..] == "";
    while w > 0
      invariant 1 <= i <= 20 && w < Pow10(i - 1)
      invariant Digits(v) == (if w > 0 then Digits(w) else "") + b[i..]
      decreases w
    {
      OneDigit(w, i - 1, b[i..]);
      i := PutBefore(b, i, DigitOf(w % 10));
      w := w / 10;
    }
  }

  /** The agent's own printer: digits from the right into a 20-byte buffer. It prints every
      integer but the smallest, whose negation wraps around to itself. */
  method Itoa(v: int) returns (s: string)
    requires IsInt(v)
    ensures s == if v == MIN_INT then "-" else Print(v)
    ensures s == Print(v) <==> v != MIN_INT
  {
    NegatedMin();
    PrintMin();
    if v == 0 {
      return "0";
    }
    var neg := v < 0;
    var w := if neg then Wrap(-v) else v;
    BufferSuffices();
    var b := new char[20];
    var i := 20;
    if w > 0 {
      i := PutDigits(b, w);
    }
    if neg {
      i := PutBefore(b, i, '-');
    }
    s := b[i..];
  }

  lemma PrintMin()
    ensures Print(MIN_INT) != "-"
  {
    assert |Digits(-MIN_INT)| >= 1;
  }
}
