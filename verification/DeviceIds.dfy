/**
 Alternate device ids: the server's suggestion after an identity conflict, the
 agent's use of it, and why the chain of suggestions never comes back to an id.
 */
module DeviceIds {
  import opened Options
  import opened Text
  import opened Decimal

  function LastIndex(s: string, c: char): (i: int)
    ensures -1 <= i < |s|
  {
    if s == "" then -1 else if s[|s| - 1] == c then |s| - 1 else LastIndex(s[..|s| - 1], c)
  }

  lemma {:induction false} LastIndexIs(p: string, d: string, c: char)
    requires c !in d
    ensures LastIndex(p + [c] + d, c) == |p|
  {
    var s := p + [c] + d;
    if d != "" {
      var n := |d| - 1;
      assert s[..|s| - 1] == p + [c] + d[..n];
      LastIndexIs(p, d[..n], c);
    }
  }

  /** The number after the last hyphen, if there is one that counts as a suffix. */
  function Suffix(id: string): (r: Option<int>)
    ensures r.Some? ==> LastIndex(id, '-') > 0 && 2 <= r.value <= MAX_INT
  {
    var i := LastIndex(id, '-');
    if i > 0 && Atoi(id[i + 1..]).Some? && Atoi(id[i + 1..]).value >= 2 then Atoi(id[i + 1..]) else None
  }

  function SuggestAlternate(deviceId: string): string {
    var id := TrimSpace(deviceId);
    if id == "" then ""
    else if Suffix(id).Some? then id[..LastIndex(id, '-') + 1] + Print(Wrap(Suffix(id).value + 1))
    else id + "-2"
  }

  function DeriveWithSuffix(baseId: string, suffix: string): string {
    var b, s := TrimSpace(baseId), TrimSpace(suffix);
    if b == "" || s == "" then b
    else if |s| <= |b| && b[|b| - |s|..] == s then b
    else b + s
  }

  /** The id the agent tries after a conflict on `id`. */
  function NextId(id: string): string {
    var s := TrimSpace(SuggestAlternate(id));
    if s == "" then DeriveWithSuffix(id, "-2") else s
  }

  // ----- suggested ids

  /** `y` is `p`, a hyphen and a printed number of at least two, or the number past the
      largest, printed with its sign. */
  ghost predicate Form(y: string, p: string, m: int) {
    && p != "" && !IsSpace(p[0])
    && y == p + "-" + Print(m)
    && (2 <= m <= MAX_INT || m == MIN_INT)
  }

  ghost predicate Suggested(y: string) {
    exists p, m :: Form(y, p, m)
  }

  lemma PrintShape(m: int)
    ensures !IsSpace(Print(m)[|Print(m)| - 1])
    ensures m >= 0 ==> '-' !in Print(m)
  {
    DigitsRead(if m < 0 then -m else m);
  }

  lemma FormTrimmed(y: string, p: string, m: int)
    requires Form(y, p, m)
    ensures y != "" && TrimSpace(y) == y
  {
    PrintShape(m);
    TrimSpaceTrims(y);
  }

  /** How the suffix of a suggested id reads. */
  lemma FormSuffix(y: string, p: string, m: int)
    requires Form(y, p, m)
    ensures m != MIN_INT ==> LastIndex(y, '-') == |p| && Suffix(y) == Some(m)
    ensures m == MIN_INT ==> Suffix(y) == None
  {
    PrintShape(m);
    if m != MIN_INT {
      LastIndexIs(p, Print(m), '-');
      assert y == p + ['-'] + Print(m);
      assert y[|p| + 1..] == Print(m);
      PrintRead(m);
    } else {
      var d := Digits(-MIN_INT);
      DigitsRead(-MIN_INT);
      var q := p + "-";
      assert y == q + ['-'] + d;
      LastIndexIs(q, d, '-');
      assert y[|q| + 1..] == d;
    }
  }

  /** Every suggestion for a non-blank id has this form. */
  lemma SuggestionForm(x: string) returns (p: string, m: int)
    requires TrimSpace(x) != ""
    ensures Form(SuggestAlternate(x), p, m)
  {
    hide TrimSpace, LastIndex, Suffix, Wrap, Print;
    var id := TrimSpace(x);
    TrimSpaceTrims(x);
    if Suffix(id).Some? {
      var i := LastIndex(id, '-');
      LastIndexHit(id, '-');
      WrapNext(Suffix(id).value);
      p, m := id[..i], Wrap(Suffix(id).value + 1);
      assert id[..i + 1] == p + "-";
    } else {
      p, m := id, 2;
      PrintTwo();
      assert id + "-2" == id + "-" + "2";
    }
  }

  lemma PrintTwo()
    ensures Print(2) == "2"
  {
  }

  lemma WrapNext(n: int)
    requires 2 <= n <= MAX_INT
    ensures Wrap(n + 1) == if n == MAX_INT then MIN_INT else n + 1
  {
  }

  lemma {:induction false} LastIndexHit(s: string, c: char)
    ensures LastIndex(s, c) >= 0 ==> s[LastIndex(s, c)] == c
  {
    if s != "" && s[|s| - 1] != c {
      LastIndexHit(s[..|s| - 1], c);
    }
  }

  // ----- the chain of suggestions climbs

  function Value(id: string): int {
    if Suffix(id).Some? then Suffix(id).value else 0
  }

  /** Shorter, or as long with a smaller suffix. */
  predicate Below(x: string, y: string) {
    |x| < |y| || (|x| == |y| && Value(x) < Value(y))
  }

  lemma NextForm(y: string, p: string, m: int)
    requires Form(y, p, m)
    ensures 2 <= m < MAX_INT ==> Form(NextId(y), p, m + 1)
    ensures m == MAX_INT ==> Form(NextId(y), p, MIN_INT)
    ensures m == MIN_INT ==> Form(NextId(y), y, 2)
  {
    hide TrimSpace, LastIndex, Suffix, Wrap, Print;
    FormTrimmed(y, p, m);
    FormSuffix(y, p, m);
    if m != MIN_INT {
      WrapNext(m);
      assert y[..|p| + 1] == p + "-";
      FormTrimmed(p + "-" + Print(Wrap(m + 1)), p, Wrap(m + 1));
    } else {
      PrintTwo();
      assert y + "-2" == y + "-" + "2";
      FormTrimmed(y + "-2", y, 2);
    }
  }

  lemma MinIsLonger()
    ensures |Print(MAX_INT)| < |Print(MIN_INT)|
  {
    DigitsGrow(MAX_INT, -MIN_INT);
  }

  lemma BelowTransitive(x: string, y: string, z: string)
    requires Below(x, y) && Below(y, z)
    ensures Below(x, z)
  {
  }

  /** From a suggested id the next one is suggested too and lies strictly above it, the
      64-bit overflow of the suffix included. */
  lemma NextClimbs(y: string)
    requires Suggested(y)
    ensures Suggested(NextId(y)) && Below(y, NextId(y))
  {
    var p, m :| Form(y, p, m);
    var z := NextId(y);
    NextForm(y, p, m);
    FormSuffix(y, p, m);
    if m == MIN_INT {
      assert Form(z, y, 2);
    } else if m == MAX_INT {
      assert Form(z, p, MIN_INT);
      MinIsLonger();
    } else {
      assert Form(z, p, m + 1);
      FormSuffix(z, p, m + 1);
      DigitsGrow(m, m + 1);
    }
  }

  lemma NextOfAny(x: string)
    requires TrimSpace(x) != ""
    ensures Suggested(NextId(x)) && NextId(x) == SuggestAlternate(x) && NextId(x) != ""
  {
    var p, m := SuggestionForm(x);
    FormTrimmed(SuggestAlternate(x), p, m);
  }

  lemma NextOfBlank(x: string)
    requires TrimSpace(x) == ""
    ensures NextId(x) == ""
  {
    assert TrimSpace("") == "";
  }

  /** The id after `k` conflicts. */
  function Nth(id: string, k: nat): string
    decreases k
  {
    if k == 0 then id else Nth(NextId(id), k - 1)
  }

  lemma {:induction false} NthStep(id: string, k: nat)
    ensures Nth(id, k + 1) == NextId(Nth(id, k))
    decreases k
  {
    hide NextId, Suggested, Below;
    if k > 0 {
      NthStep(NextId(id), k - 1);
    }
  }

  lemma {:induction false} NthClimbs(y: string, k: nat)
    requires Suggested(y) && k > 0
    ensures Suggested(Nth(y, k)) && Below(y, Nth(y, k))
    decreases k
  {
    hide NextId, Suggested, Below;
    NextClimbs(y);
    if k > 1 {
      NthClimbs(NextId(y), k - 1);
      BelowTransitive(y, NextId(y), Nth(y, k));
    }
  }

  lemma {:induction false} NthAdd(id: string, j: nat, k: nat)
    ensures Nth(id, j + k) == Nth(Nth(id, j), k)
    decreases j
  {
    hide NextId, Suggested, Below;
    if j > 0 {
      NthAdd(NextId(id), j - 1, k);
    }
  }

  /** The ids tried after conflicts on a non-blank id are pairwise different. */
  lemma NeverRepeats(id: string, j: nat, k: nat)
    requires TrimSpace(id) != "" && j < k
    ensures Nth(id, j) != Nth(id, k)
  {
    hide NextId, Suggested;
    var y := NextId(id);
    NextOfAny(id);
    NthAdd(id, j, k - j);
    NthStep(id, j);
    if j > 0 {
      if j > 1 {
        NthClimbs(y, j - 1);
      }
      NthClimbs(Nth(id, j), k - j);
    } else {
      // Were the k-th id the first one again, the next one would be the second one again.
      NthClimbs(y, k);
      NthStep(id, k);
    }
  }

  // ----- how many conflicts a table can cause

  /** The ids of a table that the chain from `id` may still meet. */
  ghost function Ahead(ids: set<string>, id: string): set<string> {
    set k | k in ids && (k == id || (Suggested(k) && (Suggested(id) ==> Below(id, k))))
  }

  ghost function Distance(ids: set<string>, id: string): nat {
    if TrimSpace(id) == "" then if id in ids && id != "" then 1 else 0 else |Ahead(ids, id)|
  }

  /** A conflict on an id of the table uses up one of them. */
  lemma ConflictCounts(ids: set<string>, id: string)
    requires id in ids && id != ""
    ensures Distance(ids, NextId(id)) < Distance(ids, id) <= |ids|
  {
    hide NextId, TrimSpace, Suggested, Below;
    var z := NextId(id);
    if TrimSpace(id) == "" {
      NextOfBlank(id);
      TrimSpaceTrims("");
      Smaller({id}, ids);
    } else {
      NextOfAny(id);
      SuggestedNotBlank(z);
      ChainShrinks(ids, id);
      Smaller(Ahead(ids, z), Ahead(ids, id) - {id});
      Smaller(Ahead(ids, id), ids);
    }
  }

  lemma SuggestedNotBlank(z: string)
    requires Suggested(z)
    ensures TrimSpace(z) != ""
  {
    var p, m :| Form(z, p, m);
    FormTrimmed(z, p, m);
  }

  lemma ChainShrinks(ids: set<string>, id: string)
    requires id in ids && TrimSpace(id) != ""
    ensures Ahead(ids, NextId(id)) <= Ahead(ids, id) - {id}
  {
    hide NextId, TrimSpace, Suggested;
    var z := NextId(id);
    NextOfAny(id);
    if Suggested(id) {
      NextClimbs(id);
    }
  }

  lemma Smaller<T>(a: set<T>, b: set<T>)
    requires a <= b
    ensures |a| <= |b|
  {
    if a != {} {
      var x :| x in a;
      Smaller(a - {x}, b - {x});
    }
  }
}
