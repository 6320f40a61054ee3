/**
 Decoded JSON values of an address book, its peers, and the union of tag lists.
 */
module Values {
  import opened Text

  // A decoded JSON value. A missing key and null read the same, as a nil interface.
  datatype Json =
    | Null
    | Bool(b: bool)
    | Num(n: real)
    | Str(s: string)
    | Arr(items: seq<Json>)
    | Obj(fields: Fields)

  type Fields = map<string, Json>

  function Lookup(m: Fields, k: string): Json {
    if k in m then m[k] else Null
  }

  predicate IsEmptyValue(v: Json) {
    match v
    case Null => true
    case Str(s) => TrimSpace(s) == ""
    case Arr(items) => items == []
    case _ => false
  }

  /** The objects of an array; anything else is dropped. */
  function Objects(items: seq<Json>): seq<Fields> {
    if items == [] then []
    else (if items[0].Obj? then [items[0].fields] else []) + Objects(items[1..])
  }

  function ToPeerSlice(v: Json): seq<Fields> {
    if v.Arr? then Objects(v.items) else []
  }

  function PeersToAny(peers: seq<Fields>): (v: Json)
  {
    Arr(seq(|peers|, i requires 0 <= i < |peers| => Obj(peers[i])))
  }

  lemma {:induction false} PeersComeBack(peers: seq<Fields>)
    ensures ToPeerSlice(PeersToAny(peers)) == peers
  {
    var items := PeersToAny(peers).items;
    if peers != [] {
      PeersComeBack(peers[1..]);
      assert items[1..] == PeersToAny(peers[1..]).items;
    }
  }

  /** The id of a peer: its string "id", else the empty string. */
  function IdOf(p: Fields): string {
    if "id" in p && p["id"].Str? then p["id"].s else ""
  }

  // ----- tags

  /** The strings of an array, trimmed. */
  function Strings(items: seq<Json>): seq<string> {
    if items == [] then []
    else (if items[0].Str? then [TrimSpace(items[0].s)] else []) + Strings(items[1..])
  }

  function ToStringSlice(v: Json): seq<string> {
    if v.Arr? then Strings(v.items) else []
  }

  function TagsToAny(tags: seq<string>): Json {
    Arr(seq(|tags|, i requires 0 <= i < |tags| => Str(tags[i])))
  }

  /** The first occurrences, in order, of the non-empty strings not in `seen`. */
  function Dedup(seen: set<string>, tags: seq<string>): seq<string>
    decreases |tags|
  {
    if tags == [] then []
    else if tags[0] == "" || tags[0] in seen then Dedup(seen, tags[1..])
    else [tags[0]] + Dedup(seen + {tags[0]}, tags[1..])
  }

  function Union(a: Json, b: Json): seq<string> {
    Dedup({}, ToStringSlice(a) + ToStringSlice(b))
  }

  method UnionTags(a: Json, b: Json) returns (out: seq<string>)
    ensures out == Union(a, b)
  {
    hide ToStringSlice;
    var seen: set<string> := {};
    out := [];
    var tags := ToStringSlice(a) + ToStringSlice(b);
    for i := 0 to |tags|
      invariant out + Dedup(seen, tags[i..]) == Dedup({}, tags)
    {
      assert tags[i..][0] == tags[i] && tags[i..][1..] == tags[i + 1..];
      if tags[i] == "" || tags[i] in seen {
        continue;
      }
      seen := seen + {tags[i]};
      out := out + [tags[i]];
    }
  }

  ghost predicate AllTrimmed(tags: seq<string>) {
    forall i :: 0 <= i < |tags| ==> Trimmed(tags[i])
  }

  lemma {:induction false} StringsTrimmed(items: seq<Json>)
    ensures AllTrimmed(Strings(items))
  {
    if items != [] {
      StringsTrimmed(items[1..]);
      if items[0].Str? {
        TrimSpaceTrims(items[0].s);
      }
    }
  }

  lemma {:induction false} DedupSelects(seen: set<string>, tags: seq<string>)
    ensures AllTrimmed(tags) ==> AllTrimmed(Dedup(seen, tags))
    ensures forall t :: t in Dedup(seen, tags) <==> t in tags && t != "" && t !in seen
    ensures Dedup(seen, tags) == [] <==> forall t :: t in tags ==> t == "" || t in seen
    decreases |tags|
  {
    if tags != [] {
      DedupSelects(seen, tags[1..]);
      DedupSelects(seen + {tags[0]}, tags[1..]);
    }
  }

  lemma {:induction false} TagsComeBack(tags: seq<string>)
    requires AllTrimmed(tags)
    ensures ToStringSlice(TagsToAny(tags)) == tags
  {
    var items := TagsToAny(tags).items;
    if tags != [] {
      TagsComeBack(tags[1..]);
      assert items[1..] == TagsToAny(tags[1..]).items;
      TrimSpaceTrims(tags[0]);
    }
  }

  lemma {:induction false} DedupAgain(t: set<string>, u: set<string>, tags: seq<string>)
    requires u <= t
    ensures Dedup(t, Dedup(u, tags)) == Dedup(t, tags)
    decreases |tags|
  {
    if tags != [] {
      var x, r := tags[0], tags[1..];
      if x == "" || x in u {
        DedupAgain(t, u, r);
      } else {
        assert ([x] + Dedup(u + {x}, r))[1..] == Dedup(u + {x}, r);
        if x in t {
          DedupAgain(t, u + {x}, r);
        } else {
          DedupAgain(t + {x}, u + {x}, r);
        }
      }
    }
  }

  /** Repetitions may be removed from either part beforehand. */
  lemma {:induction false} DedupParts(s: set<string>, a: seq<string>, b: seq<string>)
    ensures Dedup(s, Dedup(s, a) + b) == Dedup(s, a + b)
    ensures Dedup(s, a + Dedup({}, b)) == Dedup(s, a + b)
    decreases |a|
  {
    if a == [] {
      assert a + b == b && a + Dedup({}, b) == Dedup({}, b) && Dedup(s, a) + b == b;
      DedupAgain(s, {}, b);
    } else {
      var x, r := a[0], a[1..];
      assert (a + b)[1..] == r + b && (a + Dedup({}, b))[1..] == r + Dedup({}, b);
      if x == "" || x in s {
        DedupParts(s, r, b);
      } else {
        DedupParts(s + {x}, r, b);
        assert (Dedup(s, a) + b)[1..] == Dedup(s + {x}, r) + b;
      }
    }
  }

  /** Uniting tags is associative, and a value united once stays as it is. */
  lemma UnionAssociative(a: Json, b: Json, c: Json)
    ensures Union(TagsToAny(Union(a, b)), c) == Union(a, TagsToAny(Union(b, c)))
    ensures Union(TagsToAny(Union(a, b)), b) == Union(a, b)
  {
    UnionComesBack(a, b);
    UnionComesBack(b, c);
    DedupAssociative(ToStringSlice(a), ToStringSlice(b), ToStringSlice(c));
  }

  lemma DedupAssociative(x: seq<string>, y: seq<string>, z: seq<string>)
    ensures Dedup({}, Dedup({}, x + y) + z) == Dedup({}, x + Dedup({}, y + z))
    ensures Dedup({}, Dedup({}, x + y) + y) == Dedup({}, x + y)
  {
    DedupParts({}, x + y, z);
    DedupParts({}, x, y + z);
    assert x + (y + z) == x + y + z;
    DedupParts({}, x + y, y);
    DedupTwice({}, x, y);
  }

  lemma UnionComesBack(a: Json, b: Json)
    ensures ToStringSlice(TagsToAny(Union(a, b))) == Union(a, b)
  {
    if a.Arr? {
      StringsTrimmed(a.items);
    }
    if b.Arr? {
      StringsTrimmed(b.items);
    }
    DedupSelects({}, ToStringSlice(a) + ToStringSlice(b));
    TagsComeBack(Union(a, b));
  }

  lemma {:induction false} DedupTwice(s: set<string>, a: seq<string>, b: seq<string>)
    ensures Dedup(s, a + b + b) == Dedup(s, a + b)
    decreases |a|
  {
    if a == [] {
      assert a + b + b == b + b && a + b == b;
      DedupKnown(s, b, b);
    } else {
      assert (a + b + b)[1..] == a[1..] + b + b && (a + b)[1..] == a[1..] + b;
      DedupTwice(s, a[1..], b);
      DedupTwice(s + {a[0]}, a[1..], b);
    }
  }

  /** Strings that occurred before add nothing. */
  lemma {:induction false} DedupKnown(s: set<string>, a: seq<string>, b: seq<string>)
    requires forall t :: t in b && t != "" ==> t in a || t in s
    ensures Dedup(s, a + b) == Dedup(s, a)
    decreases |a|
  {
    if a == [] {
      assert a + b == b;
      DedupSelects(s, b);
    } else {
      assert (a + b)[1..] == a[1..] + b;
      if a[0] == "" || a[0] in s {
        DedupKnown(s, a[1..], b);
      } else {
        DedupKnown(s + {a[0]}, a[1..], b);
      }
    }
  }
}
