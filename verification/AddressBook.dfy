/**
 Merging address books: peers of an overlay are merged into the peers of a base by
 id, and tags are united.
 */
module AddressBook {
  import opened Values

  // ----- one peer

  /** Does merging put the overlay's value under key `k`? */
  predicate Takes(base: Fields, overlay: Fields, k: string) {
    k in overlay && (k == "tags" || (IsEmptyValue(Lookup(base, k)) && !IsEmptyValue(overlay[k])))
  }

  function MergedValue(base: Fields, overlay: Fields, k: string): Json
    requires k in base || Takes(base, overlay, k)
  {
    if !Takes(base, overlay, k) then base[k]
    else if k == "tags" then TagsToAny(Union(Lookup(base, k), overlay[k]))
    else overlay[k]
  }

  /** Base values stay unless they are empty and the overlay's are not; tags are united. */
  function MergedPeer(base: Fields, overlay: Fields): Fields {
    map k | k in base.Keys + overlay.Keys && (k in base || Takes(base, overlay, k)) :: MergedValue(base, overlay, k)
  }

  /** The overlay keys in `done` have been merged, no others. */
  ghost predicate PartlyMerged(base: Fields, overlay: Fields, done: set<string>, out: Fields) {
    forall k ::
      && (k in out <==> k in base || (k in done && Takes(base, overlay, k)))
      && (k in out ==> out[k] == if k in done then MergedValue(base, overlay, k) else base[k])
  }

  method MergePeerMaps(base: Fields, overlay: Fields) returns (out: Fields)
    ensures out == MergedPeer(base, overlay)
  {
    out := base;
    var keys := overlay.Keys;
    while keys != {}
      invariant keys <= overlay.Keys
      invariant PartlyMerged(base, overlay, overlay.Keys - keys, out)
      decreases keys
    {
      var k :| k in keys;
      keys := keys - {k};
      assert Lookup(out, k) == Lookup(base, k);
      if k == "tags" {
        var tags := UnionTags(Lookup(out, k), overlay[k]);
        out := out[k := TagsToAny(tags)];
      } else if IsEmptyValue(Lookup(out, k)) && !IsEmptyValue(overlay[k]) {
        out := out[k := overlay[k]];
      }
    }
    // The source then restores a missing id from the base; the base's keys are all there.
    assert base.Keys <= out.Keys;
  }

  lemma LookupMerged(x: Fields, y: Fields, k: string)
    ensures Lookup(MergedPeer(x, y), k) ==
            if k == "tags" && k in y then TagsToAny(Union(Lookup(x, k), y[k]))
            else if IsEmptyValue(Lookup(x, k)) && !IsEmptyValue(Lookup(y, k)) && k != "tags" then Lookup(y, k)
            else Lookup(x, k)
    ensures k in MergedPeer(x, y) <==> k in x || Takes(x, y, k)
  {
  }

  lemma UnionNothing(x: Json, z: Json)
    ensures Union(x, TagsToAny(Union(Null, z))) == Union(x, z)
  {
    UnionComesBack(Null, z);
    assert [] + ToStringSlice(z) == ToStringSlice(z);
    DedupParts({}, ToStringSlice(x), ToStringSlice(z));
  }

  /** Merging peers is associative. */
  lemma PeerAssociative(x: Fields, y: Fields, z: Fields)
    ensures MergedPeer(MergedPeer(x, y), z) == MergedPeer(x, MergedPeer(y, z))
  {
    var l, r := MergedPeer(MergedPeer(x, y), z), MergedPeer(x, MergedPeer(y, z));
    forall k
      ensures (k in l <==> k in r) && (k in l ==> l[k] == r[k])
    {
      LookupMerged(x, y, k);
      LookupMerged(y, z, k);
      LookupMerged(MergedPeer(x, y), z, k);
      LookupMerged(x, MergedPeer(y, z), k);
      UnionAssociative(Lookup(x, k), Lookup(y, k), Lookup(z, k));
      UnionNothing(Lookup(x, k), Lookup(z, k));
    }
  }

  /** Merging the same overlay once more changes nothing. */
  lemma PeerAbsorbs(x: Fields, y: Fields)
    ensures MergedPeer(MergedPeer(x, y), y) == MergedPeer(x, y)
  {
    var m := MergedPeer(x, y);
    forall k
      ensures (k in MergedPeer(m, y) <==> k in m) && (k in m ==> MergedPeer(m, y)[k] == m[k])
    {
      LookupMerged(x, y, k);
      LookupMerged(m, y, k);
      UnionAssociative(Lookup(x, k), Lookup(y, k), Null);
    }
  }

  /** Tags in the form a merge leaves them in: trimmed, not empty, no repetitions. */
  predicate TagsNormal(p: Fields) {
    "tags" in p ==> p["tags"] == TagsToAny(Union(p["tags"], p["tags"]))
  }

  lemma PeerIdempotentIff(p: Fields)
    ensures MergedPeer(p, p) == p <==> TagsNormal(p)
  {
    var m := MergedPeer(p, p);
    forall k | k != "tags"
      ensures (k in m <==> k in p) && (k in m ==> m[k] == p[k])
    {
    }
    if TagsNormal(p) {
      assert forall k :: (k in m <==> k in p) && (k in m ==> m[k] == p[k]);
    }
  }

  lemma MergedId(x: Fields, y: Fields)
    requires IdOf(x) != ""
    requires IdOf(y) == IdOf(x)
    ensures IdOf(MergedPeer(x, y)) == IdOf(x)
  {
    LookupMerged(x, y, "id");
  }

  // ----- lists of peers

  predicate Has(peers: seq<Fields>, id: string) {
    exists i :: 0 <= i < |peers| && IdOf(peers[i]) == id
  }

  /** Merge `p` into the last peer with its id. */
  function Update(peers: seq<Fields>, p: Fields): seq<Fields> {
    if peers == [] then []
    else
      var n := |peers| - 1;
      if IdOf(peers[n]) == IdOf(p) then peers[..n] + [MergedPeer(peers[n], p)]
      else Update(peers[..n], p) + [peers[n]]
  }

  /** A peer without id is skipped, a known one merged, a new one appended as it is. */
  function Upsert(peers: seq<Fields>, p: Fields): seq<Fields> {
    if IdOf(p) == "" then peers
    else if Has(peers, IdOf(p)) then Update(peers, p)
    else peers + [p]
  }

  function MergedPeers(base: seq<Fields>, overlay: seq<Fields>): seq<Fields> {
    if overlay == [] then base
    else Upsert(MergedPeers(base, overlay[..|overlay| - 1]), overlay[|overlay| - 1])
  }

  lemma MergedPeersSnoc(base: seq<Fields>, overlay: seq<Fields>, p: Fields)
    ensures MergedPeers(base, overlay + [p]) == Upsert(MergedPeers(base, overlay), p)
  {
    assert (overlay + [p])[..|overlay|] == overlay;
  }

  lemma HasSnoc(peers: seq<Fields>, q: Fields, id: string)
    ensures Has(peers + [q], id) <==> Has(peers, id) || IdOf(q) == id
  {
    if Has(peers, id) {
      var i :| 0 <= i < |peers| && IdOf(peers[i]) == id;
      assert IdOf((peers + [q])[i]) == id;
    }
    if IdOf(q) == id {
      assert IdOf((peers + [q])[|peers|]) == id;
    }
    if Has(peers + [q], id) {
      var i :| 0 <= i < |peers + [q]| && IdOf((peers + [q])[i]) == id;
      assert i < |peers| ==> IdOf(peers[i]) == id;
    }
  }

  lemma Last<T>(s: seq<T>)
    requires s != []
    ensures s == s[..|s| - 1] + [s[|s| - 1]]
  {
  }

  lemma UpdateSnoc(peers: seq<Fields>, q: Fields, p: Fields)
    ensures Update(peers + [q], p) ==
            if IdOf(q) == IdOf(p) then peers + [MergedPeer(q, p)] else Update(peers, p) + [q]
  {
    assert (peers + [q])[..|peers|] == peers;
  }

  /** Updating keeps the ids where they are. */
  lemma {:induction false} UpdateIds(peers: seq<Fields>, p: Fields)
    requires IdOf(p) != ""
    ensures |Update(peers, p)| == |peers|
    ensures forall i :: 0 <= i < |peers| ==> IdOf(Update(peers, p)[i]) == IdOf(peers[i])
  {
    hide MergedPeer, IdOf;
    if peers != [] {
      var n := |peers| - 1;
      UpdateIds(peers[..n], p);
      if IdOf(peers[n]) == IdOf(p) {
        MergedId(peers[n], p);
      }
    }
  }

  lemma UpdateKeepsIds(peers: seq<Fields>, p: Fields)
    requires IdOf(p) != ""
    ensures forall id :: Has(Update(peers, p), id) <==> Has(peers, id)
  {
    var u := Update(peers, p);
    UpdateIds(peers, p);
    forall id
      ensures Has(u, id) <==> Has(peers, id)
    {
      if i :| 0 <= i < |peers| && IdOf(peers[i]) == id {
        assert IdOf(u[i]) == id;
      }
      if i :| 0 <= i < |u| && IdOf(u[i]) == id {
        assert IdOf(peers[i]) == id;
      }
    }
  }

  /** Updates under different ids commute. */
  lemma {:induction false} UpdatesCommute(peers: seq<Fields>, p: Fields, r: Fields)
    requires IdOf(p) != IdOf(r) && IdOf(p) != "" && IdOf(r) != ""
    ensures Update(Update(peers, p), r) == Update(Update(peers, r), p)
  {
    if peers != [] {
      var n := |peers| - 1;
      var q := peers[n];
      UpdatesCommute(peers[..n], p, r);
      if IdOf(q) == IdOf(p) {
        MergedId(q, p);
      } else if IdOf(q) == IdOf(r) {
        MergedId(q, r);
      }
      UpdateSnoc(peers[..n], MergedPeer(q, p), r);
      UpdateSnoc(peers[..n], MergedPeer(q, r), p);
      UpdateSnoc(Update(peers[..n], p), q, r);
      UpdateSnoc(Update(peers[..n], r), q, p);
    }
  }

  /** Merging an already merged peer is merging twice. */
  lemma {:induction false} UpdateMerged(peers: seq<Fields>, q: Fields, p: Fields)
    requires IdOf(q) == IdOf(p) != ""
    ensures Update(peers, MergedPeer(q, p)) == Update(Update(peers, q), p)
  {
    MergedId(q, p);
    if peers != [] {
      var n := |peers| - 1;
      if IdOf(peers[n]) == IdOf(p) {
        MergedId(peers[n], q);
        PeerAssociative(peers[n], q, p);
        UpdateSnoc(peers[..n], MergedPeer(peers[n], q), p);
      } else {
        UpdateMerged(peers[..n], q, p);
        UpdateSnoc(Update(peers[..n], q), peers[n], p);
      }
    }
  }

  lemma UpsertMerged(peers: seq<Fields>, q: Fields, p: Fields)
    requires IdOf(q) == IdOf(p) != ""
    ensures Upsert(peers, MergedPeer(q, p)) == Upsert(Upsert(peers, q), p)
  {
    MergedId(q, p);
    HasSnoc(peers, q, IdOf(p));
    UpdateKeepsIds(peers, q);
    UpdateMerged(peers, q, p);
    UpdateSnoc(peers, q, p);
  }

  lemma UpsertsCommute(peers: seq<Fields>, p: Fields, r: Fields)
    requires Has(peers, IdOf(p)) && IdOf(p) != "" && IdOf(r) != IdOf(p)
    ensures Upsert(Upsert(peers, p), r) == Upsert(Upsert(peers, r), p)
    ensures Has(Upsert(peers, r), IdOf(p))
  {
    if IdOf(r) != "" {
      UpdateKeepsIds(peers, p);
      UpdateKeepsIds(peers, r);
      UpdatesCommute(peers, p, r);
      HasSnoc(peers, r, IdOf(p));
      UpdateSnoc(peers, r, p);
    }
  }

  lemma {:induction false} UpsertLater(peers: seq<Fields>, p: Fields, rest: seq<Fields>)
    requires Has(peers, IdOf(p)) && IdOf(p) != "" && !Has(rest, IdOf(p))
    ensures MergedPeers(Upsert(peers, p), rest) == Upsert(MergedPeers(peers, rest), p)
    ensures Has(MergedPeers(peers, rest), IdOf(p))
    decreases |rest|
  {
    if rest != [] {
      var n := |rest| - 1;
      Last(rest);
      HasSnoc(rest[..n], rest[n], IdOf(p));
      UpsertLater(peers, p, rest[..n]);
      UpsertsCommute(MergedPeers(peers, rest[..n]), p, rest[n]);
    }
  }

  lemma {:induction false} MergedPeersAppend(base: seq<Fields>, x: seq<Fields>, y: seq<Fields>)
    ensures MergedPeers(base, x + y) == MergedPeers(MergedPeers(base, x), y)
    decreases |y|
  {
    if y == [] {
      assert x + y == x;
    } else {
      var n := |y| - 1;
      assert (x + y)[..|x + y| - 1] == x + y[..n];
      MergedPeersAppend(base, x, y[..n]);
    }
  }

  /** Splitting a list at the last peer with an id. */
  lemma {:induction false} SplitAtLast(peers: seq<Fields>, id: string) returns (j: nat)
    requires Has(peers, id)
    ensures j < |peers| && IdOf(peers[j]) == id && !Has(peers[j + 1..], id)
    ensures forall p :: IdOf(p) == id ==>
              Update(peers, p) == peers[..j] + [MergedPeer(peers[j], p)] + peers[j + 1..]
  {
    hide MergedPeer, IdOf;
    var n := |peers| - 1;
    if IdOf(peers[n]) == id {
      j := n;
      assert peers[..n] + [peers[n]] + [] == peers;
    } else {
      Last(peers);
      HasSnoc(peers[..n], peers[n], id);
      j := SplitAtLast(peers[..n], id);
      assert peers[j + 1..] == peers[..n][j + 1..] + [peers[n]];
      HasSnoc(peers[..n][j + 1..], peers[n], id);
      assert peers[..n][..j] == peers[..j];
    }
  }

  /** Merging into an overlay first and then into the base is merging twice into the base. */
  lemma UpsertThrough(a: seq<Fields>, b: seq<Fields>, p: Fields)
    ensures MergedPeers(a, Upsert(b, p)) == Upsert(MergedPeers(a, b), p)
  {
    hide MergedPeer, IdOf, Update;
    if IdOf(p) == "" {
    } else if !Has(b, IdOf(p)) {
      MergedPeersSnoc(a, b, p);
    } else {
      var j := SplitAtLast(b, IdOf(p));
      var x, q, y := b[..j], b[j], b[j + 1..];
      var l := MergedPeers(a, x);
      assert b == x + [q] + y;
      MergedPeersAppend(a, x + [q], y);
      MergedPeersSnoc(a, x, q);
      MergedPeersAppend(a, x + [MergedPeer(q, p)], y);
      MergedPeersSnoc(a, x, MergedPeer(q, p));
      UpsertMerged(l, q, p);
      UpsertGives(l, q);
      UpsertLater(Upsert(l, q), p, y);
    }
  }

  lemma UpsertGives(peers: seq<Fields>, q: Fields)
    requires IdOf(q) != ""
    ensures Has(Upsert(peers, q), IdOf(q))
  {
    UpdateKeepsIds(peers, q);
    HasSnoc(peers, q, IdOf(q));
  }

  /** Merging peer lists is associative, repeated and missing ids included. */
  lemma {:induction false} PeersAssociative(a: seq<Fields>, b: seq<Fields>, c: seq<Fields>)
    ensures MergedPeers(MergedPeers(a, b), c) == MergedPeers(a, MergedPeers(b, c))
    decreases |c|
  {
    if c != [] {
      var n := |c| - 1;
      PeersAssociative(a, b, c[..n]);
      UpsertThrough(a, MergedPeers(b, c[..n]), c[n]);
    }
  }

  // ----- whole books

  function PeersOf(book: Fields): seq<Fields> {
    ToPeerSlice(Lookup(book, "peers"))
  }

  function WithPeersAndTags(book: Fields, peers: seq<Fields>, tags: seq<string>): Fields {
    book["peers" := PeersToAny(peers)]["tags" := TagsToAny(tags)]
  }

  /** The result of merging an overlay into a base: only peers and tags come from both. */
  function MergedBook(base: Fields, overlay: Fields): Fields {
    WithPeersAndTags(base, MergedPeers(PeersOf(base), PeersOf(overlay)),
                     Union(Lookup(base, "tags"), Lookup(overlay, "tags")))
  }

  class Book {
    var fields: Fields

    constructor (fields: Fields)
      ensures this.fields == fields
    {
      this.fields := fields;
    }
  }

  // The index the source keeps: each non-empty id leads to the last peer with it.
  ghost predicate IndexOf(peers: seq<Fields>, index: map<string, nat>) {
    && (forall id :: id in index <==> id != "" && Has(peers, id))
    && (forall id :: id in index ==>
          && index[id] < |peers| && IdOf(peers[index[id]]) == id
          && forall i :: index[id] < i < |peers| ==> IdOf(peers[i]) != id)
  }

  lemma {:induction false} UpdateAt(peers: seq<Fields>, p: Fields, j: nat)
    requires j < |peers| && IdOf(peers[j]) == IdOf(p)
    requires forall i :: j < i < |peers| ==> IdOf(peers[i]) != IdOf(p)
    ensures Update(peers, p) == peers[j := MergedPeer(peers[j], p)]
  {
    var n := |peers| - 1;
    if j < n {
      UpdateAt(peers[..n], p, j);
      assert peers[..n][j] == peers[j];
    }
  }

  method BuildIndex(peers: seq<Fields>) returns (peerIndex: map<string, nat>)
    ensures IndexOf(peers, peerIndex)
  {
    peerIndex := map[];
    for i := 0 to |peers|
      invariant IndexOf(peers[..i], peerIndex)
    {
      IndexGrows(peers[..i], peers[i], peerIndex);
      assert peers[..i + 1] == peers[..i] + [peers[i]];
      var id := IdOf(peers[i]);
      if id != "" {
        peerIndex := peerIndex[id := i];
      }
    }
    assert peers[..|peers|] == peers;
  }

  /** The overlay's peers one after the other, each found through the index. */
  method MergePeerLists(base: seq<Fields>, added: seq<Fields>) returns (peers: seq<Fields>)
    ensures peers == MergedPeers(base, added)
  {
    peers := base;
    var peerIndex: map<string, nat> := BuildIndex(peers);
    for i := 0 to |added|
      invariant IndexOf(peers, peerIndex)
      invariant peers == MergedPeers(base, added[..i])
    {
      var p := added[i];
      MergedPeersSnoc(base, added[..i], p);
      assert added[..i + 1] == added[..i] + [p];
      var id := IdOf(p);
      if id == "" {
        continue;
      }
      if id in peerIndex {
        var idx := peerIndex[id];
        UpdateAt(peers, p, idx);
        IndexStays(peers, p, peerIndex);
        var merged := MergePeerMaps(peers[idx], p);
        peers := peers[idx := merged];
      } else {
        IndexGrows(peers, p, peerIndex);
        peerIndex := peerIndex[id := |peers|];
        peers := peers + [p];
      }
    }
    assert added[..|added|] == added;
  }

  /** Merge in place; a missing overlay changes nothing. */
  method MergeAddressBookMaps(base: Book, overlay: Book?)
    modifies base
    ensures base.fields ==
            if overlay == null then old(base.fields) else MergedBook(old(base.fields), old(overlay.fields))
  {
    if overlay == null {
      return;
    }
    var mine, added := ToPeerSlice(Lookup(base.fields, "peers")), ToPeerSlice(Lookup(overlay.fields, "peers"));
    var peers := MergePeerLists(mine, added);
    var tags := UnionTags(Lookup(base.fields, "tags"), Lookup(overlay.fields, "tags"));
    base.fields := base.fields["peers" := PeersToAny(peers)]["tags" := TagsToAny(tags)];
  }

  lemma IndexGrows(peers: seq<Fields>, p: Fields, index: map<string, nat>)
    requires IndexOf(peers, index)
    ensures IdOf(p) == "" ==> IndexOf(peers + [p], index)
    ensures IdOf(p) != "" ==> IndexOf(peers + [p], index[IdOf(p) := |peers|])
  {
    forall id
      ensures Has(peers + [p], id) <==> Has(peers, id) || IdOf(p) == id
    {
      HasSnoc(peers, p, id);
    }
  }

  lemma IndexStays(peers: seq<Fields>, p: Fields, index: map<string, nat>)
    requires IndexOf(peers, index) && IdOf(p) in index
    ensures IndexOf(Update(peers, p), index)
  {
    UpdateIds(peers, p);
    UpdateKeepsIds(peers, p);
  }

  lemma PartsOf(book: Fields, peers: seq<Fields>, tags: seq<string>)
    ensures var m := WithPeersAndTags(book, peers, tags);
            && PeersOf(m) == peers && Lookup(m, "tags") == TagsToAny(tags)
            && forall ps, ts :: WithPeersAndTags(m, ps, ts) == WithPeersAndTags(book, ps, ts)
  {
    PeersComeBack(peers);
  }
}
