/**
 Laws of merging address books: associativity, what survives a merge, what arrives,
 and when a second merge changes nothing.
 */
module AddressBookLaws {
  import opened Values
  import opened AddressBook

  /** Merging books is associative, for all books. */
  lemma MergeAssociative(a: Fields, b: Fields, c: Fields)
    ensures MergedBook(MergedBook(a, b), c) == MergedBook(a, MergedBook(b, c))
  {
    PartsOf(a, MergedPeers(PeersOf(a), PeersOf(b)), Union(Lookup(a, "tags"), Lookup(b, "tags")));
    PartsOf(b, MergedPeers(PeersOf(b), PeersOf(c)), Union(Lookup(b, "tags"), Lookup(c, "tags")));
    PeersAssociative(PeersOf(a), PeersOf(b), PeersOf(c));
    UnionAssociative(Lookup(a, "tags"), Lookup(b, "tags"), Lookup(c, "tags"));
  }

  /** The overlays merged one after the other into the base. */
  function MergeAll(base: Fields, overlays: seq<Fields>): Fields
    decreases |overlays|
  {
    if overlays == [] then base else MergeAll(MergedBook(base, overlays[0]), overlays[1..])
  }

  /** Merging overlays one by one is one merge with the overlays merged beforehand. */
  lemma {:induction false} OneMergeSuffices(base: Fields, overlays: seq<Fields>)
    requires overlays != []
    ensures MergeAll(base, overlays) == MergedBook(base, MergeAll(overlays[0], overlays[1..]))
    decreases |overlays|
  {
    var o, r := overlays[0], overlays[1..];
    if r != [] {
      OneMergeSuffices(MergedBook(base, o), r);
      OneMergeSuffices(o, r);
      MergeAssociative(base, o, MergeAll(r[0], r[1..]));
    }
  }

  ghost predicate DistinctIds(peers: seq<Fields>) {
    forall i, j :: 0 <= i < j < |peers| && IdOf(peers[i]) != "" ==> IdOf(peers[i]) != IdOf(peers[j])
  }

  /** Merging keeps ids distinct, keeps the base's peers where they are, and keeps every
      base value that is not empty; only tags may grow. */
  lemma {:induction false} BaseKept(base: seq<Fields>, overlay: seq<Fields>)
    ensures DistinctIds(base) ==> DistinctIds(MergedPeers(base, overlay))
    ensures var m := MergedPeers(base, overlay);
            && |base| <= |m|
            && forall i :: 0 <= i < |base| ==> Kept(base[i], m[i])
    decreases |overlay|
  {
    hide MergedPeer, IdOf, Kept;
    if overlay != [] {
      var n := |overlay| - 1;
      BaseKept(base, overlay[..n]);
      var m, p := MergedPeers(base, overlay[..n]), overlay[n];
      if IdOf(p) != "" && Has(m, IdOf(p)) {
        var j := SplitAtLast(m, IdOf(p));
        UpdateIds(m, p);
        forall i | 0 <= i < |base|
          ensures Kept(base[i], Update(m, p)[i])
        {
          if i == j {
            KeptMerged(base[i], m[i], p);
          }
        }
      }
    } else {
      forall i | 0 <= i < |base|
        ensures Kept(base[i], base[i])
      {
        KeptSelf(base[i]);
      }
    }
  }

  lemma KeptSelf(p: Fields)
    ensures Kept(p, p)
  {
  }

  ghost predicate Kept(p: Fields, q: Fields) {
    && IdOf(q) == IdOf(p)
    && p.Keys <= q.Keys
    && forall k :: k in p && k != "tags" && !IsEmptyValue(p[k]) ==> q[k] == p[k]
  }

  lemma KeptMerged(p: Fields, q: Fields, r: Fields)
    requires Kept(p, q) && IdOf(q) == IdOf(r) != ""
    ensures Kept(p, MergedPeer(q, r))
  {
    MergedId(q, r);
  }

  // ----- idempotence

  // The last peer with its id, and so the one merging goes to.
  predicate IsLast(m: seq<Fields>, p: nat) {
    p < |m| && IdOf(m[p]) != "" && forall i :: p < i < |m| ==> IdOf(m[i]) != IdOf(m[p])
  }

  /** One overlay peer changes only the last peer with its id, and moves none. */
  lemma UpsertAt(m: seq<Fields>, q: Fields, p: nat)
    requires p < |m|
    ensures var u := Upsert(m, q);
            && |m| <= |u| && IdOf(u[p]) == IdOf(m[p])
            && (IsLast(u, p) <==> IsLast(m, p))
            && u[p] == if IsLast(m, p) && IdOf(m[p]) == IdOf(q) then MergedPeer(m[p], q) else m[p]
  {
    hide MergedPeer, IdOf;
    if IdOf(q) != "" && Has(m, IdOf(q)) {
      var j := SplitAtLast(m, IdOf(q));
      UpdateIds(m, q);
      assert forall i :: j < i < |m| ==> m[i] == m[j + 1..][i - j - 1];
    }
  }

  /** The overlay's peers with one id, merged into `e` one after the other. */
  function Gathered(e: Fields, overlay: seq<Fields>, id: string): Fields {
    if overlay == [] then e
    else
      var n := |overlay| - 1;
      var g := Gathered(e, overlay[..n], id);
      if IdOf(overlay[n]) == id then MergedPeer(g, overlay[n]) else g
  }

  /** In a merged list the last base peer with an id has gathered the overlay's peers with it;
      all other base peers are as they were. */
  lemma {:induction false} MergedAt(base: seq<Fields>, overlay: seq<Fields>, p: nat)
    requires p < |base|
    ensures var m := MergedPeers(base, overlay);
            && |base| <= |m| && IdOf(m[p]) == IdOf(base[p])
            && (IsLast(m, p) <==> IsLast(base, p))
            && m[p] == if IsLast(base, p) then Gathered(base[p], overlay, IdOf(base[p])) else base[p]
    decreases |overlay|
  {
    hide MergedPeer, IdOf, Upsert, IsLast;
    if overlay != [] {
      var n := |overlay| - 1;
      MergedAt(base, overlay[..n], p);
      UpsertAt(MergedPeers(base, overlay[..n]), overlay[n], p);
    }
  }

  lemma {:induction false} GatheredNone(e: Fields, overlay: seq<Fields>, id: string)
    requires !Has(overlay, id)
    ensures Gathered(e, overlay, id) == e
  {
    hide MergedPeer, IdOf;
    if overlay != [] {
      Last(overlay);
      HasSnoc(overlay[..|overlay| - 1], overlay[|overlay| - 1], id);
      GatheredNone(e, overlay[..|overlay| - 1], id);
    }
  }

  /** Gathering from the first peer with the id on, and merging the result. */
  lemma {:induction false} GatheredThrough(e: Fields, overlay: seq<Fields>, i: nat)
    requires i < |overlay| && !Has(overlay[..i], IdOf(overlay[i]))
    ensures var id := IdOf(overlay[i]);
            Gathered(e, overlay, id) == MergedPeer(e, Gathered(overlay[i], overlay[i + 1..], id))
    decreases |overlay|
  {
    hide MergedPeer, IdOf;
    var n, q, id := |overlay| - 1, overlay[i], IdOf(overlay[i]);
    if i == n {
      GatheredNone(e, overlay[..n], id);
    } else {
      assert overlay[..n][..i] == overlay[..i] && overlay[..n][i] == q;
      GatheredThrough(e, overlay[..n], i);
      assert overlay[i + 1..][..n - i - 1] == overlay[..n][i + 1..];
      var g := Gathered(q, overlay[..n][i + 1..], id);
      if IdOf(overlay[n]) == id {
        PeerAssociative(e, g, overlay[n]);
      }
    }
  }

  // Does a later peer with the id bring tags?
  ghost predicate BringsTags(rest: seq<Fields>, id: string) {
    exists i :: 0 <= i < |rest| && IdOf(rest[i]) == id && "tags" in rest[i]
  }

  lemma BringsTagsSnoc(rest: seq<Fields>, q: Fields, id: string)
    ensures BringsTags(rest + [q], id) <==> BringsTags(rest, id) || (IdOf(q) == id && "tags" in q)
  {
    if i :| 0 <= i < |rest| && IdOf(rest[i]) == id && "tags" in rest[i] {
      assert (rest + [q])[i] == rest[i];
    }
    assert (rest + [q])[|rest|] == q;
  }

  lemma UnionNormal(a: Json, b: Json)
    ensures var t := TagsToAny(Union(a, b)); Union(t, t) == Union(a, b)
  {
    UnionComesBack(a, b);
    DedupKnown({}, Union(a, b), Union(a, b));
    DedupAgain({}, {}, ToStringSlice(a) + ToStringSlice(b));
  }

  lemma MergedNormal(x: Fields, y: Fields)
    ensures TagsNormal(MergedPeer(x, y)) <==> TagsNormal(x) || "tags" in y
  {
    LookupMerged(x, y, "tags");
    if "tags" in y {
      UnionNormal(Lookup(x, "tags"), y["tags"]);
    }
  }

  lemma {:induction false} GatheredNormal(q: Fields, rest: seq<Fields>, id: string)
    ensures TagsNormal(Gathered(q, rest, id)) <==> TagsNormal(q) || BringsTags(rest, id)
  {
    hide MergedPeer, IdOf, TagsNormal, BringsTags;
    if rest != [] {
      var n := |rest| - 1;
      Last(rest);
      GatheredNormal(q, rest[..n], id);
      BringsTagsSnoc(rest[..n], rest[n], id);
      MergedNormal(Gathered(q, rest[..n], id), rest[n]);
    } else {
      NoTags(id);
    }
  }

  lemma NoTags(id: string)
    ensures !BringsTags([], id)
  {
  }

  lemma FirstWith(overlay: seq<Fields>, id: string) returns (i: nat)
    requires Has(overlay, id)
    ensures i < |overlay| && IdOf(overlay[i]) == id && !Has(overlay[..i], id)
  {
    i :| 0 <= i < |overlay| && IdOf(overlay[i]) == id;
    while Has(overlay[..i], id)
      invariant i < |overlay| && IdOf(overlay[i]) == id
      decreases i
    {
      var j :| 0 <= j < |overlay[..i]| && IdOf(overlay[..i][j]) == id;
      i := j;
    }
  }

  /** Gathering the same peers again changes nothing. */
  lemma GatheredAgain(e: Fields, overlay: seq<Fields>, id: string)
    requires id != "" && IdOf(e) == id
    ensures Gathered(Gathered(e, overlay, id), overlay, id) == Gathered(e, overlay, id)
  {
    hide MergedPeer, IdOf;
    if Has(overlay, id) {
      var i := FirstWith(overlay, id);
      var later := Gathered(overlay[i], overlay[i + 1..], id);
      GatheredThrough(e, overlay, i);
      GatheredThrough(Gathered(e, overlay, id), overlay, i);
      PeerAbsorbs(e, later);
    } else {
      GatheredNone(e, overlay, id);
    }
  }

  // Where the overlay's i-th peer, new to the base and the first of its id, ends up.
  lemma NewAt(base: seq<Fields>, overlay: seq<Fields>, i: nat) returns (p: nat)
    requires i < |overlay| && IdOf(overlay[i]) != ""
    requires !Has(base, IdOf(overlay[i])) && !Has(overlay[..i], IdOf(overlay[i]))
    ensures var m, id := MergedPeers(base, overlay), IdOf(overlay[i]);
            p < |m| && IsLast(m, p) && IdOf(m[p]) == id && m[p] == Gathered(overlay[i], overlay[i + 1..], id)
  {
    hide MergedPeer, IdOf;
    var before, q, rest := overlay[..i], overlay[i], overlay[i + 1..];
    var m := MergedPeers(base, before);
    NotYetThere(base, before, IdOf(q));
    MergedPeersSnoc(base, before, q);
    assert overlay == before + [q] + rest;
    MergedPeersAppend(base, before + [q], rest);
    p := |m|;
    assert IsLast(m + [q], p);
    MergedAt(m + [q], rest, p);
  }

  /** The overlay peers on which a second merge may tell: the first with an id the base lacks,
      when no later one with the id brings tags, must have its tags in normal form. */
  ghost predicate NewTagsNormal(base: seq<Fields>, overlay: seq<Fields>) {
    forall i :: 0 <= i < |overlay| && Introduced(base, overlay, i) ==>
      TagsNormal(overlay[i]) || BringsTags(overlay[i + 1..], IdOf(overlay[i]))
  }

  ghost predicate Introduced(base: seq<Fields>, overlay: seq<Fields>, i: nat)
    requires i < |overlay|
  {
    IdOf(overlay[i]) != "" && !Has(base, IdOf(overlay[i])) && !Has(overlay[..i], IdOf(overlay[i]))
  }

  // Merging the overlay again leaves the last peer with each id alone.
  ghost predicate Settled(m: seq<Fields>, overlay: seq<Fields>) {
    forall p :: 0 <= p < |m| && IsLast(m, p) ==> Gathered(m[p], overlay, IdOf(m[p])) == m[p]
  }

  lemma {:induction false} NothingNew(m: seq<Fields>, overlay: seq<Fields>)
    requires forall i :: 0 <= i < |overlay| && IdOf(overlay[i]) != "" ==> Has(m, IdOf(overlay[i]))
    ensures |MergedPeers(m, overlay)| == |m|
    ensures forall id :: Has(MergedPeers(m, overlay), id) <==> Has(m, id)
    decreases |overlay|
  {
    hide MergedPeer, IdOf, Has;
    if overlay != [] {
      var n := |overlay| - 1;
      var m' := MergedPeers(m, overlay[..n]);
      assert forall i :: 0 <= i < n ==> overlay[..n][i] == overlay[i];
      NothingNew(m, overlay[..n]);
      if IdOf(overlay[n]) != "" {
        UpdateIds(m', overlay[n]);
        UpdateKeepsIds(m', overlay[n]);
      }
    }
  }

  lemma SettledIff(m: seq<Fields>, overlay: seq<Fields>)
    requires forall i :: 0 <= i < |overlay| && IdOf(overlay[i]) != "" ==> Has(m, IdOf(overlay[i]))
    ensures MergedPeers(m, overlay) == m <==> Settled(m, overlay)
  {
    hide MergedPeer, IdOf, Has, IsLast;
    var m' := MergedPeers(m, overlay);
    NothingNew(m, overlay);
    forall p: nat | p < |m|
      ensures m'[p] == if IsLast(m, p) then Gathered(m[p], overlay, IdOf(m[p])) else m[p]
    {
      MergedAt(m, overlay, p);
    }
  }

  // The last peer with an id in a merged list, and whether it is settled.
  lemma SettledOne(base: seq<Fields>, overlay: seq<Fields>, p: nat)
    requires NewTagsNormal(base, overlay) && IsLast(MergedPeers(base, overlay), p)
    ensures var m := MergedPeers(base, overlay); Gathered(m[p], overlay, IdOf(m[p])) == m[p]
  {
    hide MergedPeer, IdOf, TagsNormal;
    var m := MergedPeers(base, overlay);
    var id := IdOf(m[p]);
    if Has(base, id) {
      var j := SplitAtLast(base, id);
      assert IsLast(base, j) by {
        assert forall k :: j < k < |base| ==> base[k] == base[j + 1..][k - j - 1];
      }
      MergedAt(base, overlay, j);
      assert p == j;
      GatheredAgain(base[j], overlay, id);
    } else {
      NoOtherIds(base, overlay, id);
      var i := FirstWith(overlay, id);
      var q := NewAt(base, overlay, i);
      assert p == q && Introduced(base, overlay, i);
      GatheredThrough(m[p], overlay, i);
      GatheredNormal(overlay[i], overlay[i + 1..], id);
      PeerIdempotentIff(m[p]);
    }
  }

  // The other direction: a settled list has no peer with raw tags.
  lemma NormalOne(base: seq<Fields>, overlay: seq<Fields>, i: nat)
    requires i < |overlay| && Introduced(base, overlay, i) && Settled(MergedPeers(base, overlay), overlay)
    ensures TagsNormal(overlay[i]) || BringsTags(overlay[i + 1..], IdOf(overlay[i]))
  {
    hide MergedPeer, IdOf, TagsNormal, BringsTags;
    var m := MergedPeers(base, overlay);
    var p := NewAt(base, overlay, i);
    GatheredThrough(m[p], overlay, i);
    GatheredNormal(overlay[i], overlay[i + 1..], IdOf(overlay[i]));
    PeerIdempotentIff(m[p]);
  }

  lemma OverlayHeld(base: seq<Fields>, overlay: seq<Fields>, k: nat)
    requires k < |overlay| && IdOf(overlay[k]) != ""
    ensures Has(MergedPeers(base, overlay), IdOf(overlay[k]))
  {
    OverlayArrives(base, overlay, k);
  }

  lemma PeersIdempotentIff(base: seq<Fields>, overlay: seq<Fields>)
    ensures var m := MergedPeers(base, overlay);
            MergedPeers(m, overlay) == m <==> NewTagsNormal(base, overlay)
  {
    hide MergedPeer, IdOf, TagsNormal, BringsTags, Has, IsLast, Introduced;
    var m := MergedPeers(base, overlay);
    forall k | 0 <= k < |overlay| && IdOf(overlay[k]) != ""
      ensures Has(m, IdOf(overlay[k]))
    {
      OverlayHeld(base, overlay, k);
    }
    SettledIff(m, overlay);
    if NewTagsNormal(base, overlay) {
      forall p: nat | p < |m| && IsLast(m, p)
        ensures Gathered(m[p], overlay, IdOf(m[p])) == m[p]
      {
        SettledOne(base, overlay, p);
      }
    } else if Settled(m, overlay) {
      forall i: nat | i < |overlay| && Introduced(base, overlay, i)
        ensures TagsNormal(overlay[i]) || BringsTags(overlay[i + 1..], IdOf(overlay[i]))
      {
        NormalOne(base, overlay, i);
      }
    }
  }

  /** Merging an overlay a second time changes nothing if and only if, for every id it brings
      to the base, its first peer with the id has its tags in normal form already or a later
      one with the id brings tags too. */
  lemma MergeIdempotentIff(a: Fields, b: Fields)
    ensures MergedBook(MergedBook(a, b), b) == MergedBook(a, b) <==> NewTagsNormal(PeersOf(a), PeersOf(b))
  {
    var m := MergedBook(a, b);
    PartsOf(a, MergedPeers(PeersOf(a), PeersOf(b)), Union(Lookup(a, "tags"), Lookup(b, "tags")));
    UnionAssociative(Lookup(a, "tags"), Lookup(b, "tags"), Null);
    PeersIdempotentIff(PeersOf(a), PeersOf(b));
    PartsOf(m, MergedPeers(PeersOf(m), PeersOf(b)), Union(Lookup(m, "tags"), Lookup(b, "tags")));
  }

  lemma {:induction false} NotYetThere(base: seq<Fields>, overlay: seq<Fields>, id: string)
    requires id != "" && !Has(overlay, id)
    ensures Has(MergedPeers(base, overlay), id) <==> Has(base, id)
    decreases |overlay|
  {
    if overlay != [] {
      var n := |overlay| - 1;
      Last(overlay);
      HasSnoc(overlay[..n], overlay[n], id);
      NotYetThere(base, overlay[..n], id);
      if IdOf(overlay[n]) != "" {
        UpdateKeepsIds(MergedPeers(base, overlay[..n]), overlay[n]);
        HasSnoc(MergedPeers(base, overlay[..n]), overlay[n], id);
      }
    }
  }

  // ----- what arrives from the overlay

  /** `e` has a value wherever `p` has one, and all tags of `p`. */
  ghost predicate Covers(e: Fields, p: Fields) {
    && IdOf(e) == IdOf(p)
    && (forall k :: k in p && k != "tags" && !IsEmptyValue(p[k]) ==> !IsEmptyValue(Lookup(e, k)))
    && (forall t :: t in ToStringSlice(Lookup(p, "tags")) && t != "" ==> t in ToStringSlice(Lookup(e, "tags")))
  }

  ghost predicate Covered(m: seq<Fields>, p: Fields) {
    exists i :: 0 <= i < |m| && Covers(m[i], p)
  }

  lemma UnionHolds(a: Json, b: Json, t: string)
    requires t != "" && (t in ToStringSlice(a) || t in ToStringSlice(b))
    ensures t in ToStringSlice(TagsToAny(Union(a, b)))
  {
    UnionComesBack(a, b);
    DedupSelects({}, ToStringSlice(a) + ToStringSlice(b));
  }

  lemma CoversStays(e: Fields, q: Fields, p: Fields)
    requires Covers(e, p) && IdOf(e) == IdOf(q) != ""
    ensures Covers(MergedPeer(e, q), p)
  {
    MergedId(e, q);
    var m := MergedPeer(e, q);
    forall k | k in p && k != "tags" && !IsEmptyValue(p[k])
      ensures !IsEmptyValue(Lookup(m, k))
    {
      LookupMerged(e, q, k);
    }
    LookupMerged(e, q, "tags");
    forall t | t in ToStringSlice(Lookup(p, "tags")) && t != ""
      ensures t in ToStringSlice(Lookup(m, "tags"))
    {
      if "tags" in q {
        UnionHolds(Lookup(e, "tags"), q["tags"], t);
      }
    }
  }

  lemma CoversMerged(e: Fields, p: Fields)
    requires IdOf(e) == IdOf(p) != ""
    ensures Covers(MergedPeer(e, p), p)
  {
    MergedId(e, p);
    var m := MergedPeer(e, p);
    forall k | k in p && k != "tags" && !IsEmptyValue(p[k])
      ensures !IsEmptyValue(Lookup(m, k))
    {
      LookupMerged(e, p, k);
    }
    LookupMerged(e, p, "tags");
    forall t | t in ToStringSlice(Lookup(p, "tags")) && t != ""
      ensures t in ToStringSlice(Lookup(m, "tags"))
    {
      UnionHolds(Lookup(e, "tags"), Lookup(p, "tags"), t);
    }
  }

  lemma CoveredStays(m: seq<Fields>, q: Fields, p: Fields)
    requires Covered(m, p)
    ensures Covered(Upsert(m, q), p)
  {
    hide MergedPeer, Covers;
    var i :| 0 <= i < |m| && Covers(m[i], p);
    if IdOf(q) != "" {
      if Has(m, IdOf(q)) {
        var j := SplitAtLast(m, IdOf(q));
        if i == j {
          CoversStays(m[i], q, p);
        }
        assert Covers(Update(m, q)[i], p);
      } else {
        assert Covers((m + [q])[i], p);
      }
    }
  }

  lemma CoveredNow(m: seq<Fields>, p: Fields)
    requires IdOf(p) != ""
    ensures Covered(Upsert(m, p), p)
  {
    if Has(m, IdOf(p)) {
      var j := SplitAtLast(m, IdOf(p));
      CoversMerged(m[j], p);
      assert Covers(Update(m, p)[j], p);
    } else {
      assert Covers((m + [p])[|m|], p);
    }
  }

  /** Nothing an overlay peer with an id brings is lost: the merged peer of its id has a value
      wherever it has one, and all its tags. */
  lemma {:induction false} OverlayArrives(base: seq<Fields>, overlay: seq<Fields>, k: nat)
    requires k < |overlay| && IdOf(overlay[k]) != ""
    ensures Covered(MergedPeers(base, overlay), overlay[k])
    decreases |overlay|
  {
    hide Covered, Upsert, IdOf;
    var n := |overlay| - 1;
    if k < n {
      OverlayArrives(base, overlay[..n], k);
      CoveredStays(MergedPeers(base, overlay[..n]), overlay[n], overlay[k]);
    } else {
      CoveredNow(MergedPeers(base, overlay[..n]), overlay[k]);
    }
  }

  /** No peer comes from anywhere else: every id of the merged list is of the base or of the
      overlay. */
  lemma NoOtherIds(base: seq<Fields>, overlay: seq<Fields>, id: string)
    requires id != "" && Has(MergedPeers(base, overlay), id)
    ensures Has(base, id) || Has(overlay, id)
  {
    if !Has(overlay, id) {
      NotYetThere(base, overlay, id);
    }
  }
}
