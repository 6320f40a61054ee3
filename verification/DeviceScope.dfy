/**
 Filtering an address book by the devices its reader may see.
 */
module DeviceScope {
  import opened Text
  import opened Values
  import opened AddressBook

  // The peers a caller may see, None for no restriction, and the ids the server knows.
  datatype Scope = Scope(visible: Visible, known: set<string>)
  datatype Visible = Everything | Only(ids: set<string>)

  predicate InScope(p: Fields, known: set<string>, visible: set<string>) {
    var id := TrimSpace(IdOf(p));
    id != "" && !(id in known && id !in visible)
  }

  function FilterPeers(peers: seq<Fields>, known: set<string>, visible: set<string>): seq<Fields> {
    if peers == [] then []
    else
      var n := |peers| - 1;
      FilterPeers(peers[..n], known, visible) + (if InScope(peers[n], known, visible) then [peers[n]] else [])
  }

  function Filtered(book: Fields, scope: Scope): Fields {
    match scope.visible
    case Everything => book
    case Only(ids) => book["peers" := PeersToAny(FilterPeers(PeersOf(book), scope.known, ids))]
  }

  method FilterAddressBookPeersByVisibleSet(book: Book, scope: Scope)
    modifies book
    ensures book.fields == Filtered(old(book.fields), scope)
  {
    if scope.visible.Everything? {
      return;
    }
    var peers := ToPeerSlice(Lookup(book.fields, "peers"));
    var filtered: seq<Fields> := [];
    for i := 0 to |peers|
      invariant book.fields == old(book.fields)
      invariant filtered == FilterPeers(peers[..i], scope.known, scope.visible.ids)
    {
      var p := peers[i];
      FilterSnoc(peers[..i], p, scope.known, scope.visible.ids);
      assert peers[..i + 1] == peers[..i] + [p];
      var id := TrimSpace(IdOf(p));
      if id == "" {
        continue;
      }
      if id in scope.known && id !in scope.visible.ids {
        continue;
      }
      filtered := filtered + [p];
    }
    assert peers[..|peers|] == peers;
    book.fields := book.fields["peers" := PeersToAny(filtered)];
  }

  lemma FilterSnoc(peers: seq<Fields>, p: Fields, known: set<string>, visible: set<string>)
    ensures FilterPeers(peers + [p], known, visible) ==
            FilterPeers(peers, known, visible) + (if InScope(p, known, visible) then [p] else [])
  {
    assert (peers + [p])[..|peers|] == peers;
  }

  lemma {:induction false} FilterHas(peers: seq<Fields>, p: Fields, known: set<string>, visible: set<string>)
    ensures InScope(p, known, visible) ==>
              (Has(FilterPeers(peers, known, visible), IdOf(p)) <==> Has(peers, IdOf(p)))
  {
    if peers != [] {
      var n := |peers| - 1;
      FilterHas(peers[..n], p, known, visible);
      Last(peers);
      HasSnoc(peers[..n], peers[n], IdOf(p));
      HasSnoc(FilterPeers(peers[..n], known, visible), peers[n], IdOf(p));
      assert FilterPeers(peers[..n], known, visible) + [] == FilterPeers(peers[..n], known, visible);
    }
  }

  lemma {:induction false} FilterUpdate(peers: seq<Fields>, p: Fields, known: set<string>, visible: set<string>)
    requires IdOf(p) != ""
    ensures FilterPeers(Update(peers, p), known, visible) ==
            if InScope(p, known, visible) then Update(FilterPeers(peers, known, visible), p)
            else FilterPeers(peers, known, visible)
  {
    if peers != [] {
      var n := |peers| - 1;
      var q, f := peers[n], FilterPeers(peers[..n], known, visible);
      FilterUpdate(peers[..n], p, known, visible);
      if IdOf(q) == IdOf(p) {
        MergedId(q, p);
        FilterSnoc(peers[..n], MergedPeer(q, p), known, visible);
      } else {
        FilterSnoc(Update(peers[..n], p), q, known, visible);
      }
      UpdateSnoc(f, q, p);
      assert f + [] == f;
      assert Update(f, p) + [] == Update(f, p);
    }
  }

  lemma FilterUpsert(peers: seq<Fields>, p: Fields, known: set<string>, visible: set<string>)
    ensures FilterPeers(Upsert(peers, p), known, visible) ==
            if InScope(p, known, visible) then Upsert(FilterPeers(peers, known, visible), p)
            else FilterPeers(peers, known, visible)
  {
    TrimSpaceTrims(IdOf(p));
    if IdOf(p) != "" {
      FilterHas(peers, p, known, visible);
      FilterUpdate(peers, p, known, visible);
      FilterSnoc(peers, p, known, visible);
    }
  }

  /** Filtering the merge of two peer lists is merging the filtered lists. */
  lemma {:induction false} FilterMerged(a: seq<Fields>, b: seq<Fields>, known: set<string>, visible: set<string>)
    ensures FilterPeers(MergedPeers(a, b), known, visible) ==
            MergedPeers(FilterPeers(a, known, visible), FilterPeers(b, known, visible))
    decreases |b|
  {
    if b != [] {
      var n := |b| - 1;
      FilterMerged(a, b[..n], known, visible);
      FilterUpsert(MergedPeers(a, b[..n]), b[n], known, visible);
      MergedPeersSnoc(FilterPeers(a, known, visible), FilterPeers(b[..n], known, visible), b[n]);
      assert FilterPeers(b[..n], known, visible) + [] == FilterPeers(b[..n], known, visible);
    }
  }

  lemma KeysSwap(a: Fields, p: Json, p': Json, q: Json, t: Json)
    ensures a["peers" := p]["tags" := t]["peers" := q] == a["peers" := p']["peers" := q]["tags" := t]
  {
  }

  /** Filtering distributes over merging, for all books. */
  lemma FilterDistributes(a: Fields, b: Fields, scope: Scope)
    ensures Filtered(MergedBook(a, b), scope) == MergedBook(Filtered(a, scope), Filtered(b, scope))
  {
    if scope.visible.Only? {
      var ids := scope.visible.ids;
      var m, tags := MergedPeers(PeersOf(a), PeersOf(b)), Union(Lookup(a, "tags"), Lookup(b, "tags"));
      var fa, fb := FilterPeers(PeersOf(a), scope.known, ids), FilterPeers(PeersOf(b), scope.known, ids);
      PeersComeBack(m);
      PeersComeBack(fa);
      PeersComeBack(fb);
      FilterMerged(PeersOf(a), PeersOf(b), scope.known, ids);
      KeysSwap(a, PeersToAny(m), PeersToAny(fa), PeersToAny(MergedPeers(fa, fb)), TagsToAny(tags));
    }
  }

  /** `positions` is where the peers of `f` sit in `peers`. */
  ghost predicate Picks(peers: seq<Fields>, f: seq<Fields>, positions: seq<nat>) {
    && |positions| == |f|
    && (forall k :: 0 <= k < |f| ==> positions[k] < |peers| && f[k] == peers[positions[k]])
    && (forall k :: 0 < k < |f| ==> positions[k - 1] < positions[k])
  }

  /** What is kept keeps its order, and a peer is kept exactly when it is in scope. */
  lemma {:induction false} FilterKeeps(peers: seq<Fields>, known: set<string>, visible: set<string>)
    returns (positions: seq<nat>)
    ensures Picks(peers, FilterPeers(peers, known, visible), positions)
    ensures forall i :: 0 <= i < |peers| ==> (i in positions <==> InScope(peers[i], known, visible))
  {
    positions := [];
    if peers != [] {
      var n := |peers| - 1;
      positions := FilterKeeps(peers[..n], known, visible);
      PicksMore(peers, FilterPeers(peers[..n], known, visible), positions);
      if InScope(peers[n], known, visible) {
        positions := positions + [n];
      }
    }
  }

  lemma PicksMore(peers: seq<Fields>, f: seq<Fields>, positions: seq<nat>)
    requires peers != [] && Picks(peers[..|peers| - 1], f, positions)
    ensures Picks(peers, f, positions)
    ensures Picks(peers, f + [peers[|peers| - 1]], positions + [|peers| - 1])
    ensures |peers| - 1 !in positions
  {
    assert forall k :: 0 <= k < |f| ==> peers[positions[k]] == peers[..|peers| - 1][positions[k]];
  }
}
