/**
 Injecting what the peers table knows into an address book: banned peers go, missing
 host data is filled in, admin tags are added to peers and to the global tag list.
 */
module AdminTags {
  import opened Text
  import opened Values
  import opened AddressBook

  datatype Row = Row(banned: bool, softDeleted: bool, hostname: string, os: string, user: string, tags: string)

  datatype Database = Unavailable | Table(rows: map<string, Row>)

  /** The query leaves out soft-deleted rows. */
  function GetPeersByIds(rows: map<string, Row>, ids: set<string>): map<string, Row> {
    map id | id in rows.Keys * ids && !rows[id].softDeleted :: rows[id]
  }

  // ----- admin tags of one row

  function NonBlank(parts: seq<string>): seq<string> {
    if parts == [] then []
    else (if TrimSpace(parts[0]) != "" then [TrimSpace(parts[0])] else []) + NonBlank(parts[1..])
  }

  function RowTags(row: Row): seq<string> {
    if row.tags == "" then [] else NonBlank(Split(row.tags, ','))
  }

  /** `have` followed by the entries of `add` it lacks. */
  function Extend(have: seq<string>, add: seq<string>): seq<string>
    decreases |add|
  {
    if add == [] then have
    else Extend(if add[0] in have then have else have + [add[0]], add[1..])
  }

  lemma {:induction false} ExtendGives(have: seq<string>, add: seq<string>)
    ensures have <= Extend(have, add)
    ensures forall t :: t in Extend(have, add) <==> t in have || t in add
    ensures Extend(have, add) == have <==> forall t :: t in add ==> t in have
    decreases |add|
  {
    if add != [] {
      var have' := if add[0] in have then have else have + [add[0]];
      ExtendGives(have', add[1..]);
      assert forall t :: t in add <==> t == add[0] || t in add[1..];
    }
  }

  /** What is added is missing before, and is added once. */
  lemma {:induction false} ExtendAddsMissing(have: seq<string>, add: seq<string>)
    ensures var e := Extend(have, add);
            |have| <= |e| && forall i, j :: 0 <= i < j && |have| <= j < |e| ==> e[i] != e[j]
    decreases |add|
  {
    if add != [] {
      var have' := if add[0] in have then have else have + [add[0]];
      ExtendGives(have', add[1..]);
      ExtendAddsMissing(have', add[1..]);
    }
  }

  /** The string entries of an array, as they are. */
  function RawStrings(items: seq<Json>): seq<string> {
    if items == [] then []
    else (if items[0].Str? then [items[0].s] else []) + RawStrings(items[1..])
  }

  function StringsOf(v: Json): seq<string> {
    if v.Arr? then RawStrings(v.items) else []
  }

  lemma {:induction false} RawStringsComeBack(tags: seq<string>)
    ensures StringsOf(TagsToAny(tags)) == tags
  {
    var items := TagsToAny(tags).items;
    if tags != [] {
      RawStringsComeBack(tags[1..]);
      assert items[1..] == TagsToAny(tags[1..]).items;
    }
  }

  // ----- one peer

  predicate Lacks(p: Fields, key: string) {
    key !in p || p[key] == Str("")
  }

  function Filled(p: Fields, key: string, value: string): Fields {
    if Lacks(p, key) && value != "" then p[key := Str(value)] else p
  }

  function Enriched(p: Fields, row: Row): Fields {
    Filled(Filled(Filled(p, "hostname", row.hostname), "platform", row.os), "username", row.user)
  }

  function Tagged(p: Fields, row: Row): Fields {
    if RowTags(row) == [] then p
    else p["tags" := TagsToAny(Extend(StringsOf(Lookup(p, "tags")), RowTags(row)))]
  }

  /** A live peer with what its row adds. */
  function Injected(p: Fields, found: map<string, Row>): Fields {
    if IdOf(p) in found && IdOf(p) != "" then Tagged(Enriched(p, found[IdOf(p)]), found[IdOf(p)]) else p
  }

  predicate Banned(p: Fields, found: map<string, Row>) {
    IdOf(p) != "" && IdOf(p) in found && found[IdOf(p)].banned
  }

  predicate Live(p: Fields, found: map<string, Row>) {
    IdOf(p) != "" && IdOf(p) in found && !found[IdOf(p)].banned
  }

  predicate Touched(p: Fields, found: map<string, Row>) {
    Banned(p, found) || (Live(p, found) && (Enriched(p, found[IdOf(p)]) != p || RowTags(found[IdOf(p)]) != []))
  }

  // ----- the whole book

  function KeptPeers(peers: seq<Fields>, found: map<string, Row>): seq<Fields> {
    if peers == [] then []
    else
      var n := |peers| - 1;
      KeptPeers(peers[..n], found) + (if Banned(peers[n], found) then [] else [Injected(peers[n], found)])
  }

  function GlobalTags(tags: seq<string>, peers: seq<Fields>, found: map<string, Row>): seq<string> {
    if peers == [] then tags
    else
      var n := |peers| - 1;
      var before := GlobalTags(tags, peers[..n], found);
      if Live(peers[n], found) then Extend(before, RowTags(found[IdOf(peers[n])])) else before
  }

  function Ids(peers: seq<Fields>): set<string> {
    set i | 0 <= i < |peers| && IdOf(peers[i]) != "" :: IdOf(peers[i])
  }

  predicate AnyLive(peers: seq<Fields>, found: map<string, Row>) {
    exists i :: 0 <= i < |peers| && Live(peers[i], found)
  }

  predicate AnyTouched(peers: seq<Fields>, found: map<string, Row>) {
    exists i :: 0 <= i < |peers| && Touched(peers[i], found)
  }

  function Found(book: Fields, rows: map<string, Row>): map<string, Row> {
    GetPeersByIds(rows, Ids(PeersOf(book)))
  }

  /** The book after injection; unchanged when no listed peer is live or nothing is to do. */
  function Merged(book: Fields, db: Database): Fields {
    if db.Unavailable? then book
    else
      var found := Found(book, db.rows);
      if AnyLive(PeersOf(book), found) && AnyTouched(PeersOf(book), found)
      then Rewritten(book, found) else book
  }

  function Rewritten(book: Fields, found: map<string, Row>): Fields {
    WithPeersAndTags(book, KeptPeers(PeersOf(book), found),
                     GlobalTags(StringsOf(Lookup(book, "tags")), PeersOf(book), found))
  }

  // ----- the loops of the source

  method MergeTags(existing: seq<string>, atags: seq<string>, globals: seq<string>)
    returns (merged: seq<string>, globals': seq<string>)
    ensures merged == Extend(existing, atags) && globals' == Extend(globals, atags)
  {
    merged, globals' := existing, globals;
    for i := 0 to |atags|
      invariant Extend(merged, atags[i..]) == Extend(existing, atags)
      invariant Extend(globals', atags[i..]) == Extend(globals, atags)
    {
      assert atags[i..][1..] == atags[i + 1..];
      if atags[i] !in merged {
        merged := merged + [atags[i]];
      }
      if atags[i] !in globals' {
        globals' := globals' + [atags[i]];
      }
    }
  }

  method Fill(p: Fields, key: string, value: string) returns (p': Fields, changed: bool)
    ensures p' == Filled(p, key, value)
    ensures changed <==> p' != p
  {
    p', changed := p, false;
    if key !in p || p[key] == Str("") {
      if value != "" {
        p' := p[key := Str(value)];
        changed := true;
        assert p'[key] == Str(value);
      }
    }
  }

  /** Host data and admin tags for one live peer. */
  method InjectOne(p: Fields, row: Row, globals: seq<string>)
    returns (p': Fields, globals': seq<string>, changed: bool)
    ensures p' == Tagged(Enriched(p, row), row)
    ensures globals' == Extend(globals, RowTags(row))
    ensures changed <==> Enriched(p, row) != p || RowTags(row) != []
  {
    globals' := globals;
    var c1, c2, c3;
    p', c1 := Fill(p, "hostname", row.hostname);
    p', c2 := Fill(p', "platform", row.os);
    p', c3 := Fill(p', "username", row.user);
    EnrichChanges(p, row);
    changed := c1 || c2 || c3;
    var atags := RowTags(row);
    if atags == [] {
      return;
    }
    var merged;
    merged, globals' := MergeTags(StringsOf(Lookup(p', "tags")), atags, globals);
    p' := p'["tags" := TagsToAny(merged)];
    changed := true;
  }

  lemma EnrichChanges(p: Fields, row: Row)
    ensures var a := Filled(p, "hostname", row.hostname);
            var b := Filled(a, "platform", row.os);
            Enriched(p, row) != p <==> a != p || b != a || Filled(b, "username", row.user) != b
  {
    var a := Filled(p, "hostname", row.hostname);
    var b := Filled(a, "platform", row.os);
    var c := Filled(b, "username", row.user);
    if a != p {
      assert Lacks(p, "hostname") && c["hostname"] == Str(row.hostname);
    } else if b != a {
      assert Lacks(p, "platform") && c["platform"] == Str(row.os);
    }
  }

  method InjectAll(peers: seq<Fields>, found: map<string, Row>, existingTags: seq<string>)
    returns (filtered: seq<Fields>, globals: seq<string>, modified: bool)
    ensures filtered == KeptPeers(peers, found)
    ensures globals == GlobalTags(existingTags, peers, found)
    ensures modified <==> AnyTouched(peers, found)
  {
    filtered, globals, modified := [], existingTags, false;
    for i := 0 to |peers|
      invariant filtered == KeptPeers(peers[..i], found)
      invariant globals == GlobalTags(existingTags, peers[..i], found)
      invariant modified <==> exists j :: 0 <= j < i && Touched(peers[j], found)
    {
      var p := peers[i];
      assert peers[..i + 1][..i] == peers[..i];
      var id := IdOf(p);
      if id == "" {
        filtered := filtered + [p];
        continue;
      }
      if id in found && found[id].banned {
        modified := true;
        continue;
      }
      if id in found {
        var changed;
        p, globals, changed := InjectOne(p, found[id], globals);
        modified := modified || changed;
      }
      filtered := filtered + [p];
    }
    assert peers[..|peers|] == peers;
  }

  method MergeAdminTagsIntoAB(book: Book, db: Database)
    modifies book
    ensures book.fields == Merged(old(book.fields), db)
  {
    var peers := PeersOf(book.fields);
    if |peers| == 0 {
      return;
    }
    var ids := Ids(peers);
    if ids == {} {
      return;
    }
    if db.Unavailable? {
      return;
    }
    var found := GetPeersByIds(db.rows, ids);
    if !(exists i :: 0 <= i < |peers| && Live(peers[i], found)) {
      return;
    }
    var filtered, globals, modified := InjectAll(peers, found, StringsOf(Lookup(book.fields, "tags")));
    if !modified {
      return;
    }
    book.fields := book.fields["peers" := PeersToAny(filtered)]["tags" := TagsToAny(globals)];
  }

  // ----- idempotence

  lemma InjectedId(p: Fields, found: map<string, Row>)
    ensures IdOf(Injected(p, found)) == IdOf(p)
  {
  }

  lemma EnrichedAgain(p: Fields, row: Row)
    ensures Enriched(Tagged(Enriched(p, row), row), row) == Tagged(Enriched(p, row), row)
  {
    var q := Tagged(Enriched(p, row), row);
    assert row.hostname != "" ==> !Lacks(q, "hostname");
    assert row.os != "" ==> !Lacks(q, "platform");
    assert row.user != "" ==> !Lacks(q, "username");
  }

  lemma InjectedAgain(p: Fields, found: map<string, Row>)
    ensures Injected(Injected(p, found), found) == Injected(p, found)
  {
    InjectedId(p, found);
    if IdOf(p) in found && IdOf(p) != "" {
      var row := found[IdOf(p)];
      var q := Injected(p, found);
      EnrichedAgain(p, row);
      if RowTags(row) != [] {
        var tags := Extend(StringsOf(Lookup(Enriched(p, row), "tags")), RowTags(row));
        RawStringsComeBack(tags);
        ExtendGives(StringsOf(Lookup(Enriched(p, row), "tags")), RowTags(row));
        ExtendGives(tags, RowTags(row));
        assert q["tags" := q["tags"]] == q;
      }
    }
  }

  lemma {:induction false} KeptAgain(peers: seq<Fields>, found: map<string, Row>)
    ensures KeptPeers(KeptPeers(peers, found), found) == KeptPeers(peers, found)
  {
    if peers != [] {
      var n := |peers| - 1;
      var k, q := KeptPeers(peers[..n], found), Injected(peers[n], found);
      KeptAgain(peers[..n], found);
      InjectedId(peers[n], found);
      InjectedAgain(peers[n], found);
      assert (k + [q])[..|k|] == k;
      assert k + [] == k;
    }
  }

  /** Exactly the peers that are not banned are left, in order; live ones stay live. */
  lemma {:induction false} KeptIds(peers: seq<Fields>, found: map<string, Row>)
    ensures var kept := KeptPeers(peers, found);
            && (forall i :: 0 <= i < |kept| ==> !Banned(kept[i], found) && IdOf(kept[i]) in IdsOrNone(peers))
            && (AnyLive(peers, found) <==> AnyLive(kept, found))
  {
    if peers != [] {
      var n := |peers| - 1;
      KeptIds(peers[..n], found);
      InjectedId(peers[n], found);
      var k, q := KeptPeers(peers[..n], found), Injected(peers[n], found);
      LiveSnoc(peers[..n], peers[n], found);
      LiveSnoc(k, q, found);
      assert peers == peers[..n] + [peers[n]];
      assert k + [] == k;
    }
  }

  ghost function IdsOrNone(peers: seq<Fields>): set<string> {
    set i | 0 <= i < |peers| :: IdOf(peers[i])
  }

  lemma LiveSnoc(peers: seq<Fields>, p: Fields, found: map<string, Row>)
    ensures AnyLive(peers + [p], found) <==> AnyLive(peers, found) || Live(p, found)
  {
    var all := peers + [p];
    if i :| 0 <= i < |peers| && Live(peers[i], found) {
      assert Live(all[i], found);
    }
    if Live(p, found) {
      assert Live(all[|peers|], found);
    }
    if i :| 0 <= i < |all| && Live(all[i], found) {
      assert i < |peers| ==> Live(peers[i], found);
    }
  }

  /** The global list holds its old entries first and every admin tag of a live peer. */
  lemma {:induction false} GlobalTagsHold(tags: seq<string>, peers: seq<Fields>, found: map<string, Row>)
    ensures tags <= GlobalTags(tags, peers, found)
    ensures forall i, t :: 0 <= i < |peers| && Live(peers[i], found) && t in RowTags(found[IdOf(peers[i])]) ==>
              t in GlobalTags(tags, peers, found)
  {
    hide RowTags, Extend;
    if peers != [] {
      var n := |peers| - 1;
      GlobalTagsHold(tags, peers[..n], found);
      if Live(peers[n], found) {
        ExtendGives(GlobalTags(tags, peers[..n], found), RowTags(found[IdOf(peers[n])]));
      }
      assert forall i :: 0 <= i < n ==> peers[..n][i] == peers[i];
    }
  }

  lemma {:induction false} GlobalTagsAgain(tags: seq<string>, peers: seq<Fields>, found: map<string, Row>)
    requires forall i, t ::
               0 <= i < |peers| && Live(peers[i], found) && t in RowTags(found[IdOf(peers[i])]) ==> t in tags
    ensures GlobalTags(tags, peers, found) == tags
  {
    if peers != [] {
      var n := |peers| - 1;
      assert forall i :: 0 <= i < n ==> peers[..n][i] == peers[i];
      GlobalTagsAgain(tags, peers[..n], found);
      if Live(peers[n], found) {
        ExtendGives(tags, RowTags(found[IdOf(peers[n])]));
      }
    }
  }

  // Two query results that agree on the listed ids.
  ghost predicate Agree(peers: seq<Fields>, f: map<string, Row>, g: map<string, Row>) {
    forall i :: 0 <= i < |peers| && IdOf(peers[i]) != "" ==>
      var id := IdOf(peers[i]);
      (id in f <==> id in g) && (id in f ==> f[id] == g[id])
  }

  lemma {:induction false} AgreeSame(tags: seq<string>, peers: seq<Fields>, f: map<string, Row>, g: map<string, Row>)
    requires Agree(peers, f, g)
    ensures KeptPeers(peers, f) == KeptPeers(peers, g)
    ensures GlobalTags(tags, peers, f) == GlobalTags(tags, peers, g)
  {
    if peers != [] {
      var n := |peers| - 1;
      assert forall i :: 0 <= i < n ==> peers[..n][i] == peers[i];
      AgreeSame(tags, peers[..n], f, g);
    }
  }

  /** Asking again for the ids that are left finds the same rows for them. */
  lemma FewerIdsAgree(kept: seq<Fields>, peers: seq<Fields>, rows: map<string, Row>)
    requires forall i :: 0 <= i < |kept| ==> IdOf(kept[i]) in IdsOrNone(peers)
    ensures Agree(kept, GetPeersByIds(rows, Ids(kept)), GetPeersByIds(rows, Ids(peers)))
  {
    forall i | 0 <= i < |kept| && IdOf(kept[i]) != ""
      ensures IdOf(kept[i]) in Ids(kept) && IdOf(kept[i]) in Ids(peers)
    {
      assert IdOf(kept[i]) in IdsOrNone(peers);
    }
  }

  lemma RewrittenAgain(book: Fields, rows: map<string, Row>)
    ensures var r := Rewritten(book, Found(book, rows)); Rewritten(r, Found(r, rows)) == r
  {
    var peers, found := PeersOf(book), Found(book, rows);
    var tags := StringsOf(Lookup(book, "tags"));
    var kept, globals := KeptPeers(peers, found), GlobalTags(tags, peers, found);
    PartsOf(book, kept, globals);
    RawStringsComeBack(globals);
    KeptIds(peers, found);
    FewerIdsAgree(kept, peers, rows);
    AgreeSame(globals, kept, GetPeersByIds(rows, Ids(kept)), found);
    KeptAgain(peers, found);
    GlobalTagsHold(tags, peers, found);
    forall i, t | 0 <= i < |kept| && Live(kept[i], found) && t in RowTags(found[IdOf(kept[i])])
      ensures t in globals
    {
      assert IdOf(kept[i]) in IdsOrNone(peers);
      var j :| 0 <= j < |peers| && IdOf(peers[j]) == IdOf(kept[i]);
      assert Live(peers[j], found);
    }
    GlobalTagsAgain(globals, kept, found);
  }

  /** For a fixed peers table, injecting twice is injecting once. */
  lemma MergeIdempotent(book: Fields, db: Database)
    ensures Merged(Merged(book, db), db) == Merged(book, db)
  {
    if db.Table? {
      RewrittenAgain(book, db.rows);
    }
  }

  // ----- what the result holds

  lemma {:induction false} UntouchedKept(peers: seq<Fields>, found: map<string, Row>)
    requires forall i :: 0 <= i < |peers| ==> !Touched(peers[i], found)
    ensures KeptPeers(peers, found) == peers
  {
    hide Injected, Touched, Banned;
    if peers != [] {
      var n := |peers| - 1;
      UntouchedKept(peers[..n], found);
      UntouchedOne(peers[n], found);
      Last(peers);
    }
  }

  lemma {:induction false} UntouchedTags(tags: seq<string>, peers: seq<Fields>, found: map<string, Row>)
    requires forall i :: 0 <= i < |peers| ==> !Touched(peers[i], found)
    ensures GlobalTags(tags, peers, found) == tags
  {
    hide Touched, RowTags, Live;
    if peers != [] {
      var n := |peers| - 1;
      UntouchedTags(tags, peers[..n], found);
      UntouchedOne(peers[n], found);
    }
  }

  lemma UntouchedOne(p: Fields, found: map<string, Row>)
    requires !Touched(p, found)
    ensures !Banned(p, found) && Injected(p, found) == p
    ensures Live(p, found) ==> RowTags(found[IdOf(p)]) == []
  {
  }

  lemma InjectedTags(p: Fields, found: map<string, Row>)
    requires Live(p, found)
    ensures StringsOf(Lookup(Injected(p, found), "tags")) ==
            Extend(StringsOf(Lookup(p, "tags")), RowTags(found[IdOf(p)]))
  {
    var row := found[IdOf(p)];
    RawStringsComeBack(Extend(StringsOf(Lookup(p, "tags")), RowTags(row)));
  }

  /** The text a live peer ends up with: its own, if it is there and not empty, else the
      row's, if that is not empty. */
  function FilledText(p: Fields, key: string, value: string): Json {
    if key in p && p[key] != Str("") then p[key]
    else if value != "" then Str(value)
    else Lookup(p, key)
  }

  /** Host name, platform and user of an injected live peer, and all its other fields. */
  lemma InjectedHostData(p: Fields, found: map<string, Row>)
    requires Live(p, found)
    ensures var q, row := Injected(p, found), found[IdOf(p)];
            && Lookup(q, "hostname") == FilledText(p, "hostname", row.hostname)
            && Lookup(q, "platform") == FilledText(p, "platform", row.os)
            && Lookup(q, "username") == FilledText(p, "username", row.user)
            && forall k :: k !in {"hostname", "platform", "username", "tags"} ==> Lookup(q, k) == Lookup(p, k)
  {
    hide Filled, RowTags;
    var row := found[IdOf(p)];
    var a := Filled(p, "hostname", row.hostname);
    var b := Filled(a, "platform", row.os);
    FilledMeans(p, "hostname", row.hostname);
    FilledMeans(a, "platform", row.os);
    FilledMeans(b, "username", row.user);
  }

  lemma FilledMeans(p: Fields, key: string, value: string)
    ensures Lookup(Filled(p, key, value), key) == FilledText(p, key, value)
    ensures forall k :: k != key ==>
              Lookup(Filled(p, key, value), k) == Lookup(p, k) && (k in Filled(p, key, value) <==> k in p)
  {
  }

  /** What is left are the peers that are not banned, each with its additions. */
  lemma {:induction false} KeptMembers(peers: seq<Fields>, found: map<string, Row>, q: Fields)
    ensures q in KeptPeers(peers, found) <==> exists p :: p in peers && !Banned(p, found) && Injected(p, found) == q
  {
    hide Banned, Injected;
    if peers != [] {
      Last(peers);
      KeptMembers(peers[..|peers| - 1], found, q);
    }
  }

  /** For every book: with a live peer listed, the peers left are those not banned, with their
      additions, and the global tags are extended by the live peers' admin tags; without one
      both stay. A peer the query has no row for is left as it is, and nothing else of the
      book changes. */
  lemma AfterInjection(book: Fields, rows: map<string, Row>)
    ensures var r, found, peers := Merged(book, Table(rows)), Found(book, rows), PeersOf(book);
            var live, tags := AnyLive(peers, found), StringsOf(Lookup(book, "tags"));
            && PeersOf(r) == (if live then KeptPeers(peers, found) else peers)
            && (live ==> forall q :: q in PeersOf(r) ==> !Banned(q, found))
            && (forall p :: p in peers && IdOf(p) !in found ==> p in PeersOf(r))
            && StringsOf(Lookup(r, "tags")) == (if live then GlobalTags(tags, peers, found) else tags)
            && (forall k :: k !in {"peers", "tags"} ==> (k in r <==> k in book) && (k in r ==> r[k] == book[k]))
  {
    var peers, found := PeersOf(book), Found(book, rows);
    var tags := StringsOf(Lookup(book, "tags"));
    PartsOf(book, KeptPeers(peers, found), GlobalTags(tags, peers, found));
    RawStringsComeBack(GlobalTags(tags, peers, found));
    KeptIds(peers, found);
    if !AnyTouched(peers, found) {
      UntouchedKept(peers, found);
      UntouchedTags(tags, peers, found);
    }
    forall p | p in peers && IdOf(p) !in found
      ensures p in KeptPeers(peers, found)
    {
      KeptMembers(peers, found, p);
      assert !Banned(p, found) && Injected(p, found) == p;
    }
  }

  // ----- when the book is rid of banned and soft-deleted peers

  // What the peers table says of a listed peer, soft-deleted rows included.
  predicate BannedRow(p: Fields, rows: map<string, Row>) {
    IdOf(p) != "" && IdOf(p) in rows && rows[IdOf(p)].banned
  }

  predicate DeletedRow(p: Fields, rows: map<string, Row>) {
    IdOf(p) != "" && IdOf(p) in rows && rows[IdOf(p)].softDeleted
  }

  predicate LiveRow(p: Fields, rows: map<string, Row>) {
    IdOf(p) != "" && IdOf(p) in rows && !rows[IdOf(p)].banned && !rows[IdOf(p)].softDeleted
  }

  /** A listed peer counts as banned exactly when its row is banned and not soft-deleted, and
      as live exactly when its row is neither. */
  lemma BannedIff(book: Fields, rows: map<string, Row>, p: Fields)
    requires p in PeersOf(book)
    ensures Banned(p, Found(book, rows)) <==> BannedRow(p, rows) && !DeletedRow(p, rows)
    ensures Live(p, Found(book, rows)) <==> LiveRow(p, rows)
  {
    var i :| 0 <= i < |PeersOf(book)| && PeersOf(book)[i] == p;
    assert IdOf(p) != "" ==> IdOf(p) in Ids(PeersOf(book));
  }

  // No peer of the list has a banned or a soft-deleted row.
  predicate Stripped(peers: seq<Fields>, rows: map<string, Row>) {
    forall p :: p in peers ==> !BannedRow(p, rows) && !DeletedRow(p, rows)
  }

  /** The book comes out free of banned and soft-deleted peers if and only if no listed peer
      is soft-deleted and, unless some listed peer is live, none is banned. */
  lemma StrippedIff(book: Fields, rows: map<string, Row>)
    ensures var peers := PeersOf(book);
            Stripped(PeersOf(Merged(book, Table(rows))), rows) <==>
            && (forall p :: p in peers ==> !DeletedRow(p, rows))
            && ((exists p :: p in peers && LiveRow(p, rows)) || forall p :: p in peers ==> !BannedRow(p, rows))
  {
    hide KeptPeers, Found, Banned, Live, AnyLive, GlobalTags, Merged, PeersOf, IdOf, BannedRow, DeletedRow, LiveRow;
    var peers, found := PeersOf(book), Found(book, rows);
    var kept := PeersOf(Merged(book, Table(rows)));
    AfterInjection(book, rows);
    RowsDecide(book, rows);
    if p :| p in peers && DeletedRow(p, rows) {
      assert p in kept;
    } else if AnyLive(peers, found) {
      forall q | q in kept
        ensures !BannedRow(q, rows) && !DeletedRow(q, rows)
      {
        var p := KeptIsListed(peers, found, rows, q);
      }
    } else {
      assert kept == peers;
    }
  }

  /** What the query says of the listed peers, in terms of their rows. */
  lemma RowsDecide(book: Fields, rows: map<string, Row>)
    ensures var peers, found := PeersOf(book), Found(book, rows);
            && (forall p :: p in peers ==> (Banned(p, found) <==> BannedRow(p, rows) && !DeletedRow(p, rows)))
            && (forall p :: p in peers && DeletedRow(p, rows) ==> IdOf(p) !in found)
            && (AnyLive(peers, found) <==> exists p :: p in peers && LiveRow(p, rows))
  {
    hide Banned, Live, BannedRow, LiveRow, PeersOf;
    var peers, found := PeersOf(book), Found(book, rows);
    forall p | p in peers
      ensures Banned(p, found) <==> BannedRow(p, rows) && !DeletedRow(p, rows)
      ensures Live(p, found) <==> LiveRow(p, rows)
    {
      BannedIff(book, rows, p);
    }
  }

  /** Every peer left comes from a listed one with its id that does not count as banned. */
  lemma KeptIsListed(peers: seq<Fields>, found: map<string, Row>, rows: map<string, Row>, q: Fields) returns (p: Fields)
    requires q in KeptPeers(peers, found)
    ensures p in peers && !Banned(p, found)
    ensures (BannedRow(q, rows) <==> BannedRow(p, rows)) && (DeletedRow(q, rows) <==> DeletedRow(p, rows))
  {
    hide Banned, Injected, KeptPeers, IdOf;
    KeptMembers(peers, found, q);
    p :| p in peers && !Banned(p, found) && Injected(p, found) == q;
    InjectedId(p, found);
  }

  /** A banned peer that is the only one listed stays: without a live peer nothing is done. */
  lemma LoneBannedStays()
    ensures var banned: Fields := map["id" := Str("A")];
            var book: Fields := map["peers" := Arr([Obj(banned)])];
            var rows := map["A" := Row(true, false, "", "", "", "")];
            && BannedRow(banned, rows) && PeersOf(Merged(book, Table(rows))) == [banned]
  {
    var banned: Fields := map["id" := Str("A")];
    var book: Fields := map["peers" := Arr([Obj(banned)])];
    var rows := map["A" := Row(true, false, "", "", "", "")];
    assert Objects([Obj(banned)]) == [banned] + Objects([]);
    BannedIff(book, rows, banned);
    AfterInjection(book, rows);
  }

  /** A soft-deleted peer is not stripped, contrary to the source's remark: it stays in the
      book even beside a live peer and even when it is banned too. */
  lemma SoftDeletedStays()
    ensures var live: Fields := map["id" := Str("A")];
            var gone: Fields := map["id" := Str("B")];
            var book: Fields := map["peers" := Arr([Obj(live), Obj(gone)])];
            var rows := map["A" := Row(false, false, "", "", "", ""), "B" := Row(true, true, "", "", "", "")];
            && AnyLive(PeersOf(book), Found(book, rows))
            && PeersOf(Merged(book, Table(rows))) == [live, gone]
  {
    var live: Fields := map["id" := Str("A")];
    var gone: Fields := map["id" := Str("B")];
    var book: Fields := map["peers" := Arr([Obj(live), Obj(gone)])];
    var rows := map["A" := Row(false, false, "", "", "", ""), "B" := Row(true, true, "", "", "", "")];
    assert Objects([Obj(live), Obj(gone)][1..]) == [gone] by {
      assert [Obj(live), Obj(gone)][1..] == [Obj(gone)];
      assert Objects([Obj(gone)]) == [gone] + Objects([]);
    }
    var peers := PeersOf(book);
    assert peers == [live, gone];
    var found := Found(book, rows);
    assert IdOf(peers[0]) == "A" && IdOf(peers[1]) == "B";
    assert "A" in Ids(peers);
    assert Live(peers[0], found);
    assert !Touched(peers[0], found);
    assert !Touched(peers[1], found);
  }
}
