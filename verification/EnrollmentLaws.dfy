/**
 Laws of the enrollment server, whoever calls it: the first key bound to a device wins,
 what a locked server admits, and what an operator chooses at an approval arrives.
 */
module EnrollmentLaws {
  import opened Options
  import DeviceIds
  import AdminTags
  import EnrollmentTags
  import opened EnrollmentService
  import opened EnrollmentFrames

  // ----- sequences of calls from anybody

  datatype Call =
    | RegisterCall(r: Request, drawn: Option<string>)
    | StatusCall(id: string, drawn: Option<string>)
    | ApproveCall(id: string, choice: Option<Choice>)
    | RejectCall(id: string, ban: bool)
    | DeleteCall(id: string, linked: seq<string>, hard: bool, revoke: bool)
    | ModeCall(mode: Mode)

  function Serve(s: Server, c: Call): Server {
    match c
    case RegisterCall(r, drawn) => HandleRegister(s, r, drawn).0
    case StatusCall(id, drawn) => HandleStatus(s, id, drawn).0
    case ApproveCall(id, choice) => HandleApprove(s, id, choice).0
    case RejectCall(id, ban) => HandleReject(s, id, ban).0
    case DeleteCall(id, linked, hard, revoke) => HandleDelete(s, id, linked, hard, revoke)
    case ModeCall(mode) => HandleSetMode(s, mode).0
  }

  function ServeAll(s: Server, cs: seq<Call>): Server {
    if cs == [] then s else Serve(ServeAll(s, cs[..|cs| - 1]), cs[|cs| - 1])
  }

  /** The call deletes the device, itself or along with another. */
  predicate Deletes(c: Call, id: string) {
    c.DeleteCall? && (c.id == id || id in c.linked)
  }

  // ----- the first key wins

  /** The device is known and has this key. */
  ghost predicate KeyBound(s: Server, id: string, k: KeyText) {
    Known(s, id) && BoundKey(s, id) == k
  }

  // The device's row and its bound key are left alone.
  ghost predicate Untouched(s: Server, s': Server, id: string) {
    id in s.peers && id in s'.peers && s'.peers[id] == s.peers[id] && Config(s'.keys, id) == Config(s.keys, id)
  }

  lemma UntouchedKeeps(s: Server, s': Server, id: string, k: KeyText)
    requires KeyBound(s, id, k) && Untouched(s, s', id)
    ensures KeyBound(s', id, k)
  {
  }

  lemma OthersUntouched(id': string, s: Server, s': Server, id: string)
    requires Only(id', s, s') && id' != id && id in s.peers
    ensures Untouched(s, s', id)
  {
    assert forall k :: k != id' ==> (k in s'.keys - {id'} <==> k in s'.keys);
    assert Config(s'.keys - {id'}, id) == Config(s'.keys, id);
    assert Config(s.keys - {id'}, id) == Config(s.keys, id);
  }

  /** A device that has a key keeps it when it registers itself. */
  lemma SameKeyKept(s: Server, r: Request, drawn: Option<string>)
    requires Known(s, r.deviceId) && BoundKey(s, r.deviceId) != ""
    ensures Untouched(s, RegisterKnown(s, r, drawn).0, r.deviceId)
  {
    hide DeviceIds.SuggestAlternate, Coalesce, STANDARD, BoundKey, Conflicts, KeyFits;
  }

  lemma RegisterKeepsKey(s: Server, r: Request, drawn: Option<string>, id: string, k: KeyText)
    requires KeyBound(s, id, k)
    ensures KeyBound(HandleRegister(s, r, drawn).0, id, k)
  {
    hide RegisterKnown, RegisterNew, BoundKey, Only;
    var s' := HandleRegister(s, r, drawn).0;
    if r.deviceId != id {
      RegisterOnly(s, r, drawn);
      OthersUntouched(r.deviceId, s, s', id);
      UntouchedKeeps(s, s', id, k);
    } else if r.deviceId != "" && !r.key.BadKey? {
      SameKeyKept(s, r, drawn);
      UntouchedKeeps(s, s', id, k);
    }
  }

  lemma ApproveKeepsKey(s: Server, id': string, choice: Option<Choice>, id: string, k: KeyText)
    requires KeyBound(s, id, k)
    ensures KeyBound(HandleApprove(s, id', choice).0, id, k)
  {
    hide HandleApprove, ValidChoice, SyncModeOf, TagsOf, Typed, MergedInfo;
    if id' != "" && choice.Some? && ValidChoice(choice.value) && id' in s.pending {
      ApproveFrame(s, id', choice.value);
    } else {
      ApproveRefused(s, id', choice);
    }
  }

  lemma {:induction false} DeleteTouches(
    s: Server, id': string, linked: seq<string>, hard: bool, revoke: bool, id: string)
    requires id in s.peers && id' != id && id !in linked
    ensures Untouched(s, HandleDelete(s, id', linked, hard, revoke), id)
  {
    hide DeleteOne;
    if linked == [] {
      DeleteOther(s, id', hard, revoke, id);
    } else {
      var n := |linked| - 1;
      DeleteTouches(s, id', linked[..n], hard, revoke, id);
      DeleteOther(HandleDelete(s, id', linked[..n], hard, revoke), linked[n], hard, revoke, id);
    }
  }

  lemma DeleteOther(s: Server, id': string, hard: bool, revoke: bool, id: string)
    requires id in s.peers && id' != id
    ensures Untouched(s, DeleteOne(s, id', hard, revoke), id)
  {
  }

  lemma ServeKeepsKey(s: Server, c: Call, id: string, k: KeyText)
    requires KeyBound(s, id, k) && !Deletes(c, id)
    ensures KeyBound(Serve(s, c), id, k)
  {
    hide HandleRegister, HandleApprove, HandleDelete;
    match c {
      case RegisterCall(r, drawn) => RegisterKeepsKey(s, r, drawn, id, k);
      case StatusCall(id', drawn) =>
      case ApproveCall(id', choice) => ApproveKeepsKey(s, id', choice, id, k);
      case RejectCall(id', ban) =>
      case DeleteCall(id', linked, hard, revoke) =>
        DeleteTouches(s, id', linked, hard, revoke, id);
        UntouchedKeeps(s, HandleDelete(s, id', linked, hard, revoke), id, k);
      case ModeCall(mode) =>
    }
  }

  /** Whatever handler is called by whom, and in whatever order and mode: a key bound to a device
      stays bound as long as the device is not deleted, and a registration with another key is
      refused and changes nothing. */
  lemma {:induction false} FirstKeyWins(s: Server, cs: seq<Call>, id: string, k: KeyText)
    requires KeyBound(s, id, k)
    requires forall c :: c in cs ==> !Deletes(c, id)
    ensures var s' := ServeAll(s, cs);
            && KeyBound(s', id, k)
            && forall r: Request, drawn ::
                 id != "" && r.deviceId == id && r.key.Key? && r.key.text != k ==>
                   HandleRegister(s', r, drawn).0 == s' && HandleRegister(s', r, drawn).1.code in {403, 409}
  {
    hide HandleRegister, KeyBound;
    if cs != [] {
      var n := |cs| - 1;
      FirstKeyWins(s, cs[..n], id, k);
      ServeKeepsKey(ServeAll(s, cs[..n]), cs[n], id, k);
    }
    forall r: Request, drawn | id != "" && r.deviceId == id && r.key.Key? && r.key.text != k
      ensures var s' := ServeAll(s, cs);
              HandleRegister(s', r, drawn).0 == s' && HandleRegister(s', r, drawn).1.code in {403, 409}
    {
      OtherKeyRefused(ServeAll(s, cs), r, drawn, k);
    }
  }

  lemma OtherKeyRefused(s: Server, r: Request, drawn: Option<string>, k: KeyText)
    requires KeyBound(s, r.deviceId, k) && r.deviceId != "" && r.key.Key? && r.key.text != k
    ensures HandleRegister(s, r, drawn).0 == s && HandleRegister(s, r, drawn).1.code in {403, 409}
  {
    hide DeviceIds.SuggestAlternate;
  }

  /** A known device that has no key is bound to the first one it sends, unless its uuid
      conflicts. */
  lemma FirstKeyIsBound(s: Server, r: Request, drawn: Option<string>)
    requires r.deviceId != "" && Known(s, r.deviceId) && BoundKey(s, r.deviceId) == "" && r.key.Key?
    ensures KeyBound(HandleRegister(s, r, drawn).0, r.deviceId, r.key.text) <==> !Conflicts(s, r.deviceId, r.uuid)
  {
    hide DeviceIds.SuggestAlternate, Coalesce, STANDARD;
  }

  /** A key that is stored is the one in force, unless the row has another key of its own; no
      other device's key changes. */
  lemma StoredKeyLoads(s: Server, id: string, k: KeyText, id': string)
    ensures var s' := StoreKey(s, id, Key(k));
            && (BoundKey(s', id) == k <==> !(Known(s, id) && s.peers[id].key !in {"", k}))
            && (id' != id ==> BoundKey(s', id') == BoundKey(s, id'))
  {
  }

  // ----- locked mode

  ghost predicate Admitted(s: Server, r: Request, drawn: Option<string>) {
    HandleRegister(s, r, drawn).1.code == 200
  }

  /** In locked mode a device that is not known is admitted exactly when it is not banned and
      shows a token of the table; whether that is valid is not looked at. It then has a row,
      and the use is counted. */
  lemma LockedAdmitsIff(s: Server, r: Request, drawn: Option<string>)
    requires s.mode == Locked && !Known(s, r.deviceId)
    ensures Admitted(s, r, drawn) <==>
            && r.deviceId != "" && !r.key.BadKey? && !IsBanned(s, r.deviceId)
            && r.token != "" && r.token in s.tokens
    ensures Admitted(s, r, drawn) ==>
              var s', t := HandleRegister(s, r, drawn).0, s.tokens[r.token];
              && r.deviceId in s'.peers && r.token in s'.tokens
              && s'.tokens[r.token].useCount == t.useCount + 1
              && s'.tokens[r.token].owner == (if t.status == Unused then r.deviceId else t.owner)
  {
    hide Coalesce, STANDARD, Issue, CreatePeer;
    if r.token in s.tokens {
      EnrolledByToken(Bind(s, r.token, r.deviceId), r, drawn);
    }
  }

  lemma EnrolledByToken(s: Server, r: Request, drawn: Option<string>)
    requires r.token in s.tokens
    ensures var (s', a) := Enroll(s, r, drawn, r.token);
            a.code == 200 && r.deviceId in s'.peers && r.token in s'.tokens && s'.tokens[r.token] == s.tokens[r.token]
  {
    hide Typed, MergedInfo;
  }

  // A locked server with one token.
  function LockedWith(t: DeviceToken): Server {
    Fresh(Locked).(tokens := map["t" := t])
  }

  function Showing(id: string): Request {
    Request(id, "u", Info("host", "", "", "", ""), NoKey, "t")
  }

  /** Tokens that are not valid and admit a new device all the same: one that is revoked, one
      past its date, and a single-use invite that another device has used, which stays that
      device's. */
  lemma InvalidTokensAdmit(drawn: Option<string>)
    ensures var revoked := DeviceToken("A", Revoked, 0, 0, None);
            !Valid(revoked, 1) && Admitted(LockedWith(revoked), Showing("B"), drawn)
    ensures var late := DeviceToken("", Unused, 0, 0, Some(0));
            !Valid(late, 1) && Admitted(LockedWith(late), Showing("B"), drawn)
    ensures var invite := DeviceToken("A", Active, 1, 1, None);
            && !Valid(invite, 1) && Admitted(LockedWith(invite), Showing("B"), drawn)
            && var s' := HandleRegister(LockedWith(invite), Showing("B"), drawn).0;
               "t" in s'.tokens && s'.tokens["t"].owner == "A" && s'.tokens["t"].useCount == 2
  {
    hide HandleRegister, Admitted;
    LockedAdmitsIff(LockedWith(DeviceToken("A", Revoked, 0, 0, None)), Showing("B"), drawn);
    LockedAdmitsIff(LockedWith(DeviceToken("", Unused, 0, 0, Some(0))), Showing("B"), drawn);
    LockedAdmitsIff(LockedWith(DeviceToken("A", Active, 1, 1, None)), Showing("B"), drawn);
  }

  /** Every token of the table admits some device that is not known, and not only `other`. */
  lemma AnyTokenAdmits(s: Server, t: string, other: string) returns (r: Request)
    requires s.mode == Locked && t in s.tokens && t != ""
    ensures !Known(s, r.deviceId) && Admitted(s, r, None) && r.token == t && r.deviceId != other
  {
    hide Admitted;
    var id := FreshId(s.peers.Keys + {other});
    r := Request(id, "", Info("", "", "", "", ""), NoKey, t);
    LockedAdmitsIff(s, r, None);
  }

  /** "A valid token is required" holds of a locked server at a time, for the devices it does
      not know, exactly when its table has no token that is not valid then. */
  lemma LockedNeedsValidIff(s: Server, now: int)
    requires s.mode == Locked
    ensures (forall r: Request, drawn :: !Known(s, r.deviceId) && Admitted(s, r, drawn) ==>
               r.token in s.tokens && Valid(s.tokens[r.token], now))
            <==> (forall t :: t in s.tokens && t != "" ==> Valid(s.tokens[t], now))
  {
    hide HandleRegister, Admitted, Valid;
    forall r: Request, drawn | !Known(s, r.deviceId) && Admitted(s, r, drawn)
      ensures r.token != "" && r.token in s.tokens
    {
      LockedAdmitsIff(s, r, drawn);
    }
    forall t | t in s.tokens && t != ""
      ensures exists r: Request, drawn :: !Known(s, r.deviceId) && Admitted(s, r, drawn) && r.token == t
    {
      var r := AnyTokenAdmits(s, t, "");
    }
  }

  // The device shows a token nobody has used, or its own.
  predicate ShowsOwn(s: Server, r: Request) {
    r.token in s.tokens && (s.tokens[r.token].status == Unused || s.tokens[r.token].owner == r.deviceId)
  }

  /** Every device a locked server admits shows an unused token or its own exactly when all the
      tokens of the table are unused. */
  lemma LockedOwnTokenIff(s: Server)
    requires s.mode == Locked
    ensures (forall r: Request, drawn :: !Known(s, r.deviceId) && Admitted(s, r, drawn) ==> ShowsOwn(s, r))
            <==> (forall t :: t in s.tokens && t != "" ==> s.tokens[t].status == Unused)
  {
    hide HandleRegister, Admitted;
    forall r: Request, drawn | !Known(s, r.deviceId) && Admitted(s, r, drawn)
      ensures r.token != "" && r.token in s.tokens
    {
      LockedAdmitsIff(s, r, drawn);
    }
    forall t | t in s.tokens && t != "" && s.tokens[t].status != Unused
      ensures exists r: Request, drawn :: !Known(s, r.deviceId) && Admitted(s, r, drawn) && !ShowsOwn(s, r)
    {
      var r := AnyTokenAdmits(s, t, s.tokens[t].owner);
      assert !ShowsOwn(s, r);
    }
  }

  /** Some id is not in the set. */
  lemma FreshId(ids: set<string>) returns (id: string)
    ensures id != "" && id !in ids
  {
    id := "a";
    var seen: set<string> := {};
    while id in ids
      invariant id != "" && seen <= ids && forall k :: k in seen ==> |k| < |id|
      decreases ids - seen
    {
      seen := seen + {id};
      id := id + "a";
    }
  }

  // ----- the use count

  /** The call admits a device that shows the token. */
  ghost predicate Shows(s: Server, c: Call, t: string) {
    && c.RegisterCall? && c.r.token == t && s.mode == Locked && !Known(s, c.r.deviceId)
    && Admitted(s, c.r, c.drawn)
  }

  /** How many of the calls do so. */
  ghost function Showings(s: Server, cs: seq<Call>, t: string): nat {
    if cs == [] then 0
    else
      var n := |cs| - 1;
      Showings(s, cs[..n], t) + if Shows(ServeAll(s, cs[..n]), cs[n], t) then 1 else 0
  }

  // The token's entry, with its use counted `n` times more.
  ghost predicate UsedMore(s: Server, s': Server, t: string, n: nat) {
    t in s.tokens && t in s'.tokens && s'.tokens[t].useCount == s.tokens[t].useCount + n
    && s'.tokens[t].maxUses == s.tokens[t].maxUses
  }

  lemma IssueUses(s: Server, id: string, drawn: Option<string>, t: string)
    requires t in s.tokens
    ensures Issue(s, id, drawn).0.tokens.Keys >= s.tokens.Keys && Issue(s, id, drawn).0.tokens[t] == s.tokens[t]
  {
  }

  lemma EnrollUses(s: Server, r: Request, drawn: Option<string>, fallback: string, t: string)
    requires t in s.tokens
    ensures UsedMore(s, Enroll(s, r, drawn, fallback).0, t, 0)
  {
    hide Issue, Typed, MergedInfo;
    IssueUses(CreatePeer(s, r.deviceId, r.uuid, r.info, r.key), r.deviceId, drawn, t);
  }

  lemma KnownUses(s: Server, r: Request, drawn: Option<string>, t: string)
    requires t in s.tokens
    ensures UsedMore(s, RegisterKnown(s, r, drawn).0, t, 0)
  {
    hide DeviceIds.SuggestAlternate, STANDARD, Issue, BoundKey, Conflicts;
    IssueUses(s, r.deviceId, drawn, t);
    IssueUses(StoreKey(s, r.deviceId, r.key), r.deviceId, drawn, t);
  }

  lemma BindUses(s: Server, token: string, id: string, t: string)
    requires t in s.tokens && token in s.tokens
    ensures UsedMore(s, Bind(s, token, id), t, if token == t then 1 else 0) && token in Bind(s, token, id).tokens
  {
  }

  lemma UsesOn(s: Server, s': Server, s'': Server, t: string, n: nat)
    requires UsedMore(s, s', t, n) && UsedMore(s', s'', t, 0)
    ensures UsedMore(s, s'', t, n)
  {
  }

  lemma SameUses(s: Server, s': Server, t: string)
    requires t in s.tokens
    ensures s'.tokens == s.tokens ==> UsedMore(s, s', t, 0)
  {
  }

  lemma RegisterUses(s: Server, r: Request, drawn: Option<string>, t: string)
    requires t in s.tokens
    ensures UsedMore(s, HandleRegister(s, r, drawn).0, t, if Shows(s, RegisterCall(r, drawn), t) then 1 else 0)
  {
    hide RegisterKnown, Enroll, Bind, UsedMore;
    KnownUses(s, r, drawn, t);
    EnrollUses(s, r, drawn, "", t);
    if r.token in s.tokens && s.mode == Locked && r.token != "" {
      var s' := Bind(s, r.token, r.deviceId);
      BindUses(s, r.token, r.deviceId, t);
      EnrollUses(s', r, drawn, r.token, t);
      UsesOn(s, s', Enroll(s', r, drawn, r.token).0, t, if r.token == t then 1 else 0);
      EnrolledByToken(s', r, drawn);
    }
    assert HandleRegister(s, r, drawn).0.tokens == s.tokens ==> UsedMore(s, HandleRegister(s, r, drawn).0, t, 0) by {
      SameUses(s, HandleRegister(s, r, drawn).0, t);
    }
  }

  lemma ApproveTokens(s: Server, id: string, choice: Option<Choice>)
    ensures var s' := HandleApprove(s, id, choice).0; s'.tokens == s.tokens && s'.mode == s.mode
  {
    hide HandleApprove, ValidChoice, Upsert;
    if id != "" && choice.Some? && ValidChoice(choice.value) && id in s.pending {
      ApproveFrame(s, id, choice.value);
      CreateFrame(s, s.pending[id].deviceId, "", s.pending[id].info, NoKey);
    } else {
      ApproveRefused(s, id, choice);
    }
  }

  lemma {:induction false} DeleteUses(s: Server, id: string, linked: seq<string>, hard: bool, revoke: bool)
    ensures var s' := HandleDelete(s, id, linked, hard, revoke); s'.tokens == s.tokens && s'.mode == s.mode
  {
    if linked != [] {
      DeleteUses(s, id, linked[..|linked| - 1], hard, revoke);
    }
  }

  lemma ServeUses(s: Server, c: Call, t: string)
    requires t in s.tokens
    ensures UsedMore(s, Serve(s, c), t, if Shows(s, c, t) then 1 else 0)
  {
    hide HandleRegister, HandleApprove, HandleDelete, Issue, Admitted;
    match c {
      case RegisterCall(r, drawn) => RegisterUses(s, r, drawn, t);
      case StatusCall(id, drawn) => IssueUses(s, id, drawn, t);
      case ApproveCall(id, choice) => ApproveTokens(s, id, choice);
      case DeleteCall(id, linked, hard, revoke) => DeleteUses(s, id, linked, hard, revoke);
      case _ =>
    }
  }

  /** The use count of a token goes up by exactly one for each device it admits, whatever else
      is called; only its limit is not looked at. */
  lemma {:induction false} UsesCounted(s: Server, cs: seq<Call>, t: string)
    requires t in s.tokens
    ensures UsedMore(s, ServeAll(s, cs), t, Showings(s, cs, t))
  {
    hide Serve, Shows;
    if cs != [] {
      var n := |cs| - 1;
      UsesCounted(s, cs[..n], t);
      ServeUses(ServeAll(s, cs[..n]), cs[n], t);
    }
  }

  // ----- what an approval brings

  /** The row as the address books see it. */
  function BookRow(p: Peer): AdminTags.Row {
    AdminTags.Row(p.banned, p.removed, p.info.hostname, p.info.platform, "", p.tags)
  }

  /** Approving a pending device makes it known if and only if it has no soft-deleted row.
      Then its answers carry the sync mode and the display name the operator chose, and its
      row the tags, as an address book reads them. */
  lemma ApprovalArrives(s: Server, id: string, choice: Choice, drawn: Option<string>)
    requires id != "" && id in s.pending && s.pending[id].deviceId == id && ValidChoice(choice)
    ensures var s' := HandleApprove(s, id, Some(choice)).0;
            && (Known(s', id) <==> !(id in s.peers && s.peers[id].removed))
            && id !in s'.pending
            && (Known(s', id) ==>
                  var answer := HandleStatus(s', id, drawn).1;
                  && answer.status == Approved && answer.syncMode == SyncModeOf(choice)
                  && (choice.displayName != "" ==>
                        answer.displayName == choice.displayName && s'.peers[id].note == choice.displayName)
                  && (EnrollmentTags.TagList(choice.tags) != [] ==>
                        AdminTags.RowTags(BookRow(s'.peers[id])) == EnrollmentTags.TagList(choice.tags)))
  {
    hide SyncModeOf, TagsOf, ValidChoice;
    var s' := HandleApprove(s, id, Some(choice)).0;
    ApprovedRow(s, id, choice);
    if Known(s', id) && EnrollmentTags.TagList(choice.tags) != [] {
      EnrollmentTags.TagListClean(choice.tags);
      TagsAre(choice);
      EnrollmentTags.StoredTagsReadBack(choice.tags, BookRow(s'.peers[id]));
    }
  }

  /** What reaches the row of a new device in managed mode, from its registration through the
      pending list to the approval: all it says of itself but its type; no uuid and no key. */
  lemma ManagedForgets(s: Server, r: Request, drawn: Option<string>, choice: Choice)
    requires s.mode == Managed && r.deviceId != "" && !r.key.BadKey? && r.deviceId !in s.peers && ValidChoice(choice)
    ensures var s1 := HandleRegister(s, r, drawn).0;
            var s2 := HandleApprove(s1, r.deviceId, Some(choice)).0;
            && r.deviceId in s2.peers && s2.peers[r.deviceId].uuid == ""
            && s2.peers[r.deviceId].info == r.info.(deviceType := BETTERDESK)
            && s2.peers[r.deviceId].key == "" && s2.keys == s.keys
  {
    hide HandleApprove, SyncModeOf, TagsOf, ValidChoice, BETTERDESK;
    ApproveFrame(HandleRegister(s, r, drawn).0, r.deviceId, choice);
  }

  /** A removed device that is approved: the operator is told so, but it is not known, not
      pending either, and its next poll is answered as unknown. */
  lemma RemovedApproved()
    ensures var info := Info("host", "", "", "", "");
            var s := Fresh(Managed).(peers := map["A" := Peer("", info, "", "", "", false, true)],
                                     pending := map["A" := PendingInfo("A", info)]);
            var (s', code) := HandleApprove(s, "A", Some(Choice("", "", "")));
            && code == 200 && !Known(s', "A") && "A" !in s'.pending
            && HandleStatus(s', "A", None).1 == Answered(404, Unknown, "A", RegisterFirst)
  {
    hide TagsOf, Typed, MergedInfo;
    var info := Info("host", "", "", "", "");
    var s := Fresh(Managed).(peers := map["A" := Peer("", info, "", "", "", false, true)],
                             pending := map["A" := PendingInfo("A", info)]);
    EmptyChoiceValid();
    ApprovedRow(s, "A", Choice("", "", ""));
    assert HandleApprove(s, "A", Some(Choice("", "", ""))).0.rejected == {};
  }

  lemma TagsAre(choice: Choice)
    ensures TagsOf(choice) == EnrollmentTags.Join(EnrollmentTags.TagList(choice.tags))
  {
  }

  lemma SyncModeNotEmpty(choice: Choice)
    requires ValidChoice(choice)
    ensures SyncModeOf(choice) != ""
  {
  }

  lemma ApprovedRow(s: Server, id: string, choice: Choice)
    requires id != "" && id in s.pending && s.pending[id].deviceId == id && ValidChoice(choice)
    ensures var s' := HandleApprove(s, id, Some(choice)).0;
            && id in s'.peers && s'.peers[id].removed == (id in s.peers && s.peers[id].removed)
            && id !in s'.pending
            && Config(s'.syncModes, id) == SyncModeOf(choice) != ""
            && (choice.displayName != "" ==> Config(s'.displayNames, id) == choice.displayName)
            && (Known(s', id) && choice.displayName != "" ==> s'.peers[id].note == choice.displayName)
            && (Known(s', id) && TagsOf(choice) != "" ==> s'.peers[id].tags == TagsOf(choice))
  {
    hide HandleApprove, SyncModeOf, TagsOf, ValidChoice, Typed, MergedInfo;
    ApproveFrame(s, id, choice);
    SyncModeNotEmpty(choice);
  }
}
