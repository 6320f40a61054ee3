/**
 Device enrollment, the server: registration, status, approval, rejection, removal,
 change of mode.

 Every handler is one atomic step. Storage calls succeed, except that issuing a token
 may fail: `drawn` is the token drawn, None when drawing fails.
 */
module EnrollmentService {
  import opened Options
  import opened Text
  import opened DeviceIds
  import EnrollmentTags

  datatype Mode = OpenMode | Managed | Locked | OtherMode

  // What a device says of itself, and the address the request came from.
  datatype Info = Info(hostname: string, address: string, platform: string, version: string, deviceType: string)

  // A row of the peers table; `key` is its own public key, "" without one of 32 bytes.
  datatype Peer = Peer(
    uuid: string,
    info: Info,
    note: string,
    tags: string,
    key: string,
    banned: bool,
    removed: bool)

  // What the server keeps of a pending registration: no uuid, public key or device type.
  datatype PendingInfo = PendingInfo(deviceId: string, info: Info)

  datatype TokenStatus = Unused | Active | Revoked | Expired

  // The use limit is none when it is not positive; the date of expiry may be missing.
  datatype DeviceToken = DeviceToken(
    owner: string,
    status: TokenStatus,
    maxUses: int,
    useCount: int,
    expires: Option<int>)

  // The maps of strings are configuration entries; a missing one reads as "".
  datatype Server = Server(
    mode: Mode,
    peers: map<string, Peer>,
    pending: map<string, PendingInfo>,
    rejected: set<string>,
    tokens: map<string, DeviceToken>,
    keys: map<string, string>,
    syncModes: map<string, string>,
    displayNames: map<string, string>,
    blocklist: set<string>)

  /** A server that has not been called yet. */
  function Fresh(mode: Mode): Server {
    Server(mode, map[], map[], {}, map[], map[], map[], map[], {})
  }

  type KeyText = s: string | s != "" witness "k"

  // The public key of a request: none, one that does not decode to 32 bytes, or its text.
  datatype SentKey = NoKey | BadKey | Key(text: KeyText)

  datatype Request = Request(deviceId: string, uuid: string, info: Info, key: SentKey, token: string)

  datatype Status = NoStatus | Approved | Pending | Rejected | Unknown

  // The message of an answer, by its meaning.
  datatype Notice = NoNotice | OtherMachine | DeviceBanned | Waiting | TokenRequired | WasRejected | RegisterFirst

  datatype Response = Response(
    code: nat,
    status: Status,
    deviceId: string,
    token: string,
    conflict: bool,
    suggested: string,
    notice: Notice,
    syncMode: string,
    displayName: string)

  function Plain(code: nat): Response {
    Response(code, NoStatus, "", "", false, "", NoNotice, "", "")
  }

  function Answered(code: nat, status: Status, id: string, notice: Notice): Response {
    Response(code, status, id, "", false, "", notice, "", "")
  }

  function ConflictAnswer(id: string): Response {
    Response(409, Rejected, id, "", true, SuggestAlternate(id), OtherMachine, "", "")
  }

  function ApprovedAnswer(id: string, token: string, syncMode: string, displayName: string): Response {
    Response(200, Approved, id, token, false, "", NoNotice, syncMode, displayName)
  }

  const STANDARD: string := "standard"
  const BETTERDESK: string := "betterdesk"

  // ----- storage

  function Config(entries: map<string, string>, id: string): string {
    if id in entries then entries[id] else ""
  }

  /** The query for a peer does not see soft-deleted rows. */
  predicate Known(s: Server, id: string) {
    id in s.peers && !s.peers[id].removed
  }

  /** The query for a ban sees all rows. */
  predicate IsBanned(s: Server, id: string) {
    id in s.peers && s.peers[id].banned
  }

  function Coalesce(s: string, stored: string): string {
    if s != "" then s else stored
  }

  function Typed(info: Info): Info {
    info.(deviceType := Coalesce(info.deviceType, BETTERDESK))
  }

  /** Empty values leave the stored ones, except that the address is always replaced. */
  function MergedInfo(stored: Info, info: Info): Info {
    Info(Coalesce(info.hostname, stored.hostname), info.address, Coalesce(info.platform, stored.platform),
         Coalesce(info.version, stored.version), Coalesce(info.deviceType, BETTERDESK))
  }

  /** Insert a row, or update one: an empty uuid leaves the stored one, and neither the ban nor
      the removal is undone. */
  function Upsert(s: Server, id: string, uuid: string, info: Info): Server {
    var row := if id !in s.peers then Peer(uuid, Typed(info), "", "", "", false, false)
               else s.peers[id].(uuid := Coalesce(uuid, s.peers[id].uuid),
                                 info := MergedInfo(s.peers[id].info, info));
    s.(peers := s.peers[id := row])
  }

  /** The row's own key, else the one bound in the configuration. */
  function BoundKey(s: Server, id: string): string {
    if Known(s, id) && s.peers[id].key != "" then s.peers[id].key else Config(s.keys, id)
  }

  function StoreKey(s: Server, id: string, key: SentKey): Server {
    if key.Key? then s.(keys := s.keys[id := key.text]) else s
  }

  function CreatePeer(s: Server, id: string, uuid: string, info: Info, key: SentKey): Server {
    StoreKey(Upsert(s, id, uuid, info), id, key)
  }

  /** A token issued to a device: active from the start, without limit or date. */
  function Issued(id: string): DeviceToken {
    DeviceToken(id, Active, 0, 0, None)
  }

  /** A token is stored under the id it is issued for; a token already stored is refused. */
  function Issue(s: Server, id: string, drawn: Option<string>): (Server, string) {
    if drawn.None? || drawn.value in s.tokens then (s, "")
    else (s.(tokens := s.tokens[drawn.value := Issued(id)]), drawn.value)
  }

  /** The use of a token is counted, and an unused one is bound to the device that shows it. */
  function Used(t: DeviceToken, id: string): DeviceToken {
    var bound := if t.status == Unused then t.(owner := id, status := Active) else t;
    bound.(useCount := t.useCount + 1)
  }

  function Bind(s: Server, token: string, id: string): Server
    requires token in s.tokens
  {
    s.(tokens := s.tokens[token := Used(s.tokens[token], id)])
  }

  /** What the server calls a valid token: not revoked, not past its date, uses left. */
  predicate Valid(t: DeviceToken, now: int) {
    && t.status != Revoked
    && (t.expires.Some? ==> now <= t.expires.value)
    && (t.maxUses > 0 ==> t.useCount < t.maxUses)
  }

  // ----- handlers

  predicate Conflicts(s: Server, id: string, uuid: string) {
    Known(s, id) && uuid != "" && s.peers[id].uuid != "" && uuid != s.peers[id].uuid
  }

  predicate KeyFits(s: Server, id: string, key: SentKey) {
    key.Key? && BoundKey(s, id) != "" ==> key.text == BoundKey(s, id)
  }

  /** The answer to a device the server knows: its settings and a new token. */
  function Approval(s: Server, id: string, drawn: Option<string>): (Server, Response) {
    var (s', token) := Issue(s, id, drawn);
    (s', ApprovedAnswer(id, token, Coalesce(Config(s.syncModes, id), STANDARD), Config(s.displayNames, id)))
  }

  /** A new peer and a token for it; `fallback` is answered when none can be issued. */
  function Enroll(s: Server, r: Request, drawn: Option<string>, fallback: string): (Server, Response) {
    var (s', token) := Issue(CreatePeer(s, r.deviceId, r.uuid, r.info, r.key), r.deviceId, drawn);
    (s', ApprovedAnswer(r.deviceId, Coalesce(token, fallback), STANDARD, ""))
  }

  function RegisterKnown(s: Server, r: Request, drawn: Option<string>): (Server, Response) {
    if Conflicts(s, r.deviceId, r.uuid) then (s, ConflictAnswer(r.deviceId))
    else if !KeyFits(s, r.deviceId, r.key) then (s, Plain(403))
    else Approval(if BoundKey(s, r.deviceId) == "" then StoreKey(s, r.deviceId, r.key) else s, r.deviceId, drawn)
  }

  function RegisterNew(s: Server, r: Request, drawn: Option<string>): (Server, Response) {
    match s.mode
    case OpenMode => Enroll(s, r, drawn, "")
    case Managed =>
      (s.(pending := s.pending[r.deviceId := PendingInfo(r.deviceId, r.info.(deviceType := ""))]),
       Answered(202, Pending, r.deviceId, Waiting))
    case Locked =>
      if r.token != "" && r.token in s.tokens then Enroll(Bind(s, r.token, r.deviceId), r, drawn, r.token)
      else (s, Answered(403, Rejected, r.deviceId, TokenRequired))
    case OtherMode => (s, Plain(200))
  }

  function HandleRegister(s: Server, r: Request, drawn: Option<string>): (Server, Response) {
    if r.deviceId == "" || r.key.BadKey? then (s, Plain(400))
    else if Known(s, r.deviceId) then RegisterKnown(s, r, drawn)
    else if IsBanned(s, r.deviceId) then (s, Answered(403, Rejected, r.deviceId, DeviceBanned))
    else RegisterNew(s, r, drawn)
  }

  function HandleStatus(s: Server, id: string, drawn: Option<string>): (Server, Response) {
    if id == "" then (s, Plain(400))
    else if Known(s, id) then Approval(s, id, drawn)
    else if id in s.pending then (s, Answered(200, Pending, id, Waiting))
    else if id in s.rejected then (s, Answered(403, Rejected, id, WasRejected))
    else (s, Answered(404, Unknown, id, RegisterFirst))
  }

  // What the operator sends with an approval, as it is.
  datatype Choice = Choice(syncMode: string, displayName: string, tags: string)

  function SyncModeOf(choice: Choice): string {
    Coalesce(ToLower(choice.syncMode), STANDARD)
  }

  predicate ValidChoice(choice: Choice) {
    SyncModeOf(choice) in {"silent", "standard", "turbo"}
  }

  lemma EmptyChoiceValid()
    ensures ValidChoice(Choice("", "", ""))
  {
    assert ToLower("") == "";
  }

  function TagsOf(choice: Choice): string {
    EnrollmentTags.Join(EnrollmentTags.TagList(choice.tags))
  }

  /** Fields of a row are updated unless it is soft-deleted; an empty value is no update. */
  function WithFields(s: Server, id: string, note: string, tags: string): Server {
    if Known(s, id)
    then s.(peers := s.peers[id := s.peers[id].(note := Coalesce(note, s.peers[id].note),
                                                tags := Coalesce(tags, s.peers[id].tags))])
    else s
  }

  function WithSettings(s: Server, id: string, choice: Choice): Server {
    s.(syncModes := s.syncModes[id := SyncModeOf(choice)],
       displayNames := if choice.displayName != "" then s.displayNames[id := choice.displayName] else s.displayNames)
  }

  /** Approve a pending device; no choice stands for a request that does not decode. */
  function HandleApprove(s: Server, id: string, choice: Option<Choice>): (Server, nat) {
    if id == "" || choice.None? || !ValidChoice(choice.value) then (s, 400)
    else if id !in s.pending then (s, 404)
    else
      var s0 := CreatePeer(s, s.pending[id].deviceId, "", s.pending[id].info, NoKey);
      var s1 := WithSettings(s0, id, choice.value);
      var s2 := WithFields(s1, id, choice.value.displayName, TagsOf(choice.value));
      (s2.(pending := s2.pending - {id}), 200)
  }

  /** Banning touches a row that exists, soft-deleted or not, and nothing else. */
  function Ban(s: Server, id: string): Server {
    if id in s.peers then s.(peers := s.peers[id := s.peers[id].(banned := true)]) else s
  }

  function HandleReject(s: Server, id: string, ban: bool): (Server, nat) {
    if id == "" then (s, 400)
    else
      var s' := s.(pending := s.pending - {id}, rejected := s.rejected + {id});
      (if ban then Ban(s', id) else s', 200)
  }

  /** Removing a device marks its row; revoking it bans the row too. */
  function HandleRemove(s: Server, id: string, revoke: bool): Server {
    var s' := if id in s.peers then s.(peers := s.peers[id := s.peers[id].(removed := true)]) else s;
    if revoke then Ban(s', id) else s'
  }

  /** One device deleted: its row removed, or gone for good when `hard`; a revoked id is put on
      the blocklist, which the enrollment handlers do not read. */
  function DeleteOne(s: Server, id: string, hard: bool, revoke: bool): Server {
    var s' := if hard then s.(peers := s.peers - {id}) else HandleRemove(s, id, revoke);
    if revoke then s'.(blocklist := s'.blocklist + {id}) else s'
  }

  /** `linked` are the linked devices, when the request asks to delete them too. */
  function HandleDelete(s: Server, id: string, linked: seq<string>, hard: bool, revoke: bool): Server {
    if linked == [] then DeleteOne(s, id, hard, revoke)
    else DeleteOne(HandleDelete(s, id, linked[..|linked| - 1], hard, revoke), linked[|linked| - 1], hard, revoke)
  }

  /** The mode is set to one of three; OtherMode stands for any other request. */
  function HandleSetMode(s: Server, mode: Mode): (Server, nat) {
    if mode == OtherMode then (s, 400) else (s.(mode := mode), 200)
  }

  // ----- the server object

  class EnrollmentServer {
    var mode: Mode
    var peers: map<string, Peer>
    var pending: map<string, PendingInfo>
    var rejected: set<string>
    var tokens: map<string, DeviceToken>
    var keys: map<string, string>
    var syncModes: map<string, string>
    var displayNames: map<string, string>
    var blocklist: set<string>

    constructor (mode: Mode)
      ensures View() == Fresh(mode)
    {
      this.mode := mode;
      peers, pending, rejected, tokens := map[], map[], {}, map[];
      keys, syncModes, displayNames, blocklist := map[], map[], map[], {};
    }

    ghost function View(): Server
      reads this
    {
      Server(mode, peers, pending, rejected, tokens, keys, syncModes, displayNames, blocklist)
    }

    function GetPeer(id: string): Option<Peer>
      reads this
    {
      if id in peers && !peers[id].removed then Some(peers[id]) else None
    }

    function GetConfig(entries: map<string, string>, id: string): string {
      if id in entries then entries[id] else ""
    }

    function LoadPublicKey(id: string): string
      reads this
    {
      var row := GetPeer(id);
      if row.Some? && row.value.key != "" then row.value.key else GetConfig(keys, id)
    }

    method IssueEnrollmentDeviceToken(id: string, drawn: Option<string>) returns (token: string)
      modifies this`tokens
      ensures (View(), token) == Issue(old(View()), id, drawn)
    {
      if drawn.None? || drawn.value in tokens {
        return "";
      }
      tokens := tokens[drawn.value := Issued(id)];
      return drawn.value;
    }

    // The part of the handler that takes note of the token a device shows.
    method UseToken(token: string, id: string)
      requires token in tokens
      modifies this`tokens
      ensures View() == Bind(old(View()), token, id)
    {
      if tokens[token].status == Unused {
        BindTokenToPeer(token, id);
      }
      IncrementTokenUse(token);
      assert tokens == old(tokens)[token := Used(old(tokens)[token], id)];
    }

    method CreatePeerFromEnrollment(id: string, uuid: string, info: Info, key: SentKey)
      modifies this`peers, this`keys
      ensures View() == CreatePeer(old(View()), id, uuid, info, key)
    {
      var deviceType := info.deviceType;
      if deviceType == "" {
        deviceType := BETTERDESK;
      }
      UpsertPeer(id, uuid, info.(deviceType := deviceType));
      if key.Key? {
        keys := keys[id := key.text];
      }
    }

    // A row is inserted or updated; values that are empty leave the stored ones.
    method UpsertPeer(id: string, uuid: string, info: Info)
      requires info.deviceType != ""
      modifies this`peers
      ensures View() == Upsert(old(View()), id, uuid, info)
    {
      if id !in peers {
        peers := peers[id := Peer(uuid, info, "", "", "", false, false)];
        return;
      }
      var row := peers[id];
      if uuid != "" {
        row := row.(uuid := uuid);
      }
      var merged := row.info.(address := info.address, deviceType := info.deviceType);
      if info.hostname != "" {
        merged := merged.(hostname := info.hostname);
      }
      if info.platform != "" {
        merged := merged.(platform := info.platform);
      }
      if info.version != "" {
        merged := merged.(version := info.version);
      }
      peers := peers[id := row.(info := merged)];
    }

    /** The token behind a text, if it is valid; one past its date is marked expired. */
    method ValidateToken(token: string, now: int) returns (valid: Option<DeviceToken>)
      modifies this`tokens
      ensures valid == if token in old(tokens) && Valid(old(tokens)[token], now) then Some(old(tokens)[token]) else None
      ensures tokens == if token in old(tokens) && old(tokens)[token].status !in {Revoked, Expired}
                           && old(tokens)[token].expires.Some? && now > old(tokens)[token].expires.value
                        then old(tokens)[token := old(tokens)[token].(status := Expired)] else old(tokens)
    {
      if token !in tokens {
        return None;
      }
      var t := tokens[token];
      if t.status == Revoked {
        return None;
      }
      if t.expires.Some? && now > t.expires.value {
        if t.status != Revoked && t.status != Expired {
          tokens := tokens[token := t.(status := Expired)];
        }
        return None;
      }
      if t.maxUses > 0 && t.useCount >= t.maxUses {
        return None;
      }
      return Some(t);
    }

    method BindTokenToPeer(token: string, id: string)
      requires token in tokens
      modifies this`tokens
      ensures var t := old(tokens)[token];
              tokens == old(tokens)[token := if t.status == Unused then t.(owner := id, status := Active) else t]
    {
      if tokens[token].status == Unused {
        tokens := tokens[token := tokens[token].(owner := id, status := Active)];
      }
    }

    method IncrementTokenUse(token: string)
      requires token in tokens
      modifies this`tokens
      ensures tokens == old(tokens)[token := old(tokens)[token].(useCount := old(tokens)[token].useCount + 1)]
    {
      tokens := tokens[token := tokens[token].(useCount := tokens[token].useCount + 1)];
    }

    // The two fields an approval may set on a row that is not soft-deleted.
    method UpdatePeerFields(id: string, note: Option<string>, tags: Option<string>)
      modifies this`peers
      ensures var s := old(View());
              View() == if !Known(s, id) then s
                        else s.(peers := s.peers[id := s.peers[id].(
                                  note := if note.Some? then note.value else s.peers[id].note,
                                  tags := if tags.Some? then tags.value else s.peers[id].tags)])
    {
      if id in peers && !peers[id].removed {
        var row := peers[id];
        if note.Some? {
          row := row.(note := note.value);
        }
        if tags.Some? {
          row := row.(tags := tags.value);
        }
        peers := peers[id := row];
      }
    }

    // The part of the handler for a device that the server knows.
    method AnswerKnownDevice(r: Request, existing: Peer, drawn: Option<string>) returns (resp: Response)
      requires GetPeer(r.deviceId) == Some(existing)
      modifies this`keys, this`tokens
      ensures (View(), resp) == RegisterKnown(old(View()), r, drawn)
    {
      hide SuggestAlternate;
      if r.uuid != "" && existing.uuid != "" && r.uuid != existing.uuid {
        return ConflictAnswer(r.deviceId);
      }
      if r.key.Key? {
        var bound := LoadPublicKey(r.deviceId);
        if bound != "" {
          if r.key.text != bound {
            return Plain(403);
          }
        } else {
          keys := keys[r.deviceId := r.key.text];
        }
      }
      var syncMode := GetConfig(syncModes, r.deviceId);
      if syncMode == "" {
        syncMode := STANDARD;
      }
      var displayName := GetConfig(displayNames, r.deviceId);
      var token := IssueEnrollmentDeviceToken(r.deviceId, drawn);
      return ApprovedAnswer(r.deviceId, token, syncMode, displayName);
    }

    method HandleDeviceRegister(r: Request, drawn: Option<string>) returns (resp: Response)
      modifies this
      ensures (View(), resp) == HandleRegister(old(View()), r, drawn)
    {
      hide SuggestAlternate;
      if r.deviceId == "" {
        return Plain(400);
      }
      if r.key.BadKey? {
        return Plain(400);
      }
      var existing := GetPeer(r.deviceId);
      if existing.Some? {
        resp := AnswerKnownDevice(r, existing.value, drawn);
        return;
      }
      if r.deviceId in peers && peers[r.deviceId].banned {
        return Answered(403, Rejected, r.deviceId, DeviceBanned);
      }
      match mode {
        case OpenMode =>
          CreatePeerFromEnrollment(r.deviceId, r.uuid, r.info, r.key);
          var token := IssueEnrollmentDeviceToken(r.deviceId, drawn);
          resp := ApprovedAnswer(r.deviceId, token, STANDARD, "");
        case Managed =>
          pending := pending[r.deviceId := PendingInfo(r.deviceId, r.info.(deviceType := ""))];
          resp := Answered(202, Pending, r.deviceId, Waiting);
        case Locked =>
          if r.token != "" && r.token in tokens {
            UseToken(r.token, r.deviceId);
            CreatePeerFromEnrollment(r.deviceId, r.uuid, r.info, r.key);
            var token := IssueEnrollmentDeviceToken(r.deviceId, drawn);
            return ApprovedAnswer(r.deviceId, if token != "" then token else r.token, STANDARD, "");
          }
          resp := Answered(403, Rejected, r.deviceId, TokenRequired);
        case OtherMode =>
          resp := Plain(200);
      }
    }

    method HandleDeviceRegisterStatus(id: string, drawn: Option<string>) returns (resp: Response)
      modifies this
      ensures (View(), resp) == HandleStatus(old(View()), id, drawn)
    {
      if id == "" {
        return Plain(400);
      }
      if GetPeer(id).Some? {
        var syncMode := GetConfig(syncModes, id);
        if syncMode == "" {
          syncMode := STANDARD;
        }
        var displayName := GetConfig(displayNames, id);
        var token := IssueEnrollmentDeviceToken(id, drawn);
        return ApprovedAnswer(id, token, syncMode, displayName);
      }
      if id in pending {
        return Answered(200, Pending, id, Waiting);
      }
      if id in rejected {
        return Answered(403, Rejected, id, WasRejected);
      }
      return Answered(404, Unknown, id, RegisterFirst);
    }

    // The part of the handler that stores what the operator chose.
    method ApplyChoice(id: string, choice: Choice, syncMode: string)
      requires syncMode == SyncModeOf(choice)
      modifies this`peers, this`syncModes, this`displayNames
      ensures View() == WithFields(WithSettings(old(View()), id, choice), id, choice.displayName, TagsOf(choice))
    {
      hide SyncModeOf, EnrollmentTags.Join, EnrollmentTags.TagList;
      syncModes := syncModes[id := syncMode];
      if choice.displayName != "" {
        displayNames := displayNames[id := choice.displayName];
        UpdatePeerFields(id, Some(choice.displayName), None);
      }
      var tags := EnrollmentTags.NormalizeEnrollmentTags(choice.tags);
      if tags != "" {
        UpdatePeerFields(id, None, Some(tags));
      }
      assert peers == WithFields(old(View()), id, choice.displayName, tags).peers;
    }

    method HandleApproveDevice(id: string, choice: Option<Choice>) returns (code: nat)
      modifies this
      ensures (View(), code) == HandleApprove(old(View()), id, choice)
    {
      hide ToLower, EnrollmentTags.Join, EnrollmentTags.TagList;
      if id == "" {
        return 400;
      }
      if choice.None? {
        return 400;
      }
      var syncMode := ToLower(choice.value.syncMode);
      if syncMode == "" {
        syncMode := STANDARD;
      }
      if syncMode != "silent" && syncMode != "standard" && syncMode != "turbo" {
        return 400;
      }
      if id !in pending {
        return 404;
      }
      CreatePeerFromEnrollment(pending[id].deviceId, "", pending[id].info, NoKey);
      ApplyChoice(id, choice.value, syncMode);
      pending := pending - {id};
      return 200;
    }

    method BanPeer(id: string)
      modifies this`peers
      ensures View() == Ban(old(View()), id)
    {
      if id in peers {
        peers := peers[id := peers[id].(banned := true)];
      }
    }

    method HandleRejectDevice(id: string, ban: bool) returns (code: nat)
      modifies this
      ensures (View(), code) == HandleReject(old(View()), id, ban)
    {
      if id == "" {
        return 400;
      }
      pending := pending - {id};
      rejected := rejected + {id};
      if ban {
        BanPeer(id);
      }
      return 200;
    }

    method DeletePeer(id: string, hard: bool, revoke: bool)
      modifies this
      ensures View() == DeleteOne(old(View()), id, hard, revoke)
    {
      if hard {
        peers := peers - {id};
      } else {
        if id in peers {
          peers := peers[id := peers[id].(removed := true)];
        }
        if revoke {
          BanPeer(id);
        }
      }
      if revoke {
        blocklist := blocklist + {id};
      }
    }

    method HandleDeletePeer(id: string, linked: seq<string>, hard: bool, revoke: bool)
      modifies this
      ensures View() == HandleDelete(old(View()), id, linked, hard, revoke)
    {
      DeletePeer(id, hard, revoke);
      for i := 0 to |linked|
        invariant View() == HandleDelete(old(View()), id, linked[..i], hard, revoke)
      {
        assert linked[..i + 1][..i] == linked[..i];
        DeletePeer(linked[i], hard, revoke);
      }
      assert linked[..|linked|] == linked;
    }

    method HandleSetEnrollmentMode(mode: Mode) returns (code: nat)
      modifies this
      ensures (View(), code) == HandleSetMode(old(View()), mode)
    {
      if mode == OtherMode {
        return 400;
      }
      this.mode := mode;
      return 200;
    }
  }
}
