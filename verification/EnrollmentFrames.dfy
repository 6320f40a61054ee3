/**
 What the handlers of the enrollment server leave alone: asking about a device touches
 nothing of any other, and an approval touches one row and its settings.
 */
module EnrollmentFrames {
  import opened Options
  import DeviceIds
  import opened EnrollmentService

  // ----- asking about one device

  // Of rows other than that of `id` nothing changes, and its own keeps its marks and its key.
  ghost predicate RowsOnly(id: string, s: Server, s': Server) {
    && s.peers.Keys <= s'.peers.Keys <= s.peers.Keys + {id}
    && (forall k :: k in s.peers && k != id ==> s'.peers[k] == s.peers[k])
    && (id in s'.peers ==>
          && s'.peers[id].removed == (id in s.peers && s.peers[id].removed)
          && s'.peers[id].banned == (id in s.peers && s.peers[id].banned)
          && s'.peers[id].key == (if id in s.peers then s.peers[id].key else ""))
  }

  // Tokens are not lost, and only `id` comes to own one.
  ghost predicate TokensOnly(id: string, s: Server, s': Server) {
    && s.tokens.Keys <= s'.tokens.Keys
    && forall t :: t in s'.tokens ==>
         s'.tokens[t].owner == id || (t in s.tokens && s'.tokens[t].owner == s.tokens[t].owner)
  }

  /** From `s` to `s'` only things of device `id` change. */
  ghost predicate Only(id: string, s: Server, s': Server) {
    && s' == s.(peers := s'.peers, pending := s'.pending, tokens := s'.tokens, keys := s'.keys)
    && RowsOnly(id, s, s') && TokensOnly(id, s, s')
    && s'.pending - {id} == s.pending - {id} && s'.keys - {id} == s.keys - {id}
  }

  lemma OnlyOn(id: string, s: Server, s': Server, s'': Server)
    requires Only(id, s, s') && Only(id, s', s'')
    ensures Only(id, s, s'')
  {
  }

  lemma TokensKeepOnly(id: string, s: Server, s': Server)
    requires s' == s.(tokens := s'.tokens, keys := s'.keys, pending := s'.pending) && TokensOnly(id, s, s')
    requires s'.pending - {id} == s.pending - {id} && s'.keys - {id} == s.keys - {id}
    ensures Only(id, s, s')
  {
  }

  lemma IssueOnly(id: string, s: Server, drawn: Option<string>)
    ensures Only(id, s, Issue(s, id, drawn).0) && Only(id, s, s)
  {
    hide Only, RowsOnly;
    TokensKeepOnly(id, s, Issue(s, id, drawn).0);
    TokensKeepOnly(id, s, s);
  }

  lemma KnownOnly(s: Server, r: Request, drawn: Option<string>)
    ensures Only(r.deviceId, s, RegisterKnown(s, r, drawn).0)
  {
    hide Only, RowsOnly, TokensOnly, Issue, Config, DeviceIds.SuggestAlternate, Coalesce, BoundKey, Conflicts, KeyFits;
    var s' := StoreKey(s, r.deviceId, r.key);
    IssueOnly(r.deviceId, s, drawn);
    IssueOnly(r.deviceId, s', drawn);
    StoreKeyOnly(s, r);
    OnlyOn(r.deviceId, s, s', Issue(s', r.deviceId, drawn).0);
  }

  lemma StoreKeyOnly(s: Server, r: Request)
    ensures Only(r.deviceId, s, StoreKey(s, r.deviceId, r.key))
  {
    hide Only, RowsOnly;
    TokensKeepOnly(r.deviceId, s, StoreKey(s, r.deviceId, r.key));
  }

  lemma CreateOnly(s: Server, r: Request)
    ensures Only(r.deviceId, s, CreatePeer(s, r.deviceId, r.uuid, r.info, r.key))
  {
    hide Only, RowsOnly, Typed, MergedInfo;
    var s' := Upsert(s, r.deviceId, r.uuid, r.info);
    StoreKeyOnly(s', r);
    OnlyOn(r.deviceId, s, s', StoreKey(s', r.deviceId, r.key));
  }

  lemma EnrollOnly(s: Server, r: Request, drawn: Option<string>, fallback: string)
    ensures Only(r.deviceId, s, Enroll(s, r, drawn, fallback).0)
  {
    hide Only, CreatePeer, Issue;
    var s' := CreatePeer(s, r.deviceId, r.uuid, r.info, r.key);
    CreateOnly(s, r);
    IssueOnly(r.deviceId, s', drawn);
    OnlyOn(r.deviceId, s, s', Issue(s', r.deviceId, drawn).0);
  }

  /** A registration changes only things of the device it is about: no other device's row,
      pending entry or key, no other device comes to own a token, and no mark is set or lifted. */
  lemma RegisterOnly(s: Server, r: Request, drawn: Option<string>)
    ensures Only(r.deviceId, s, HandleRegister(s, r, drawn).0)
  {
    hide Only, RowsOnly, Enroll, RegisterKnown, Known, IsBanned;
    var pended := s.(pending := s.pending[r.deviceId := PendingInfo(r.deviceId, r.info.(deviceType := ""))]);
    KnownOnly(s, r, drawn);
    TokensKeepOnly(r.deviceId, s, s);
    TokensKeepOnly(r.deviceId, s, pended);
    EnrollOnly(s, r, drawn, "");
    if r.token in s.tokens {
      var s' := Bind(s, r.token, r.deviceId);
      TokensKeepOnly(r.deviceId, s, s');
      EnrollOnly(s', r, drawn, r.token);
      OnlyOn(r.deviceId, s, s', Enroll(s', r, drawn, r.token).0);
    }
  }

  lemma StatusOnly(s: Server, id: string, drawn: Option<string>)
    ensures Only(id, s, HandleStatus(s, id, drawn).0)
  {
    hide Only, Issue;
    IssueOnly(id, s, drawn);
  }

  // ----- approving a device

  lemma CreateFrame(s: Server, id: string, uuid: string, info: Info, key: SentKey)
    ensures var s' := CreatePeer(s, id, uuid, info, key); s' == s.(peers := s'.peers, keys := s'.keys)
  {
  }

  /** An approval creates or updates one row without uuid and key, sets the settings of the
      device, ends its being pending, and changes nothing else; notes and tags of rows aside. */
  lemma ApproveFrame(s: Server, id: string, choice: Choice)
    requires id != "" && id in s.pending && ValidChoice(choice)
    ensures var s' := HandleApprove(s, id, Some(choice)).0;
            var c := CreatePeer(s, s.pending[id].deviceId, "", s.pending[id].info, NoKey);
            && s' == c.(peers := s'.peers, pending := s.pending - {id}, syncModes := s'.syncModes,
                        displayNames := s'.displayNames)
            && s'.peers.Keys == c.peers.Keys
            && (forall k :: k in c.peers ==>
                  s'.peers[k] == c.peers[k].(note := s'.peers[k].note, tags := s'.peers[k].tags))
            && s'.syncModes == s.syncModes[id := SyncModeOf(choice)]
            && (choice.displayName != "" ==> s'.displayNames == s.displayNames[id := choice.displayName])
            && (Known(c, id) && choice.displayName != "" ==> s'.peers[id].note == choice.displayName)
            && (Known(c, id) && TagsOf(choice) != "" ==> s'.peers[id].tags == TagsOf(choice))
  {
    hide SyncModeOf, TagsOf, ValidChoice, CreatePeer;
    CreateFrame(s, s.pending[id].deviceId, "", s.pending[id].info, NoKey);
  }

  /** An approval that is refused changes nothing. */
  lemma ApproveRefused(s: Server, id: string, choice: Option<Choice>)
    requires id == "" || choice.None? || !ValidChoice(choice.value) || id !in s.pending
    ensures HandleApprove(s, id, choice).0 == s && HandleApprove(s, id, choice).1 in {400, 404}
  {
  }
}
