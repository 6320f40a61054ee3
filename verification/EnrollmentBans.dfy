/**
 What a ban does to enrollment. The remark beside the handler says that a ban blocks
 later registrations; it does so exactly for rows that are soft-deleted.
 */
module EnrollmentBans {
  import opened Options
  import DeviceIds
  import opened EnrollmentService
  import opened EnrollmentFrames
  import opened EnrollmentLaws
  import opened EnrollmentRuns

  const HOST: Info := Info("host", "", "", "", "")

  // ----- when a registration is refused for a ban

  ghost predicate RefusedAsBanned(s: Server, r: Request, drawn: Option<string>) {
    HandleRegister(s, r, drawn).1.notice == DeviceBanned
  }

  /** The id's row is banned and soft-deleted. */
  predicate Blocked(s: Server, id: string) {
    id in s.peers && s.peers[id].banned && s.peers[id].removed
  }

  /** A registration is refused as banned exactly when the id's row is banned and soft-deleted:
      a banned row that is not soft-deleted answers first, as a known device. Malformed
      requests are refused for that. */
  lemma RefusedIff(s: Server, r: Request, drawn: Option<string>)
    ensures RefusedAsBanned(s, r, drawn) <==> r.deviceId != "" && !r.key.BadKey? && Blocked(s, r.deviceId)
    ensures RefusedAsBanned(s, r, drawn) ==> HandleRegister(s, r, drawn).0 == s
  {
    hide Issue, CreatePeer, DeviceIds.SuggestAlternate, Coalesce, STANDARD;
  }

  /** So rejecting a device with a ban blocks its later registrations exactly when it has a
      row and that is soft-deleted; a pending device that never was a peer has none. */
  lemma BanBlocksIff(s: Server, r: Request, drawn: Option<string>)
    requires r.deviceId != "" && !r.key.BadKey?
    ensures RefusedAsBanned(HandleReject(s, r.deviceId, true).0, r, drawn) <==>
            r.deviceId in s.peers && s.peers[r.deviceId].removed
  {
    RefusedIff(HandleReject(s, r.deviceId, true).0, r, drawn);
  }

  /** A banned device that the server knows is served like any other: a registration that does
      not conflict is approved with a new token, in every mode. */
  lemma KnownBannedServed(mode: Mode, t: string)
    ensures var peers := map["A" := Peer("u", HOST, "", "", "", true, false)];
            var s := Fresh(mode).(peers := peers);
            var (s', a) := HandleRegister(s, Request("A", "u", HOST, NoKey, ""), Some(t));
            && IsBanned(s, "A") && a.code == 200 && a.status == Approved && a.token == t
            && s'.tokens == map[t := Issued("A")]
  {
  }

  /** A pending device that was never a peer registers again after a rejection with ban. */
  lemma PendingBannedReturns(drawn: Option<string>)
    ensures var s := Fresh(Managed).(pending := map["A" := PendingInfo("A", HOST)]);
            var s' := HandleReject(s, "A", true).0;
            HandleRegister(s', Request("A", "u", HOST, NoKey, ""), drawn).1 == Answered(202, Pending, "A", Waiting)
  {
  }

  /** A removed device that is not banned is enrolled again in open mode. */
  lemma RemovedReturns(t: string)
    ensures var peers := map["A" := Peer("u", HOST, "", "", "", false, true)];
            var s := Fresh(OpenMode).(peers := peers);
            var a := HandleRegister(s, Request("A", "v", HOST, NoKey, ""), Some(t)).1;
            a.code == 200 && a.status == Approved && a.token == t
  {
  }

  // A request that could be refused for a ban or a removal: it is well-formed.
  predicate WellFormed(r: Request) {
    r.deviceId != "" && !r.key.BadKey?
  }

  predicate Marked(s: Server, id: string) {
    id in s.peers && (s.peers[id].banned || s.peers[id].removed)
  }

  /** The handler's remark, that banned or soft-deleted devices are refused, is true of a
      server exactly when each of its rows that is one of the two is both. */
  lemma MarkedRefusedIff(s: Server)
    ensures (forall r, drawn :: WellFormed(r) && Marked(s, r.deviceId) ==> RefusedAsBanned(s, r, drawn)) <==>
            (forall id :: id != "" && Marked(s, id) ==> Blocked(s, id))
  {
    hide RefusedAsBanned, Marked, Blocked;
    forall r, drawn
      ensures RefusedAsBanned(s, r, drawn) <==> WellFormed(r) && Blocked(s, r.deviceId)
    {
      RefusedIff(s, r, drawn);
    }
    if forall r, drawn :: WellFormed(r) && Marked(s, r.deviceId) ==> RefusedAsBanned(s, r, drawn) {
      forall id | id != "" && Marked(s, id)
        ensures Blocked(s, id)
      {
        var r := Request(id, "", HOST, NoKey, "");
        assert WellFormed(r) && RefusedAsBanned(s, r, None);
      }
    }
  }

  // ----- bans erased

  /** The server with all bans lifted. */
  function Unbanned(s: Server): Server {
    s.(peers := map id | id in s.peers :: s.peers[id].(banned := false))
  }

  lemma UnbannedUpdate(s: Server, id: string, row: Peer)
    ensures Unbanned(s.(peers := s.peers[id := row])) ==
            Unbanned(s).(peers := Unbanned(s).peers[id := row.(banned := false)])
  {
  }

  lemma UnbannedRow(s: Server, id: string)
    ensures id in Unbanned(s).peers <==> id in s.peers
    ensures id in s.peers ==> Unbanned(s).peers[id] == s.peers[id].(banned := false)
    ensures Known(Unbanned(s), id) <==> Known(s, id)
    ensures BoundKey(Unbanned(s), id) == BoundKey(s, id)
    ensures !IsBanned(Unbanned(s), id)
  {
  }

  lemma UpsertUnbanned(s: Server, id: string, uuid: string, info: Info)
    ensures Unbanned(Upsert(s, id, uuid, info)) == Upsert(Unbanned(s), id, uuid, info)
  {
    hide Unbanned, Coalesce, MergedInfo, Typed;
    UnbannedRow(s, id);
    var row := Upsert(s, id, uuid, info).peers[id];
    UnbannedUpdate(s, id, row);
  }

  lemma CreateUnbanned(s: Server, id: string, uuid: string, info: Info, key: SentKey)
    ensures Unbanned(CreatePeer(s, id, uuid, info, key)) == CreatePeer(Unbanned(s), id, uuid, info, key)
  {
    hide Upsert;
    UpsertUnbanned(s, id, uuid, info);
  }

  lemma IssueUnbanned(s: Server, id: string, drawn: Option<string>)
    ensures Issue(Unbanned(s), id, drawn) == (Unbanned(Issue(s, id, drawn).0), Issue(s, id, drawn).1)
  {
  }

  lemma EnrollUnbanned(s: Server, r: Request, drawn: Option<string>, fallback: string)
    ensures var (s', a) := Enroll(s, r, drawn, fallback); Enroll(Unbanned(s), r, drawn, fallback) == (Unbanned(s'), a)
  {
    hide Unbanned, CreatePeer, Issue, Coalesce;
    CreateUnbanned(s, r.deviceId, r.uuid, r.info, r.key);
    IssueUnbanned(CreatePeer(s, r.deviceId, r.uuid, r.info, r.key), r.deviceId, drawn);
  }

  lemma StoreKeyUnbanned(s: Server, id: string, key: SentKey)
    ensures Unbanned(StoreKey(s, id, key)) == StoreKey(Unbanned(s), id, key)
  {
  }

  lemma ApprovalUnbanned(s: Server, id: string, drawn: Option<string>)
    ensures var (s', a) := Approval(s, id, drawn); Approval(Unbanned(s), id, drawn) == (Unbanned(s'), a)
  {
    hide Unbanned, Issue, Coalesce, Config;
    EntriesUnbanned(s, s);
    IssueUnbanned(s, id, drawn);
  }

  lemma KnownUnbanned(s: Server, r: Request, drawn: Option<string>)
    requires Known(s, r.deviceId)
    ensures var (s', a) := RegisterKnown(s, r, drawn); RegisterKnown(Unbanned(s), r, drawn) == (Unbanned(s'), a)
  {
    hide Unbanned, Approval, StoreKey, BoundKey, DeviceIds.SuggestAlternate;
    UnbannedRow(s, r.deviceId);
    StoreKeyUnbanned(s, r.deviceId, r.key);
    ApprovalUnbanned(s, r.deviceId, drawn);
    ApprovalUnbanned(StoreKey(s, r.deviceId, r.key), r.deviceId, drawn);
  }

  lemma NewUnbanned(s: Server, r: Request, drawn: Option<string>)
    ensures var (s', a) := RegisterNew(s, r, drawn); RegisterNew(Unbanned(s), r, drawn) == (Unbanned(s'), a)
  {
    hide Enroll;
    EnrollUnbanned(s, r, drawn, "");
    if r.token in s.tokens {
      EnrollUnbanned(Bind(s, r.token, r.deviceId), r, drawn, r.token);
    }
  }

  /** A registration that is not blocked does the same without the bans. */
  lemma RegisterUnbanned(s: Server, r: Request, drawn: Option<string>)
    requires !Blocked(s, r.deviceId)
    ensures var (s', a) := HandleRegister(s, r, drawn); HandleRegister(Unbanned(s), r, drawn) == (Unbanned(s'), a)
  {
    hide Unbanned, RegisterKnown, RegisterNew;
    UnbannedRow(s, r.deviceId);
    NewUnbanned(s, r, drawn);
    if Known(s, r.deviceId) {
      KnownUnbanned(s, r, drawn);
    }
  }

  lemma StatusUnbanned(s: Server, id: string, drawn: Option<string>)
    ensures var (s', a) := HandleStatus(s, id, drawn); HandleStatus(Unbanned(s), id, drawn) == (Unbanned(s'), a)
  {
    hide Unbanned, Approval;
    UnbannedRow(s, id);
    EntriesUnbanned(s, s);
    ApprovalUnbanned(s, id, drawn);
  }

  // ----- when a ban tells

  // No registration and no poll is answered differently.
  ghost predicate AnswersAlike(s: Server, s': Server) {
    && (forall r, drawn :: HandleRegister(s, r, drawn).1 == HandleRegister(s', r, drawn).1)
    && (forall id, drawn :: HandleStatus(s, id, drawn).1 == HandleStatus(s', id, drawn).1)
  }

  lemma BanUnbanned(s: Server, id: string)
    ensures Unbanned(Ban(s, id)) == Unbanned(s)
  {
    if id in s.peers {
      UnbannedUpdate(s, id, s.peers[id].(banned := true));
      assert Unbanned(s).peers[id := Unbanned(s).peers[id]] == Unbanned(s).peers;
    }
  }

  /** Servers that differ in bans alone and block the same ids answer alike. */
  lemma BansDoNotTell(s: Server, s': Server)
    requires Unbanned(s) == Unbanned(s') && forall id :: Blocked(s, id) <==> Blocked(s', id)
    ensures AnswersAlike(s, s')
  {
    hide HandleRegister, HandleStatus, Unbanned, Blocked;
    forall r, drawn
      ensures HandleRegister(s, r, drawn).1 == HandleRegister(s', r, drawn).1
    {
      if Blocked(s, r.deviceId) {
        BlockedAnswer(s, r, drawn);
        BlockedAnswer(s', r, drawn);
      } else {
        RegisterUnbanned(s, r, drawn);
        RegisterUnbanned(s', r, drawn);
      }
    }
    forall id, drawn
      ensures HandleStatus(s, id, drawn).1 == HandleStatus(s', id, drawn).1
    {
      StatusUnbanned(s, id, drawn);
      StatusUnbanned(s', id, drawn);
    }
  }

  lemma BlockedAnswer(s: Server, r: Request, drawn: Option<string>)
    requires Blocked(s, r.deviceId)
    ensures HandleRegister(s, r, drawn).0 == s
    ensures HandleRegister(s, r, drawn).1 ==
            if r.deviceId == "" || r.key.BadKey? then Plain(400) else Answered(403, Rejected, r.deviceId, DeviceBanned)
  {
  }

  /** The ban in a rejection makes a difference to some later answer exactly when the id's row
      is soft-deleted and not banned yet. */
  lemma BanTellsIff(s: Server, id: string)
    ensures AnswersAlike(HandleReject(s, id, true).0, HandleReject(s, id, false).0) <==>
            !(id != "" && id in s.peers && s.peers[id].removed && !s.peers[id].banned)
  {
    hide HandleRegister, HandleStatus;
    var a, b := HandleReject(s, id, true).0, HandleReject(s, id, false).0;
    if id != "" && id in s.peers && s.peers[id].removed && !s.peers[id].banned {
      var r := Request(id, "", HOST, NoKey, "");
      RefusedIff(a, r, None);
      RefusedIff(b, r, None);
      assert HandleRegister(a, r, None).1 != HandleRegister(b, r, None).1;
    } else {
      BanUnbanned(b, id);
      BansDoNotTell(a, b);
    }
  }

  // ----- whole runs

  function Erased(w: World): World {
    w.(server := Unbanned(w.server))
  }

  function ErasedStep(step: Step): Step {
    if step.Reject? then Reject(step.id, false) else step
  }

  predicate NoneRemoved(s: Server) {
    forall id :: id in s.peers ==> !s.peers[id].removed
  }

  lemma FieldsUnbanned(s: Server, id: string, note: string, tags: string)
    ensures WithFields(Unbanned(s), id, note, tags) == Unbanned(WithFields(s, id, note, tags))
  {
    hide Coalesce;
    if Known(s, id) {
      UnbannedUpdate(s, id, WithFields(s, id, note, tags).peers[id]);
    }
  }

  lemma ApproveUnbanned(s: Server, id: string, choice: Option<Choice>)
    requires id in s.pending ==> s.pending[id].deviceId == id
    ensures HandleApprove(Unbanned(s), id, choice).0 == Unbanned(HandleApprove(s, id, choice).0)
  {
    hide CreatePeer, ValidChoice, SyncModeOf, TagsOf, Unbanned, WithFields;
    EntriesUnbanned(s, s);
    if id in s.pending && choice.Some? {
      var info := s.pending[id].info;
      var s0 := CreatePeer(s, id, "", info, NoKey);
      var s1 := WithSettings(s0, id, choice.value);
      var s2 := WithFields(s1, id, choice.value.displayName, TagsOf(choice.value));
      CreateUnbanned(s, id, "", info, NoKey);
      EntriesUnbanned(s0, s1);
      FieldsUnbanned(s1, id, choice.value.displayName, TagsOf(choice.value));
      EntriesUnbanned(s2, s2.(pending := s2.pending - {id}));
    }
  }

  /** Entries other than rows are as they are. */
  lemma EntriesUnbanned(s: Server, s': Server)
    requires s'.peers == s.peers
    ensures Unbanned(s') == s'.(peers := Unbanned(s).peers) && Unbanned(s) == s.(peers := Unbanned(s).peers)
  {
  }

  lemma RejectUnbanned(s: Server, id: string, ban: bool)
    ensures HandleReject(Unbanned(s), id, false).0 == Unbanned(HandleReject(s, id, ban).0)
  {
    BanUnbanned(s.(pending := s.pending - {id}, rejected := s.rejected + {id}), id);
  }

  lemma StepErased(w: World, step: Step)
    requires Enabled(w, step) && !step.Remove? && NoneRemoved(w.server)
    requires forall id :: id in w.server.pending ==> w.server.pending[id].deviceId == id
    ensures Enabled(Erased(w), ErasedStep(step)) && Next(Erased(w), ErasedStep(step)) == Erased(Next(w, step))
  {
    hide HandleRegister, HandleStatus, HandleApprove, HandleReject, Unbanned, Received, IsToken;
    match step {
      case Handle(ask, drawn) =>
        RegisterUnbanned(w.server, ask.request, drawn);
        StatusUnbanned(w.server, ask.request.deviceId, drawn);
      case Approve(id, choice) =>
        ApproveUnbanned(w.server, id, choice);
      case Reject(id, ban) =>
        RejectUnbanned(w.server, id, ban);
      case SetMode(mode) =>
        EntriesUnbanned(w.server, HandleSetMode(w.server, mode).0);
      case _ =>
    }
  }

  // ----- rows keep their flags

  // Rows stay, bans stay, and a row is soft-deleted afterwards exactly when it was before.
  ghost predicate KeepsFlags(s: Server, s': Server) {
    && (forall id :: id in s.peers ==> id in s'.peers && (s.peers[id].banned ==> s'.peers[id].banned))
    && (forall id :: id in s'.peers ==> (s'.peers[id].removed <==> id in s.peers && s.peers[id].removed))
  }

  lemma ApproveKeepsFlags(s: Server, id: string, choice: Option<Choice>)
    ensures KeepsFlags(s, HandleApprove(s, id, choice).0)
  {
    hide HandleApprove, ValidChoice, SyncModeOf, TagsOf, Typed, MergedInfo;
    if id != "" && choice.Some? && ValidChoice(choice.value) && id in s.pending {
      ApproveFrame(s, id, choice.value);
    } else {
      ApproveRefused(s, id, choice);
    }
  }

  // ----- a revoked device

  // The tokens stored for an id, all of them stored before.
  ghost predicate NoNewTokens(s: Server, s': Server, id: string) {
    forall t :: t in s'.tokens && s'.tokens[t].owner == id ==> t in s.tokens && s.tokens[t].owner == id
  }

  lemma OthersOnly(id': string, s: Server, s': Server, id: string)
    requires Only(id', s, s') && id' != id && id in s.peers
    ensures NoNewTokens(s, s', id) && KeepsMarks(s, s', id) && s'.mode == s.mode
  {
  }

  lemma ServeBlocked(s: Server, c: Call, id: string)
    requires Blocked(s, id) && !(Deletes(c, id) && c.hard)
    ensures Blocked(Serve(s, c), id) && NoNewTokens(s, Serve(s, c), id)
  {
    hide HandleRegister, HandleStatus, HandleApprove, HandleReject, HandleDelete, Only;
    match c {
      case RegisterCall(r, drawn) =>
        RegisterOnly(s, r, drawn);
        if r.deviceId == id {
          BlockedAnswer(s, r, drawn);
        } else {
          OthersOnly(r.deviceId, s, Serve(s, c), id);
        }
      case StatusCall(id', drawn) =>
        StatusOnly(s, id', drawn);
        if id' == id {
          RemovedNotServed(s, id, drawn);
        } else {
          OthersOnly(id', s, Serve(s, c), id);
        }
      case ApproveCall(id', choice) =>
        ApproveTokens(s, id', choice);
        ApproveKeepsFlags(s, id', choice);
      case RejectCall(id', ban) =>
        RejectKeepsFlags(s, id', ban, id);
      case DeleteCall(id', linked, hard, revoke) =>
        DeleteKeepsFlags(s, id', linked, hard, revoke, id);
        DeleteUses(s, id', linked, hard, revoke);
      case ModeCall(mode) =>
    }
  }

  // The row stays, and its marks are not taken back.
  ghost predicate KeepsMarks(s: Server, s': Server, id: string) {
    id in s.peers ==>
      && id in s'.peers && (s.peers[id].removed ==> s'.peers[id].removed)
      && (s.peers[id].banned ==> s'.peers[id].banned)
  }

  lemma RejectKeepsFlags(s: Server, id': string, ban: bool, id: string)
    ensures var s' := HandleReject(s, id', ban).0;
            KeepsMarks(s, s', id) && s'.tokens == s.tokens && s'.mode == s.mode
  {
  }

  lemma OneKeepsFlags(s: Server, id': string, hard: bool, revoke: bool, id: string)
    requires !(hard && id' == id)
    ensures KeepsMarks(s, DeleteOne(s, id', hard, revoke), id)
  {
  }

  lemma {:induction false} DeleteKeepsFlags(
    s: Server, id': string, linked: seq<string>, hard: bool, revoke: bool, id: string)
    requires !(hard && (id' == id || id in linked))
    ensures KeepsMarks(s, HandleDelete(s, id', linked, hard, revoke), id)
  {
    hide DeleteOne;
    if linked == [] {
      OneKeepsFlags(s, id', hard, revoke, id);
    } else {
      var n := |linked| - 1;
      DeleteKeepsFlags(s, id', linked[..n], hard, revoke, id);
      OneKeepsFlags(HandleDelete(s, id', linked[..n], hard, revoke), linked[n], hard, revoke, id);
    }
  }

  /** A device whose row is banned and soft-deleted, as revoking it leaves it, never gets in
      again unless the row is deleted for good: whatever handler is called by whom, in whatever
      mode, its registrations are refused as banned and no token is issued for it any more, an
      approval by the operator included. */
  lemma {:induction false} RevokedForGood(s: Server, cs: seq<Call>, id: string)
    requires Blocked(s, id) && forall c :: c in cs ==> !(Deletes(c, id) && c.hard)
    ensures var s' := ServeAll(s, cs);
            && Blocked(s', id) && NoNewTokens(s, s', id)
            && forall r: Request, drawn ::
                 id != "" && r.deviceId == id && !r.key.BadKey? ==> RefusedAsBanned(s', r, drawn)
  {
    hide Blocked, RefusedAsBanned;
    if cs != [] {
      var n := |cs| - 1;
      RevokedForGood(s, cs[..n], id);
      ServeBlocked(ServeAll(s, cs[..n]), cs[n], id);
    }
    forall r: Request, drawn | id != "" && r.deviceId == id && !r.key.BadKey?
      ensures RefusedAsBanned(ServeAll(s, cs), r, drawn)
    {
      RefusedIff(ServeAll(s, cs), r, drawn);
    }
  }

  // ----- a removed device in managed mode

  predicate Removed(s: Server, id: string) {
    id in s.peers && s.peers[id].removed
  }

  lemma ManagedNotServed(s: Server, r: Request, drawn: Option<string>)
    requires s.mode in {Managed, OtherMode} && Removed(s, r.deviceId)
    ensures var s' := HandleRegister(s, r, drawn).0; s'.tokens == s.tokens && s'.peers == s.peers && s'.mode == s.mode
  {
  }

  lemma RemovedNotServed(s: Server, id: string, drawn: Option<string>)
    requires Removed(s, id)
    ensures HandleStatus(s, id, drawn).0 == s
  {
  }

  // A call that neither leaves managed mode nor deletes the device for good.
  predicate StaysManaged(c: Call, id: string) {
    !(Deletes(c, id) && c.hard) && (c.ModeCall? ==> c.mode in {Managed, OtherMode})
  }

  lemma ServeRemoved(s: Server, c: Call, id: string)
    requires s.mode in {Managed, OtherMode} && Removed(s, id) && StaysManaged(c, id)
    ensures Serve(s, c).mode in {Managed, OtherMode}
    ensures Removed(Serve(s, c), id) && NoNewTokens(s, Serve(s, c), id)
  {
    hide HandleRegister, HandleStatus, HandleApprove, HandleReject, HandleDelete, Only;
    match c {
      case RegisterCall(r, drawn) =>
        RegisterOnly(s, r, drawn);
        if r.deviceId == id {
          ManagedNotServed(s, r, drawn);
        } else {
          OthersOnly(r.deviceId, s, Serve(s, c), id);
        }
      case StatusCall(id', drawn) =>
        StatusOnly(s, id', drawn);
        if id' == id {
          RemovedNotServed(s, id, drawn);
        } else {
          OthersOnly(id', s, Serve(s, c), id);
        }
      case ApproveCall(id', choice) =>
        ApproveTokens(s, id', choice);
        ApproveKeepsFlags(s, id', choice);
      case RejectCall(id', ban) =>
        RejectKeepsFlags(s, id', ban, id);
      case DeleteCall(id', linked, hard, revoke) =>
        DeleteKeepsFlags(s, id', linked, hard, revoke, id);
        DeleteUses(s, id', linked, hard, revoke);
      case ModeCall(mode) =>
    }
  }

  /** In managed mode a removed device stays out, banned or not: whatever handler is called by
      whom, approvals included, it is never known again and no token is issued for it. */
  lemma {:induction false} RemovedStaysOut(s: Server, cs: seq<Call>, id: string)
    requires s.mode in {Managed, OtherMode} && Removed(s, id)
    requires forall c :: c in cs ==> StaysManaged(c, id)
    ensures var s' := ServeAll(s, cs);
            && s'.mode in {Managed, OtherMode} && Removed(s', id) && !Known(s', id) && NoNewTokens(s, s', id)
  {
    hide Serve;
    if cs != [] {
      var n := |cs| - 1;
      RemovedStaysOut(s, cs[..n], id);
      ServeRemoved(ServeAll(s, cs[..n]), cs[n], id);
    }
  }

  // ----- bans in runs without removals

  ghost predicate ErasedRun(run: seq<World>, run': seq<World>, steps: seq<Step>, steps': seq<Step>) {
    && |run'| == |run| && |steps'| == |steps|
    && (forall i :: 0 <= i < |run| ==> run'[i] == Erased(run[i]))
    && (forall i :: 0 <= i < |steps| ==> steps'[i] == ErasedStep(steps[i]))
  }

  lemma StepKeepsRows(w: World, step: Step)
    requires Enabled(w, step) && !step.Remove? && NoneRemoved(w.server)
    ensures NoneRemoved(Next(w, step).server)
  {
    hide HandleRegister, HandleStatus, HandleApprove, Received, IsToken;
    match step {
      case Handle(ask, drawn) =>
        RegisterOnly(w.server, ask.request, drawn);
        StatusOnly(w.server, ask.request.deviceId, drawn);
      case Approve(id, choice) =>
        ApproveKeepsFlags(w.server, id, choice);
      case _ =>
    }
  }

  lemma {:induction false} NeverRemoved(run: seq<World>, steps: seq<Step>, i: nat)
    requires IsRun(run, steps) && i < |run| && forall step :: step in steps ==> !step.Remove?
    ensures NoneRemoved(run[i].server)
  {
    if i > 0 {
      NeverRemoved(run, steps, i - 1);
      assert Enabled(run[i - 1], steps[i - 1]) && run[i] == Next(run[i - 1], steps[i - 1]);
      assert steps[i - 1] in steps;
      StepKeepsRows(run[i - 1], steps[i - 1]);
    }
  }

  lemma PendingNamed(run: seq<World>, steps: seq<Step>, i: nat)
    requires IsRun(run, steps) && i < |run|
    ensures forall id :: id in run[i].server.pending ==> run[i].server.pending[id].deviceId == id
  {
    WithinAny(run, steps);
    AlwaysSafe(AnyModes(run[0].server.mode), run, steps, i);
    SafeServer(AnyModes(run[0].server.mode), run[i]);
  }

  /** In a run in which no device is removed bans make no difference at all: without them it is
      a run too, with the same agents, the same messages, and the same server but for the ban
      marks. */
  lemma BansChangeNothing(run: seq<World>, steps: seq<Step>, run': seq<World>, steps': seq<Step>)
    requires IsRun(run, steps) && forall step :: step in steps ==> !step.Remove?
    requires ErasedRun(run, run', steps, steps')
    ensures IsRun(run', steps')
  {
    hide Next, Enabled, NoneRemoved, Unbanned;
    forall i | 0 <= i < |steps'|
      ensures Enabled(run'[i], steps'[i]) && run'[i + 1] == Next(run'[i], steps'[i])
    {
      assert steps[i] in steps;
      PendingNamed(run, steps, i);
      NeverRemoved(run, steps, i);
      StepErased(run[i], steps[i]);
    }
    InitialErased(run[0]);
  }

  lemma InitialErased(w: World)
    requires Initial(w)
    ensures Initial(Erased(w))
  {
  }
}
