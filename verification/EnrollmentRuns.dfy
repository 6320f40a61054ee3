/**
 Runs of the enrollment protocol: many agents, one server, an operator, and a network
 that delivers requests and answers late, in any order, several times, or never. The
 operator approves, rejects, bans and removes devices and changes the mode.
 */
module EnrollmentRuns {
  import opened Text
  import opened Options
  import DeviceIds
  import opened EnrollmentService
  import opened EnrollmentFrames
  import opened Enrollment

  datatype Kind = Registration | StatusPoll

  datatype Message =
    | Ask(from: nat, kind: Kind, request: Request)
    | Answer(to: nat, kind: Kind, asked: string, response: Response)

  datatype World = World(server: Server, agents: map<nat, Agent>, net: set<Message>)

  datatype Step =
    | Send(n: nat, kind: Kind)
    | Handle(ask: Message, drawn: Option<string>)
    | Deliver(answer: Message)
    | Approve(id: string, choice: Option<Choice>)
    | Reject(id: string, ban: bool)
    | Remove(id: string, revoke: bool)
    | SetMode(mode: Mode)
    | ResetState(n: nat)

  predicate IsHex(c: char) { '0' <= c <= '9' || 'a' <= c <= 'f' }

  /** Drawn tokens are 32 hexadecimal digits. */
  predicate IsToken(t: string) {
    |t| == 32 && forall i :: 0 <= i < |t| ==> IsHex(t[i])
  }

  predicate Enabled(w: World, step: Step) {
    match step
    case Send(n, _) => n in w.agents
    case Handle(ask, drawn) => ask in w.net && ask.Ask? && (drawn.Some? ==> IsToken(drawn.value))
    case Deliver(answer) => answer in w.net && answer.Answer? && answer.to in w.agents
    case ResetState(n) => n in w.agents
    case _ => true
  }

  function Handled(s: Server, ask: Message, drawn: Option<string>): (Server, Response)
    requires ask.Ask?
  {
    match ask.kind
    case Registration => HandleRegister(s, ask.request, drawn)
    case StatusPoll => HandleStatus(s, ask.request.deviceId, drawn)
  }

  function Received(a: Agent, m: Message): Agent
    requires m.Answer?
  {
    match m.kind
    case Registration => OnRegister(a, m.asked, m.response).0
    case StatusPoll => OnStatus(a, m.asked, m.response).0
  }

  function Next(w: World, step: Step): World
    requires Enabled(w, step)
  {
    match step
    case Send(n, kind) => w.(net := w.net + {Ask(n, kind, Asking(w.agents[n]))})
    case Handle(ask, drawn) =>
      var (s, r) := Handled(w.server, ask, drawn);
      w.(server := s, net := w.net + {Answer(ask.from, ask.kind, ask.request.deviceId, r)})
    case Deliver(m) => w.(agents := w.agents[m.to := Received(w.agents[m.to], m)])
    case Approve(id, choice) => w.(server := HandleApprove(w.server, id, choice).0)
    case Reject(id, ban) => w.(server := HandleReject(w.server, id, ban).0)
    case Remove(id, revoke) => w.(server := HandleRemove(w.server, id, revoke))
    case SetMode(mode) => w.(server := HandleSetMode(w.server, mode).0)
    case ResetState(n) => w.(agents := w.agents[n := Reset(w.agents[n])])
  }

  predicate Initial(w: World) {
    && w.server.peers == map[] && w.server.pending == map[] && w.server.tokens == map[] && w.net == {}
    && forall n :: n in w.agents ==> w.agents[n].token == "" && w.agents[n].status == NoStatus
  }

  /** `run[0]` is initial and each world leads to the next by the step beside it. */
  ghost predicate IsRun(run: seq<World>, steps: seq<Step>) {
    && |run| == |steps| + 1 && Initial(run[0])
    && forall i :: 0 <= i < |steps| ==> Enabled(run[i], steps[i]) && run[i + 1] == Next(run[i], steps[i])
  }

  function Latest(run: seq<World>): World
    requires run != []
  {
    run[|run| - 1]
  }

  // ----- which modes a run goes through

  // The mode at the start and the modes the operator may set.
  datatype Modes = Modes(first: Mode, later: set<Mode>)

  function All(ms: Modes): set<Mode> {
    {ms.first} + ms.later
  }

  ghost predicate Within(ms: Modes, run: seq<World>, steps: seq<Step>) {
    && run != [] && run[0].server.mode == ms.first
    && forall step :: step in steps && step.SetMode? ==> step.mode in ms.later
  }

  /** Open mode never comes after managed mode. */
  predicate NotReopened(ms: Modes) {
    !(OpenMode in ms.later && Managed in All(ms))
  }

  /** Open and managed mode do not occur together. */
  predicate NotMixed(ms: Modes) {
    !(OpenMode in All(ms) && Managed in All(ms))
  }

  // ----- the invariant

  ghost predicate TokensSane(s: Server) {
    forall t :: t in s.tokens ==> IsToken(t) && s.tokens[t].owner in s.peers
  }

  ghost predicate ServerSane(ms: Modes, s: Server) {
    && s.mode in All(ms) && TokensSane(s)
    && (forall id :: id in s.pending ==> s.pending[id].deviceId == id)
    && (OpenMode !in All(ms) ==> forall id :: id in s.peers ==> s.peers[id].uuid == "")
    && (Managed !in All(ms) ==> s.pending == map[])
    && (NotReopened(ms) ==> PendingApart(s) && (s.mode == OpenMode ==> s.pending == map[]))
  }

  /** No pending id is known as a peer. */
  ghost predicate PendingApart(s: Server) {
    forall id :: id in s.pending ==> !Known(s, id)
  }

  /** An agent's token is stored, and an approved agent has one. */
  ghost predicate Holds(s: Server, a: Agent) {
    (a.token != "" ==> a.token in s.tokens) && (a.status == Approved ==> a.token != "")
  }

  /** An agent's token is bound to its device id. */
  ghost predicate Bound(s: Server, a: Agent) {
    a.token != "" ==> a.token in s.tokens && s.tokens[a.token].owner == a.deviceId
  }

  ghost predicate AgentSane(s: Server, a: Agent) {
    Holds(s, a) && Bound(s, a)
  }

  // What holds of an answer to a question about `asked` in every mode.
  ghost predicate Fits(s: Server, asked: string, r: Response) {
    && (r.token != "" ==> r.status == Approved && r.token in s.tokens && s.tokens[r.token].owner == r.deviceId)
    && (r.deviceId == "" ==> r.status == NoStatus)
    && (r.deviceId != "" ==> r.deviceId == asked)
    && (r.status in {Rejected, Unknown} ==> r.code != 200 && r.code != 202)
  }

  // What the modes of the run decide of an answer.
  ghost predicate ModesAllow(ms: Modes, r: Response) {
    (r.status == Pending ==> Managed in All(ms)) && (r.code == 409 ==> OpenMode in All(ms))
  }

  // Without open mode every message of an agent is about its one device id.
  ghost predicate SameId(w: World, m: Message) {
    match m
    case Ask(n, _, request) => n in w.agents && request.deviceId == w.agents[n].deviceId
    case Answer(n, _, asked, _) => n in w.agents && asked == w.agents[n].deviceId
  }

  ghost predicate MessageSane(ms: Modes, w: World, m: Message) {
    && (m.Answer? ==> Fits(w.server, m.asked, m.response) && ModesAllow(ms, m.response))
    && (m.Ask? ==> m.request.token == "" && m.request.key == NoKey)
    && (OpenMode !in All(ms) ==> SameId(w, m))
  }

  // No token is held by, or on the way to, two agents.
  ghost predicate Exclusive(w: World) {
    && (forall m, n :: m in w.agents && n in w.agents && m != n && w.agents[m].token != "" ==>
          w.agents[m].token != w.agents[n].token)
    && (forall m, n :: m in w.net && m.Answer? && n in w.agents && m.to != n && m.response.token != "" ==>
          m.response.token != w.agents[n].token)
    && (forall m, n :: m in w.net && m.Answer? && n in w.net && n.Answer? && m.to != n.to && m.response.token != "" ==>
          m.response.token != n.response.token)
  }

  ghost predicate Safe(ms: Modes, w: World) {
    && ServerSane(ms, w.server)
    && (forall n :: n in w.agents ==> Holds(w.server, w.agents[n]))
    && (NotMixed(ms) ==> forall n :: n in w.agents ==> Bound(w.server, w.agents[n]))
    && (forall m :: m in w.net ==> MessageSane(ms, w, m))
    && Exclusive(w)
  }

  // ----- the server's steps

  // Rows and tokens are only added.
  ghost predicate Grows(s: Server, s': Server) {
    && s.peers.Keys <= s'.peers.Keys
    && (forall t :: t in s.tokens ==> t in s'.tokens && s'.tokens[t] == s.tokens[t])
  }

  lemma IssueSane(s: Server, id: string, drawn: Option<string>)
    requires TokensSane(s) && id in s.peers
    requires drawn.Some? ==> IsToken(drawn.value)
    ensures var (s', t) := Issue(s, id, drawn);
            && TokensSane(s') && Grows(s, s') && s'.peers == s.peers
            && (t != "" ==> IsToken(t) && t !in s.tokens && t in s'.tokens && s'.tokens[t].owner == id)
  {
  }

  // A handler's result in every mode: sane tokens, and an answer to `asked` that fits.
  ghost predicate GoodAnswer(s: Server, s': Server, asked: string, r: Response) {
    && TokensSane(s') && Grows(s, s')
    && Fits(s', asked, r)
    && (r.token != "" ==> r.token !in s.tokens)
  }

  lemma ApprovalSane(s: Server, id: string, drawn: Option<string>)
    requires TokensSane(s) && id in s.peers && id != ""
    requires drawn.Some? ==> IsToken(drawn.value)
    ensures var (s', r) := Approval(s, id, drawn); GoodAnswer(s, s', id, r)
  {
    hide IsToken, Issue;
    IssueSane(s, id, drawn);
  }

  lemma RegisterSane(s: Server, req: Request, drawn: Option<string>)
    requires TokensSane(s) && req.token == ""
    requires drawn.Some? ==> IsToken(drawn.value)
    ensures var (s', r) := HandleRegister(s, req, drawn); GoodAnswer(s, s', req.deviceId, r)
  {
    hide IsToken, RegisterKnown, Enroll;
    var id := req.deviceId;
    if id == "" || req.key.BadKey? {
    } else if Known(s, id) {
      KnownSane(s, req, drawn);
    } else if s.mode == OpenMode && !IsBanned(s, id) {
      EnrollSane(s, req, drawn);
    }
  }

  lemma StoreKeySane(s: Server, id: string, key: SentKey)
    requires TokensSane(s)
    ensures var s' := StoreKey(s, id, key);
            && TokensSane(s') && Grows(s, s') && s'.peers == s.peers && s'.tokens == s.tokens
  {
    hide IsToken;
  }

  lemma KnownSane(s: Server, req: Request, drawn: Option<string>)
    requires TokensSane(s) && Known(s, req.deviceId) && req.deviceId != ""
    requires drawn.Some? ==> IsToken(drawn.value)
    ensures var (s', r) := RegisterKnown(s, req, drawn); GoodAnswer(s, s', req.deviceId, r)
  {
    hide IsToken, Issue, StoreKey, BoundKey, Approval, DeviceIds.SuggestAlternate;
    if !Conflicts(s, req.deviceId, req.uuid) && KeyFits(s, req.deviceId, req.key) {
      var s1 := if BoundKey(s, req.deviceId) == "" then StoreKey(s, req.deviceId, req.key) else s;
      StoreKeySane(s, req.deviceId, req.key);
      ApprovalSane(s1, req.deviceId, drawn);
    }
  }

  lemma CreatePeerSane(s: Server, req: Request)
    requires TokensSane(s)
    ensures var s' := CreatePeer(s, req.deviceId, req.uuid, req.info, req.key);
            && TokensSane(s') && Grows(s, s') && s'.tokens == s.tokens && req.deviceId in s'.peers
  {
    hide IsToken, MergedInfo, Typed;
  }

  lemma EnrollSane(s: Server, req: Request, drawn: Option<string>)
    requires TokensSane(s) && req.deviceId != ""
    requires drawn.Some? ==> IsToken(drawn.value)
    ensures var (s', r) := Enroll(s, req, drawn, ""); GoodAnswer(s, s', req.deviceId, r)
  {
    hide IsToken, Issue, CreatePeer, TokensSane;
    CreatePeerSane(s, req);
    IssueSane(CreatePeer(s, req.deviceId, req.uuid, req.info, req.key), req.deviceId, drawn);
  }

  lemma StatusSane(s: Server, id: string, drawn: Option<string>)
    requires TokensSane(s)
    requires drawn.Some? ==> IsToken(drawn.value)
    ensures var (s', r) := HandleStatus(s, id, drawn); GoodAnswer(s, s', id, r)
  {
    hide IsToken;
    if id != "" && Known(s, id) {
      ApprovalSane(s, id, drawn);
    }
  }

  lemma HandledSane(s: Server, ask: Message, drawn: Option<string>)
    requires TokensSane(s) && ask.Ask? && ask.request.token == ""
    requires drawn.Some? ==> IsToken(drawn.value)
    ensures var (s', r) := Handled(s, ask, drawn); GoodAnswer(s, s', ask.request.deviceId, r)
  {
    hide GoodAnswer;
    match ask.kind {
      case Registration => RegisterSane(s, ask.request, drawn);
      case StatusPoll => StatusSane(s, ask.request.deviceId, drawn);
    }
  }

  lemma IssueKeepsRows(s: Server, id: string, drawn: Option<string>)
    ensures Issue(s, id, drawn).0 == s.(tokens := Issue(s, id, drawn).0.tokens)
  {
  }

  // Everything but tokens and keys is as it was.
  predicate SameRows(s: Server, s': Server) {
    s'.mode == s.mode && s'.peers == s.peers && s'.pending == s.pending
  }

  lemma KnownSameRows(s: Server, r: Request, drawn: Option<string>)
    ensures SameRows(s, RegisterKnown(s, r, drawn).0)
    ensures RegisterKnown(s, r, drawn).1.status != Pending
    ensures RegisterKnown(s, r, drawn).1.code == 409 ==> Conflicts(s, r.deviceId, r.uuid)
  {
    hide DeviceIds.SuggestAlternate, STANDARD, Issue, BoundKey, Conflicts;
    IssueKeepsRows(s, r.deviceId, drawn);
    IssueKeepsRows(StoreKey(s, r.deviceId, r.key), r.deviceId, drawn);
  }

  lemma StatusSameRows(s: Server, id: string, drawn: Option<string>)
    ensures SameRows(s, HandleStatus(s, id, drawn).0)
    ensures HandleStatus(s, id, drawn).1.status == Pending ==> id in s.pending
    ensures HandleStatus(s, id, drawn).1.code != 409
  {
    hide STANDARD, Issue;
    IssueKeepsRows(s, id, drawn);
  }

  lemma OpenEnrollRows(s: Server, r: Request, drawn: Option<string>)
    ensures var (s', a) := Enroll(s, r, drawn, "");
            && s'.mode == s.mode && s'.pending == s.pending && a.status == Approved && a.code == 200
  {
    hide Issue;
    IssueKeepsRows(CreatePeer(s, r.deviceId, r.uuid, r.info, r.key), r.deviceId, drawn);
  }

  lemma SameRowsSane(ms: Modes, s: Server, s': Server)
    requires ServerSane(ms, s) && SameRows(s, s') && TokensSane(s')
    ensures ServerSane(ms, s')
  {
    hide TokensSane;
  }

  lemma OpenSane(ms: Modes, s: Server, s': Server)
    requires ServerSane(ms, s) && s.mode == OpenMode && TokensSane(s')
    requires s'.mode == s.mode && s'.pending == s.pending
    ensures ServerSane(ms, s')
  {
    hide TokensSane;
  }

  lemma PendSane(ms: Modes, s: Server, info: PendingInfo)
    requires ServerSane(ms, s) && s.mode == Managed && !Known(s, info.deviceId)
    ensures ServerSane(ms, s.(pending := s.pending[info.deviceId := info]))
  {
    hide TokensSane;
    assert TokensSane(s.(pending := s.pending[info.deviceId := info])) by {
      TokensStay(s, s.(pending := s.pending[info.deviceId := info]));
    }
  }

  lemma TokensStay(s: Server, s': Server)
    requires TokensSane(s) && s'.tokens == s.tokens && s'.peers == s.peers
    ensures TokensSane(s')
  {
  }

  lemma SaneMeans(ms: Modes, s: Server)
    requires ServerSane(ms, s)
    ensures s.mode in All(ms) && (forall id :: id in s.pending ==> Managed in All(ms))
    ensures forall id, uuid :: Conflicts(s, id, uuid) ==> OpenMode in All(ms)
  {
  }

  /** The modes of the run decide what a handler does to rows and pending devices. */
  lemma HandledModes(ms: Modes, s: Server, ask: Message, drawn: Option<string>)
    requires ServerSane(ms, s) && ask.Ask? && ask.request.token == ""
    requires TokensSane(Handled(s, ask, drawn).0)
    ensures var (s', r) := Handled(s, ask, drawn); ServerSane(ms, s') && ModesAllow(ms, r)
  {
    hide ServerSane, TokensSane, RegisterKnown, Enroll, HandleStatus, Conflicts;
    var r := ask.request;
    var s' := Handled(s, ask, drawn).0;
    SaneMeans(ms, s);
    if ask.kind == StatusPoll {
      StatusSameRows(s, r.deviceId, drawn);
      SameRowsSane(ms, s, s');
    } else if r.deviceId != "" && !r.key.BadKey? && Known(s, r.deviceId) {
      KnownSameRows(s, r, drawn);
      SameRowsSane(ms, s, s');
    } else if s.mode == OpenMode {
      OpenEnrollRows(s, r, drawn);
      OpenSane(ms, s, s');
    } else if s.mode == Managed && s' != s {
      PendSane(ms, s, PendingInfo(r.deviceId, r.info.(deviceType := "")));
    }
  }

  // Rows with the same uuid, ban and removal.
  predicate SameRow(p: Peer, q: Peer) {
    q.uuid == p.uuid && q.banned == p.banned && q.removed == p.removed
  }

  // The row of `id` may be new; apart from that only host names, notes and tags differ.
  ghost predicate RowsStay(s: Server, s': Server, id: string) {
    && s'.mode == s.mode && s'.tokens == s.tokens && s'.peers.Keys == s.peers.Keys + {id}
    && (forall k :: k in s.peers ==> SameRow(s.peers[k], s'.peers[k]))
    && (id !in s.peers ==> s'.peers[id].uuid == "" && !s'.peers[id].removed)
  }

  lemma CreateStays(s: Server, id: string, info: Info)
    ensures var s' := CreatePeer(s, id, "", info, NoKey); RowsStay(s, s', id) && s'.pending == s.pending
  {
    hide MergedInfo, Typed;
  }

  /** What an approval does to the rows and the pending list. */
  lemma ApproveGives(s: Server, id: string, choice: Option<Choice>)
    requires id in s.pending ==> s.pending[id].deviceId == id
    ensures var s' := HandleApprove(s, id, choice).0;
            if id != "" && choice.Some? && ValidChoice(choice.value) && id in s.pending
            then RowsStay(s, s', id) && s'.pending == s.pending - {id}
            else s' == s
  {
    hide HandleApprove, ValidChoice, SyncModeOf, TagsOf, CreatePeer;
    if id != "" && choice.Some? && ValidChoice(choice.value) && id in s.pending {
      CreateStays(s, id, s.pending[id].info);
      ApproveFrame(s, id, choice.value);
    } else {
      ApproveRefused(s, id, choice);
    }
  }

  lemma ApproveSane(ms: Modes, s: Server, id: string, choice: Option<Choice>)
    requires ServerSane(ms, s)
    ensures var s' := HandleApprove(s, id, choice).0; ServerSane(ms, s') && Grows(s, s')
  {
    hide IsToken, HandleApprove, ValidChoice;
    ApproveGives(s, id, choice);
  }

  lemma RejectSane(ms: Modes, s: Server, id: string, ban: bool)
    requires ServerSane(ms, s)
    ensures var s' := HandleReject(s, id, ban).0; ServerSane(ms, s') && Grows(s, s')
  {
    hide IsToken;
  }

  lemma RemoveSane(ms: Modes, s: Server, id: string, revoke: bool)
    requires ServerSane(ms, s)
    ensures var s' := HandleRemove(s, id, revoke); ServerSane(ms, s') && Grows(s, s')
  {
    hide IsToken;
  }

  lemma SetModeSane(ms: Modes, s: Server, mode: Mode)
    requires ServerSane(ms, s) && mode in ms.later
    ensures var s' := HandleSetMode(s, mode).0; ServerSane(ms, s') && Grows(s, s')
  {
    hide IsToken;
  }

  /** Growth of the server keeps what is known of agents and answers. */
  lemma GrowthKeeps(ms: Modes, s: Server, s': Server, w: World)
    requires Grows(s, s') && w.server == s && Safe(ms, w)
    ensures forall n :: n in w.agents ==> Holds(s', w.agents[n]) && (NotMixed(ms) ==> Bound(s', w.agents[n]))
    ensures forall m :: m in w.net ==> MessageSane(ms, w.(server := s'), m)
  {
    forall m | m in w.net
      ensures MessageSane(ms, w.(server := s'), m)
    {
      assert MessageSane(ms, w, m);
    }
  }

  // ----- the agent's steps

  lemma TokenTrimmed(t: string)
    requires t == "" || IsToken(t)
    ensures TrimSpace(t) == t
  {
    TrimSpaceTrims(t);
  }

  /** What a received answer does to an agent: its token is its old one, none, or the answer's;
      it is bound to its device id if it was, unless the answer makes another id pending. */
  lemma ReceivedSane(s: Server, a: Agent, m: Message)
    requires TokensSane(s) && Holds(s, a) && m.Answer? && Fits(s, m.asked, m.response)
    ensures var a' := Received(a, m);
            && Holds(s, a')
            && (a'.token == a.token || a'.token == "" || a'.token == m.response.token)
            && (Bound(s, a) && (m.response.status == Pending ==> m.asked == a.deviceId) ==> Bound(s, a'))
            && (m.response.code != 409 && m.asked == a.deviceId ==> a'.deviceId == a.deviceId)
            && (m.response.status != Pending && a.status != Pending ==> a'.status != Pending)
            && a'.uuid == a.uuid
  {
    hide TrimSpace;
    TokenTrimmed(m.response.token);
  }

  // ----- every step keeps the invariant

  lemma HandleKeeps(ms: Modes, w: World, ask: Message, drawn: Option<string>)
    requires Safe(ms, w) && Enabled(w, Handle(ask, drawn))
    ensures Safe(ms, Next(w, Handle(ask, drawn)))
  {
    var (s', r) := Handled(w.server, ask, drawn);
    var answer := Answer(ask.from, ask.kind, ask.request.deviceId, r);
    var w' := Next(w, Handle(ask, drawn));
    assert MessageSane(ms, w, ask);
    HandledSane(w.server, ask, drawn);
    HandledModes(ms, w.server, ask, drawn);
    hide Handled, ServerSane;
    GrowthKeeps(ms, w.server, s', w);
    forall m | m in w'.net
      ensures MessageSane(ms, w', m)
    {
      assert m in w.net || m == answer;
      if m in w.net {
        assert MessageSane(ms, w.(server := s'), m);
      }
    }
    FreshExclusive(ms, w, w', answer);
  }

  /** An answer with a token not stored before shares it with nobody. */
  lemma FreshExclusive(ms: Modes, w: World, w': World, answer: Message)
    requires Safe(ms, w) && answer.Answer? && w'.agents == w.agents && w'.net == w.net + {answer}
    requires answer.response.token != "" ==> answer.response.token !in w.server.tokens
    ensures Exclusive(w')
  {
    var t := answer.response.token;
    forall n | n in w.agents && t != ""
      ensures w.agents[n].token != t
    {
      assert Holds(w.server, w.agents[n]);
    }
    forall m | m in w.net && m.Answer? && t != ""
      ensures m.response.token != t
    {
      assert MessageSane(ms, w, m);
    }
  }

  lemma DeliverKeeps(ms: Modes, w: World, m: Message)
    requires Safe(ms, w) && Enabled(w, Deliver(m))
    ensures Safe(ms, Next(w, Deliver(m)))
  {
    var w' := Next(w, Deliver(m));
    assert MessageSane(ms, w, m);
    assert Holds(w.server, w.agents[m.to]);
    ReceivedSane(w.server, w.agents[m.to], m);
    hide Received, ServerSane, Bound, Holds, Fits, Exclusive;
    forall x | x in w'.net
      ensures MessageSane(ms, w', x)
    {
      assert MessageSane(ms, w, x);
    }
    StillExclusive(w, m, w'.agents[m.to]);
  }

  /** An agent that takes over an answer's token, or drops its own, shares it with nobody. */
  lemma StillExclusive(w: World, m: Message, a: Agent)
    requires Exclusive(w) && m in w.net && m.Answer? && m.to in w.agents
    requires a.token == w.agents[m.to].token || a.token == "" || a.token == m.response.token
    ensures Exclusive(w.(agents := w.agents[m.to := a]))
  {
  }

  lemma SendKeeps(ms: Modes, w: World, n: nat, kind: Kind)
    requires Safe(ms, w) && n in w.agents
    ensures Safe(ms, Next(w, Send(n, kind)))
  {
    hide ServerSane, Holds, Bound, Fits;
    var w' := Next(w, Send(n, kind));
    forall x | x in w'.net
      ensures MessageSane(ms, w', x)
    {
      if x in w.net {
        assert MessageSane(ms, w, x);
      }
    }
  }

  lemma ServerStepKeeps(ms: Modes, w: World, s': Server)
    requires Safe(ms, w) && ServerSane(ms, s') && Grows(w.server, s')
    ensures Safe(ms, w.(server := s'))
  {
    hide ServerSane, Grows;
    GrowthKeeps(ms, w.server, s', w);
  }

  lemma DroppedExclusive(w: World, n: nat, a: Agent)
    requires Exclusive(w) && n in w.agents && a.token == ""
    ensures Exclusive(w.(agents := w.agents[n := a]))
  {
  }

  lemma ResetKeeps(ms: Modes, w: World, n: nat)
    requires Safe(ms, w) && n in w.agents
    ensures Safe(ms, Next(w, ResetState(n)))
  {
    hide ServerSane, Fits, ModesAllow, Exclusive;
    var w' := Next(w, ResetState(n));
    DroppedExclusive(w, n, Reset(w.agents[n]));
    forall x | x in w'.net
      ensures MessageSane(ms, w', x)
    {
      assert MessageSane(ms, w, x);
    }
  }

  lemma StepKeeps(ms: Modes, w: World, step: Step)
    requires Safe(ms, w) && Enabled(w, step) && (step.SetMode? ==> step.mode in ms.later)
    ensures Safe(ms, Next(w, step))
  {
    hide Safe, HandleApprove, HandleReject, HandleRemove, HandleSetMode, Handled, Received;
    SafeServer(ms, w);
    match step {
      case Send(n, kind) =>
        SendKeeps(ms, w, n, kind);
      case Handle(ask, drawn) =>
        HandleKeeps(ms, w, ask, drawn);
      case Deliver(m) =>
        DeliverKeeps(ms, w, m);
      case Approve(id, choice) =>
        ApproveSane(ms, w.server, id, choice);
        ServerStepKeeps(ms, w, HandleApprove(w.server, id, choice).0);
      case Reject(id, ban) =>
        RejectSane(ms, w.server, id, ban);
        ServerStepKeeps(ms, w, HandleReject(w.server, id, ban).0);
      case Remove(id, revoke) =>
        RemoveSane(ms, w.server, id, revoke);
        ServerStepKeeps(ms, w, HandleRemove(w.server, id, revoke));
      case SetMode(mode) =>
        SetModeSane(ms, w.server, mode);
        ServerStepKeeps(ms, w, HandleSetMode(w.server, mode).0);
      case ResetState(n) =>
        ResetKeeps(ms, w, n);
    }
  }

  lemma SafeServer(ms: Modes, w: World)
    requires Safe(ms, w)
    ensures ServerSane(ms, w.server)
  {
  }

  lemma InitialSafe(ms: Modes, w: World)
    requires Initial(w) && w.server.mode == ms.first
    ensures Safe(ms, w)
  {
  }

  /** In every run, whatever modes it goes through: every token is bound to a row, each agent's
      token is stored, an approved agent has one, and no two agents hold the same. Unless open
      mode may come after managed mode, no pending id is known as a peer; unless the two occur
      together, each agent's token is bound to its current device id. */
  lemma {:induction false} AlwaysSafe(ms: Modes, run: seq<World>, steps: seq<Step>, i: nat)
    requires IsRun(run, steps) && Within(ms, run, steps) && i < |run|
    ensures Safe(ms, run[i])
  {
    if i > 0 {
      AlwaysSafe(ms, run, steps, i - 1);
      assert Enabled(run[i - 1], steps[i - 1]) && run[i] == Next(run[i - 1], steps[i - 1]);
      assert steps[i - 1] in steps;
      StepKeeps(ms, run[i - 1], steps[i - 1]);
    } else {
      InitialSafe(ms, run[0]);
    }
  }

  // The modes of an arbitrary run.
  function AnyModes(mode: Mode): Modes {
    Modes(mode, {OpenMode, Managed, Locked, OtherMode})
  }

  lemma OneOfFour(mode: Mode)
    ensures mode in {OpenMode, Managed, Locked, OtherMode}
  {
  }

  lemma WithinAny(run: seq<World>, steps: seq<Step>)
    requires run != []
    ensures Within(AnyModes(run[0].server.mode), run, steps)
  {
    forall step | step in steps && step.SetMode?
      ensures step.mode in AnyModes(run[0].server.mode).later
    {
      OneOfFour(step.mode);
    }
  }

  // ----- without open mode: nothing without an approval

  /** Step `j` approved the pending device `id`. */
  ghost predicate ApprovedAt(run: seq<World>, steps: seq<Step>, j: nat, id: string) {
    && j < |steps| && j < |run| && id in run[j].server.pending
    && steps[j].Approve? && steps[j].id == id && steps[j].choice.Some? && ValidChoice(steps[j].choice.value)
  }

  /** Without open mode a new row is an approval's. */
  lemma NewPeer(ms: Modes, w: World, step: Step, id: string)
    requires Safe(ms, w) && Enabled(w, step) && OpenMode !in All(ms)
    ensures id in Next(w, step).server.peers && id !in w.server.peers ==>
              && step.Approve? && step.id == id && id in w.server.pending
              && step.choice.Some? && ValidChoice(step.choice.value)
  {
    hide HandleApprove, HandleReject, HandleRemove, Handled, Received, ValidChoice, Safe, RowsStay;
    match step {
      case Handle(ask, drawn) =>
        AskSane(ms, w, ask);
        ClosedKeepsRows(w.server, ask, drawn);
      case Approve(id', choice) =>
        AskSane(ms, w, Ask(0, StatusPoll, Request(id', "", MACHINE, NoKey, "")));
        ApproveGives(w.server, id', choice);
        if RowsStay(w.server, HandleApprove(w.server, id', choice).0, id') {
          RowsAfter(w.server, HandleApprove(w.server, id', choice).0, id');
        }
      case Reject(id', ban) =>
        BanKeepsRows(w.server, id', ban);
      case Remove(id', revoke) =>
        BanKeepsRows(w.server, id', revoke);
      case _ =>
    }
  }

  lemma AskSane(ms: Modes, w: World, ask: Message)
    requires Safe(ms, w) && ask.Ask?
    ensures forall id :: id in w.server.pending ==> w.server.pending[id].deviceId == id
    ensures OpenMode !in All(ms) ==> w.server.mode != OpenMode
    ensures ask in w.net ==> ask.request.token == ""
  {
    assert ask in w.net ==> MessageSane(ms, w, ask);
  }

  lemma RowsAfter(s: Server, s': Server, id: string)
    requires RowsStay(s, s', id)
    ensures s'.peers.Keys == s.peers.Keys + {id}
  {
  }

  lemma BanKeepsRows(s: Server, id: string, ban: bool)
    ensures HandleReject(s, id, ban).0.peers.Keys == s.peers.Keys
    ensures HandleRemove(s, id, ban).peers.Keys == s.peers.Keys
  {
  }

  lemma ClosedKeepsRows(s: Server, ask: Message, drawn: Option<string>)
    requires s.mode != OpenMode && ask.Ask? && ask.request.token == ""
    ensures Handled(s, ask, drawn).0.peers == s.peers
  {
    hide RegisterKnown, HandleStatus;
    KnownSameRows(s, ask.request, drawn);
    StatusSameRows(s, ask.request.deviceId, drawn);
  }

  /** Without open mode every peer, and so the owner of every token, was approved by an earlier
      step. */
  lemma {:induction false} ApprovedEarlier(ms: Modes, run: seq<World>, steps: seq<Step>, i: nat, id: string)
    returns (j: nat)
    requires IsRun(run, steps) && Within(ms, run, steps) && i < |run| && OpenMode !in All(ms)
    requires id in run[i].server.peers || exists t :: t in run[i].server.tokens && run[i].server.tokens[t].owner == id
    ensures j < i && ApprovedAt(run, steps, j, id)
  {
    AlwaysSafe(ms, run, steps, i);
    assert TokensSane(run[i].server);
    assert i > 0;
    AlwaysSafe(ms, run, steps, i - 1);
    assert Enabled(run[i - 1], steps[i - 1]) && run[i] == Next(run[i - 1], steps[i - 1]);
    if id in run[i - 1].server.peers {
      j := ApprovedEarlier(ms, run, steps, i - 1, id);
    } else {
      NewPeer(ms, run[i - 1], steps[i - 1], id);
      j := i - 1;
    }
  }

  /** Without open mode no registration is ever answered with an identity conflict: the pending
      record keeps no uuid, so no approved peer has one. */
  lemma ClosedNeverConflicts(ms: Modes, run: seq<World>, steps: seq<Step>, i: nat, id: string, uuid: string)
    requires IsRun(run, steps) && Within(ms, run, steps) && i < |run| && OpenMode !in All(ms)
    ensures !Conflicts(run[i].server, id, uuid)
    ensures forall m :: m in run[i].net && m.Answer? ==> m.response.code != 409
  {
    AlwaysSafe(ms, run, steps, i);
    forall m | m in run[i].net && m.Answer?
      ensures m.response.code != 409
    {
      assert MessageSane(ms, run[i], m);
    }
  }

  // ----- what an agent's status means

  lemma StepNotRejected(ms: Modes, w: World, step: Step, n: nat)
    requires Safe(ms, w) && Enabled(w, step) && n in w.agents && w.agents[n].status !in {Rejected, Unknown}
    ensures n in Next(w, step).agents && Next(w, step).agents[n].status !in {Rejected, Unknown}
  {
    hide Handled, HandleApprove, HandleReject, HandleRemove, HandleSetMode, TrimSpace, IsToken;
    if step.Deliver? {
      assert MessageSane(ms, w, step.answer);
    }
  }

  /** In every run no agent ever has the status rejected, whatever the modes: a rejection comes
      with an error code, at which the agent leaves its state alone. So the agent never stops
      asking; its branch for a rejected device is not reached. */
  lemma {:induction false} NeverRejected(run: seq<World>, steps: seq<Step>, i: nat, n: nat)
    requires IsRun(run, steps) && i < |run| && n in run[i].agents
    ensures n in run[0].agents && run[i].agents[n].status !in {Rejected, Unknown}
  {
    if i > 0 {
      var w, step, ms := run[i - 1], steps[i - 1], AnyModes(run[0].server.mode);
      WithinAny(run, steps);
      AlwaysSafe(ms, run, steps, i - 1);
      assert Enabled(w, step) && run[i] == Next(w, step);
      assert n in w.agents;
      NeverRejected(run, steps, i - 1, n);
      StepNotRejected(ms, w, step, n);
    }
  }

  /** In every run an agent reports itself enrolled exactly when its status is approved, and
      then its token is stored for a row. Unless open and managed mode occur together, that is
      the row of its device id; without open mode an operator approved that id before. */
  lemma EnrolledMeans(ms: Modes, run: seq<World>, steps: seq<Step>, i: nat, n: nat)
    requires IsRun(run, steps) && Within(ms, run, steps) && i < |run| && n in run[i].agents
    ensures var s, a := run[i].server, run[i].agents[n];
            && (Enrolled(a) <==> a.status == Approved)
            && (Enrolled(a) ==>
                  && a.token in s.tokens && s.tokens[a.token].owner in s.peers
                  && (NotMixed(ms) ==> s.tokens[a.token].owner == a.deviceId)
                  && (OpenMode !in All(ms) ==> exists j: nat :: j < i && ApprovedAt(run, steps, j, a.deviceId)))
  {
    hide ApprovedAt, IsRun;
    AlwaysSafe(ms, run, steps, i);
    var s, a := run[i].server, run[i].agents[n];
    assert TokensSane(s) && Holds(s, a);
    if Enrolled(a) && OpenMode !in All(ms) {
      assert Bound(s, a);
      var j := ApprovedEarlier(ms, run, steps, i, a.deviceId);
    }
  }
}
