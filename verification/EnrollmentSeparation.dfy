/**
 Are two agents that hold tokens for one device id the same machine? The uuid decides,
 and this is exactly when it does.
 */
module EnrollmentSeparation {
  import opened Options
  import opened Text
  import DeviceIds
  import opened EnrollmentService
  import opened EnrollmentFrames
  import opened Enrollment
  import opened EnrollmentRuns
  import opened EnrollmentScripts

  /** Agents that hold tokens for the same id run on the same machine. */
  ghost predicate Separate(w: World) {
    forall m, n :: m in w.agents && n in w.agents && BothHold(w.agents[m], w.agents[n]) ==>
      w.agents[m].uuid == w.agents[n].uuid
  }

  predicate BothHold(a: Agent, b: Agent) {
    a.token != "" && b.token != "" && a.deviceId == b.deviceId
  }

  // ----- modes in which nobody is enrolled

  lemma NobodyEnrolls(ms: Modes, w: World, step: Step)
    requires Safe(ms, w) && Enabled(w, step) && !(OpenMode in All(ms)) && !(Managed in All(ms))
    requires w.server.peers == map[]
    ensures Next(w, step).server.peers == map[]
  {
    hide Handled, IsToken, Received, Exclusive;
    if step.Handle? {
      AskSane(ms, w, step.ask);
      ClosedKeepsRows(w.server, step.ask, step.drawn);
    }
  }

  lemma {:induction false} NobodyEver(ms: Modes, run: seq<World>, steps: seq<Step>, i: nat)
    requires IsRun(run, steps) && Within(ms, run, steps) && i < |run|
    requires !(OpenMode in All(ms)) && !(Managed in All(ms))
    ensures run[i].server.peers == map[] && Separate(run[i])
  {
    AlwaysSafe(ms, run, steps, i);
    if i > 0 {
      NobodyEver(ms, run, steps, i - 1);
      AlwaysSafe(ms, run, steps, i - 1);
      assert Enabled(run[i - 1], steps[i - 1]) && run[i] == Next(run[i - 1], steps[i - 1]);
      NobodyEnrolls(ms, run[i - 1], steps[i - 1]);
    }
    NoTokensHeld(ms, run[i]);
  }

  lemma NoTokensHeld(ms: Modes, w: World)
    requires Safe(ms, w) && w.server.peers == map[]
    ensures Separate(w)
  {
    forall n | n in w.agents
      ensures w.agents[n].token == ""
    {
      assert Holds(w.server, w.agents[n]);
    }
  }

  // ----- no managed mode, fingerprints, polling while pending, no removals

  ghost predicate Owns(s: Server, uuid: string, id: string) {
    id in s.peers && s.peers[id].uuid == uuid
  }

  // Every peer is there and has a uuid.
  ghost predicate RowsMatched(s: Server) {
    forall id :: id in s.peers ==> s.peers[id].uuid != "" && !s.peers[id].removed
  }

  // Holders of tokens, present and future, have the uuid stored for the id.
  ghost predicate Matched(w: World) {
    && RowsMatched(w.server)
    && (forall n :: n in w.agents ==> AgentMatched(w.server, w.agents[n]))
    && (forall m :: m in w.net ==> MessageMatched(w, m))
  }

  ghost predicate AgentMatched(s: Server, a: Agent) {
    a.uuid != "" && a.status != Pending && (a.token != "" ==> Owns(s, a.uuid, a.deviceId))
  }

  ghost predicate MessageMatched(w: World, m: Message) {
    match m
    case Ask(n, kind, request) => n in w.agents && request.uuid == w.agents[n].uuid && kind == Registration
    case Answer(n, _, _, r) => n in w.agents && (r.token != "" ==> Owns(w.server, w.agents[n].uuid, r.deviceId))
  }

  // Peers keep their uuid, and the rows stay matched.
  ghost predicate KeepsUuids(s: Server, s': Server) {
    && RowsMatched(s')
    && (forall id :: id in s.peers ==> id in s'.peers && s'.peers[id].uuid == s.peers[id].uuid)
  }

  lemma EnrollMatches(s: Server, r: Request, drawn: Option<string>)
    requires RowsMatched(s) && r.uuid != "" && r.deviceId !in s.peers
    ensures var (s', a) := Enroll(s, r, drawn, "");
            KeepsUuids(s, s') && Owns(s', r.uuid, r.deviceId) && a.deviceId == r.deviceId
  {
    hide Issue, Coalesce;
    IssueKeepsRows(CreatePeer(s, r.deviceId, r.uuid, r.info, r.key), r.deviceId, drawn);
  }

  lemma KnownMatches(s: Server, r: Request, drawn: Option<string>)
    requires RowsMatched(s) && r.uuid != "" && r.deviceId in s.peers
    ensures var (s', a) := RegisterKnown(s, r, drawn);
            KeepsUuids(s, s') && (a.token != "" ==> Owns(s', r.uuid, r.deviceId) && a.deviceId == r.deviceId)
  {
    hide DeviceIds.SuggestAlternate, Issue, Coalesce, BoundKey;
    IssueKeepsRows(s, r.deviceId, drawn);
    IssueKeepsRows(StoreKey(s, r.deviceId, r.key), r.deviceId, drawn);
  }

  lemma HandledMatches(s: Server, ask: Message, drawn: Option<string>)
    requires RowsMatched(s) && ask.Ask? && ask.kind == Registration && ask.request.uuid != "" && ask.request.token == ""
    ensures var (s', r) := Handled(s, ask, drawn);
            KeepsUuids(s, s') && (r.token != "" ==> Owns(s', ask.request.uuid, r.deviceId))
  {
    hide RegisterKnown, Enroll;
    if ask.request.deviceId in s.peers {
      KnownMatches(s, ask.request, drawn);
    } else {
      EnrollMatches(s, ask.request, drawn);
    }
  }

  lemma SamePeersKeep(s: Server, s': Server)
    requires RowsMatched(s) && s'.peers == s.peers
    ensures KeepsUuids(s, s')
  {
  }

  lemma RejectKeepsUuids(s: Server, id: string, ban: bool)
    requires RowsMatched(s)
    ensures KeepsUuids(s, HandleReject(s, id, ban).0)
  {
  }

  lemma MatchedServer(w: World, s': Server)
    requires Matched(w) && KeepsUuids(w.server, s')
    ensures Matched(w.(server := s'))
  {
    forall n | n in w.agents
      ensures AgentMatched(s', w.agents[n])
    {
      assert AgentMatched(w.server, w.agents[n]);
    }
    forall m | m in w.net
      ensures MessageMatched(w.(server := s'), m)
    {
      assert MessageMatched(w, m);
    }
  }

  lemma MatchedMessage(w: World, m: Message)
    requires Matched(w) && MessageMatched(w, m)
    ensures Matched(w.(net := w.net + {m}))
  {
    forall x | x in w.net + {m}
      ensures MessageMatched(w.(net := w.net + {m}), x)
    {
      assert MessageMatched(w, x);
    }
  }

  lemma MatchedAgent(w: World, n: nat, a: Agent)
    requires Matched(w) && n in w.agents && a.uuid == w.agents[n].uuid && AgentMatched(w.server, a)
    ensures Matched(w.(agents := w.agents[n := a]))
  {
    forall m | m in w.net
      ensures MessageMatched(w.(agents := w.agents[n := a]), m)
    {
      assert MessageMatched(w, m);
    }
  }

  lemma MatchedDeliver(ms: Modes, w: World, m: Message)
    requires Safe(ms, w) && Matched(w) && Enabled(w, Deliver(m)) && NeverManaged(ms)
    ensures Matched(Next(w, Deliver(m)))
  {
    hide Received, Exclusive, RowsMatched;
    var a, a' := w.agents[m.to], Received(w.agents[m.to], m);
    assert MessageSane(ms, w, m) && Holds(w.server, a) && Bound(w.server, a);
    assert MessageMatched(w, m) && AgentMatched(w.server, a);
    ReceivedSane(w.server, a, m);
    ReceivedOwner(a, m);
    MatchedAgent(w, m.to, a');
  }

  predicate NeverManaged(ms: Modes) {
    !(Managed in All(ms))
  }

  /** The token an agent has after an answer is its old one with its old id, or the answer's
      with the answer's id, if the answer makes nothing pending. */
  lemma ReceivedOwner(a: Agent, m: Message)
    requires m.Answer? && m.response.status !in {Pending} && (m.response.token == "" || IsToken(m.response.token))
    requires m.response.status == Rejected ==> m.response.code != 200 && m.response.code != 202
    requires m.response.deviceId == "" ==> m.response.status == NoStatus
    ensures var a' := Received(a, m);
            || a'.token == ""
            || (a'.token == a.token && a'.deviceId == a.deviceId)
            || (a'.token == m.response.token && a'.deviceId == m.response.deviceId)
  {
    hide TrimSpace;
    TokenTrimmed(m.response.token);
  }

  lemma MatchedKeeps(ms: Modes, w: World, step: Step)
    requires Safe(ms, w) && Matched(w) && Enabled(w, step) && NeverManaged(ms)
    requires !step.Remove? && PollOk(w, step)
    ensures Matched(Next(w, step))
  {
    hide HandleApprove, HandleReject, HandleRemove, Handled, Received, KeepsUuids, Owns, Exclusive, RowsMatched;
    match step {
      case Send(n, kind) =>
        assert AgentMatched(w.server, w.agents[n]);
        MatchedMessage(w, Ask(n, kind, Asking(w.agents[n])));
      case Handle(ask, drawn) =>
        assert MessageMatched(w, ask) && MessageSane(ms, w, ask);
        assert AgentMatched(w.server, w.agents[ask.from]);
        var (s', r) := Handled(w.server, ask, drawn);
        HandledMatches(w.server, ask, drawn);
        MatchedServer(w, s');
        MatchedMessage(w.(server := s'), Answer(ask.from, ask.kind, ask.request.deviceId, r));
      case Deliver(m) =>
        MatchedDeliver(ms, w, m);
      case Approve(id, choice) =>
        ApproveRefused(w.server, id, choice);
        SamePeersKeep(w.server, HandleApprove(w.server, id, choice).0);
        MatchedServer(w, HandleApprove(w.server, id, choice).0);
      case Reject(id, ban) =>
        RejectKeepsUuids(w.server, id, ban);
        MatchedServer(w, HandleReject(w.server, id, ban).0);
      case SetMode(mode) =>
        SamePeersKeep(w.server, HandleSetMode(w.server, mode).0);
        MatchedServer(w, HandleSetMode(w.server, mode).0);
      case ResetState(n) =>
        assert AgentMatched(w.server, w.agents[n]);
        MatchedAgent(w, n, Reset(w.agents[n]));
      case Remove(id, revoke) =>
        assert false;
    }
  }

  lemma {:induction false} AlwaysMatched(terms: Terms, run: seq<World>, steps: seq<Step>, i: nat)
    requires ProperRun(terms, run, steps) && i < |run|
    requires NeverManaged(terms.modes) && terms.uuids && terms.polls && terms.stays
    ensures Matched(run[i])
  {
    if i > 0 {
      AlwaysMatched(terms, run, steps, i - 1);
      ProperWithin(terms, run, steps);
      AlwaysSafe(terms.modes, run, steps, i - 1);
      assert Enabled(run[i - 1], steps[i - 1]) && run[i] == Next(run[i - 1], steps[i - 1]);
      assert StepOk(terms, run[i - 1], steps[i - 1]);
      MatchedKeeps(terms.modes, run[i - 1], steps[i - 1]);
    }
  }

  lemma MatchedSeparates(w: World)
    requires Matched(w)
    ensures Separate(w)
  {
    forall m, n | m in w.agents && n in w.agents && BothHold(w.agents[m], w.agents[n])
      ensures w.agents[m].uuid == w.agents[n].uuid
    {
      assert AgentMatched(w.server, w.agents[m]) && AgentMatched(w.server, w.agents[n]);
    }
  }

  // ----- runs that mix machines

  lemma EndsMixed(terms: Terms, run: seq<World>, steps: seq<Step>, w: World)
    requires Reaches(terms, run, steps, w)
    requires 0 in w.agents && 1 in w.agents && BothHold(w.agents[0], w.agents[1])
    requires w.agents[0].uuid != w.agents[1].uuid
    ensures Mixes(terms, run, steps)
  {
  }

  // A run on the terms that ends with machines mixed.
  ghost predicate Mixes(terms: Terms, run: seq<World>, steps: seq<Step>) {
    run != [] && ProperRun(terms, run, steps) && !Separate(Latest(run))
  }

  /** Managed mode: the first machine registers and is approved, then both are given tokens. */
  lemma ManagedMixes(terms: Terms) returns (run: seq<World>, steps: seq<Step>)
    requires Managed in All(terms.modes)
    ensures Mixes(terms, run, steps)
  {
    hide Reaches, IsToken, HandleApprove, ValidChoice, Handled, Mixes;
    var t0, t1 := Tokens();
    var choice := Choice("", "", "");
    var w, answer := Start(Managed, "u", "v"), Answer(0, Registration, "", Plain(0));
    run, steps := Begins(terms, "u", "v", Managed);
    PendsAnswers(w.server, 0, w.agents[0], None);
    run, steps, w, answer := Asks(terms, run, steps, w, 0, Registration, None);
    EmptyChoiceValid();
    ApproveGives(w.server, "A", Some(choice));
    run, steps := Extend(terms, run, steps, w, Approve("A", Some(choice)));
    w := Next(w, Approve("A", Some(choice)));
    KnownAnswers(w.server, 0, Registration, w.agents[0], t0);
    run, steps, w := GetsToken(terms, run, steps, w, 0, Registration, t0);
    KnownAnswers(w.server, 1, Registration, w.agents[1], t1);
    run, steps, w := GetsToken(terms, run, steps, w, 1, Registration, t1);
    EndsMixed(terms, run, steps, w);
  }

  /** Open mode, a machine without fingerprint: it enrolls first, and its row matches anyone. */
  lemma BlankUuidMixes(terms: Terms) returns (run: seq<World>, steps: seq<Step>)
    requires OpenMode in All(terms.modes) && !terms.uuids
    ensures Mixes(terms, run, steps)
  {
    hide Reaches, IsToken, Handled, Mixes;
    var t0, t1 := Tokens();
    var w := Start(OpenMode, "", "v");
    run, steps := Begins(terms, "", "v", OpenMode);
    OpenAnswers(w.server, 0, w.agents[0], t0);
    run, steps, w := GetsToken(terms, run, steps, w, 0, Registration, t0);
    KnownAnswers(w.server, 1, Registration, w.agents[1], t1);
    run, steps, w := GetsToken(terms, run, steps, w, 1, Registration, t1);
    EndsMixed(terms, run, steps, w);
  }

  /** Open mode, an agent that polls without being pending: the status answer does not look at
      the uuid. */
  lemma PollingMixes(terms: Terms) returns (run: seq<World>, steps: seq<Step>)
    requires OpenMode in All(terms.modes) && !terms.polls
    ensures Mixes(terms, run, steps)
  {
    hide Reaches, IsToken, Handled, Mixes;
    var t0, t1 := Tokens();
    var w := Start(OpenMode, "u", "v");
    run, steps := Begins(terms, "u", "v", OpenMode);
    OpenAnswers(w.server, 0, w.agents[0], t0);
    run, steps, w := GetsToken(terms, run, steps, w, 0, Registration, t0);
    KnownAnswers(w.server, 1, StatusPoll, w.agents[1], t1);
    run, steps, w := GetsToken(terms, run, steps, w, 1, StatusPoll, t1);
    EndsMixed(terms, run, steps, w);
  }

  /** Open mode, a removed device: its id is given to the next machine that asks. */
  lemma RemovalMixes(terms: Terms) returns (run: seq<World>, steps: seq<Step>)
    requires OpenMode in All(terms.modes) && !terms.stays
    ensures Mixes(terms, run, steps)
  {
    hide Reaches, IsToken, Handled, Mixes;
    var t0, t1 := Tokens();
    var w := Start(OpenMode, "u", "v");
    run, steps := Begins(terms, "u", "v", OpenMode);
    OpenAnswers(w.server, 0, w.agents[0], t0);
    run, steps, w := GetsToken(terms, run, steps, w, 0, Registration, t0);
    run, steps := Extend(terms, run, steps, w, Remove("A", false));
    w := Next(w, Remove("A", false));
    OpenAnswers(w.server, 1, w.agents[1], t1);
    run, steps, w := GetsToken(terms, run, steps, w, 1, Registration, t1);
    EndsMixed(terms, run, steps, w);
  }

  // ----- the exact condition

  /** In every run on the terms, agents that hold tokens for one id run on one machine. */
  ghost predicate Separates(terms: Terms) {
    forall run: seq<World>, steps: seq<Step>, i: nat ::
      ProperRun(terms, run, steps) && i < |run| ==> Separate(run[i])
  }

  lemma MixedOnce(terms: Terms, run: seq<World>, steps: seq<Step>)
    requires Mixes(terms, run, steps)
    ensures !Separates(terms)
  {
    assert !Separate(run[|run| - 1]);
  }

  /** The uuid keeps machines apart, whatever modes a run goes through, in exactly these cases:
      managed mode does not occur; and if open mode does, every machine has a fingerprint,
      agents poll only while pending, and no device is removed. */
  lemma SeparatesIff(terms: Terms)
    ensures Separates(terms) <==>
            && !(Managed in All(terms.modes))
            && (OpenMode in All(terms.modes) ==> terms.uuids && terms.polls && terms.stays)
  {
    hide Separate, ProperRun;
    if Managed in All(terms.modes) {
      var run, steps := ManagedMixes(terms);
      MixedOnce(terms, run, steps);
    } else if OpenMode in All(terms.modes) && !(terms.uuids && terms.polls && terms.stays) {
      var run, steps := OpenMixes(terms);
      MixedOnce(terms, run, steps);
    } else {
      forall run: seq<World>, steps: seq<Step>, i: nat | ProperRun(terms, run, steps) && i < |run|
        ensures Separate(run[i])
      {
        AlwaysSeparate(terms, run, steps, i);
      }
    }
  }

  lemma OpenMixes(terms: Terms) returns (run: seq<World>, steps: seq<Step>)
    requires OpenMode in All(terms.modes) && !(terms.uuids && terms.polls && terms.stays)
    ensures Mixes(terms, run, steps)
  {
    hide Mixes;
    if !terms.uuids {
      run, steps := BlankUuidMixes(terms);
    } else if !terms.polls {
      run, steps := PollingMixes(terms);
    } else {
      run, steps := RemovalMixes(terms);
    }
  }

  lemma AlwaysSeparate(terms: Terms, run: seq<World>, steps: seq<Step>, i: nat)
    requires ProperRun(terms, run, steps) && i < |run| && NeverManaged(terms.modes)
    requires OpenMode in All(terms.modes) ==> terms.uuids && terms.polls && terms.stays
    ensures Separate(run[i])
  {
    hide Separate, StepsOk, IsRun;
    if OpenMode in All(terms.modes) {
      AlwaysMatched(terms, run, steps, i);
      MatchedSeparates(run[i]);
    } else {
      ProperWithin(terms, run, steps);
      NobodyEver(terms.modes, run, steps, i);
    }
  }}
