/**
 The agent's calls with no other traffic in between: they are runs of the protocol,
 they keep state sane, and they carry a device from registration to enrollment.
 */
module EnrollmentCalls {
  import opened Text
  import opened Options
  import DeviceIds
  import opened EnrollmentService
  import opened Enrollment
  import opened EnrollmentRuns

  // ----- calls keep state sane

  // What a call leaves behind, and the token it reports, if any.
  ghost predicate GoodCall(s: Server, s': Server, a': Agent, o: Outcome) {
    && TokensSane(s') && Grows(s, s') && AgentSane(s', a')
    && (o.Done? && o.reply.status == Approved ==>
          o.reply.token != "" && o.reply.token in s'.tokens && s'.tokens[o.reply.token].owner == o.reply.deviceId)
  }

  lemma {:induction false} RegisterSound(s: Server, a: Agent, drawn: Option<string>)
    requires TokensSane(s) && AgentSane(s, a) && (drawn.Some? ==> IsToken(drawn.value))
    ensures var (s', a', o) := Register(s, a, drawn); GoodCall(s, s', a', o) && o != Again
    decreases DeviceIds.Distance(s.peers.Keys, a.deviceId)
  {
    var (s', r) := HandleRegister(s, Asking(a), drawn);
    var (a', o) := OnRegister(a, a.deviceId, r);
    RegisterSane(s, Asking(a), drawn);
    ReceivedSane(s', a, Answer(0, Registration, a.deviceId, r));
    RetryClimbs(s, a, drawn);
    hide TokensSane, Grows, DeviceIds.Distance, TrimSpace;
    if o == Again {
      RegisterSound(s', a', drawn);
    } else {
      TokenTrimmed(r.token);
    }
  }

  lemma PollSound(s: Server, a: Agent, drawn: Option<string>, drawn': Option<string>)
    requires TokensSane(s) && AgentSane(s, a)
    requires (drawn.Some? ==> IsToken(drawn.value)) && (drawn'.Some? ==> IsToken(drawn'.value))
    ensures var (s', a', o) := Poll(s, a, drawn, drawn'); GoodCall(s, s', a', o)
  {
    var (s', r) := HandleStatus(s, a.deviceId, drawn);
    var (a', o) := OnStatus(a, a.deviceId, r);
    StatusSane(s, a.deviceId, drawn);
    ReceivedSane(s', a, Answer(0, StatusPoll, a.deviceId, r));
    TokenTrimmed(r.token);
    hide TokensSane, TrimSpace;
    if o == Again {
      RegisterSound(s', a', drawn');
    }
  }

  /** Whatever path EnsureEnrolled takes, the cached one included: state stays sane, and a
      token it reports as approved is stored for the id it reports. */
  lemma EnsureSound(s: Server, a: Agent, drawn: Option<string>, drawn': Option<string>)
    requires TokensSane(s) && AgentSane(s, a)
    requires (drawn.Some? ==> IsToken(drawn.value)) && (drawn'.Some? ==> IsToken(drawn'.value))
    ensures var (s', a', o) := Ensure(s, a, drawn, drawn'); GoodCall(s, s', a', o)
  {
    hide TokensSane, TrimSpace;
    RegisterSound(s, a, drawn);
    PollSound(s, a, drawn, drawn');
  }

  // ----- calls are runs

  /** One request of agent `n`, handled and answered at once. */
  lemma Exchange(run: seq<World>, steps: seq<Step>, n: nat, kind: Kind, drawn: Option<string>)
    returns (run': seq<World>, steps': seq<Step>)
    requires run != [] && IsRun(run, steps) && n in Latest(run).agents && (drawn.Some? ==> IsToken(drawn.value))
    ensures run' != [] && IsRun(run', steps') && run'[0] == run[0]
    ensures var w, w', a := Latest(run), Latest(run'), Latest(run).agents[n];
            var (s', r) := Handled(w.server, Ask(n, kind, Asking(a)), drawn);
            && w'.server == s'
            && w'.agents == w.agents[n := Received(a, Answer(n, kind, a.deviceId, r))]
  {
    hide Handled, Received;
    var w := Latest(run);
    var a := w.agents[n];
    var ask := Ask(n, kind, Asking(a));
    var (s', r) := Handled(w.server, ask, drawn);
    var answer := Answer(n, kind, a.deviceId, r);
    run', steps' := OneStep(run, steps, Send(n, kind));
    assert ask in Latest(run').net;
    run', steps' := OneStep(run', steps', Handle(ask, drawn));
    assert answer in Latest(run').net;
    run', steps' := OneStep(run', steps', Deliver(answer));
  }

  lemma OneStep(run: seq<World>, steps: seq<Step>, step: Step) returns (run': seq<World>, steps': seq<Step>)
    requires run != [] && IsRun(run, steps) && Enabled(Latest(run), step)
    ensures run' != [] && IsRun(run', steps') && run'[0] == run[0] && Latest(run') == Next(Latest(run), step)
  {
    run', steps' := run + [Next(Latest(run), step)], steps + [step];
  }

  // The agents and the server after agent `n` made a call with result `c`.
  ghost predicate Made(w: World, w': World, n: nat, c: (Server, Agent, Outcome)) {
    n in w.agents && w'.server == c.0 && w'.agents == w.agents[n := c.1]
  }

  /** One registration of agent `n`. */
  lemma Registers(run: seq<World>, steps: seq<Step>, n: nat, drawn: Option<string>)
    returns (run': seq<World>, steps': seq<Step>)
    requires run != [] && IsRun(run, steps) && n in Latest(run).agents && (drawn.Some? ==> IsToken(drawn.value))
    ensures run' != [] && IsRun(run', steps') && run'[0] == run[0]
    ensures var w, a := Latest(run), Latest(run).agents[n];
            var (s', r) := HandleRegister(w.server, Asking(a), drawn);
            var (a', o) := OnRegister(a, a.deviceId, r);
            Made(w, Latest(run'), n, (s', a', o))
  {
    hide HandleRegister, OnRegister, IsRun;
    run', steps' := Exchange(run, steps, n, Registration, drawn);
  }

  /** RegisterDevice, all its retries included, is a run of the protocol. */
  lemma {:induction false} RegisterIsRun(run: seq<World>, steps: seq<Step>, n: nat, drawn: Option<string>)
    returns (run': seq<World>, steps': seq<Step>)
    requires run != [] && IsRun(run, steps) && n in Latest(run).agents && (drawn.Some? ==> IsToken(drawn.value))
    ensures run' != [] && IsRun(run', steps') && run'[0] == run[0]
    ensures Made(Latest(run), Latest(run'), n, Register(Latest(run).server, Latest(run).agents[n], drawn))
    decreases DeviceIds.Distance(Latest(run).server.peers.Keys, Latest(run).agents[n].deviceId)
  {
    hide DeviceIds.Distance, IsRun, HandleRegister, OnRegister, DeviceIds.NextId, IsToken;
    RetryClimbs(Latest(run).server, Latest(run).agents[n], drawn);
    run', steps' := Registers(run, steps, n, drawn);
    if Conflicts(Latest(run).server, Latest(run).agents[n].deviceId, Latest(run).agents[n].uuid)
       && Latest(run).agents[n].deviceId != "" {
      var back, backSteps := RegisterIsRun(run', steps', n, drawn);
      run', steps' := back, backSteps;
    }
  }

  /** PollEnrollment, with the registration it may fall back to, is a run of the protocol. */
  lemma PollIsRun(run: seq<World>, steps: seq<Step>, n: nat, drawn: Option<string>, drawn': Option<string>)
    returns (run': seq<World>, steps': seq<Step>)
    requires run != [] && IsRun(run, steps) && n in Latest(run).agents
    requires (drawn.Some? ==> IsToken(drawn.value)) && (drawn'.Some? ==> IsToken(drawn'.value))
    ensures run' != [] && IsRun(run', steps') && run'[0] == run[0]
    ensures Made(Latest(run), Latest(run'), n, Poll(Latest(run).server, Latest(run).agents[n], drawn, drawn'))
  {
    hide IsRun, HandleStatus, OnStatus, Register, IsToken;
    var w := Latest(run);
    var a := w.agents[n];
    run', steps' := Exchange(run, steps, n, StatusPoll, drawn);
    var (s', r) := HandleStatus(w.server, a.deviceId, drawn);
    var (a', o) := OnStatus(a, a.deviceId, r);
    if o == Again {
      var back, backSteps := RegisterIsRun(run', steps', n, drawn');
      run', steps' := back, backSteps;
    }
  }

  // ----- from registration to enrollment

  // An agent whose device a managed server does not know, and a token not yet issued.
  ghost predicate Newcomer(s: Server, a: Agent, t: string) {
    s.mode == Managed && a.deviceId != "" && a.deviceId !in s.peers && IsToken(t) && t !in s.tokens
  }

  /** Registering in managed mode makes the agent pending, and asking again keeps it so. */
  lemma RegisteredPends(s: Server, a: Agent, t: string)
    requires Newcomer(s, a, t) && TokensSane(s)
    ensures var (s', a', o) := Register(s, a, None);
            && o == Done(Reply(Pending, a.deviceId, "", Waiting)) && a' == a.(status := Pending, message := Waiting)
            && s' == s.(pending := s.pending[a.deviceId := PendingInfo(a.deviceId, MACHINE.(deviceType := ""))])
            && Ensure(s', a', None, None) == (s', a', o)
  {
    hide DeviceIds.Distance, TrimSpace, IsToken;
    TokenTrimmed("");
  }

  /** Once approved, the pending agent's next call enrolls it with the token drawn, bound to
      its id. */
  lemma ApprovedEnrolls(s: Server, a: Agent, t: string, choice: Choice)
    requires Newcomer(s, a, t) && TokensSane(s) && ValidChoice(choice)
    ensures var (s1, a1, _) := Register(s, a, None);
            var s2 := HandleApprove(s1, a.deviceId, Some(choice)).0;
            var (s3, a3, _) := Ensure(s2, a1, Some(t), None);
            && Enrolled(a3) && a3.token == t && a3.deviceId == a.deviceId
            && s3.tokens == s.tokens[t := Issued(a.deviceId)] && Known(s3, a.deviceId)
  {
    hide DeviceIds.Distance, TrimSpace, IsToken, HandleApprove, ValidChoice, Register, HandleStatus, RowsStay;
    RegisteredPends(s, a, t);
    var (s1, a1, _) := Register(s, a, None);
    ApproveGives(s1, a.deviceId, Some(choice));
    var s2 := HandleApprove(s1, a.deviceId, Some(choice)).0;
    NewRowKnown(s1, s2, a.deviceId);
    PollEnrolls(s2, a1, t);
  }

  lemma NewRowKnown(s: Server, s': Server, id: string)
    requires RowsStay(s, s', id) && id !in s.peers
    ensures Known(s', id) && s'.tokens == s.tokens
  {
  }

  lemma PollEnrolls(s: Server, a: Agent, t: string)
    requires Known(s, a.deviceId) && a.deviceId != "" && a.status == Pending && IsToken(t) && t !in s.tokens
    ensures var (s', a', _) := Ensure(s, a, Some(t), None);
            && Enrolled(a') && a'.token == t && a'.deviceId == a.deviceId
            && s'.tokens == s.tokens[t := Issued(a.deviceId)] && Known(s', a.deviceId)
  {
    assert t != "";
    hide DeviceIds.Distance, TrimSpace, IsToken;
    TokenTrimmed(t);
  }

  /** Once rejected, the pending agent's next call fails and leaves it pending. */
  lemma RejectedFails(s: Server, a: Agent, t: string, ban: bool)
    requires Newcomer(s, a, t) && TokensSane(s)
    ensures var (s1, a1, _) := Register(s, a, None);
            var s2 := HandleReject(s1, a.deviceId, ban).0;
            Ensure(s2, a1, Some(t), None) == (s2, a1, Failed)
  {
    hide DeviceIds.Distance, TrimSpace, IsToken;
    RegisteredPends(s, a, t);
  }

  /** In open mode the first registration enrolls the agent at once, under its own uuid. */
  lemma OpenEnrolls(s: Server, a: Agent, t: string)
    requires s.mode == OpenMode && a.deviceId != "" && a.deviceId !in s.peers && a.status == NoStatus
    requires IsToken(t) && t !in s.tokens
    ensures var (s', a', o) := Ensure(s, a, Some(t), None);
            && Enrolled(a') && a'.token == t && a'.deviceId == a.deviceId
            && s'.peers == s.peers[a.deviceId := Peer(a.uuid, MACHINE, "", "", "", false, false)]
            && s'.tokens == s.tokens[t := Issued(a.deviceId)]
  {
    assert t != "";
    hide DeviceIds.Distance, TrimSpace, IsToken;
    TokenTrimmed(t);
  }
}
