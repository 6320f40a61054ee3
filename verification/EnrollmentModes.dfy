/**
 Changing the enrollment mode while devices enroll: which parts of the invariant depend
 on the order of the modes, and exactly how.
 */
module EnrollmentModes {
  import opened Options
  import opened Text
  import DeviceIds
  import opened EnrollmentService
  import opened Enrollment
  import opened EnrollmentRuns
  import opened EnrollmentScripts

  // Terms that confine the modes alone.
  function OnlyModes(ms: Modes): Terms {
    Terms(ms, false, false, false)
  }

  lemma OnlyWithin(ms: Modes, run: seq<World>, steps: seq<Step>, w: World)
    requires Reaches(OnlyModes(ms), run, steps, w)
    ensures run != [] && IsRun(run, steps) && Within(ms, run, steps) && w == Latest(run)
  {
    ProperWithin(OnlyModes(ms), run, steps);
  }

  // ----- pending and known

  /** In every run through the modes no pending id is known as a peer. */
  ghost predicate AlwaysApart(ms: Modes) {
    forall run: seq<World>, steps: seq<Step>, i: nat ::
      IsRun(run, steps) && Within(ms, run, steps) && i < |run| ==> PendingApart(run[i].server)
  }

  /** Managed mode, then open mode: a device registers in both and is pending and known. */
  lemma ReopeningOverlaps(ms: Modes) returns (run: seq<World>, steps: seq<Step>, w: World)
    requires !NotReopened(ms)
    ensures Reaches(OnlyModes(ms), run, steps, w) && !PendingApart(w.server)
  {
    hide Reaches, IsToken, Handled, DeviceIds.NextId;
    var terms := OnlyModes(ms);
    var t0, t1 := Tokens();
    var answer;
    w := Start(Managed, "u", "v");
    run, steps := Begins(terms, "u", "v", Managed);
    PendsAnswers(w.server, 0, w.agents[0], None);
    run, steps, w, answer := Asks(terms, run, steps, w, 0, Registration, None);
    run, steps, w := Switches(terms, run, steps, w, OpenMode);
    OpenAnswers(w.server, 0, w.agents[0], t0);
    run, steps, w := GetsToken(terms, run, steps, w, 0, Registration, t0);
    assert "A" in w.server.pending && Known(w.server, "A");
  }

  /** Pending and known ids are kept apart in all runs through the modes if and only if open
      mode never comes after managed mode. */
  lemma AlwaysApartIff(ms: Modes)
    ensures AlwaysApart(ms) <==> NotReopened(ms)
  {
    hide IsRun, PendingApart, Within, Reaches;
    if NotReopened(ms) {
      forall run: seq<World>, steps: seq<Step>, i: nat | IsRun(run, steps) && Within(ms, run, steps) && i < |run|
        ensures PendingApart(run[i].server)
      {
        AlwaysSafe(ms, run, steps, i);
        SafeServer(ms, run[i]);
      }
    } else {
      var run, steps, w := ReopeningOverlaps(ms);
      OnlyWithin(ms, run, steps, w);
      assert !PendingApart(run[|run| - 1].server);
    }
  }

  // ----- tokens and device ids

  ghost predicate AllBound(w: World) {
    forall n :: n in w.agents ==> Bound(w.server, w.agents[n])
  }

  /** In every run through the modes each agent's token is bound to its current device id. */
  ghost predicate AlwaysBound(ms: Modes) {
    forall run: seq<World>, steps: seq<Step>, i: nat ::
      IsRun(run, steps) && Within(ms, run, steps) && i < |run| ==> AllBound(run[i])
  }

  // The id an agent of `Start` takes after a conflict.
  function SecondId(): string {
    DeviceIds.NextId("A")
  }

  lemma SecondIdIsNew()
    ensures SecondId() != "A" && SecondId() != ""
  {
    hide DeviceIds.NextId;
    TrimSpaceTrims("A");
    DeviceIds.NeverRepeats("A", 0, 1);
    DeviceIds.NextOfAny("A");
    assert DeviceIds.Nth("A", 1) == DeviceIds.Nth(DeviceIds.NextId("A"), 0);
  }

  lemma PendingReceived(a: Agent, n: nat, id: string)
    requires id != ""
    ensures Received(a, Answer(n, Registration, id, Answered(202, Pending, id, Waiting))) ==
            WithEnrollment(a, Pending, id, "", Waiting)
  {
    hide TrimSpace;
  }

  lemma EndsUnbound(w: World)
    requires 1 in w.agents && w.agents[1].token != "" && w.agents[1].token in w.server.tokens
    requires w.server.tokens[w.agents[1].token].owner != w.agents[1].deviceId
    ensures !AllBound(w)
  {
  }

  /** Managed mode, then open mode: the answer that an id is pending arrives after the agent has
      moved on to another id and been given a token there. */
  lemma LatePendingUnbinds(ms: Modes) returns (run: seq<World>, steps: seq<Step>, w: World)
    requires !NotReopened(ms)
    ensures Reaches(OnlyModes(ms), run, steps, w) && !AllBound(w)
  {
    hide Reaches, IsToken, Handled, SecondId, Received;
    var terms := OnlyModes(ms);
    var t0, t1 := Tokens();
    var late;
    SecondIdIsNew();
    w := Start(Managed, "u", "v");
    run, steps := Begins(terms, "u", "v", Managed);
    PendsAnswers(w.server, 1, w.agents[1], None);
    run, steps, w, late := Asks(terms, run, steps, w, 1, Registration, None);
    run, steps, w := Switches(terms, run, steps, w, OpenMode);
    OpenAnswers(w.server, 0, w.agents[0], t0);
    run, steps, w := GetsToken(terms, run, steps, w, 0, Registration, t0);
    run, steps, w := MovesOn(terms, run, steps, w, late);
    OpenAnswers(w.server, 1, w.agents[1], t1);
    run, steps, w := GetsToken(terms, run, steps, w, 1, Registration, t1);
    PendingReceived(w.agents[1], 1, "A");
    run, steps, w := Receives(terms, run, steps, w, late);
    EndsUnbound(w);
  }

  /** The second agent registers under an id that belongs to another machine, and takes the next
      id. A message under way stays under way. */
  lemma MovesOn(terms: Terms, run: seq<World>, steps: seq<Step>, w: World, other: Message)
    returns (run': seq<World>, steps': seq<Step>, w': World)
    requires Reaches(terms, run, steps, w) && 1 in w.agents && other in w.net
    requires w.agents[1].deviceId == "A" && Conflicts(w.server, "A", w.agents[1].uuid)
    ensures Reaches(terms, run', steps', w') && w'.server == w.server && other in w'.net
    ensures w'.agents == w.agents[1 := WithDeviceId(w.agents[1], SecondId())]
  {
    hide Reaches, Handled, Received, DeviceIds.NextId;
    var answer;
    ConflictAnswers(w.server, 1, w.agents[1], None);
    run', steps', w', answer := Asks(terms, run, steps, w, 1, Registration, None);
    run', steps', w' := Receives(terms, run', steps', w', answer);
  }

  /** Open mode, then managed mode: the token a poll was answered with arrives after the agent
      has moved on, and then the answer that its new id is pending. */
  lemma LateTokenUnbinds(ms: Modes) returns (run: seq<World>, steps: seq<Step>, w: World)
    requires ms.first == OpenMode && Managed in ms.later
    ensures Reaches(OnlyModes(ms), run, steps, w) && !AllBound(w)
  {
    hide Reaches, IsToken, Handled, SecondId, Received;
    var terms := OnlyModes(ms);
    var t0, t1 := Tokens();
    var late, answer;
    SecondIdIsNew();
    w := Start(OpenMode, "u", "v");
    run, steps := Begins(terms, "u", "v", OpenMode);
    OpenAnswers(w.server, 0, w.agents[0], t0);
    run, steps, w := GetsToken(terms, run, steps, w, 0, Registration, t0);
    KnownAnswers(w.server, 1, StatusPoll, w.agents[1], t1);
    run, steps, w, late := Asks(terms, run, steps, w, 1, StatusPoll, Some(t1));
    run, steps, w := MovesOn(terms, run, steps, w, late);
    run, steps, w := Switches(terms, run, steps, w, Managed);
    PendsAnswers(w.server, 1, w.agents[1], None);
    run, steps, w, answer := Asks(terms, run, steps, w, 1, Registration, None);
    GrantReceived(w.agents[1], late, t1);
    run, steps, w := Receives(terms, run, steps, w, late);
    PendingReceived(w.agents[1], 1, SecondId());
    run, steps, w := Receives(terms, run, steps, w, answer);
    EndsUnbound(w);
  }

  /** Agents' tokens are bound to their current ids in all runs through the modes, however late
      answers arrive, if and only if open and managed mode do not occur together. */
  lemma AlwaysBoundIff(ms: Modes)
    ensures AlwaysBound(ms) <==> NotMixed(ms)
  {
    hide IsRun, Within, Reaches, Exclusive, ServerSane;
    if NotMixed(ms) {
      forall run: seq<World>, steps: seq<Step>, i: nat | IsRun(run, steps) && Within(ms, run, steps) && i < |run|
        ensures AllBound(run[i])
      {
        AlwaysSafe(ms, run, steps, i);
        forall n | n in run[i].agents
          ensures Bound(run[i].server, run[i].agents[n])
        {
        }
      }
    } else {
      var run, steps, w;
      if NotReopened(ms) {
        run, steps, w := LateTokenUnbinds(ms);
      } else {
        run, steps, w := LatePendingUnbinds(ms);
      }
      OnlyWithin(ms, run, steps, w);
      assert !AllBound(run[|run| - 1]);
    }
  }}
