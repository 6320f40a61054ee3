/**
 Building runs of the enrollment protocol step by step, confined to given terms.
 */
module EnrollmentScripts {
  import opened Options
  import opened Text
  import DeviceIds
  import opened EnrollmentService
  import opened Enrollment
  import opened EnrollmentRuns

  // ----- what a run may be confined to

  // `uuids`: every machine has a fingerprint; `polls`: agents poll only while they are
  // pending, as EnsureEnrolled has it; `stays`: no device is removed.
  datatype Terms = Terms(modes: Modes, uuids: bool, polls: bool, stays: bool)

  ghost predicate HaveUuids(w: World) {
    forall n :: n in w.agents ==> w.agents[n].uuid != ""
  }

  predicate PollOk(w: World, step: Step) {
    step.Send? && step.kind == StatusPoll && step.n in w.agents ==> w.agents[step.n].status == Pending
  }

  predicate StepOk(terms: Terms, w: World, step: Step) {
    && (terms.polls ==> PollOk(w, step))
    && (terms.stays ==> !step.Remove?)
    && (step.SetMode? ==> step.mode in terms.modes.later)
  }

  ghost predicate StepsOk(terms: Terms, run: seq<World>, steps: seq<Step>) {
    forall i :: 0 <= i < |steps| && i < |run| ==> StepOk(terms, run[i], steps[i])
  }

  /** A run on the given terms. */
  ghost predicate ProperRun(terms: Terms, run: seq<World>, steps: seq<Step>) {
    && IsRun(run, steps) && run[0].server.mode == terms.modes.first
    && (terms.uuids ==> HaveUuids(run[0])) && StepsOk(terms, run, steps)
  }

  lemma ProperWithin(terms: Terms, run: seq<World>, steps: seq<Step>)
    requires ProperRun(terms, run, steps)
    ensures IsRun(run, steps) && Within(terms.modes, run, steps)
  {
    forall step | step in steps && step.SetMode?
      ensures step.mode in terms.modes.later
    {
      var i :| 0 <= i < |steps| && steps[i] == step;
      assert StepOk(terms, run[i], steps[i]);
    }
  }

  // ----- extending a run

  // A run on the terms, and its last world.
  ghost predicate Reaches(terms: Terms, run: seq<World>, steps: seq<Step>, w: World) {
    run != [] && ProperRun(terms, run, steps) && w == Latest(run)
  }

  /** One step of a given run. */
  lemma Extend(terms: Terms, run: seq<World>, steps: seq<Step>, w: World, step: Step)
    returns (run': seq<World>, steps': seq<Step>)
    requires Reaches(terms, run, steps, w) && Enabled(w, step) && StepOk(terms, w, step)
    ensures Reaches(terms, run', steps', Next(w, step)) && run'[0] == run[0]
  {
    run', steps' := run + [Next(w, step)], steps + [step];
  }

  /** An agent asks, and the server answers; nothing is delivered yet. */
  lemma Asks(terms: Terms, run: seq<World>, steps: seq<Step>, w: World, n: nat, kind: Kind, drawn: Option<string>)
    returns (run': seq<World>, steps': seq<Step>, w': World, answer: Message)
    requires Reaches(terms, run, steps, w) && n in w.agents && (drawn.Some? ==> IsToken(drawn.value))
    requires kind == StatusPoll && terms.polls ==> w.agents[n].status == Pending
    ensures Reaches(terms, run', steps', w') && w'.agents == w.agents && w.net <= w'.net && answer in w'.net
    ensures var (s', r) := Handled(w.server, Ask(n, kind, Asking(w.agents[n])), drawn);
            w'.server == s' && answer == Answer(n, kind, w.agents[n].deviceId, r)
  {
    hide Handled, Reaches;
    var ask := Ask(n, kind, Asking(w.agents[n]));
    run', steps' := Extend(terms, run, steps, w, Send(n, kind));
    w' := Next(w, Send(n, kind));
    run', steps' := Extend(terms, run', steps', w', Handle(ask, drawn));
    w' := Next(w', Handle(ask, drawn));
    answer := Answer(n, kind, w.agents[n].deviceId, Handled(w.server, ask, drawn).1);
  }

  lemma Receives(terms: Terms, run: seq<World>, steps: seq<Step>, w: World, answer: Message)
    returns (run': seq<World>, steps': seq<Step>, w': World)
    requires Reaches(terms, run, steps, w) && answer in w.net && answer.Answer? && answer.to in w.agents
    ensures Reaches(terms, run', steps', w') && w'.server == w.server && w'.net == w.net
    ensures w'.agents == w.agents[answer.to := Received(w.agents[answer.to], answer)]
  {
    hide Received, Reaches;
    run', steps' := Extend(terms, run, steps, w, Deliver(answer));
    w' := Next(w, Deliver(answer));
  }

  // An answer that approves with a token.
  predicate Grants(r: Response, id: string, t: string) {
    r.code == 200 && r.status == Approved && r.token == t && r.deviceId == id != ""
  }

  lemma GrantReceived(a: Agent, m: Message, t: string)
    requires m.Answer? && Grants(m.response, m.asked, t) && IsToken(t)
    ensures Received(a, m) == WithEnrollment(a, Approved, m.asked, t, NoNotice)
  {
    hide TrimSpace;
    TokenTrimmed(t);
  }

  /** An agent whose request is answered with a token receives it. */
  lemma GetsToken(terms: Terms, run: seq<World>, steps: seq<Step>, w: World, n: nat, kind: Kind, t: string)
    returns (run': seq<World>, steps': seq<Step>, w': World)
    requires Reaches(terms, run, steps, w) && n in w.agents && IsToken(t)
    requires kind == StatusPoll && terms.polls ==> w.agents[n].status == Pending
    requires Grants(Handled(w.server, Ask(n, kind, Asking(w.agents[n])), Some(t)).1, w.agents[n].deviceId, t)
    ensures Reaches(terms, run', steps', w') && w.net <= w'.net
    ensures w'.server == Handled(w.server, Ask(n, kind, Asking(w.agents[n])), Some(t)).0
    ensures var a := w.agents[n];
            w'.agents == w.agents[n := WithEnrollment(a, Approved, a.deviceId, t, NoNotice)]
  {
    hide Handled, Reaches, Received;
    var answer;
    run', steps', w', answer := Asks(terms, run, steps, w, n, kind, Some(t));
    GrantReceived(w.agents[n], answer, t);
    run', steps', w' := Receives(terms, run', steps', w', answer);
  }

  lemma Switches(terms: Terms, run: seq<World>, steps: seq<Step>, w: World, mode: Mode)
    returns (run': seq<World>, steps': seq<Step>, w': World)
    requires Reaches(terms, run, steps, w) && mode in terms.modes.later && mode != OtherMode
    ensures Reaches(terms, run', steps', w') && w' == w.(server := w.server.(mode := mode))
  {
    hide Reaches;
    run', steps' := Extend(terms, run, steps, w, SetMode(mode));
    w' := Next(w, SetMode(mode));
  }

  // ----- what the server answers

  /** A known device whose uuid does not conflict is given the token drawn. */
  lemma KnownAnswers(s: Server, n: nat, kind: Kind, a: Agent, t: string)
    requires Known(s, a.deviceId) && a.deviceId != "" && t !in s.tokens
    requires kind == StatusPoll || !Conflicts(s, a.deviceId, a.uuid)
    ensures var (s', r) := Handled(s, Ask(n, kind, Asking(a)), Some(t));
            Grants(r, a.deviceId, t) && s' == s.(tokens := s.tokens[t := Issued(a.deviceId)])
  {
  }

  /** In open mode a device that is not known is enrolled, even one that was removed. */
  lemma OpenAnswers(s: Server, n: nat, a: Agent, t: string)
    requires s.mode == OpenMode && !Known(s, a.deviceId) && !IsBanned(s, a.deviceId)
    requires a.deviceId != "" && t !in s.tokens
    ensures var (s', r) := Handled(s, Ask(n, Registration, Asking(a)), Some(t));
            && Grants(r, a.deviceId, t)
            && s'.mode == s.mode && s'.tokens == s.tokens[t := Issued(a.deviceId)] && s'.pending == s.pending
            && s'.peers.Keys == s.peers.Keys + {a.deviceId} && !s'.peers[a.deviceId].banned
            && (forall id :: id in s.peers && id != a.deviceId ==> s'.peers[id] == s.peers[id])
            && (a.deviceId !in s.peers ==> s'.peers[a.deviceId].uuid == a.uuid && !s'.peers[a.deviceId].removed)
  {
    hide Typed, MergedInfo;
  }

  /** In managed mode a device without a row becomes pending. */
  lemma PendsAnswers(s: Server, n: nat, a: Agent, drawn: Option<string>)
    requires s.mode == Managed && a.deviceId != "" && a.deviceId !in s.peers
    ensures var (s', r) := Handled(s, Ask(n, Registration, Asking(a)), drawn);
            && r == Answered(202, Pending, a.deviceId, Waiting)
            && s' == s.(pending := s.pending[a.deviceId := s'.pending[a.deviceId]])
            && a.deviceId in s'.pending && s'.pending[a.deviceId].deviceId == a.deviceId
  {
  }

  /** A conflict sends the agent on to the next id, without a token. */
  lemma ConflictAnswers(s: Server, n: nat, a: Agent, drawn: Option<string>)
    requires Conflicts(s, a.deviceId, a.uuid) && a.deviceId != ""
    ensures var (s', r) := Handled(s, Ask(n, Registration, Asking(a)), drawn);
            && s' == s
            && Received(a, Answer(n, Registration, a.deviceId, r)) == WithDeviceId(a, DeviceIds.NextId(a.deviceId))
  {
    RetryClimbs(s, a, drawn);
  }

  // ----- where the runs start

  // Two agents with one device id; the server knows nothing yet.
  function Start(mode: Mode, u: string, v: string): World {
    World(Fresh(mode),
          map[0 := Agent("A", u, "", NoStatus, NoNotice), 1 := Agent("A", v, "", NoStatus, NoNotice)], {})
  }

  lemma StartsRun(terms: Terms, u: string, v: string)
    requires terms.uuids ==> u != "" && v != ""
    ensures var w := Start(terms.modes.first, u, v); Reaches(terms, [w], [], w)
  {
  }

  /** A run that has reached a mode of its terms, with nothing done yet. */
  lemma Begins(terms: Terms, u: string, v: string, mode: Mode) returns (run: seq<World>, steps: seq<Step>)
    requires terms.uuids ==> u != "" && v != ""
    requires mode in All(terms.modes) && mode in {OpenMode, Managed}
    ensures Reaches(terms, run, steps, Start(mode, u, v))
  {
    hide Reaches;
    var w := Start(terms.modes.first, u, v);
    StartsRun(terms, u, v);
    run, steps := [w], [];
    if terms.modes.first != mode {
      run, steps, w := Switches(terms, run, steps, w, mode);
    }
  }

  function Repeated(c: char): (t: string)
    requires IsHex(c)
    ensures IsToken(t) && t[0] == c
  {
    seq(32, _ => c)
  }

  lemma Tokens() returns (t0: string, t1: string)
    ensures IsToken(t0) && IsToken(t1) && t0 != t1 && t0 != "" && t1 != ""
  {
    t0, t1 := Repeated('0'), Repeated('1');
  }
}
