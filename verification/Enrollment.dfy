/**
 Device enrollment, the agent: its state, and its calls to the server.
 */
module Enrollment {
  import opened Options
  import opened Text
  import opened DeviceIds
  import Decimal
  import opened EnrollmentService

  // ----- the agent's state

  datatype Agent = Agent(deviceId: string, uuid: string, token: string, status: Status, message: Notice)

  function WithEnrollment(a: Agent, status: Status, id: string, token: string, message: Notice): Agent {
    Agent(Coalesce(id, a.deviceId), a.uuid, Coalesce(token, a.token), status, message)
  }

  function WithDeviceId(a: Agent, id: string): Agent {
    Agent(id, a.uuid, "", NoStatus, NoNotice)
  }

  function Reset(a: Agent): Agent {
    a.(status := NoStatus, token := "", message := NoNotice)
  }

  predicate Enrolled(a: Agent) {
    a.status == Approved && a.token != ""
  }

  class AppState {
    var deviceId: string
    var machineUuid: string
    var deviceToken: string
    var enrollmentStatus: Status
    var enrollmentMessage: Notice
    // The content of the state file, written after every change.
    var file: Agent

    constructor (id: string, uuid: string)
      ensures View() == file == Agent(id, uuid, "", NoStatus, NoNotice)
    {
      deviceId, machineUuid, deviceToken := id, uuid, "";
      enrollmentStatus, enrollmentMessage := NoStatus, NoNotice;
      file := Agent(id, uuid, "", NoStatus, NoNotice);
    }

    function View(): Agent
      reads this
    {
      Agent(deviceId, machineUuid, deviceToken, enrollmentStatus, enrollmentMessage)
    }

    /** The file holds what is in memory. */
    predicate Saved()
      reads this
    {
      file == View()
    }

    method Save()
      modifies this`file
      ensures Saved() && View() == old(View())
    {
      file := View();
    }

    method SetEnrollment(status: Status, id: string, token: string, message: Notice)
      modifies this
      ensures View() == WithEnrollment(old(View()), status, id, token, message) && Saved()
    {
      if id != "" {
        deviceId := id;
      }
      enrollmentStatus := status;
      if token != "" {
        deviceToken := token;
      }
      enrollmentMessage := message;
      Save();
    }

    method SetEnrollmentMessage(message: Notice)
      modifies this
      ensures View() == old(View()).(message := message) && Saved()
    {
      enrollmentMessage := message;
      Save();
    }

    method SetDeviceId(id: string)
      modifies this
      ensures View() == WithDeviceId(old(View()), id) && Saved()
    {
      deviceId := id;
      enrollmentStatus := NoStatus;
      deviceToken := "";
      enrollmentMessage := NoNotice;
      Save();
    }

    method LoadState()
      modifies this
      ensures View() == file == old(file)
    {
      deviceId, machineUuid, deviceToken := file.deviceId, file.uuid, file.token;
      enrollmentStatus, enrollmentMessage := file.status, file.message;
    }

    /** On the flag that clears the enrollment: the state comes from the file. */
    method ResetEnrollmentState()
      modifies this
      ensures View() == Reset(old(file)) && Saved()
      ensures old(Saved()) ==> View() == Reset(old(View()))
    {
      LoadState();
      enrollmentStatus := NoStatus;
      deviceToken := "";
      enrollmentMessage := NoNotice;
      Save();
    }

    method IsEnrolled() returns (b: bool)
      ensures b <==> Enrolled(View())
    {
      b := enrollmentStatus == Approved && deviceToken != "";
    }
  }

  datatype Reply = Reply(status: Status, deviceId: string, token: string, message: Notice)

  // Again: the agent must register (once more).
  datatype Outcome = Done(reply: Reply) | Failed | Again

  function ReplyTo(asked: string, r: Response): Reply {
    Reply(r.status, Coalesce(r.deviceId, asked), TrimSpace(r.token), r.notice)
  }

  /** What the agent does with the answer to a registration of id `asked`. */
  function OnRegister(a: Agent, asked: string, r: Response): (Agent, Outcome) {
    if r.code != 200 && r.code != 202 then
      if r.code == 409 && r.conflict then
        var id := TrimSpace(r.suggested);
        (WithDeviceId(a, if id == "" then DeriveWithSuffix(asked, "-2") else id), Again)
      else (a, Failed)
    else
      var reply := ReplyTo(asked, r);
      match r.status
      case Approved =>
        if reply.token == "" then (a, Failed)
        else (WithEnrollment(a, Approved, reply.deviceId, reply.token, NoNotice), Done(reply))
      case Pending => (WithEnrollment(a, Pending, reply.deviceId, "", r.notice), Done(reply))
      case Rejected => (WithEnrollment(a, Rejected, reply.deviceId, "", r.notice), Done(reply))
      case _ => (a, Failed)
  }

  /** What the agent does with the answer to a status poll for id `asked`. */
  function OnStatus(a: Agent, asked: string, r: Response): (Agent, Outcome) {
    if r.code == 404 then (a, Again)
    else if r.code != 200 then (a, Failed)
    else
      var reply := ReplyTo(asked, r);
      match r.status
      case Approved =>
        if reply.token == "" then (a, Again)
        else (WithEnrollment(a, Approved, reply.deviceId, reply.token, NoNotice), Done(reply))
      case Rejected => (WithEnrollment(a, Rejected, reply.deviceId, "", r.notice), Done(reply))
      case Pending => (a.(message := r.notice), Done(reply))
      case _ => (a, Done(reply))
  }

  // ----- calls without other traffic in between

  // What every agent says of its machine, and the address it calls from.
  const MACHINE: Info := Info("host", "address", "platform", "version", "os_agent")

  /** The agent sends neither a public key nor an enrollment token. */
  function Asking(a: Agent): Request {
    Request(a.deviceId, a.uuid, MACHINE, NoKey, "")
  }

  /** Register, and again under the next id after each conflict. */
  function Register(s: Server, a: Agent, drawn: Option<string>): (Server, Agent, Outcome)
    decreases Distance(s.peers.Keys, a.deviceId)
  {
    var (s', r) := HandleRegister(s, Asking(a), drawn);
    var (a', o) := OnRegister(a, a.deviceId, r);
    if o == Again then
      RetryClimbs(s, a, drawn);
      Register(s', a', drawn)
    else (s', a', o)
  }

  /** The agent tries again exactly after a conflict; the server is unchanged by it. */
  lemma RetryClimbs(s: Server, a: Agent, drawn: Option<string>)
    ensures var (s', r) := HandleRegister(s, Asking(a), drawn);
            var (a', o) := OnRegister(a, a.deviceId, r);
            && (o == Again <==> Conflicts(s, a.deviceId, a.uuid) && a.deviceId != "")
            && (o == Again ==> s' == s && a' == WithDeviceId(a, NextId(a.deviceId))
                               && Distance(s.peers.Keys, a'.deviceId) < Distance(s.peers.Keys, a.deviceId))
  {
    hide SuggestAlternate, TrimSpace, DeriveWithSuffix, Distance, Decimal.Print;
    if Conflicts(s, a.deviceId, a.uuid) && a.deviceId != "" {
      ConflictCounts(s.peers.Keys, a.deviceId);
    }
  }

  method RegisterDevice(st: AppState, srv: EnrollmentServer, drawn: Option<string>) returns (outcome: Outcome)
    modifies st, srv
    ensures (srv.View(), st.View(), outcome) == Register(old(srv.View()), old(st.View()), drawn)
    ensures old(st.Saved()) ==> st.Saved()
    decreases Distance(srv.peers.Keys, st.deviceId)
  {
    RetryClimbs(srv.View(), st.View(), drawn);
    var asked := st.deviceId;
    var resp := srv.HandleDeviceRegister(Request(asked, st.machineUuid, MACHINE, NoKey, ""), drawn);
    if resp.code != 200 && resp.code != 202 {
      if resp.code == 409 && resp.conflict {
        var newId := TrimSpace(resp.suggested);
        if newId == "" {
          newId := DeriveWithSuffix(asked, "-2");
        }
        st.SetDeviceId(newId);
        outcome := RegisterDevice(st, srv, drawn);
        return;
      }
      return Failed;
    }
    var reply := ReplyTo(asked, resp);
    match resp.status {
      case Approved =>
        if reply.token == "" {
          return Failed;
        }
        st.SetEnrollment(Approved, reply.deviceId, reply.token, NoNotice);
      case Pending =>
        st.SetEnrollment(Pending, reply.deviceId, "", resp.notice);
      case Rejected =>
        st.SetEnrollment(Rejected, reply.deviceId, "", resp.notice);
      case _ =>
        return Failed;
    }
    return Done(reply);
  }

  function Poll(s: Server, a: Agent, drawn: Option<string>, drawn': Option<string>): (Server, Agent, Outcome) {
    var (s', r) := HandleStatus(s, a.deviceId, drawn);
    var (a', o) := OnStatus(a, a.deviceId, r);
    if o == Again then Register(s', a', drawn') else (s', a', o)
  }

  method PollEnrollment(st: AppState, srv: EnrollmentServer, drawn: Option<string>, drawn': Option<string>)
    returns (outcome: Outcome)
    modifies st, srv
    ensures (srv.View(), st.View(), outcome) == Poll(old(srv.View()), old(st.View()), drawn, drawn')
    ensures old(st.Saved()) ==> st.Saved()
  {
    var asked := st.deviceId;
    var resp := srv.HandleDeviceRegisterStatus(asked, drawn);
    if resp.code == 404 {
      outcome := RegisterDevice(st, srv, drawn');
      return;
    }
    if resp.code != 200 {
      return Failed;
    }
    var reply := ReplyTo(asked, resp);
    match resp.status {
      case Approved =>
        if reply.token == "" {
          outcome := RegisterDevice(st, srv, drawn');
          return;
        }
        st.SetEnrollment(Approved, reply.deviceId, reply.token, NoNotice);
      case Rejected =>
        st.SetEnrollment(Rejected, reply.deviceId, "", resp.notice);
      case Pending =>
        st.SetEnrollmentMessage(resp.notice);
      case _ =>
    }
    return Done(reply);
  }

  /** Register when needed; an approved agent whose refresh fails reports its cached token. */
  function Ensure(s: Server, a: Agent, drawn: Option<string>, drawn': Option<string>): (Server, Agent, Outcome) {
    if a.status == Approved && a.token != "" then
      var (s', a', o) := Register(s, a, drawn);
      (s', a', if o.Failed? then Done(Reply(Approved, a.deviceId, a.token, NoNotice)) else o)
    else if a.status == Rejected then (s, a, Done(Reply(Rejected, a.deviceId, "", a.message)))
    else if a.status == Pending && a.deviceId != "" then Poll(s, a, drawn, drawn')
    else Register(s, a, drawn)
  }

  method EnsureEnrolled(st: AppState, srv: EnrollmentServer, drawn: Option<string>, drawn': Option<string>)
    returns (outcome: Outcome)
    modifies st, srv
    ensures (srv.View(), st.View(), outcome) == Ensure(old(srv.View()), old(st.View()), drawn, drawn')
    ensures old(st.Saved()) ==> st.Saved()
  {
    var status, token, deviceId := st.enrollmentStatus, st.deviceToken, st.deviceId;
    if status == Approved {
      if token != "" {
        outcome := RegisterDevice(st, srv, drawn);
        if outcome.Failed? {
          return Done(Reply(Approved, deviceId, token, NoNotice));
        }
        return;
      }
      outcome := RegisterDevice(st, srv, drawn);
      return;
    }
    if status == Rejected {
      return Done(Reply(Rejected, deviceId, "", st.enrollmentMessage));
    }
    if status == Pending && deviceId != "" {
      outcome := PollEnrollment(st, srv, drawn, drawn');
      return;
    }
    outcome := RegisterDevice(st, srv, drawn);
  }

  // ----- what the retry amounts to

  // The agent after `k` conflicts.
  function Renamed(a: Agent, k: nat): Agent {
    if k == 0 then a else WithDeviceId(a, Nth(a.deviceId, k))
  }

  /** The retry stops at the first id of the chain that does not conflict, after at most as
      many conflicts as there are peers; its result is that of one registration there. */
  lemma {:induction false} RegisterStops(s: Server, a: Agent, drawn: Option<string>) returns (k: nat)
    ensures k <= Distance(s.peers.Keys, a.deviceId)
    ensures forall j :: 0 <= j < k ==> Conflicts(s, Nth(a.deviceId, j), a.uuid)
    ensures !(Conflicts(s, Nth(a.deviceId, k), a.uuid) && Nth(a.deviceId, k) != "")
    ensures var b := Renamed(a, k);
            var (s', r) := HandleRegister(s, Asking(b), drawn);
            var (a', o) := OnRegister(b, b.deviceId, r);
            Register(s, a, drawn) == (s', a', o)
    decreases Distance(s.peers.Keys, a.deviceId)
  {
    hide NextId, Distance, TrimSpace, DeriveWithSuffix, SuggestAlternate;
    RetryClimbs(s, a, drawn);
    k := 0;
    if Conflicts(s, a.deviceId, a.uuid) && a.deviceId != "" {
      var b := WithDeviceId(a, NextId(a.deviceId));
      var n := RegisterStops(s, b, drawn);
      k := n + 1;
      forall j | 0 <= j < k
        ensures Conflicts(s, Nth(a.deviceId, j), a.uuid)
      {
        if j > 0 {
          assert Nth(a.deviceId, j) == Nth(b.deviceId, j - 1);
        }
      }
      assert Renamed(a, k) == Renamed(b, n);
    }
  }

  /** The bound in terms of the peers table. */
  lemma ConflictsBounded(s: Server, id: string)
    ensures Distance(s.peers.Keys, id) <= |s.peers|
  {
    if id in s.peers && id != "" {
      ConflictCounts(s.peers.Keys, id);
    } else {
      Smaller(Ahead(s.peers.Keys, id), s.peers.Keys);
    }
  }
}
