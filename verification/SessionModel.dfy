/** The session protocol of libcrocofix/session.cpp as a function from a session state
    and an incoming message to the next state, the messages handed to the writer and a
    log of which incoming sequence numbers were consumed. The class in Session.dfy is the
    imperative form of the same handlers and is proved to compute exactly these functions. */
module SessionModel {
  import opened Optional

  /** The text of a field that is expected to hold a number: either the decimal text of a
      non-negative number, or text that does not parse. */
  datatype Text = Decimal(n: nat) | Other(s: string)

  datatype Body =
    | Logon(heartBtInt: Option<Text>, resetSeqNum: bool, nextExpected: Option<Text>)
    | Heartbeat(testReqId: Option<Text>)
    | TestRequest(testReqId: Option<Text>)
    | ResendRequest(beginSeqNo: Option<Text>, endSeqNo: Option<Text>)
    | SequenceReset(gapFill: bool, newSeqNo: Option<Text>)
    | Logout
    | Reject(refSeqNum: nat)
    | XmlNonFix
    | Application(payload: nat)

  /** `intact` is the joint outcome of the CheckSum, BodyLength, BeginString and CompID
      validations, which all reject and close in the same way. */
  datatype Message = Message(seqNum: nat, possDup: bool, intact: bool, body: Body)

  predicate IsAdmin(m: Message) { !m.body.Application? }

  datatype Behaviour = Initiator | Acceptor

  datatype Phase = Disconnected | Connected | LoggingOn | Resending | LoggedOn | Resetting

  /** `timers` counts the scheduled post-logon test request callbacks that have neither run
      nor been cancelled; `armed` says that the session still holds the token of the newest
      one. `delayed` is test_request_delay() != 0. */
  datatype State = State(
    behaviour: Behaviour,
    delayed: bool,
    nextExpectedMode: bool,
    phase: Phase,
    logonReceived: bool,
    expectedTestReqId: Option<nat>,
    nextTestReqId: nat,
    incoming: nat,
    outgoing: nat,
    resent: nat,
    target: nat,
    timers: nat,
    armed: bool,
    heartbeatInterval: nat,
    defibrillating: bool)

  /** What the acceptance log records: the numbering restarted at 1, or the incoming
      numbers lo, lo + 1, ..., hi - 1 were consumed. */
  datatype Entry = Restarted | Covered(lo: nat, hi: nat)

  datatype Outcome = Outcome(state: State, sent: seq<Message>, log: seq<Entry>) {
    /** Runs a further stage from this outcome's state. */
    function Then(next: Outcome): Outcome {
      Outcome(next.state, sent + next.sent, log + next.log)
    }
  }

  function Quiet(s: State): Outcome { Outcome(s, [], []) }

  /** A fresh session whose options and sequence numbers have been configured. */
  function NewSession(behaviour: Behaviour, delayed: bool, nextExpectedMode: bool, incoming: nat, outgoing: nat,
                      heartbeatInterval: nat): State
  {
    State(behaviour, delayed, nextExpectedMode, Connected, false, None, 0, incoming, outgoing, 0, 0, 0, false,
          heartbeatInterval, false)
  }

  // ---------------------------------------------------------------- sending

  /** Sending with the standard options: a reset Logon first restarts both counters. */
  function Send(s: State, body: Body): Outcome {
    if body.Logon? && body.resetSeqNum then
      Outcome(s.(phase := Resetting, incoming := 1, outgoing := 2), [Message(1, false, true, body)], [Restarted])
    else
      Outcome(s.(outgoing := s.outgoing + 1), [Message(s.outgoing, false, true, body)], [])
  }

  function GapFillMessage(begin: nat, newSeqNo: nat): Message {
    Message(begin, true, true, SequenceReset(true, Some(Decimal(newSeqNo))))
  }

  /** perform_resend: one gap fill over everything sent so far; it takes no number. */
  function PerformResend(s: State, begin: nat): Outcome {
    Outcome(s, [GapFillMessage(begin, s.outgoing)], [])
  }

  function LogonBody(s: State, reset: bool): Body {
    Logon(Some(Decimal(s.heartbeatInterval)), reset,
          if s.nextExpectedMode then Some(Decimal(s.incoming)) else None)
  }

  function SendLogon(s: State, reset: bool): Outcome { Send(s, LogonBody(s, reset)) }

  function SendTestRequest(s: State): Outcome {
    Send(s.(expectedTestReqId := Some(s.nextTestReqId), nextTestReqId := s.nextTestReqId + 1),
         TestRequest(Some(Decimal(s.nextTestReqId))))
  }

  function SendPostLogonTestRequest(s: State): Outcome {
    if s.delayed then Quiet(s.(timers := s.timers + 1, armed := true)) else SendTestRequest(s)
  }

  function StopTestRequestTimer(s: State): State {
    if s.armed && s.timers > 0 then s.(timers := s.timers - 1, armed := false) else s.(armed := false)
  }

  function StartDefibrillator(s: State): State { s.(defibrillating := s.heartbeatInterval != 0) }

  function Close(s: State): State { s.(phase := Disconnected) }

  function SendReject(s: State, m: Message): Outcome { Send(s, Reject(m.seqNum)) }

  /** send_logout: sends, stops heartbeats if logged on, and closes. */
  function SendLogout(s: State): Outcome {
    var o := Send(s, Logout);
    o.(state := Close(o.state.(defibrillating := o.state.defibrillating && s.phase != LoggedOn)))
  }

  // ------------------------------------------------------- sequence numbers

  function RequestResend(s: State, received: nat): Outcome {
    Send(s.(phase := Resending, resent := s.incoming, target := received),
         ResendRequest(Some(Decimal(s.incoming)), Some(Decimal(received))))
  }

  predicate IsHigh(s: State, m: Message) { m.seqNum > s.incoming }

  predicate IsLow(s: State, m: Message) { m.seqNum < s.incoming }

  /** A number that is too high extends a recovery in flight, or begins one. */
  function OnHigh(s: State, m: Message): Outcome {
    if s.phase == Resending then
      Quiet(s.(target := if m.seqNum > s.target then m.seqNum else s.target))
    else
      RequestResend(s, m.seqNum)
  }

  // --------------------------------------------------------------- handlers

  datatype LogonResult = LogonResult(accepted: bool, outcome: Outcome)

  function OnResetLogon(s: State, m: Message): LogonResult
    requires m.body.Logon?
  {
    if m.seqNum != 1 then LogonResult(false, Quiet(s))
    else if s.phase == Resetting then
      LogonResult(true, Outcome(s, [], [Restarted]).Then(SendTestRequest(s)))
    else
      var s1 := s.(defibrillating := false, phase := Resetting, outgoing := 1, incoming := 1);
      var o := SendLogon(s1, true);
      LogonResult(true, o.Then(SendPostLogonTestRequest(o.state)))
  }

  function OnNextExpectedLogon(s: State, m: Message): LogonResult
    requires m.body.Logon?
  {
    if m.body.nextExpected.None? || m.body.nextExpected.value.Other? then LogonResult(false, SendLogout(s))
    else
      var nextExpected := m.body.nextExpected.value.n;
      if nextExpected > s.outgoing then LogonResult(false, SendLogout(s))
      else LogonResult(true, NextExpectedReply(s, nextExpected))
  }

  /** A gap fill if more than one message was missed, the Logon of an acceptor, a test request. */
  function NextExpectedReply(s: State, nextExpected: nat): Outcome {
    var o1 := if nextExpected + 1 < s.outgoing then PerformResend(s.(phase := Resending), nextExpected) else Quiet(s);
    var o2 := if s.behaviour == Acceptor then o1.Then(SendLogon(o1.state, false)) else o1;
    o2.Then(SendPostLogonTestRequest(o2.state))
  }

  function OnPlainLogon(s: State, m: Message): LogonResult
    requires m.body.Logon?
  {
    if IsLow(s, m) then LogonResult(false, SendLogout(s))
    else
      var o := if s.behaviour == Acceptor then SendLogon(s, false) else Quiet(s);
      if IsHigh(o.state, m) then LogonResult(false, o.Then(OnHigh(o.state, m)))
      else LogonResult(true, o.Then(SendPostLogonTestRequest(o.state)))
  }

  function ProcessLogon(s: State, m: Message): LogonResult
    requires m.body.Logon?
  {
    if m.body.heartBtInt.None? || m.body.heartBtInt.value.Other? then
      var o := SendReject(s, m);
      LogonResult(false, o.Then(SendLogout(o.state)))
    else
      var s1 := s.(heartbeatInterval := m.body.heartBtInt.value.n, logonReceived := true);
      if s1.nextExpectedMode then OnNextExpectedLogon(s1, m)
      else if m.body.resetSeqNum then OnResetLogon(s1, m)
      else OnPlainLogon(s1, m)
  }

  function ProcessHeartbeat(s: State, m: Message): Outcome
    requires m.body.Heartbeat?
  {
    if s.phase !in {LoggingOn, Resetting, Resending} then Quiet(s)
    else if m.body.testReqId.Some? && s.expectedTestReqId.None? then Quiet(s)
    else if m.body.testReqId.Some? && m.body.testReqId.value != Decimal(s.expectedTestReqId.value) then Quiet(Close(s))
    else Quiet(StartDefibrillator(s.(phase := LoggedOn)))
  }

  function ProcessTestRequest(s: State, m: Message): Outcome
    requires m.body.TestRequest?
  {
    if m.body.testReqId.None? then SendReject(s, m) else Send(s, Heartbeat(m.body.testReqId))
  }

  /** Text that does not parse makes the source throw out of the handler: nothing is sent. */
  function ProcessResendRequest(s: State, m: Message): Outcome
    requires m.body.ResendRequest?
  {
    var s1 := StopTestRequestTimer(s);
    if m.body.beginSeqNo.None? || m.body.endSeqNo.None? then SendReject(s1, m)
    else if m.body.beginSeqNo.value.Other? || m.body.endSeqNo.value.Other? then Quiet(s1)
    else
      var o := PerformResend(s1, m.body.beginSeqNo.value.n);
      o.Then(SendPostLogonTestRequest(o.state))
  }

  /** The end of process_sequence_reset: a recovery that reached its target is confirmed by
      a test request. */
  function CompleteRecovery(s: State): Outcome {
    if s.phase == Resending && s.resent >= s.target then
      var o := SendTestRequest(s);
      o.(state := StartDefibrillator(o.state))
    else Quiet(s)
  }

  function ProcessSequenceReset(s: State, m: Message): Outcome
    requires m.body.SequenceReset?
  {
    if m.body.newSeqNo.None? || m.body.newSeqNo.value.Other? || m.body.newSeqNo.value.n <= s.incoming then
      SendReject(s, m)
    else
      var newSeqNo := m.body.newSeqNo.value.n;
      if !m.body.gapFill then CompleteRecovery(s.(resent := newSeqNo))
      else if IsHigh(s, m) then OnHigh(s, m)
      else if IsLow(s, m) then SendLogout(s)
      else if s.phase != (if s.nextExpectedMode then LoggingOn else Resending) then SendReject(s, m)
      else
        var s1 := s.(resent := newSeqNo, incoming := newSeqNo);
        Outcome(s, [], [Covered(m.seqNum, newSeqNo)]).Then(CompleteRecovery(s1))
  }

  /** The dispatch at the end of on_message_read, once the message has been accepted. */
  function Dispatch(s: State, m: Message): Outcome {
    match m.body
    case Heartbeat(_) => ProcessHeartbeat(s, m)
    case TestRequest(_) => ProcessTestRequest(s, m)
    case ResendRequest(_, _) => ProcessResendRequest(s, m)
    case Logout => Quiet(Close(s))
    case _ => Quiet(s)
  }

  predicate FirstMessageOk(s: State, m: Message) {
    s.behaviour == Initiator || s.logonReceived || m.body.Logon? || m.body.Reject? || m.body.Logout?
  }

  /** An accepted message advances the incoming number past its own. */
  function Accept(s: State, m: Message): Outcome {
    Outcome(s.(incoming := m.seqNum + 1), [], [Covered(m.seqNum, m.seqNum + 1)])
  }

  /** on_message_read. */
  function Receive(s: State, m: Message): Outcome {
    if !m.intact then
      var o := SendReject(s, m);
      o.(state := Close(o.state))
    else if !FirstMessageOk(s, m) then
      var o := SendReject(s, m);
      o.Then(SendLogout(o.state))
    else if m.body.SequenceReset? then ProcessSequenceReset(s, m)
    else if m.possDup && IsAdmin(m) then Quiet(s)
    else if m.body.Logon? then
      var r := ProcessLogon(s, m);
      if r.accepted then r.outcome.Then(Accept(r.outcome.state, m)) else r.outcome
    else if IsHigh(s, m) then OnHigh(s, m)
    else if IsLow(s, m) then SendLogout(s)
    else
      var o := Accept(s, m);
      o.Then(Dispatch(o.state, m))
  }

  /** logon(): only from the connected state, otherwise the source throws. */
  function Open(s: State): Outcome {
    if s.phase != Connected then Quiet(s)
    else if s.behaviour == Initiator then SendLogon(s.(phase := LoggingOn), false)
    else Quiet(s.(phase := LoggingOn))
  }

  /** The callback scheduled by send_post_logon_test_request. */
  function TestTimer(s: State): Outcome {
    if s.timers == 0 then Quiet(s) else SendTestRequest(s.(timers := s.timers - 1, armed := false))
  }

  /** The repeating callback of start_defibrillator. */
  function HeartbeatTimer(s: State): Outcome {
    if s.defibrillating && s.phase == LoggedOn then Send(s, Heartbeat(None)) else Quiet(s)
  }
}
