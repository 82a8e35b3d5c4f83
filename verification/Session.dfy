/** The session of libcrocofix/session.cpp as an object whose handlers update its fields
    step by step. Every handler is proved to do exactly what the functions of SessionModel
    say: same next state, same messages in the same order, same acceptance log. */
module Session {
  import opened Optional
  import opened SessionModel
  import opened SessionRuns

  /** Accepting after processing a Logon, or in sequence, is what Receive describes. */
  lemma AcceptanceMatchesReceive(before: Outcome, s0: State, s: State, m: Message)
    requires m.intact && FirstMessageOk(s0, m) && !m.body.SequenceReset? && !(m.possDup && IsAdmin(m))
    requires if m.body.Logon? then ProcessLogon(s0, m).accepted && s == ProcessLogon(s0, m).outcome.state
             else m.seqNum == s0.incoming && s == s0
    ensures var o := Accept(s, m);
            var rest := o.Then(Dispatch(o.state, m));
            if m.body.Logon? then before.Then(ProcessLogon(s0, m).outcome).Then(rest) == before.Then(Receive(s0, m))
            else rest == Receive(s0, m)
  {
    var o := Accept(s, m);
    if m.body.Logon? {
      assert o.Then(Dispatch(o.state, m)) == o;
      ThenIsAssociative(before, ProcessLogon(s0, m).outcome, o);
    }
  }

  class Session {
    const behaviour: Behaviour
    const delayed: bool
    const nextExpectedMode: bool
    var phase: Phase
    var logonReceived: bool
    var expectedTestReqId: Option<nat>
    var nextTestReqId: nat
    var incoming: nat
    var outgoing: nat
    var resent: nat
    var target: nat
    var timers: nat
    var armed: bool
    var heartbeatInterval: nat
    var defibrillating: bool
    var sent: seq<Message>      // everything handed to the writer
    ghost var log: seq<Entry>
    ghost const start: State    // as configured

    ghost function View(): State
      reads this
    {
      State(behaviour, delayed, nextExpectedMode, phase, logonReceived, expectedTestReqId, nextTestReqId,
            incoming, outgoing, resent, target, timers, armed, heartbeatInterval, defibrillating)
    }

    /** Everything observable so far. */
    ghost function Trace(): Outcome
      reads this
    {
      Outcome(View(), sent, log)
    }

    constructor (behaviour: Behaviour, delayed: bool, nextExpectedMode: bool, incoming: nat, outgoing: nat,
                 heartbeatInterval: nat)
      ensures Trace() == Quiet(NewSession(behaviour, delayed, nextExpectedMode, incoming, outgoing, heartbeatInterval))
      ensures start == View() && Sound()
    {
      start := NewSession(behaviour, delayed, nextExpectedMode, incoming, outgoing, heartbeatInterval);
      this.behaviour, this.delayed, this.nextExpectedMode := behaviour, delayed, nextExpectedMode;
      phase, logonReceived, expectedTestReqId, nextTestReqId := Connected, false, None, 0;
      this.incoming, this.outgoing, resent, target := incoming, outgoing, 0, 0;
      timers, armed, this.heartbeatInterval, defibrillating := 0, false, heartbeatInterval, false;
      sent, log := [], [];
    }

    // -------------------------------------------------------------- sending

    method Send(body: Body)
      modifies this
      ensures Trace() == old(Trace()).Then(SessionModel.Send(old(View()), body))
    {
      if body.Logon? && body.resetSeqNum {
        phase := Resetting;
        outgoing := 1;
        incoming := 1;
        log := log + [Restarted];
      }
      var number := outgoing;
      outgoing := outgoing + 1;
      sent := sent + [Message(number, false, true, body)];
    }

    method SendGapFill(msgSeqNum: nat, newSeqNo: nat)
      modifies this
      ensures Trace() == old(Trace()).Then(Outcome(old(View()), [GapFillMessage(msgSeqNum, newSeqNo)], []))
    {
      sent := sent + [GapFillMessage(msgSeqNum, newSeqNo)];
    }

    method PerformResend(begin: nat)
      modifies this
      ensures Trace() == old(Trace()).Then(SessionModel.PerformResend(old(View()), begin))
    {
      SendGapFill(begin, outgoing);
    }

    method SendLogon(reset: bool)
      modifies this
      ensures Trace() == old(Trace()).Then(SessionModel.SendLogon(old(View()), reset))
    {
      var nextExpected := None;
      if nextExpectedMode {
        nextExpected := Some(Decimal(incoming));
      }
      Send(Logon(Some(Decimal(heartbeatInterval)), reset, nextExpected));
    }

    method SendTestRequest()
      modifies this
      ensures Trace() == old(Trace()).Then(SessionModel.SendTestRequest(old(View())))
    {
      var id := nextTestReqId;
      nextTestReqId := nextTestReqId + 1;
      expectedTestReqId := Some(id);
      Send(TestRequest(Some(Decimal(id))));
    }

    method SendPostLogonTestRequest()
      modifies this
      ensures Trace() == old(Trace()).Then(SessionModel.SendPostLogonTestRequest(old(View())))
    {
      if delayed {
        timers := timers + 1;
        armed := true;
      } else {
        SendTestRequest();
      }
    }

    method StopTestRequestTimer()
      modifies this
      ensures Trace() == old(Trace()).(state := SessionModel.StopTestRequestTimer(old(View())))
    {
      if armed && timers > 0 {
        timers := timers - 1;
      }
      armed := false;
    }

    method StartDefibrillator()
      modifies this
      ensures Trace() == old(Trace()).(state := SessionModel.StartDefibrillator(old(View())))
    {
      defibrillating := false;
      if heartbeatInterval == 0 {
        return;
      }
      defibrillating := true;
    }

    method Close()
      modifies this
      ensures Trace() == old(Trace()).(state := SessionModel.Close(old(View())))
    {
      phase := Disconnected;
    }

    method SendReject(m: Message)
      modifies this
      ensures Trace() == old(Trace()).Then(SessionModel.SendReject(old(View()), m))
    {
      Send(Reject(m.seqNum));
    }

    method SendLogout()
      modifies this
      ensures Trace() == old(Trace()).Then(SessionModel.SendLogout(old(View())))
    {
      Send(Logout);
      if phase == LoggedOn {
        defibrillating := false;
        phase := Connected;
      }
      Close();
    }

    // ----------------------------------------------------- sequence numbers

    method RequestResend(received: nat)
      modifies this
      ensures Trace() == old(Trace()).Then(SessionModel.RequestResend(old(View()), received))
    {
      phase := Resending;
      resent := incoming;
      target := received;
      Send(ResendRequest(Some(Decimal(incoming)), Some(Decimal(received))));
    }

    method SequenceNumberIsHigh(m: Message) returns (high: bool)
      modifies this
      ensures high == IsHigh(old(View()), m)
      ensures Trace() == if high then old(Trace()).Then(OnHigh(old(View()), m)) else old(Trace())
    {
      if m.seqNum > incoming {
        if phase == Resending {
          if m.seqNum > target {
            target := m.seqNum;
          }
        } else {
          RequestResend(m.seqNum);
        }
        return true;
      }
      return false;
    }

    method SequenceNumberIsLow(m: Message) returns (low: bool)
      modifies this
      ensures low == IsLow(old(View()), m)
      ensures Trace() == if low then old(Trace()).Then(SessionModel.SendLogout(old(View()))) else old(Trace())
    {
      if m.seqNum < incoming {
        SendLogout();
        return true;
      }
      return false;
    }

    method ValidateSequenceNumbers(m: Message) returns (ok: bool)
      modifies this
      ensures ok == (m.seqNum == old(incoming))
      ensures Trace() == if IsHigh(old(View()), m) then old(Trace()).Then(OnHigh(old(View()), m))
                         else if IsLow(old(View()), m) then old(Trace()).Then(SessionModel.SendLogout(old(View())))
                         else old(Trace())
    {
      var high := SequenceNumberIsHigh(m);
      if high {
        return false;
      }
      var low := SequenceNumberIsLow(m);
      return !low;
    }

    // ------------------------------------------------------------- handlers

    method Reset()
      modifies this
      ensures var s := old(View()).(defibrillating := false, phase := Resetting, outgoing := 1, incoming := 1);
              Trace() == old(Trace()).(state := s)
    {
      defibrillating := false;
      phase := Resetting;
      outgoing := 1;
      incoming := 1;
    }

    method ExtractHeartbeatInterval(m: Message) returns (ok: bool)
      requires m.body.Logon?
      modifies this
      ensures ok == (m.body.heartBtInt.Some? && m.body.heartBtInt.value.Decimal?)
      ensures if ok then Trace() == old(Trace()).(state := old(View()).(heartbeatInterval := m.body.heartBtInt.value.n))
              else var o := SessionModel.SendReject(old(View()), m);
                   Trace() == old(Trace()).Then(o.Then(SessionModel.SendLogout(o.state)))
    {
      if m.body.heartBtInt.None? || m.body.heartBtInt.value.Other? {
        SendReject(m);
        SendLogout();
        return false;
      }
      heartbeatInterval := m.body.heartBtInt.value.n;
      return true;
    }

    method ProcessNextExpected(m: Message) returns (accepted: bool)
      requires m.body.Logon?
      modifies this
      ensures var r := OnNextExpectedLogon(old(View()), m);
              accepted == r.accepted && Trace() == old(Trace()).Then(r.outcome)
    {
      hide SessionModel.SendLogout, NextExpectedReply;
      if m.body.nextExpected.None? || m.body.nextExpected.value.Other? {
        SendLogout();
        return false;
      }
      var nextExpected := m.body.nextExpected.value.n;
      if nextExpected > outgoing {
        SendLogout();
        return false;
      }
      ReplyNextExpected(nextExpected);
      return true;
    }

    /** Repairs the peer's gap if there is one, answers its Logon and asks a test request. */
    method ReplyNextExpected(nextExpected: nat)
      modifies this
      ensures Trace() == old(Trace()).Then(NextExpectedReply(old(View()), nextExpected))
    {
      hide SessionModel.PerformResend, SessionModel.SendLogon, SessionModel.SendPostLogonTestRequest;
      ghost var s := View();
      ghost var fills := nextExpected + 1 < s.outgoing;
      ghost var o1 := if fills then SessionModel.PerformResend(s.(phase := Resending), nextExpected) else Quiet(s);
      if nextExpected + 1 < outgoing {
        phase := Resending;
        PerformResend(nextExpected);
      }
      assert Trace() == old(Trace()).Then(o1);
      ghost var o2 := if s.behaviour == Acceptor then o1.Then(SessionModel.SendLogon(o1.state, false)) else o1;
      if behaviour == Acceptor {
        SendLogon(false);
        ThenIsAssociative(old(Trace()), o1, SessionModel.SendLogon(o1.state, false));
      }
      assert Trace() == old(Trace()).Then(o2);
      SendPostLogonTestRequest();
      ThenIsAssociative(old(Trace()), o2, SessionModel.SendPostLogonTestRequest(o2.state));
    }

    method ProcessReset(m: Message) returns (accepted: bool)
      requires m.body.Logon?
      modifies this
      ensures var r := OnResetLogon(old(View()), m);
              accepted == r.accepted && Trace() == old(Trace()).Then(r.outcome)
    {
      if m.seqNum != 1 {
        return false;
      }
      if phase == Resetting {
        log := log + [Restarted];
        SendTestRequest();
        return true;
      }
      Reset();
      SendLogon(true);
      SendPostLogonTestRequest();
      return true;
    }

    method ProcessPlain(m: Message) returns (accepted: bool)
      requires m.body.Logon?
      modifies this
      ensures var r := OnPlainLogon(old(View()), m);
              accepted == r.accepted && Trace() == old(Trace()).Then(r.outcome)
    {
      var low := SequenceNumberIsLow(m);
      if low {
        return false;
      }
      if behaviour == Acceptor {
        SendLogon(false);
      }
      var high := SequenceNumberIsHigh(m);
      if high {
        return false;
      }
      SendPostLogonTestRequest();
      return true;
    }

    method ProcessLogon(m: Message) returns (accepted: bool)
      requires m.body.Logon?
      modifies this
      ensures var r := SessionModel.ProcessLogon(old(View()), m);
              accepted == r.accepted && Trace() == old(Trace()).Then(r.outcome)
    {
      var ok := ExtractHeartbeatInterval(m);
      if !ok {
        return false;
      }
      logonReceived := true;
      if nextExpectedMode {
        accepted := ProcessNextExpected(m);
      } else if m.body.resetSeqNum {
        accepted := ProcessReset(m);
      } else {
        accepted := ProcessPlain(m);
      }
    }

    method ProcessHeartbeat(m: Message)
      requires m.body.Heartbeat?
      modifies this
      ensures Trace() == old(Trace()).Then(SessionModel.ProcessHeartbeat(old(View()), m))
    {
      if phase != LoggingOn && phase != Resetting && phase != Resending {
        return;
      }
      if m.body.testReqId.Some? {
        if expectedTestReqId.None? {
          return;
        }
        if m.body.testReqId.value != Decimal(expectedTestReqId.value) {
          Close();
          return;
        }
      }
      phase := LoggedOn;
      StartDefibrillator();
    }

    method ProcessTestRequest(m: Message)
      requires m.body.TestRequest?
      modifies this
      ensures Trace() == old(Trace()).Then(SessionModel.ProcessTestRequest(old(View()), m))
    {
      if m.body.testReqId.None? {
        SendReject(m);
        return;
      }
      Send(Heartbeat(m.body.testReqId));
    }

    method ProcessResendRequest(m: Message)
      requires m.body.ResendRequest?
      modifies this
      ensures Trace() == old(Trace()).Then(SessionModel.ProcessResendRequest(old(View()), m))
    {
      StopTestRequestTimer();
      if m.body.beginSeqNo.None? || m.body.endSeqNo.None? {
        SendReject(m);
        return;
      }
      if m.body.beginSeqNo.value.Other? || m.body.endSeqNo.value.Other? {
        return;
      }
      PerformResend(m.body.beginSeqNo.value.n);
      SendPostLogonTestRequest();
    }

    method CompleteRecovery()
      modifies this
      ensures Trace() == old(Trace()).Then(SessionModel.CompleteRecovery(old(View())))
    {
      if phase == Resending && resent >= target {
        SendTestRequest();
        StartDefibrillator();
      }
    }

    method ProcessSequenceReset(m: Message)
      requires m.body.SequenceReset?
      modifies this
      ensures Trace() == old(Trace()).Then(SessionModel.ProcessSequenceReset(old(View()), m))
    {
      hide SessionModel.SendReject, SessionModel.SendLogout, SessionModel.CompleteRecovery, OnHigh;
      if m.body.newSeqNo.None? || m.body.newSeqNo.value.Other? || m.body.newSeqNo.value.n <= incoming {
        SendReject(m);
        return;
      }
      if m.body.gapFill {
        var ok := ValidateSequenceNumbers(m);
        if !ok {
          return;
        }
        if (nextExpectedMode && phase != LoggingOn) || (!nextExpectedMode && phase != Resending) {
          SendReject(m);
          return;
        }
        resent := m.body.newSeqNo.value.n;
        incoming := m.body.newSeqNo.value.n;
        log := log + [Covered(m.seqNum, m.body.newSeqNo.value.n)];
      } else {
        resent := m.body.newSeqNo.value.n;
      }
      CompleteRecovery();
    }

    method Dispatch(m: Message)
      modifies this
      ensures Trace() == old(Trace()).Then(SessionModel.Dispatch(old(View()), m))
    {
      match m.body
      case Heartbeat(_) => ProcessHeartbeat(m);
      case TestRequest(_) => ProcessTestRequest(m);
      case ResendRequest(_, _) => ProcessResendRequest(m);
      case Logout => Close();
      case _ =>
    }

    /** The tail of on_message_read: the message has been accepted. */
    method AcceptMessage(m: Message)
      modifies this
      ensures var o := Accept(old(View()), m);
              Trace() == old(Trace()).Then(o.Then(SessionModel.Dispatch(o.state, m)))
    {
      ghost var o := Accept(View(), m);
      incoming := m.seqNum + 1;
      log := log + [Covered(m.seqNum, m.seqNum + 1)];
      assert Trace() == old(Trace()).Then(o);
      Dispatch(m);
      ThenIsAssociative(old(Trace()), o, SessionModel.Dispatch(o.state, m));
    }

    /** process_logon decides about a Logon, the sequence number check about the rest. */
    method Admit(m: Message) returns (ok: bool)
      requires m.intact && FirstMessageOk(View(), m) && !m.body.SequenceReset? && !(m.possDup && IsAdmin(m))
      modifies this
      ensures m.body.Logon? ==>
                var r := SessionModel.ProcessLogon(old(View()), m);
                ok == r.accepted && Trace() == old(Trace()).Then(r.outcome)
      ensures !m.body.Logon? ==>
                && ok == (m.seqNum == old(incoming))
                && Trace() == if ok then old(Trace()) else old(Trace()).Then(Receive(old(View()), m))
    {
      if m.body.Logon? {
        ok := ProcessLogon(m);
      } else {
        ok := ValidateSequenceNumbers(m);
      }
    }

    method OnMessageRead(m: Message)
      modifies this
      ensures Trace() == old(Trace()).Then(Receive(old(View()), m))
    {
      if !m.intact {
        SendReject(m);
        Close();
        return;
      }
      if !(behaviour == Initiator || logonReceived || m.body.Logon? || m.body.Reject? || m.body.Logout?) {
        SendReject(m);
        ghost var o := SessionModel.SendReject(old(View()), m);
        SendLogout();
        ThenIsAssociative(old(Trace()), o, SessionModel.SendLogout(o.state));
        return;
      }
      if m.body.SequenceReset? {
        ProcessSequenceReset(m);
        return;
      }
      if m.possDup && IsAdmin(m) {
        return;
      }
      var ok := Admit(m);
      if !ok {
        return;
      }
      ghost var s := View();
      AcceptMessage(m);
      AcceptanceMatchesReceive(old(Trace()), old(View()), s, m);
    }

    // --------------------------------------------------- opening and timers

    /** Outside the connected state the source throws and nothing changes. */
    method Open()
      modifies this
      ensures Trace() == old(Trace()).Then(SessionModel.Open(old(View())))
    {
      if phase != Connected {
        return;
      }
      phase := LoggingOn;
      if behaviour != Initiator {
        return;
      }
      SendLogon(false);
    }

    method OnTestRequestTimer()
      requires timers > 0
      modifies this
      ensures Trace() == old(Trace()).Then(TestTimer(old(View())))
    {
      timers := timers - 1;
      armed := false;
      SendTestRequest();
    }

    method Defibrillate()
      requires defibrillating
      modifies this
      ensures Trace() == old(Trace()).Then(HeartbeatTimer(old(View())))
    {
      if phase != LoggedOn {
        return;
      }
      Send(Heartbeat(None));
    }

    // ------------------------------------------------------------ whole runs

    /** Whatever has happened since construction, the numbers consumed and the numbers sent
        follow on from the configured ones. */
    ghost predicate Sound()
      reads this
    {
      && start.nextExpectedMode == nextExpectedMode
      && Numbers(start, Trace())
      && (!nextExpectedMode ==> Tiles(start, Trace()))
    }

    /** One event of any kind. */
    method Handle(e: Event)
      requires Sound()
      modifies this
      ensures Sound() && Trace() == old(Trace()).Then(React(old(View()), e))
    {
      hide Numbers, Tiles, Receive, TestTimer, HeartbeatTimer;
      ghost var before := Trace();
      match e {
        case Read(m) => OnMessageRead(m);
        case TestTimerFired =>
          if timers > 0 {
            OnTestRequestTimer();
          } else {
            NoTimer(View());
          }
        case HeartbeatFired =>
          if defibrillating {
            Defibrillate();
          } else {
            NoHeartbeat(View());
          }
        case Submit(body) => Send(body);
        case OpenCalled => Open();
        case CloseCalled => Close();
      }
      assert Trace() == before.Then(React(before.state, e));
      StaysSound(start, before, e);
    }

    /** Any run of events has exactly the outcome Run gives for it. */
    method Drive(events: seq<Event>)
      requires Sound()
      modifies this
      ensures Sound() && Trace() == old(Trace()).Then(Run(old(View()), events))
    {
      hide React, Run, Sound;
      NothingHappens(View());
      assert events[..0] == [] && Trace() == Trace().Then(Quiet(View()));
      for n := 0 to |events|
        invariant Sound() && Trace() == old(Trace()).Then(Run(old(View()), events[..n]))
      {
        ghost var so := Run(old(View()), events[..n]);
        Handle(events[n]);
        assert events[..n + 1] == events[..n] + [events[n]];
        RunSnoc(old(View()), events[..n], events[n]);
        ThenIsAssociative(old(Trace()), so, React(so.state, events[n]));
      }
      assert events[..|events|] == events;
    }

    /** Of the object's own log: since the last restart every number from the starting one up
        to the expected one was consumed exactly once, and no other. */
    lemma ConsumedOnce(n: nat)
      requires Sound() && !nextExpectedMode
      ensures var first := if Restarted in log then 1 else start.incoming;
              first <= incoming && Hits(SinceRestart(log), n) == if first <= n < incoming then 1 else 0
    {
      CursorSinceRestart(start.incoming, log);
      CursorHits(if Restarted in log then 1 else start.incoming, SinceRestart(log), n);
    }

    /** Of the object's own messages: with only gap fills between them, numbers are
        consecutive, restart at 1 with a reset Logon, and follow on from a gap fill. */
    lemma SentConsecutively(j: nat, k: nat)
      requires Sound() && j < k < |sent| && !Unnumbered(sent[k])
      requires forall l :: j < l < k ==> Unnumbered(sent[l])
      ensures if IsReset(sent[k]) then sent[k].seqNum == 1
              else if Unnumbered(sent[j]) then sent[j].body.newSeqNo == Some(Decimal(sent[k].seqNum))
              else sent[k].seqNum == sent[j].seqNum + 1
    {
      NumbersAreConsecutive(start.outgoing, sent, j, k);
    }
  }

  lemma NoTimer(s: State)
    requires s.timers == 0
    ensures TestTimer(s) == Quiet(s)
  {
  }

  lemma NoHeartbeat(s: State)
    requires !s.defibrillating
    ensures HeartbeatTimer(s) == Quiet(s)
  {
  }

  /** An event keeps both sequences of numbers going. */
  lemma StaysSound(start: State, so: Outcome, e: Event)
    requires Numbers(start, so) && (!so.state.nextExpectedMode ==> Tiles(start, so))
    requires start.nextExpectedMode == so.state.nextExpectedMode
    ensures var o := so.Then(React(so.state, e));
            Numbers(start, o) && (!so.state.nextExpectedMode ==> Tiles(start, o))
  {
    hide React;
    ReactNumbers(so.state, e);
    NumbersThen(start, so, React(so.state, e));
    if !so.state.nextExpectedMode {
      ReactTiles(so.state, e);
      CursorConcat(start.incoming, so.log, React(so.state, e).log);
    }
  }
}
