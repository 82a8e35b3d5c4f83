/** What a session does with every message it can receive, told from the outside: the whole
    outcome of Receive, case by case. */
module SessionReactions {
  import opened Optional
  import opened SessionModel
  import opened SessionPair

  function Next(s: State, body: Body): Message { Message(s.outgoing, false, true, body) }

  function Took(s: State): State { s.(incoming := s.incoming + 1) }

  function Sent(s: State, n: nat): State { s.(outgoing := s.outgoing + n) }

  /** After a Logout the session is closed, and a logged on session has stopped its heartbeats. */
  function LoggedOut(s: State): State {
    s.(outgoing := s.outgoing + 1, phase := Disconnected, defibrillating := s.defibrillating && s.phase != LoggedOn)
  }

  function Covers(s: State): seq<Entry> { [Covered(s.incoming, s.incoming + 1)] }

  /** An acceptor takes nothing else before a Logon has come. */
  predicate MayCome(s: State, m: Message) {
    s.behaviour == Acceptor && !s.logonReceived ==> m.body.Logon? || m.body.Reject? || m.body.Logout?
  }

  // ------------------------------------------------------- ahead of the sequence check

  lemma DamagedIsRejected(s: State, m: Message)
    requires !m.intact
    ensures Receive(s, m) == Outcome(Sent(s, 1).(phase := Disconnected), [Next(s, Reject(m.seqNum))], [])
  {
  }

  lemma StrangerIsLoggedOut(s: State, m: Message)
    requires m.intact && !MayCome(s, m)
    ensures Receive(s, m) == Outcome(LoggedOut(Sent(s, 1)), [Next(s, Reject(m.seqNum)), Next(Sent(s, 1), Logout)], [])
  {
  }

  lemma DuplicateIsIgnored(s: State, m: Message)
    requires m.intact && MayCome(s, m) && m.possDup && !m.body.Application? && !m.body.SequenceReset?
    ensures Receive(s, m) == Outcome(s, [], [])
  {
  }

  /** What goes through the sequence check. */
  predicate IsOrdinary(s: State, m: Message) {
    && m.intact && MayCome(s, m) && !m.body.Logon? && !m.body.SequenceReset?
    && (m.possDup ==> m.body.Application?)
  }

  lemma TooLowLogsOut(s: State, m: Message)
    requires IsOrdinary(s, m) && m.seqNum < s.incoming
    ensures Receive(s, m) == Outcome(LoggedOut(s), [Next(s, Logout)], [])
  {
    hide ProcessLogon, ProcessSequenceReset, Dispatch, SendReject;
  }

  lemma TooHighAsks(s: State, m: Message)
    requires IsOrdinary(s, m) && m.seqNum > s.incoming
    ensures Receive(s, m) ==
            if s.phase == Resending then Outcome(s.(target := Max(s.target, m.seqNum)), [], [])
            else
              var request := ResendRequest(Some(Decimal(s.incoming)), Some(Decimal(m.seqNum)));
              Outcome(Sent(s, 1).(phase := Resending, resent := s.incoming, target := m.seqNum), [Next(s, request)], [])
  {
    hide ProcessLogon, ProcessSequenceReset, Dispatch, SendReject, SendLogout;
  }

  // ----------------------------------------------------- in sequence, by message type

  predicate InOrder(s: State, m: Message) { IsOrdinary(s, m) && m.seqNum == s.incoming }

  lemma Accepts(s: State, m: Message)
    requires InOrder(s, m)
    ensures var o := Dispatch(Took(s), m); Receive(s, m) == Outcome(o.state, o.sent, Covers(s) + o.log)
  {
    hide ProcessLogon, ProcessSequenceReset, Dispatch, SendReject, SendLogout, OnHigh;
    var o := Accept(s, m);
    assert o.sent + Dispatch(o.state, m).sent == Dispatch(o.state, m).sent;
  }

  /** A Logout closes the session without an answer. */
  lemma LogoutCloses(s: State, m: Message)
    requires InOrder(s, m) && m.body.Logout?
    ensures Receive(s, m) == Outcome(Took(s).(phase := Disconnected), [], Covers(s))
  {
    hide Receive;
    Accepts(s, m);
    assert Covers(s) + [] == Covers(s);
  }

  lemma OthersAreTaken(s: State, m: Message)
    requires InOrder(s, m) && (m.body.Application? || m.body.Reject? || m.body.XmlNonFix?)
    ensures Receive(s, m) == Outcome(Took(s), [], Covers(s))
  {
    hide Receive;
    Accepts(s, m);
    assert Covers(s) + [] == Covers(s);
  }

  lemma TestRequestIsAnswered(s: State, m: Message)
    requires InOrder(s, m) && m.body.TestRequest?
    ensures var id := m.body.testReqId;
            Receive(s, m) ==
            Outcome(Sent(Took(s), 1), [Next(s, if id.Some? then Heartbeat(id) else Reject(m.seqNum))], Covers(s))
  {
    hide Receive;
    Accepts(s, m);
    assert Covers(s) + [] == Covers(s);
  }

  /** A heartbeat completes a logon, reset or recovery, if it answers the expected test request
      or none; with a wrong id it disconnects; it does nothing if no answer is expected. */
  lemma HeartbeatCompletes(s: State, m: Message)
    requires InOrder(s, m) && m.body.Heartbeat?
    ensures var id := m.body.testReqId;
            var awaiting := s.phase == LoggingOn || s.phase == Resetting || s.phase == Resending;
            var expected := s.expectedTestReqId;
            Receive(s, m) ==
            if awaiting && (id.None? || (expected.Some? && id.value == Decimal(expected.value))) then
              Outcome(Took(s).(phase := LoggedOn, defibrillating := s.heartbeatInterval > 0), [], Covers(s))
            else if awaiting && s.expectedTestReqId.Some? then Outcome(Took(s).(phase := Disconnected), [], Covers(s))
            else Outcome(Took(s), [], Covers(s))
  {
    hide Receive;
    Accepts(s, m);
    assert Covers(s) + [] == Covers(s);
  }

  /** What send_post_logon_test_request adds. */
  function Asking(s: State): Outcome {
    if s.delayed then Outcome(s.(timers := s.timers + 1, armed := true), [], [])
    else Outcome(AskState(s), [AskMessage(s)], [])
  }

  /** The newest pending callback is taken back. */
  function Disarmed(s: State): State {
    s.(timers := if s.armed && s.timers > 0 then s.timers - 1 else s.timers, armed := false)
  }

  /** A ResendRequest with readable numbers is answered by one gap fill from the number asked
      for up to the next one, and the test request is put off behind it. */
  lemma ResendRequestIsFilled(s: State, m: Message)
    requires InOrder(s, m) && m.body.ResendRequest?
    ensures var begin, end, t := m.body.beginSeqNo, m.body.endSeqNo, Disarmed(Took(s));
            Receive(s, m) ==
            if begin.None? || end.None? then Outcome(Sent(t, 1), [Next(s, Reject(m.seqNum))], Covers(s))
            else if begin.value.Other? || end.value.Other? then Outcome(t, [], Covers(s))
            else
              var fill := Message(begin.value.n, true, true, SequenceReset(true, Some(Decimal(s.outgoing))));
              Outcome(Asking(t).state, [fill] + Asking(t).sent, Covers(s))
  {
    hide Receive;
    Accepts(s, m);
    FillAndAsk(Took(s), m);
    assert Covers(s) + [] == Covers(s);
  }

  lemma FillAndAsk(t: State, m: Message)
    requires m.body.ResendRequest?
    ensures var begin, end, u := m.body.beginSeqNo, m.body.endSeqNo, Disarmed(t);
            ProcessResendRequest(t, m) ==
            if begin.None? || end.None? then Outcome(Sent(u, 1), [Next(t, Reject(m.seqNum))], [])
            else if begin.value.Other? || end.value.Other? then Outcome(u, [], [])
            else
              var fill := Message(begin.value.n, true, true, SequenceReset(true, Some(Decimal(t.outgoing))));
              Outcome(Asking(u).state, [fill] + Asking(u).sent, [])
  {
    assert StopTestRequestTimer(t) == Disarmed(t);
    AskingIs(Disarmed(t));
    hide StopTestRequestTimer, SendPostLogonTestRequest;
  }

  lemma AskingIs(s: State)
    ensures SendPostLogonTestRequest(s) == Asking(s)
  {
  }

  // --------------------------------------------------------------------- sequence resets

  predicate IsSequenceReset(s: State, m: Message) { m.intact && MayCome(s, m) && m.body.SequenceReset? }

  /** A recovery that has reached its target is confirmed by a test request. */
  function Confirming(s: State): Outcome {
    if s.phase == Resending && s.resent >= s.target then
      Outcome(AskState(s).(defibrillating := s.heartbeatInterval > 0), [AskMessage(s)], [])
    else Outcome(s, [], [])
  }

  lemma ConfirmingIs(s: State)
    ensures CompleteRecovery(s) == Confirming(s)
  {
  }

  /** A SequenceReset that names no number above the expected one is rejected. */
  lemma BackwardResetIsRejected(s: State, m: Message)
    requires IsSequenceReset(s, m)
    requires m.body.newSeqNo.None? || m.body.newSeqNo.value.Other? || m.body.newSeqNo.value.n <= s.incoming
    ensures Receive(s, m) == Outcome(Sent(s, 1), [Next(s, Reject(m.seqNum))], [])
  {
    hide CompleteRecovery, OnHigh, SendLogout;
  }

  predicate IsForward(s: State, m: Message, n: nat) {
    IsSequenceReset(s, m) && m.body.newSeqNo == Some(Decimal(n)) && n > s.incoming
  }

  /** Without GapFill it moves the resent number only, whatever its own number is. */
  lemma PlainResetMovesResent(s: State, m: Message, n: nat)
    requires IsForward(s, m, n) && !m.body.gapFill
    ensures Receive(s, m) == Confirming(s.(resent := n))
  {
    hide CompleteRecovery, OnHigh, SendLogout, SendReject;
    ConfirmingIs(s.(resent := n));
  }

  /** A gap fill is taken only in its turn, and only by a session that waits for one. */
  lemma GapFillIsTaken(s: State, m: Message, n: nat)
    requires IsForward(s, m, n) && m.body.gapFill && m.seqNum == s.incoming
    ensures var waiting := if s.nextExpectedMode then LoggingOn else Resending;
            var o := Confirming(s.(resent := n, incoming := n));
            Receive(s, m) ==
            if s.phase == waiting then Outcome(o.state, o.sent, [Covered(s.incoming, n)])
            else Outcome(Sent(s, 1), [Next(s, Reject(m.seqNum))], [])
  {
    hide CompleteRecovery, OnHigh, SendLogout;
    ConfirmingIs(s.(resent := n, incoming := n));
    assert [Covered(s.incoming, n)] + [] == [Covered(s.incoming, n)];
  }

  lemma GapFillOutOfTurn(s: State, m: Message, n: nat)
    requires IsForward(s, m, n) && m.body.gapFill && m.seqNum != s.incoming
    ensures Receive(s, m) ==
            if m.seqNum < s.incoming then Outcome(LoggedOut(s), [Next(s, Logout)], [])
            else if s.phase == Resending then Outcome(s.(target := Max(s.target, m.seqNum)), [], [])
            else
              var request := ResendRequest(Some(Decimal(s.incoming)), Some(Decimal(m.seqNum)));
              Outcome(Sent(s, 1).(phase := Resending, resent := s.incoming, target := m.seqNum), [Next(s, request)], [])
  {
    hide CompleteRecovery, SendReject;
  }

  // ------------------------------------------------------------------------------ Logons

  predicate IsLogon(m: Message) { m.intact && !m.possDup && m.body.Logon? }

  lemma LogonWithoutInterval(s: State, m: Message)
    requires IsLogon(m) && (m.body.heartBtInt.None? || m.body.heartBtInt.value.Other?)
    ensures Receive(s, m) == Outcome(LoggedOut(Sent(s, 1)), [Next(s, Reject(m.seqNum)), Next(Sent(s, 1), Logout)], [])
  {
    hide OnNextExpectedLogon, OnPlainLogon, OnResetLogon;
  }

  predicate HasInterval(m: Message) { IsLogon(m) && m.body.heartBtInt.Some? && m.body.heartBtInt.value.Decimal? }

  /** The session has read the interval of the Logon. */
  function Greeted(s: State, m: Message): State
    requires HasInterval(m)
  {
    s.(heartbeatInterval := m.body.heartBtInt.value.n, logonReceived := true)
  }

  function Reply(s: State, reset: bool): Message {
    var expected := if s.nextExpectedMode then Some(Decimal(s.incoming)) else None;
    Next(s, Logon(Some(Decimal(s.heartbeatInterval)), reset, expected))
  }

  /** In next-expected mode: a Logout if the number asked for is missing, unreadable or not
      reached; otherwise a gap fill if more than one message was missed, the acceptor's own
      Logon and a test request, and the Logon is taken whatever its number. */
  lemma NextExpectedLogon(s: State, m: Message)
    requires HasInterval(m) && s.nextExpectedMode
    ensures var g, expected := Greeted(s, m), m.body.nextExpected;
            Receive(s, m) ==
            if expected.None? || expected.value.Other? || expected.value.n > s.outgoing then
              Outcome(LoggedOut(g), [Next(g, Logout)], [])
            else
              var fills := expected.value.n + 1 < s.outgoing;
              var t := if fills then g.(phase := Resending) else g;
              var u := if s.behaviour == Acceptor then Sent(t, 1) else t;
              var gap := Message(expected.value.n, true, true, SequenceReset(true, Some(Decimal(s.outgoing))));
              Outcome(Asking(u).state.(incoming := m.seqNum + 1),
                      (if fills then [gap] else [])
                      + (if s.behaviour == Acceptor then [Reply(g, false)] else []) + Asking(u).sent,
                      [Covered(m.seqNum, m.seqNum + 1)])
  {
    hide OnPlainLogon, OnResetLogon, NextExpectedReply;
    var g := Greeted(s, m);
    if m.body.nextExpected.Some? && m.body.nextExpected.value.Decimal? && m.body.nextExpected.value.n <= s.outgoing {
      NextExpectedReplies(g, m.body.nextExpected.value.n);
    }
  }

  lemma NextExpectedReplies(g: State, n: nat)
    requires g.nextExpectedMode
    ensures var fills := n + 1 < g.outgoing;
            var t := if fills then g.(phase := Resending) else g;
            var u := if g.behaviour == Acceptor then Sent(t, 1) else t;
            var gap := Message(n, true, true, SequenceReset(true, Some(Decimal(g.outgoing))));
            NextExpectedReply(g, n) ==
            Outcome(Asking(u).state,
                    (if fills then [gap] else [])
                    + (if g.behaviour == Acceptor then [Reply(g, false)] else []) + Asking(u).sent,
                    [])
  {
    var t := if n + 1 < g.outgoing then g.(phase := Resending) else g;
    var u := if g.behaviour == Acceptor then Sent(t, 1) else t;
    AskingIs(u);
    hide SendPostLogonTestRequest;
  }

  /** A reset Logon that is not number 1 changes nothing else; one that answers the session's
      own reset is followed by a test request; any other makes the session reset as well. */
  lemma ResetLogon(s: State, m: Message)
    requires HasInterval(m) && !s.nextExpectedMode && m.body.resetSeqNum
    ensures var g := Greeted(s, m);
            Receive(s, m) ==
            if m.seqNum != 1 then Outcome(g, [], [])
            else if s.phase == Resetting then
              Outcome(AskState(g).(incoming := 2), [AskMessage(g)], [Restarted, Covered(1, 2)])
            else
              var t := g.(defibrillating := false, phase := Resetting, outgoing := 1, incoming := 1);
              var asking := Asking(Sent(t, 1));
              Outcome(asking.state.(incoming := 2), [Reply(t, true)] + asking.sent, [Restarted, Covered(1, 2)])
  {
    hide OnNextExpectedLogon, OnPlainLogon, OnResetLogon;
    ResetReplies(Greeted(s, m), m);
    assert [Restarted] + [Covered(1, 2)] == [Restarted, Covered(1, 2)];
  }

  lemma ResetReplies(g: State, m: Message)
    requires m.body.Logon? && !g.nextExpectedMode
    ensures OnResetLogon(g, m) ==
            if m.seqNum != 1 then LogonResult(false, Outcome(g, [], []))
            else if g.phase == Resetting then LogonResult(true, Outcome(AskState(g), [AskMessage(g)], [Restarted]))
            else
              var t := g.(defibrillating := false, phase := Resetting, outgoing := 1, incoming := 1);
              var asking := Asking(Sent(t, 1));
              LogonResult(true, Outcome(asking.state, [Reply(t, true)] + asking.sent, [Restarted]))
  {
    var t := g.(defibrillating := false, phase := Resetting, outgoing := 1, incoming := 1);
    AskingIs(Sent(t, 1));
    hide SendPostLogonTestRequest;
    assert [Restarted] + [] == [Restarted];
  }

  /** Any other Logon: too low, a Logout; otherwise the acceptor answers first, and then the
      number decides between a recovery and a test request. */
  lemma PlainLogon(s: State, m: Message)
    requires HasInterval(m) && !s.nextExpectedMode && !m.body.resetSeqNum
    ensures var g := Greeted(s, m);
            var t := if s.behaviour == Acceptor then Sent(g, 1) else g;
            var replies := if s.behaviour == Acceptor then [Reply(g, false)] else [];
            Receive(s, m) ==
            if m.seqNum < s.incoming then Outcome(LoggedOut(g), [Next(g, Logout)], [])
            else if m.seqNum == s.incoming then Outcome(Took(Asking(t).state), replies + Asking(t).sent, Covers(s))
            else if s.phase == Resending then Outcome(t.(target := Max(s.target, m.seqNum)), replies, [])
            else
              var request := ResendRequest(Some(Decimal(s.incoming)), Some(Decimal(m.seqNum)));
              Outcome(Sent(t, 1).(phase := Resending, resent := s.incoming, target := m.seqNum),
                      replies + [Next(t, request)], [])
  {
    hide OnNextExpectedLogon, OnPlainLogon, OnResetLogon;
    PlainReplies(Greeted(s, m), m);
  }

  lemma PlainReplies(g: State, m: Message)
    requires m.body.Logon? && !g.nextExpectedMode
    ensures var t := if g.behaviour == Acceptor then Sent(g, 1) else g;
            var replies := if g.behaviour == Acceptor then [Reply(g, false)] else [];
            OnPlainLogon(g, m) ==
            if m.seqNum < g.incoming then LogonResult(false, Outcome(LoggedOut(g), [Next(g, Logout)], []))
            else if m.seqNum == g.incoming then
              LogonResult(true, Outcome(Asking(t).state, replies + Asking(t).sent, []))
            else if g.phase == Resending then
              LogonResult(false, Outcome(t.(target := Max(g.target, m.seqNum)), replies, []))
            else
              var request := ResendRequest(Some(Decimal(g.incoming)), Some(Decimal(m.seqNum)));
              LogonResult(false, Outcome(Sent(t, 1).(phase := Resending, resent := g.incoming, target := m.seqNum),
                                         replies + [Next(t, request)], []))
  {
    var t := if g.behaviour == Acceptor then Sent(g, 1) else g;
    AskingIs(t);
    ReplyIs(g);
    HighIs(t, m);
    LogoutIs(g);
    hide SendPostLogonTestRequest, SendLogon, OnHigh, SendLogout, LoggedOut, Reply;
    var o := SendLogon(g, false);
    assert g.behaviour == Acceptor ==> o == Outcome(t, [Reply(g, false)], []);
    assert forall d: seq<Message> :: [] + d == d;
  }

  lemma ReplyIs(g: State)
    ensures SendLogon(g, false) == Outcome(Sent(g, 1), [Reply(g, false)], [])
  {
  }

  lemma LogoutIs(g: State)
    ensures SendLogout(g) == Outcome(LoggedOut(g), [Next(g, Logout)], [])
  {
  }

  lemma HighIs(t: State, m: Message)
    ensures OnHigh(t, m) ==
            if t.phase == Resending then Outcome(t.(target := Max(t.target, m.seqNum)), [], [])
            else
              var request := ResendRequest(Some(Decimal(t.incoming)), Some(Decimal(m.seqNum)));
              Outcome(Sent(t, 1).(phase := Resending, resent := t.incoming, target := m.seqNum), [Next(t, request)], [])
  {
  }
}
