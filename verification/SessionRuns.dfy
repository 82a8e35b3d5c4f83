/** What one session guarantees over every run, whatever its peer sends: incoming numbers
    are consumed without gap or overlap, outgoing numbers are consecutive on the wire, and a
    recovery asks once and never lowers its target. */
module SessionRuns {
  import opened Optional
  import opened SessionModel

  datatype Event =
    | Read(m: Message)
    | TestTimerFired
    | HeartbeatFired
    | Submit(body: Body)    // the application calls send with the standard options
    | OpenCalled
    | CloseCalled           // close(), or the reader or the writer reports that it closed

  function React(s: State, e: Event): Outcome {
    match e
    case Read(m) => Receive(s, m)
    case TestTimerFired => TestTimer(s)
    case HeartbeatFired => HeartbeatTimer(s)
    case Submit(body) => Send(s, body)
    case OpenCalled => Open(s)
    case CloseCalled => Quiet(Close(s))
  }

  function Run(s: State, events: seq<Event>): Outcome
    decreases |events|
  {
    if events == [] then Quiet(s)
    else
      var o := React(s, events[0]);
      o.Then(Run(o.state, events[1..]))
  }

  lemma ThenIsAssociative(a: Outcome, b: Outcome, c: Outcome)
    ensures a.Then(b).Then(c) == a.Then(b.Then(c))
  {
    assert (a.sent + b.sent) + c.sent == a.sent + (b.sent + c.sent);
    assert (a.log + b.log) + c.log == a.log + (b.log + c.log);
  }

  /** A run may also be taken apart at its last event. */
  lemma {:induction false} RunSnoc(s: State, events: seq<Event>, e: Event)
    ensures Run(s, events + [e]) == Run(s, events).Then(React(Run(s, events).state, e))
    decreases |events|
  {
    hide React;
    if events == [] {
      assert events + [e] == [e] && [e][1..] == [];
      var o := React(s, e);
      assert o.Then(Quiet(o.state)) == o && Quiet(s).Then(o) == o;
    } else {
      var o, rest := React(s, events[0]), events[1..];
      assert (events + [e])[1..] == rest + [e];
      RunSnoc(o.state, rest, e);
      ThenIsAssociative(o, Run(o.state, rest), React(Run(o.state, rest).state, e));
    }
  }

  // --------------------------------------------------- incoming numbers tile

  /** The number expected after a log that starts expecting `next`; None if the log skips,
      repeats or consumes nothing somewhere. */
  function Cursor(next: nat, log: seq<Entry>): Option<nat>
    decreases |log|
  {
    if log == [] then Some(next)
    else
      match log[0]
      case Restarted => Cursor(1, log[1..])
      case Covered(lo, hi) => if lo == next && lo < hi then Cursor(hi, log[1..]) else None
  }

  lemma {:induction false} CursorConcat(next: nat, c: seq<Entry>, d: seq<Entry>)
    requires Cursor(next, c).Some?
    ensures Cursor(next, c + d) == Cursor(Cursor(next, c).value, d)
    decreases |c|
  {
    if c == [] {
      assert c + d == d;
    } else {
      assert (c + d)[1..] == c[1..] + d;
      CursorConcat(if c[0].Restarted? then 1 else c[0].hi, c[1..], d);
    }
  }

  predicate Tiles(s: State, o: Outcome) { Cursor(s.incoming, o.log) == Some(o.state.incoming) }

  /** Processing a Logon logs nothing, or a restart at number 1, before it is accepted. */
  lemma ResetLogonLogs(s: State, m: Message)
    requires m.body.Logon?
    ensures var r := OnResetLogon(s, m);
            if r.accepted then r.outcome.log == [Restarted] && m.seqNum == 1
            else r.outcome.log == [] && r.outcome.state.incoming == s.incoming
  {
  }

  lemma PlainLogonLogs(s: State, m: Message)
    requires m.body.Logon?
    ensures var r := OnPlainLogon(s, m);
            r.outcome.log == [] && r.outcome.state.incoming == s.incoming && (r.accepted ==> m.seqNum == s.incoming)
  {
  }

  lemma CoversOne(next: nat, n: nat)
    ensures Cursor(next, [Covered(n, n + 1)]) == if n == next then Some(n + 1) else None
  {
  }

  lemma LogonTiles(s: State, m: Message)
    requires m.body.Logon? && !s.nextExpectedMode
    ensures var r := ProcessLogon(s, m);
            Tiles(s, if r.accepted then r.outcome.Then(Accept(r.outcome.state, m)) else r.outcome)
  {
    var r := ProcessLogon(s, m);
    if m.body.heartBtInt.Some? && m.body.heartBtInt.value.Decimal? {
      var s1 := s.(heartbeatInterval := m.body.heartBtInt.value.n, logonReceived := true);
      if m.body.resetSeqNum {
        ResetLogonLogs(s1, m);
      } else {
        PlainLogonLogs(s1, m);
      }
      CoversOne(m.seqNum, m.seqNum);
      CursorConcat(s.incoming, r.outcome.log, [Covered(m.seqNum, m.seqNum + 1)]);
    }
  }

  lemma SequenceResetTiles(s: State, m: Message)
    requires m.body.SequenceReset?
    ensures Tiles(s, ProcessSequenceReset(s, m))
  {
    var o := ProcessSequenceReset(s, m);
    if m.body.newSeqNo.Some? && m.body.newSeqNo.value.Decimal? && o.log != [] {
      assert o.log == [Covered(s.incoming, m.body.newSeqNo.value.n)] + CompleteRecovery(o.state).log[..0];
    }
  }

  lemma ResendLogsNothing(s: State, m: Message)
    requires m.body.ResendRequest?
    ensures ProcessResendRequest(s, m).log == [] && ProcessResendRequest(s, m).state.incoming == s.incoming
  {
    var s1 := StopTestRequestTimer(s);
    if m.body.beginSeqNo.Some? && m.body.beginSeqNo.value.Decimal? {
      var o := PerformResend(s1, m.body.beginSeqNo.value.n);
      assert o.log + SendPostLogonTestRequest(o.state).log == [];
    }
  }

  lemma DispatchLogsNothing(s: State, m: Message)
    ensures Dispatch(s, m).log == [] && Dispatch(s, m).state.incoming == s.incoming
  {
    match m.body
    case ResendRequest(_, _) => ResendLogsNothing(s, m);
    case TestRequest(_) => assert ProcessTestRequest(s, m).log == [];
    case Heartbeat(_) => assert ProcessHeartbeat(s, m).log == [];
    case _ =>
  }

  lemma DispatchTiles(s: State, m: Message)
    requires m.seqNum == s.incoming && !m.body.Logon? && !m.body.SequenceReset?
    ensures var o := Accept(s, m); Tiles(s, o.Then(Dispatch(o.state, m)))
  {
    var o := Accept(s, m);
    DispatchLogsNothing(o.state, m);
    assert o.log + Dispatch(o.state, m).log == o.log;
    CoversOne(s.incoming, m.seqNum);
  }

  /** Everything that is refused, dropped or answered without being accepted. */
  lemma RefusalTiles(s: State, m: Message)
    requires !m.body.Logon? && !m.body.SequenceReset?
    requires !m.intact || !FirstMessageOk(s, m) || (m.possDup && IsAdmin(m)) || m.seqNum != s.incoming
    ensures Receive(s, m).log == [] && Receive(s, m).state.incoming == s.incoming
  {
  }

  /** Whatever is no Logon, in either mode. */
  lemma OrdinaryTiles(s: State, m: Message)
    requires !m.body.Logon?
    ensures Tiles(s, Receive(s, m))
  {
    if !m.intact || !FirstMessageOk(s, m) {
      assert Receive(s, m).log == [] && Receive(s, m).state.incoming == s.incoming;
    } else if m.body.SequenceReset? {
      SequenceResetTiles(s, m);
    } else if (m.possDup && IsAdmin(m)) || m.seqNum != s.incoming {
      RefusalTiles(s, m);
    } else {
      DispatchTiles(s, m);
    }
  }

  lemma ReadTiles(s: State, m: Message)
    requires !s.nextExpectedMode
    ensures Tiles(s, Receive(s, m))
  {
    if !m.body.Logon? {
      OrdinaryTiles(s, m);
    } else if !m.intact || !FirstMessageOk(s, m) || m.possDup {
      assert Receive(s, m).log == [] && Receive(s, m).state.incoming == s.incoming;
    } else {
      LogonTiles(s, m);
    }
  }

  lemma ReactTiles(s: State, e: Event)
    requires !s.nextExpectedMode
    ensures Tiles(s, React(s, e))
  {
    if e.Read? {
      ReadTiles(s, e.m);
    } else {
      assert React(s, e).log == [] || React(s, e).log == [Restarted];
    }
  }

  /** The mode is an option that no event changes. */
  lemma ModeIsFixed(s: State, e: Event)
    requires !s.nextExpectedMode
    ensures !React(s, e).state.nextExpectedMode
  {
    if Modest(e) {
      ReactRecovers(s, e);
    }
  }

  lemma {:induction false} RunTiles(s: State, events: seq<Event>)
    requires !s.nextExpectedMode
    ensures Tiles(s, Run(s, events))
    decreases |events|
  {
    if events != [] {
      var o := React(s, events[0]);
      ReactTiles(s, events[0]);
      ModeIsFixed(s, events[0]);
      hide React;
      RunTiles(o.state, events[1..]);
      CursorConcat(s.incoming, o.log, Run(o.state, events[1..]).log);
    }
  }

  /** The part of a log that follows the last restart. */
  function SinceRestart(log: seq<Entry>): seq<Entry> {
    if log == [] then []
    else if Restarted in log[1..] then SinceRestart(log[1..])
    else if log[0].Restarted? then log[1..]
    else log
  }

  /** How many entries consumed the number n. */
  function Hits(log: seq<Entry>, n: nat): nat {
    if log == [] then 0
    else (if log[0].Covered? && log[0].lo <= n < log[0].hi then 1 else 0) + Hits(log[1..], n)
  }

  lemma {:induction false} CursorHits(next: nat, log: seq<Entry>, n: nat)
    requires Cursor(next, log).Some? && Restarted !in log
    ensures next <= Cursor(next, log).value
    ensures Hits(log, n) == if next <= n < Cursor(next, log).value then 1 else 0
    decreases |log|
  {
    if log != [] {
      CursorHits(log[0].hi, log[1..], n);
    }
  }

  lemma {:induction false} CursorSinceRestart(next: nat, log: seq<Entry>)
    requires Cursor(next, log).Some?
    ensures Restarted !in SinceRestart(log)
    ensures Cursor(if Restarted in log then 1 else next, SinceRestart(log)) == Cursor(next, log)
    decreases |log|
  {
    if log != [] {
      assert forall entry :: entry in log <==> entry == log[0] || entry in log[1..];
      CursorSinceRestart(if log[0].Restarted? then 1 else log[0].hi, log[1..]);
    }
  }

  /** Gapless and duplicate free: since the last restart, every number from the starting
      number up to the expected one was consumed by exactly one accepted message or gap
      fill, and no other number was consumed, whatever was received. */
  lemma EveryNumberConsumedOnce(s: State, events: seq<Event>, n: nat)
    requires !s.nextExpectedMode
    ensures var o := Run(s, events);
            var start := if Restarted in o.log then 1 else s.incoming;
            && start <= o.state.incoming
            && Hits(SinceRestart(o.log), n) == if start <= n < o.state.incoming then 1 else 0
  {
    var o := Run(s, events);
    RunTiles(s, events);
    CursorSinceRestart(s.incoming, o.log);
    CursorHits(if Restarted in o.log then 1 else s.incoming, SinceRestart(o.log), n);
  }

  // ------------------------------------------------------ in next-expected mode

  /** A Logon that is accepted in this mode. */
  predicate IsAcceptedLogon(s: State, m: Message) {
    && m.intact && !m.possDup && m.body.Logon?
    && m.body.heartBtInt.Some? && m.body.heartBtInt.value.Decimal?
    && m.body.nextExpected.Some? && m.body.nextExpected.value.Decimal? && m.body.nextExpected.value.n <= s.outgoing
  }

  lemma AcceptedLogonLogs(s: State, m: Message)
    requires s.nextExpectedMode && IsAcceptedLogon(s, m)
    ensures Receive(s, m).log == [Covered(m.seqNum, m.seqNum + 1)] && Receive(s, m).state.incoming == m.seqNum + 1
  {
  }

  lemma RefusedLogonLogs(s: State, m: Message)
    requires s.nextExpectedMode && m.body.Logon? && !IsAcceptedLogon(s, m)
    ensures Receive(s, m).log == [] && Receive(s, m).state.incoming == s.incoming
  {
  }

  /** An accepted Logon keeps the tiling exactly when it carries the expected number, which
      this mode does not check; if not, nothing that follows repairs it. */
  lemma NextExpectedLogonTilesIff(s: State, m: Message)
    requires s.nextExpectedMode && IsAcceptedLogon(s, m)
    ensures Tiles(s, Receive(s, m)) <==> m.seqNum == s.incoming
    ensures m.seqNum != s.incoming ==> Cursor(s.incoming, Receive(s, m).log).None?
  {
    hide Receive;
    AcceptedLogonLogs(s, m);
    CoversOne(s.incoming, m.seqNum);
  }

  /** The event is no accepted Logon with another number. */
  predicate Expected(s: State, e: Event) {
    s.nextExpectedMode && e.Read? && IsAcceptedLogon(s, e.m) ==> e.m.seqNum == s.incoming
  }

  predicate AllExpected(s: State, events: seq<Event>)
    decreases |events|
  {
    events == [] || (Expected(s, events[0]) && AllExpected(React(s, events[0]).state, events[1..]))
  }

  /** One event, in either mode. */
  lemma ReactTilesIff(s: State, e: Event)
    ensures if Expected(s, e) then Tiles(s, React(s, e)) else Cursor(s.incoming, React(s, e).log).None?
  {
    hide Receive;
    if !s.nextExpectedMode {
      ReactTiles(s, e);
    } else if e.Read? {
      if e.m.body.Logon? {
        if IsAcceptedLogon(s, e.m) {
          NextExpectedLogonTilesIff(s, e.m);
        } else {
          RefusedLogonLogs(s, e.m);
        }
      } else {
        OrdinaryTiles(s, e.m);
      }
    } else {
      assert React(s, e).log == [] || React(s, e).log == [Restarted];
    }
  }

  lemma {:induction false} CursorFails(next: nat, c: seq<Entry>, d: seq<Entry>)
    requires Cursor(next, c).None?
    ensures Cursor(next, c + d).None?
    decreases |c|
  {
    assert (c + d)[1..] == c[1..] + d;
    if c[0].Restarted? {
      CursorFails(1, c[1..], d);
    } else if c[0].lo == next && c[0].lo < c[0].hi {
      CursorFails(c[0].hi, c[1..], d);
    }
  }

  /** Over every run, in either mode: the numbers consumed follow each other without gap or
      overlap if and only if, in next-expected mode, every accepted Logon carried the expected
      number. */
  lemma {:induction false} RunTilesIff(s: State, events: seq<Event>)
    ensures Tiles(s, Run(s, events)) <==> AllExpected(s, events)
    decreases |events|
  {
    hide React, Expected;
    if events != [] {
      var o := React(s, events[0]);
      ReactTilesIff(s, events[0]);
      if Expected(s, events[0]) {
        RunTilesIff(o.state, events[1..]);
        CursorConcat(s.incoming, o.log, Run(o.state, events[1..]).log);
      } else {
        CursorFails(s.incoming, o.log, Run(o.state, events[1..]).log);
      }
    }
  }

  // --------------------------------------------- outgoing numbers on the wire

  /** Gap fills are the only messages the session sends without taking a number. */
  predicate Unnumbered(m: Message) { m.possDup && m.body.SequenceReset? }

  predicate IsReset(m: Message) { m.body.Logon? && m.body.resetSeqNum }

  /** The next number to use after `sent`, if every numbered message carries the next number
      (a reset Logon carries 1) and every gap fill announces the next number. */
  function NextNumber(next: nat, sent: seq<Message>): Option<nat>
    decreases |sent|
  {
    if sent == [] then Some(next)
    else if Unnumbered(sent[0]) then
      if sent[0].body.newSeqNo == Some(Decimal(next)) then NextNumber(next, sent[1..]) else None
    else if IsReset(sent[0]) then
      if sent[0].seqNum == 1 then NextNumber(2, sent[1..]) else None
    else if sent[0].seqNum == next then NextNumber(next + 1, sent[1..])
    else None
  }

  lemma {:induction false} NextNumberConcat(next: nat, c: seq<Message>, d: seq<Message>)
    requires NextNumber(next, c).Some?
    ensures NextNumber(next, c + d) == NextNumber(NextNumber(next, c).value, d)
    decreases |c|
  {
    if c == [] {
      assert c + d == d;
    } else {
      assert (c + d)[1..] == c[1..] + d;
      NextNumberConcat(if Unnumbered(c[0]) then next else if IsReset(c[0]) then 2 else next + 1, c[1..], d);
    }
  }

  predicate Numbers(s: State, o: Outcome) { NextNumber(s.outgoing, o.sent) == Some(o.state.outgoing) }

  /** Two stages that number their messages do so together. */
  lemma NumbersThen(s: State, o: Outcome, next: Outcome)
    requires Numbers(s, o) && Numbers(o.state, next)
    ensures Numbers(s, o.Then(next))
  {
    NextNumberConcat(s.outgoing, o.sent, next.sent);
  }

  lemma QuietNumbers(s: State, o: Outcome)
    requires o.sent == [] && o.state.outgoing == s.outgoing
    ensures Numbers(s, o)
  {
  }

  lemma SendNumbers(s: State, body: Body)
    ensures Numbers(s, Send(s, body))
  {
  }

  lemma FillNumbers(s: State, begin: nat)
    ensures Numbers(s, PerformResend(s, begin))
  {
  }

  lemma RejectNumbers(s: State, m: Message)
    ensures Numbers(s, SendReject(s, m)) && Numbers(s, SendLogout(s))
  {
    SendNumbers(s, Reject(m.seqNum));
    SendNumbers(s, Logout);
  }

  lemma PostLogonNumbers(s: State)
    ensures Numbers(s, SendPostLogonTestRequest(s)) && Numbers(s, SendTestRequest(s)) && Numbers(s, CompleteRecovery(s))
  {
    SendNumbers(s.(expectedTestReqId := Some(s.nextTestReqId), nextTestReqId := s.nextTestReqId + 1),
                TestRequest(Some(Decimal(s.nextTestReqId))));
  }

  lemma HighNumbers(s: State, m: Message)
    ensures Numbers(s, OnHigh(s, m))
  {
    SendNumbers(s.(phase := Resending, resent := s.incoming, target := m.seqNum),
                ResendRequest(Some(Decimal(s.incoming)), Some(Decimal(m.seqNum))));
  }

  lemma ResetLogonNumbers(s: State, m: Message)
    requires m.body.Logon?
    ensures Numbers(s, OnResetLogon(s, m).outcome)
  {
    PostLogonNumbers(s);
    if m.seqNum == 1 && s.phase == Resetting {
      NumbersThen(s, Outcome(s, [], [Restarted]), SendTestRequest(s));
    } else if m.seqNum == 1 {
      var s1 := s.(defibrillating := false, phase := Resetting, outgoing := 1, incoming := 1);
      var o := SendLogon(s1, true);
      assert Numbers(s, o);
      PostLogonNumbers(o.state);
      NumbersThen(s, o, SendPostLogonTestRequest(o.state));
    }
  }

  lemma NextExpectedLogonNumbers(s: State, m: Message)
    requires m.body.Logon?
    ensures Numbers(s, OnNextExpectedLogon(s, m).outcome)
  {
    RejectNumbers(s, m);
    if m.body.nextExpected.Some? && m.body.nextExpected.value.Decimal? && m.body.nextExpected.value.n <= s.outgoing {
      var nextExpected := m.body.nextExpected.value.n;
      var o1 := if nextExpected + 1 < s.outgoing then PerformResend(s.(phase := Resending), nextExpected) else Quiet(s);
      FillNumbers(s.(phase := Resending), nextExpected);
      SendNumbers(o1.state, LogonBody(o1.state, false));
      NumbersThen(s, o1, SendLogon(o1.state, false));
      var o2 := if s.behaviour == Acceptor then o1.Then(SendLogon(o1.state, false)) else o1;
      PostLogonNumbers(o2.state);
      NumbersThen(s, o2, SendPostLogonTestRequest(o2.state));
    }
  }

  lemma PlainLogonNumbers(s: State, m: Message)
    requires m.body.Logon?
    ensures Numbers(s, OnPlainLogon(s, m).outcome)
  {
    RejectNumbers(s, m);
    SendNumbers(s, LogonBody(s, false));
    var o := if s.behaviour == Acceptor then SendLogon(s, false) else Quiet(s);
    if !IsLow(s, m) {
      if IsHigh(o.state, m) {
        HighNumbers(o.state, m);
        NumbersThen(s, o, OnHigh(o.state, m));
      } else {
        PostLogonNumbers(o.state);
        NumbersThen(s, o, SendPostLogonTestRequest(o.state));
      }
    }
  }

  lemma LogonNumbers(s: State, m: Message)
    requires m.body.Logon?
    ensures Numbers(s, ProcessLogon(s, m).outcome)
  {
    if m.body.heartBtInt.None? || m.body.heartBtInt.value.Other? {
      var o := SendReject(s, m);
      RejectNumbers(s, m);
      RejectNumbers(o.state, m);
      NumbersThen(s, o, SendLogout(o.state));
    } else {
      var s1 := s.(heartbeatInterval := m.body.heartBtInt.value.n, logonReceived := true);
      ResetLogonNumbers(s1, m);
      NextExpectedLogonNumbers(s1, m);
      PlainLogonNumbers(s1, m);
    }
  }

  lemma ResendRequestNumbers(s: State, m: Message)
    requires m.body.ResendRequest?
    ensures Numbers(s, ProcessResendRequest(s, m))
  {
    var s1 := StopTestRequestTimer(s);
    if m.body.beginSeqNo.None? || m.body.endSeqNo.None? {
      RejectNumbers(s1, m);
    } else if m.body.beginSeqNo.value.Other? || m.body.endSeqNo.value.Other? {
      QuietNumbers(s, Quiet(s1));
    } else {
      var o := PerformResend(s1, m.body.beginSeqNo.value.n);
      FillNumbers(s1, m.body.beginSeqNo.value.n);
      PostLogonNumbers(o.state);
      NumbersThen(s, o, SendPostLogonTestRequest(o.state));
    }
  }

  lemma SequenceResetNumbers(s: State, m: Message)
    requires m.body.SequenceReset?
    ensures Numbers(s, ProcessSequenceReset(s, m))
  {
    RejectNumbers(s, m);
    HighNumbers(s, m);
    if m.body.newSeqNo.Some? && m.body.newSeqNo.value.Decimal? {
      var n := m.body.newSeqNo.value.n;
      PostLogonNumbers(s.(resent := n));
      PostLogonNumbers(s.(resent := n, incoming := n));
      var o := Outcome(s, [], [Covered(m.seqNum, n)]);
      QuietNumbers(s, o);
      NumbersThen(s, o.(state := s.(resent := n, incoming := n)), CompleteRecovery(s.(resent := n, incoming := n)));
    }
  }

  lemma DispatchNumbers(s: State, m: Message)
    ensures Numbers(s, Dispatch(s, m))
  {
    match m.body
    case ResendRequest(_, _) => ResendRequestNumbers(s, m);
    case TestRequest(id) =>
      SendNumbers(s, Heartbeat(id));
      RejectNumbers(s, m);
    case _ => QuietNumbers(s, Dispatch(s, m));
  }

  lemma ReceiveNumbers(s: State, m: Message)
    ensures Numbers(s, Receive(s, m))
  {
    RejectNumbers(s, m);
    if !m.intact {
    } else if !FirstMessageOk(s, m) {
      var o := SendReject(s, m);
      RejectNumbers(o.state, m);
      NumbersThen(s, o, SendLogout(o.state));
    } else if m.body.SequenceReset? {
      SequenceResetNumbers(s, m);
    } else if m.possDup && IsAdmin(m) {
      QuietNumbers(s, Quiet(s));
    } else if m.body.Logon? {
      LogonNumbers(s, m);
      var r := ProcessLogon(s, m);
      QuietNumbers(r.outcome.state, Accept(r.outcome.state, m));
      NumbersThen(s, r.outcome, Accept(r.outcome.state, m));
    } else if m.seqNum != s.incoming {
      HighNumbers(s, m);
    } else {
      var o := Accept(s, m);
      QuietNumbers(s, o);
      DispatchNumbers(o.state, m);
      NumbersThen(s, o, Dispatch(o.state, m));
    }
  }

  lemma ReactNumbers(s: State, e: Event)
    ensures Numbers(s, React(s, e))
  {
    match e
    case Read(m) => ReceiveNumbers(s, m);
    case TestTimerFired => if s.timers > 0 { PostLogonNumbers(s.(timers := s.timers - 1, armed := false)); }
    case HeartbeatFired => SendNumbers(s, Heartbeat(None));
    case Submit(body) => SendNumbers(s, body);
    case OpenCalled => SendNumbers(s.(phase := LoggingOn), LogonBody(s.(phase := LoggingOn), false));
    case CloseCalled => QuietNumbers(s, Quiet(Close(s)));
  }

  lemma {:induction false} RunNumbers(s: State, events: seq<Event>)
    ensures Numbers(s, Run(s, events))
    decreases |events|
  {
    if events != [] {
      var o := React(s, events[0]);
      ReactNumbers(s, events[0]);
      RunNumbers(o.state, events[1..]);
      NumbersThen(s, o, Run(o.state, events[1..]));
    }
  }

  /** The number that the message at position k follows on. */
  lemma {:induction false} NumberAt(next: nat, sent: seq<Message>, k: nat)
    requires NextNumber(next, sent).Some? && k < |sent|
    ensures NextNumber(next, sent[..k]).Some?
    ensures var n := NextNumber(next, sent[..k]).value;
            if Unnumbered(sent[k]) then sent[k].body.newSeqNo == Some(Decimal(n))
            else sent[k].seqNum == if IsReset(sent[k]) then 1 else n
    decreases k
  {
    if k == 0 {
      assert sent[..0] == [];
    } else {
      assert sent[..k][1..] == sent[1..][..k - 1];
      NumberAt(if Unnumbered(sent[0]) then next else if IsReset(sent[0]) then 2 else next + 1, sent[1..], k - 1);
    }
  }

  lemma {:induction false} OnlyFills(next: nat, sent: seq<Message>)
    requires forall k :: 0 <= k < |sent| ==> Unnumbered(sent[k])
    requires NextNumber(next, sent).Some?
    ensures NextNumber(next, sent) == Some(next)
    decreases |sent|
  {
    if sent != [] {
      OnlyFills(next, sent[1..]);
    }
  }

  lemma NumbersAreConsecutive(next: nat, sent: seq<Message>, j: nat, k: nat)
    requires NextNumber(next, sent).Some? && j < k < |sent| && !Unnumbered(sent[k])
    requires forall l :: j < l < k ==> Unnumbered(sent[l])
    ensures if IsReset(sent[k]) then sent[k].seqNum == 1
            else if Unnumbered(sent[j]) then sent[j].body.newSeqNo == Some(Decimal(sent[k].seqNum))
            else sent[k].seqNum == sent[j].seqNum + 1
  {
    NumberAt(next, sent, j);
    NumberAt(next, sent, k);
    var first, between := sent[..j], sent[j + 1..k];
    assert sent[..k] == first + ([sent[j]] + between);
    NextNumberConcat(next, first, [sent[j]] + between);
    var n := NextNumber(next, first).value;
    assert ([sent[j]] + between)[1..] == between;
    forall l | 0 <= l < |between|
      ensures Unnumbered(between[l])
    {
      assert between[l] == sent[j + 1 + l];
    }
    OnlyFills(if Unnumbered(sent[j]) then n else if IsReset(sent[j]) then 2 else n + 1, between);
  }

  /** Consecutive on the wire: with only gap fills between them, a numbered message carries
      the number after that of the one before it, or 1 if it is a reset Logon; and after a
      gap fill it carries the number the gap fill announced, or 1 if it is a reset Logon. */
  lemma WireNumbersAreConsecutive(s: State, events: seq<Event>, j: nat, k: nat)
    requires j < k < |Run(s, events).sent| && !Unnumbered(Run(s, events).sent[k])
    requires forall l :: j < l < k ==> Unnumbered(Run(s, events).sent[l])
    ensures var sent := Run(s, events).sent;
            if IsReset(sent[k]) then sent[k].seqNum == 1
            else if Unnumbered(sent[j]) then sent[j].body.newSeqNo == Some(Decimal(sent[k].seqNum))
            else sent[k].seqNum == sent[j].seqNum + 1
  {
    RunNumbers(s, events);
    NumbersAreConsecutive(s.outgoing, Run(s, events).sent, j, k);
  }

  // ------------------------------------------------------------------ recovery

  /** The message makes sequence_number_is_high true: it passed every earlier check and its
      number is above the expected one. */
  predicate IsTooHigh(s: State, m: Message) {
    && m.intact && FirstMessageOk(s, m) && IsHigh(s, m)
    && match m.body
       case SequenceReset(gapFill, newSeqNo) =>
         gapFill && newSeqNo.Some? && newSeqNo.value.Decimal? && newSeqNo.value.n > s.incoming
       case Logon(heartBtInt, resetSeqNum, _) =>
         !m.possDup && heartBtInt.Some? && heartBtInt.value.Decimal? && !resetSeqNum
       case _ => !(m.possDup && IsAdmin(m))
  }

  predicate AsksResend(sent: seq<Message>) { exists k :: 0 <= k < |sent| && sent[k].body.ResendRequest? }

  /** What a number that is too high does: it extends the recovery, or begins one with a
      ResendRequest for everything from the expected number up to it. */
  predicate Recovers(s: State, n: nat, o: Outcome) {
    && o.state.phase == Resending && o.log == [] && o.state.incoming == s.incoming
    && o.state.nextExpectedMode == s.nextExpectedMode
    && if s.phase == Resending then
         !AsksResend(o.sent) && o.state.target == if n > s.target then n else s.target
       else
         && o.state.target == n && o.sent != []
         && o.sent[|o.sent| - 1].body == ResendRequest(Some(Decimal(s.incoming)), Some(Decimal(n)))
         && forall k :: 0 <= k < |o.sent| - 1 ==> !o.sent[k].body.ResendRequest?
  }

  lemma HighRecovers(s: State, m: Message)
    ensures Recovers(s, m.seqNum, OnHigh(s, m)) && (s.phase == Resending ==> OnHigh(s, m).sent == [])
  {
  }

  lemma LogonTooHigh(s: State, m: Message)
    requires m.body.Logon? && IsHigh(s, m)
    ensures Recovers(s, m.seqNum, OnPlainLogon(s, m).outcome) && !OnPlainLogon(s, m).accepted
  {
    if s.behaviour == Acceptor {
      var o := SendLogon(s, false);
      HighRecovers(o.state, m);
      var h := OnHigh(o.state, m);
      assert (o.sent + h.sent)[|o.sent + h.sent| - 1] == if h.sent == [] then o.sent[0] else h.sent[|h.sent| - 1];
      assert h.sent == [] ==> o.sent + h.sent == o.sent;
    } else {
      HighRecovers(s, m);
      assert Quiet(s).sent + OnHigh(s, m).sent == OnHigh(s, m).sent;
    }
  }

  lemma TooHighRecovers(s: State, m: Message)
    requires !s.nextExpectedMode && IsTooHigh(s, m)
    ensures Recovers(s, m.seqNum, Receive(s, m))
  {
    if m.body.Logon? {
      LogonTooHigh(s.(heartbeatInterval := m.body.heartBtInt.value.n, logonReceived := true), m);
    } else {
      assert Receive(s, m) == OnHigh(s, m);
    }
  }

  /** An outcome that asks for no resend, begins no recovery and keeps a target. */
  predicate Steady(s: State, o: Outcome) {
    && (forall k :: 0 <= k < |o.sent| ==> !o.sent[k].body.ResendRequest?)
    && o.state.nextExpectedMode == s.nextExpectedMode
    && (o.state.phase == Resending ==> s.phase == Resending && o.state.target == s.target)
  }

  lemma SteadyThen(s: State, o: Outcome, next: Outcome)
    requires Steady(s, o) && Steady(o.state, next)
    ensures Steady(s, o.Then(next))
  {
  }

  lemma AskingIsSteady(s: State)
    ensures Steady(s, SendTestRequest(s)) && Steady(s, SendPostLogonTestRequest(s)) && Steady(s, CompleteRecovery(s))
  {
  }

  lemma RefusalIsSteady(s: State, m: Message)
    ensures Steady(s, SendReject(s, m)) && Steady(s, SendLogout(s))
  {
  }

  lemma LogonIsSteady(s: State, m: Message)
    requires m.body.Logon? && !s.nextExpectedMode
    requires !IsHigh(s, m) || m.body.resetSeqNum || m.body.heartBtInt.None? || m.body.heartBtInt.value.Other?
    ensures Steady(s, ProcessLogon(s, m).outcome)
  {
    RefusalIsSteady(s, m);
    if m.body.heartBtInt.None? || m.body.heartBtInt.value.Other? {
      var o := SendReject(s, m);
      RefusalIsSteady(o.state, m);
      SteadyThen(s, o, SendLogout(o.state));
    } else {
      var s1 := s.(heartbeatInterval := m.body.heartBtInt.value.n, logonReceived := true);
      RefusalIsSteady(s1, m);
      AskingIsSteady(s1);
      if m.body.resetSeqNum {
        ResetLogonIsSteady(s1, m);
      } else {
        var o := if s1.behaviour == Acceptor then SendLogon(s1, false) else Quiet(s1);
        AskingIsSteady(o.state);
        SteadyThen(s1, o, SendPostLogonTestRequest(o.state));
      }
    }
  }

  lemma ResetLogonIsSteady(s: State, m: Message)
    requires m.body.Logon?
    ensures Steady(s, OnResetLogon(s, m).outcome)
  {
    AskingIsSteady(s);
    if m.seqNum == 1 && s.phase == Resetting {
      SteadyThen(s, Outcome(s, [], [Restarted]), SendTestRequest(s));
    } else if m.seqNum == 1 {
      var s1 := s.(defibrillating := false, phase := Resetting, outgoing := 1, incoming := 1);
      var o := SendLogon(s1, true);
      AskingIsSteady(o.state);
      SteadyThen(s, o, SendPostLogonTestRequest(o.state));
    }
  }

  lemma SequenceResetIsSteady(s: State, m: Message)
    requires m.body.SequenceReset? && m.intact && FirstMessageOk(s, m) && !IsTooHigh(s, m)
    ensures Steady(s, ProcessSequenceReset(s, m))
  {
    RefusalIsSteady(s, m);
    if m.body.newSeqNo.Some? && m.body.newSeqNo.value.Decimal? {
      var n := m.body.newSeqNo.value.n;
      AskingIsSteady(s.(resent := n));
      AskingIsSteady(s.(resent := n, incoming := n));
      var s1 := s.(resent := n, incoming := n);
      SteadyThen(s, Outcome(s1, [], [Covered(m.seqNum, n)]), CompleteRecovery(s1));
    }
  }

  lemma ResendRequestIsSteady(s: State, m: Message)
    requires m.body.ResendRequest?
    ensures Steady(s, ProcessResendRequest(s, m))
  {
    hide SendPostLogonTestRequest, SendReject;
    var s1 := StopTestRequestTimer(s);
    if m.body.beginSeqNo.None? || m.body.endSeqNo.None? {
      RefusalIsSteady(s1, m);
    } else if m.body.beginSeqNo.value.Decimal? && m.body.endSeqNo.value.Decimal? {
      var o := PerformResend(s1, m.body.beginSeqNo.value.n);
      AskingIsSteady(o.state);
      SteadyThen(s, o, SendPostLogonTestRequest(o.state));
    }
  }

  lemma DispatchIsSteady(s: State, m: Message)
    ensures Steady(s, Dispatch(s, m))
  {
    hide ProcessResendRequest, SendReject;
    match m.body
    case ResendRequest(_, _) => ResendRequestIsSteady(s, m);
    case TestRequest(_) => RefusalIsSteady(s, m);
    case _ =>
  }

  /** Whatever is not numbered too high is steady. */
  lemma OtherwiseSteady(s: State, m: Message)
    requires !s.nextExpectedMode && !IsTooHigh(s, m)
    ensures Steady(s, Receive(s, m))
  {
    RefusalIsSteady(s, m);
    if !m.intact {
    } else if !FirstMessageOk(s, m) {
      var o := SendReject(s, m);
      RefusalIsSteady(o.state, m);
      SteadyThen(s, o, SendLogout(o.state));
    } else if m.body.SequenceReset? {
      SequenceResetIsSteady(s, m);
    } else if m.possDup && IsAdmin(m) {
    } else if m.body.Logon? {
      LogonIsSteady(s, m);
      var r := ProcessLogon(s, m);
      SteadyThen(s, r.outcome, Accept(r.outcome.state, m));
    } else if m.seqNum == s.incoming {
      var o := Accept(s, m);
      DispatchIsSteady(o.state, m);
      SteadyThen(s, o, Dispatch(o.state, m));
    }
  }

  predicate TooHigh(s: State, e: Event) { e.Read? && IsTooHigh(s, e.m) }

  /** The application does not send ResendRequests of its own. */
  predicate Modest(e: Event) { e.Submit? ==> !e.body.ResendRequest? }

  lemma ReactRecovers(s: State, e: Event)
    requires !s.nextExpectedMode && Modest(e)
    ensures var o := React(s, e); if TooHigh(s, e) then Recovers(s, e.m.seqNum, o) else Steady(s, o)
  {
    if TooHigh(s, e) {
      TooHighRecovers(s, e.m);
    } else {
      match e
      case Read(m) => OtherwiseSteady(s, m);
      case TestTimerFired => if s.timers > 0 { AskingIsSteady(s.(timers := s.timers - 1, armed := false)); }
      case _ =>
    }
  }

  /** The highest too-high number seen since the current recovery began. */
  function HighWater(s: State, events: seq<Event>, seen: nat): nat
    decreases |events|
  {
    if events == [] then seen
    else HighWater(React(s, events[0]).state, events[1..], Seen(s, events[0], seen))
  }

  function Seen(s: State, e: Event, seen: nat): nat {
    var before := if s.phase == Resending then seen else 0;
    if TooHigh(s, e) && e.m.seqNum > before then e.m.seqNum else before
  }

  /** While a recovery is under way its target is at least every number found too high since
      the recovery began. */
  lemma {:induction false} TargetCoversEverythingSeen(s: State, events: seq<Event>, seen: nat)
    requires !s.nextExpectedMode && (s.phase == Resending ==> s.target >= seen)
    requires forall k :: 0 <= k < |events| ==> Modest(events[k])
    ensures var t := Run(s, events).state; t.phase == Resending ==> t.target >= HighWater(s, events, seen)
    decreases |events|
  {
    if events != [] {
      ReactRecovers(s, events[0]);
      TargetCoversEverythingSeen(React(s, events[0]).state, events[1..], Seen(s, events[0], seen));
    }
  }

  /** During a recovery the target never decreases. */
  lemma TargetNeverDecreases(s: State, e: Event)
    requires !s.nextExpectedMode && Modest(e) && s.phase == Resending && React(s, e).state.phase == Resending
    ensures React(s, e).state.target >= s.target
  {
    ReactRecovers(s, e);
  }

  /** A ResendRequest is sent exactly when an event moves the session into recovery. */
  lemma ResendRequestEntersRecovery(s: State, e: Event)
    requires !s.nextExpectedMode && Modest(e)
    ensures AsksResend(React(s, e).sent) <==> s.phase != Resending && React(s, e).state.phase == Resending
  {
    ReactRecovers(s, e);
  }

  /** No event sends two of them. */
  lemma AsksOnce(s: State, e: Event, i: nat, j: nat)
    requires !s.nextExpectedMode && Modest(e) && i < j < |React(s, e).sent|
    ensures !React(s, e).sent[i].body.ResendRequest? || !React(s, e).sent[j].body.ResendRequest?
  {
    hide React;
    ReactRecovers(s, e);
  }

  lemma {:induction false} RunKeepsMode(s: State, events: seq<Event>)
    requires !s.nextExpectedMode
    ensures !Run(s, events).state.nextExpectedMode
    decreases |events|
  {
    if events != [] {
      ModeIsFixed(s, events[0]);
      hide React;
      RunKeepsMode(React(s, events[0]).state, events[1..]);
    }
  }

  /** Between any two ResendRequests of a run there is a point at which the session is not
      recovering: the first has been sent there and the second has not. */
  lemma {:induction false} RequestsAreSeparated(s: State, events: seq<Event>, i: nat, j: nat) returns (k: nat)
    requires !s.nextExpectedMode && forall l :: 0 <= l < |events| ==> Modest(events[l])
    requires i < j < |Run(s, events).sent|
    requires Run(s, events).sent[i].body.ResendRequest? && Run(s, events).sent[j].body.ResendRequest?
    ensures k <= |events| && Run(s, events[..k]).state.phase != Resending
    ensures i < |Run(s, events[..k]).sent| <= j
    decreases |events|
  {
    hide React, Run, Modest;
    if events == [] {
      NothingHappens(s);
      assert false;
    }
    var n := |events| - 1;
    var init, e := events[..n], events[n];
    assert events == init + [e];
    RunSnoc(s, init, e);
    var before, o := Run(s, init), React(Run(s, init).state, e);
    var sent := Run(s, events).sent;
    assert sent == before.sent + o.sent;
    var size := |before.sent|;
    if j < size {
      k := RequestsAreSeparated(s, init, i, j);
      assert init[..k] == events[..k];
    } else {
      RunKeepsMode(s, init);
      ResendRequestEntersRecovery(before.state, e);
      assert o.sent[j - size].body.ResendRequest?;
      if i >= size {
        AsksOnce(before.state, e, i - size, j - size);
        assert false;
      }
      k := n;
    }
  }

  lemma NothingHappens(s: State)
    ensures Run(s, []) == Quiet(s)
  {
  }
}
