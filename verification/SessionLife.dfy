/** The life of a session around its logged on state: heartbeats run while it is logged on, at
    the interval of the last Logon, and a Logout closes both sides. */
module SessionLife {
  import opened Optional
  import opened SessionModel
  import opened SessionRuns
  import opened SessionPair
  import opened SessionReactions
  import SessionRecovery

  // -------------------------------------------------------- what one message may change

  /** The interval after a message: a Logon whose interval can be read sets it. */
  function IntervalAfter(interval: nat, m: Message): nat {
    if HasInterval(m) then m.body.heartBtInt.value.n else interval
  }

  /** Heartbeats are switched when the session gets logged on, and only then. */
  predicate Beats(s: State, t: State) {
    t.phase == LoggedOn ==>
      t.defibrillating == if s.phase == LoggedOn then s.defibrillating else t.heartbeatInterval > 0
  }

  /** Every Logon sent carries the interval, and whoever sends a Logout has closed. */
  predicate Fair(sent: seq<Message>, t: State) {
    && (forall k :: 0 <= k < |sent| && sent[k].body.Logon? ==>
          sent[k].body.heartBtInt == Some(Decimal(t.heartbeatInterval)))
    && (forall k :: 0 <= k < |sent| && sent[k].body.Logout? ==> t.phase == Disconnected)
  }

  predicate Orderly(s: State, m: Message, o: Outcome) {
    && o.state.behaviour == s.behaviour
    && o.state.heartbeatInterval == IntervalAfter(s.heartbeatInterval, m)
    && o.state.logonReceived == (s.logonReceived || HasInterval(m))
    && Beats(s, o.state) && Fair(o.sent, o.state)
  }

  lemma LowIsOrderly(s: State, m: Message)
    requires IsOrdinary(s, m) && m.seqNum < s.incoming
    ensures Orderly(s, m, Receive(s, m))
  {
    hide Receive;
    TooLowLogsOut(s, m);
  }

  lemma HighIsOrderly(s: State, m: Message)
    requires IsOrdinary(s, m) && m.seqNum > s.incoming
    ensures Orderly(s, m, Receive(s, m))
  {
    hide Receive;
    TooHighAsks(s, m);
  }

  lemma HeartbeatIsOrderly(s: State, m: Message)
    requires InOrder(s, m) && m.body.Heartbeat?
    ensures Orderly(s, m, Receive(s, m))
  {
    hide Receive;
    HeartbeatCompletes(s, m);
  }

  lemma TestRequestIsOrderly(s: State, m: Message)
    requires InOrder(s, m) && m.body.TestRequest?
    ensures Orderly(s, m, Receive(s, m))
  {
    hide Receive;
    TestRequestIsAnswered(s, m);
  }

  lemma ResendRequestIsOrderly(s: State, m: Message)
    requires InOrder(s, m) && m.body.ResendRequest?
    ensures Orderly(s, m, Receive(s, m))
  {
    hide Receive;
    ResendRequestIsFilled(s, m);
  }

  lemma LogoutIsOrderly(s: State, m: Message)
    requires InOrder(s, m) && m.body.Logout?
    ensures Orderly(s, m, Receive(s, m))
  {
    hide Receive;
    LogoutCloses(s, m);
  }

  lemma OtherIsOrderly(s: State, m: Message)
    requires InOrder(s, m) && (m.body.Application? || m.body.Reject? || m.body.XmlNonFix?)
    ensures Orderly(s, m, Receive(s, m))
  {
    hide Receive;
    OthersAreTaken(s, m);
  }

  lemma OrdinaryIsOrderly(s: State, m: Message)
    requires IsOrdinary(s, m)
    ensures Orderly(s, m, Receive(s, m))
  {
    hide Receive, Orderly;
    if m.seqNum < s.incoming {
      LowIsOrderly(s, m);
    } else if m.seqNum > s.incoming {
      HighIsOrderly(s, m);
    } else {
      match m.body
      case Heartbeat(_) => HeartbeatIsOrderly(s, m);
      case TestRequest(_) => TestRequestIsOrderly(s, m);
      case ResendRequest(_, _) => ResendRequestIsOrderly(s, m);
      case Logout => LogoutIsOrderly(s, m);
      case _ => OtherIsOrderly(s, m);
    }
  }

  lemma BackwardIsOrderly(s: State, m: Message)
    requires IsSequenceReset(s, m)
    requires m.body.newSeqNo.None? || m.body.newSeqNo.value.Other? || m.body.newSeqNo.value.n <= s.incoming
    ensures Orderly(s, m, Receive(s, m))
  {
    hide Receive;
    BackwardResetIsRejected(s, m);
  }

  lemma PlainResetIsOrderly(s: State, m: Message, n: nat)
    requires IsForward(s, m, n) && !m.body.gapFill
    ensures Orderly(s, m, Receive(s, m))
  {
    hide Receive;
    PlainResetMovesResent(s, m, n);
  }

  lemma GapFillIsOrderly(s: State, m: Message, n: nat)
    requires IsForward(s, m, n) && m.body.gapFill && m.seqNum == s.incoming
    ensures Orderly(s, m, Receive(s, m))
  {
    hide Receive;
    GapFillIsTaken(s, m, n);
  }

  lemma OutOfTurnIsOrderly(s: State, m: Message, n: nat)
    requires IsForward(s, m, n) && m.body.gapFill && m.seqNum != s.incoming
    ensures Orderly(s, m, Receive(s, m))
  {
    hide Receive;
    GapFillOutOfTurn(s, m, n);
  }

  lemma SequenceResetIsOrderly(s: State, m: Message)
    requires IsSequenceReset(s, m)
    ensures Orderly(s, m, Receive(s, m))
  {
    hide Receive, Orderly;
    if m.body.newSeqNo.None? || m.body.newSeqNo.value.Other? || m.body.newSeqNo.value.n <= s.incoming {
      BackwardIsOrderly(s, m);
    } else if !m.body.gapFill {
      PlainResetIsOrderly(s, m, m.body.newSeqNo.value.n);
    } else if m.seqNum == s.incoming {
      GapFillIsOrderly(s, m, m.body.newSeqNo.value.n);
    } else {
      OutOfTurnIsOrderly(s, m, m.body.newSeqNo.value.n);
    }
  }

  lemma UnreadableIsOrderly(s: State, m: Message)
    requires IsLogon(m) && !HasInterval(m)
    ensures Orderly(s, m, Receive(s, m))
  {
    hide Receive;
    LogonWithoutInterval(s, m);
  }

  lemma NextExpectedIsOrderly(s: State, m: Message)
    requires HasInterval(m) && s.nextExpectedMode
    ensures Orderly(s, m, Receive(s, m))
  {
    hide Receive;
    NextExpectedLogon(s, m);
  }

  lemma ResetIsOrderly(s: State, m: Message)
    requires HasInterval(m) && !s.nextExpectedMode && m.body.resetSeqNum
    ensures Orderly(s, m, Receive(s, m))
  {
    hide Receive;
    ResetLogon(s, m);
  }

  lemma PlainIsOrderly(s: State, m: Message)
    requires HasInterval(m) && !s.nextExpectedMode && !m.body.resetSeqNum
    ensures Orderly(s, m, Receive(s, m))
  {
    hide Receive;
    PlainLogon(s, m);
  }

  lemma LogonIsOrderly(s: State, m: Message)
    requires IsLogon(m)
    ensures Orderly(s, m, Receive(s, m))
  {
    hide Receive, Orderly;
    if !HasInterval(m) {
      UnreadableIsOrderly(s, m);
    } else if s.nextExpectedMode {
      NextExpectedIsOrderly(s, m);
    } else if m.body.resetSeqNum {
      ResetIsOrderly(s, m);
    } else {
      PlainIsOrderly(s, m);
    }
  }

  lemma ReceiveIsOrderly(s: State, m: Message)
    ensures Orderly(s, m, Receive(s, m))
  {
    hide Receive;
    if !m.intact {
      DamagedIsRejected(s, m);
    } else if !MayCome(s, m) {
      StrangerIsLoggedOut(s, m);
    } else if m.body.SequenceReset? {
      SequenceResetIsOrderly(s, m);
    } else if m.possDup && !m.body.Application? {
      DuplicateIsIgnored(s, m);
    } else if m.body.Logon? {
      LogonIsOrderly(s, m);
    } else {
      OrdinaryIsOrderly(s, m);
    }
  }

  // --------------------------------------------------- what happens without a message

  /** A fresh session has seen, sent, expects and has scheduled nothing. */
  lemma FreshIsBlank(behaviour: Behaviour, delayed: bool, mode: bool, incoming: nat, outgoing: nat, interval: nat)
    ensures var s := NewSession(behaviour, delayed, mode, incoming, outgoing, interval);
            && s.behaviour == behaviour && s.delayed == delayed && s.nextExpectedMode == mode
            && s.incoming == incoming && s.outgoing == outgoing && s.heartbeatInterval == interval
            && s.phase == Connected && !s.logonReceived && s.expectedTestReqId.None? && s.nextTestReqId == 0
            && s.resent == 0 && s.target == 0 && s.timers == 0 && !s.armed && !s.defibrillating
  {
  }

  /** open() works once: the session waits for the peer's Logon, and an initiator sends its own,
      under the next number and with its interval. */
  lemma OpenLogsOn(s: State)
    ensures var t := s.(phase := LoggingOn);
            React(s, OpenCalled) ==
            if s.phase != Connected then Outcome(s, [], [])
            else if s.behaviour == Initiator then Outcome(Sent(t, 1), [Reply(t, false)], [])
            else Outcome(t, [], [])
  {
  }

  /** What the application sends takes the next number; a reset Logon restarts both sequences. */
  lemma SubmitGoesOut(s: State, body: Body)
    ensures React(s, Submit(body)) ==
            if body.Logon? && body.resetSeqNum then
              var t := s.(phase := Resetting, incoming := 1, outgoing := 2);
              Outcome(t, [Message(1, false, true, body)], [Restarted])
            else Outcome(Sent(s, 1), [Next(s, body)], [])
  {
  }

  /** A scheduled test request asks under a fresh id and is used up. */
  lemma TimerAsks(s: State)
    ensures var t := s.(timers := if s.timers > 0 then s.timers - 1 else 0, armed := false);
            React(s, TestTimerFired) ==
            if s.timers > 0 then Outcome(AskState(t), [AskMessage(t)], []) else Outcome(s, [], [])
  {
  }

  lemma CloseDisconnects(s: State)
    ensures React(s, CloseCalled) == Outcome(s.(phase := Disconnected), [], [])
  {
  }

  // ------------------------------------------------------------------- heartbeats

  /** The heartbeat timer sends one heartbeat without an id, under the next number, while the
      session is logged on; nothing otherwise. */
  lemma HeartbeatGoesOut(s: State)
    ensures React(s, HeartbeatFired) ==
            if s.phase == LoggedOn && s.defibrillating then Outcome(Sent(s, 1), [Next(s, Heartbeat(None))], [])
            else Outcome(s, [], [])
  {
  }

  /** No event but getting logged on switches heartbeats of a logged on session. */
  lemma ReactBeats(s: State, e: Event)
    ensures Beats(s, React(s, e).state)
  {
    hide Receive;
    if e.Read? {
      ReceiveIsOrderly(s, e.m);
    }
  }

  /** The interval of the last Logon in a run whose interval could be read, else the given one. */
  function LastInterval(interval: nat, events: seq<Event>): nat {
    if events == [] then interval
    else
      var before, e := LastInterval(interval, events[..|events| - 1]), events[|events| - 1];
      if e.Read? then IntervalAfter(before, e.m) else before
  }

  lemma ReactKeepsInterval(s: State, e: Event)
    ensures React(s, e).state.heartbeatInterval ==
            if e.Read? then IntervalAfter(s.heartbeatInterval, e.m) else s.heartbeatInterval
  {
    hide Receive;
    if e.Read? {
      ReceiveIsOrderly(s, e.m);
    }
  }

  lemma {:induction false} IntervalIsLast(s: State, events: seq<Event>)
    ensures Run(s, events).state.heartbeatInterval == LastInterval(s.heartbeatInterval, events)
  {
    hide React, Run;
    if events == [] {
      NothingHappens(s);
    } else {
      var init, e := events[..|events| - 1], events[|events| - 1];
      assert events == init + [e];
      RunSnoc(s, init, e);
      IntervalIsLast(s, init);
      ReactKeepsInterval(Run(s, init).state, e);
    }
  }

  predicate LoggedOnAt(s: State, events: seq<Event>, k: nat)
    requires k <= |events|
  {
    Run(s, events[..k]).state.phase == LoggedOn
  }

  /** Over every run: a session that is logged on has been so since some event k, and it sends
      heartbeats if and only if the interval of the last Logon up to k is not zero. */
  lemma {:induction false} HeartbeatsSinceLogon(s: State, events: seq<Event>) returns (k: nat)
    requires s.phase != LoggedOn && LoggedOnAt(s, events, |events|)
    ensures 0 < k <= |events| && !LoggedOnAt(s, events, k - 1) && forall j :: k <= j <= |events| ==>
              LoggedOnAt(s, events, j)
    ensures Run(s, events).state.defibrillating <==> LastInterval(s.heartbeatInterval, events[..k]) > 0
    decreases |events|
  {
    hide React, Run;
    assert events[..|events|] == events;
    if events == [] {
      NothingHappens(s);
      assert false;
    }
    var n := |events| - 1;
    var init, e := events[..n], events[n];
    assert events == init + [e];
    RunSnoc(s, init, e);
    ReactBeats(Run(s, init).state, e);
    assert init[..n] == init;
    if LoggedOnAt(s, events, n) {
      k := HeartbeatsSinceLogon(s, init);
      assert forall j :: 0 <= j <= n ==> init[..j] == events[..j];
      forall j | k <= j <= |events|
        ensures LoggedOnAt(s, events, j)
      {
        if j <= n {
          assert LoggedOnAt(s, init, j);
        }
      }
      assert !LoggedOnAt(s, init, k - 1);
    } else {
      k := |events|;
      IntervalIsLast(s, events);
    }
  }

  // --------------------------------------------------- both sides beat at one interval

  /** A fresh initiator and a fresh acceptor, in either mode and with any numbers. */
  predicate Newcomers(i: State, a: State) {
    && i == NewSession(Initiator, i.delayed, i.nextExpectedMode, i.incoming, i.outgoing, i.heartbeatInterval)
    && a == NewSession(Acceptor, a.delayed, a.nextExpectedMode, a.incoming, a.outgoing, a.heartbeatInterval)
  }

  predicate Offering(c: seq<Message>, h: nat) {
    forall k :: 0 <= k < |c| && c[k].body.Logon? ==> c[k].body.heartBtInt == Some(Decimal(h))
  }

  /** Whoever has sent or seen a Logon uses the interval h, and beats accordingly once logged
      on; an acceptor that has not is not logged on. */
  predicate Adopted(x: State, h: nat) {
    if Introduced(x) then x.heartbeatInterval == h && (x.phase == LoggedOn ==> x.defibrillating == (h > 0))
    else x.phase != LoggedOn
  }

  /** An acceptor that has not seen a Logon sends none and does not get logged on. */
  lemma NotIntroduced(s: State, m: Message)
    requires !Introduced(s) && s.phase != LoggedOn && !Introduced(Receive(s, m).state)
    ensures var o := Receive(s, m);
            o.state.phase != LoggedOn && forall k :: 0 <= k < |o.sent| ==> !o.sent[k].body.Logon?
  {
    hide Receive;
    if !m.intact {
      DamagedIsRejected(s, m);
    } else if !MayCome(s, m) {
      StrangerIsLoggedOut(s, m);
    } else if m.possDup {
      DuplicateIsIgnored(s, m);
    } else if m.body.Logon? {
      LogonIsOrderly(s, m);
      LogonWithoutInterval(s, m);
    } else if m.seqNum < s.incoming {
      TooLowLogsOut(s, m);
    } else if m.seqNum > s.incoming {
      TooHighAsks(s, m);
    } else if m.body.Logout? {
      LogoutCloses(s, m);
    } else {
      OthersAreTaken(s, m);
    }
  }

  lemma ReceiveAdopts(s: State, m: Message, h: nat)
    requires Adopted(s, h) && Offering([m], h)
    ensures var o := Receive(s, m); Adopted(o.state, h) && Offering(o.sent, h)
  {
    hide Receive;
    ReceiveIsOrderly(s, m);
    assert [m][0] == m;
    var o := Receive(s, m);
    if !Introduced(o.state) {
      NotIntroduced(s, m);
    }
  }

  predicate AllAdopted(p: Pair, h: nat) {
    && p.i.s.behaviour == Initiator && Adopted(p.i.s, h) && Offering(p.i.inbox, h)
    && Adopted(p.a.s, h) && Offering(p.a.inbox, h)
  }

  lemma EffectAdopts(x: End, act: Action, h: nat)
    requires Adopted(x.s, h) && Offering(x.inbox, h) && Enabled(x, act)
    ensures var o := Effect(x, act);
            Adopted(o.state, h) && Offering(o.sent, h) && o.state.behaviour == x.s.behaviour
  {
    hide Receive;
    if act.Deliver? {
      ReceiveIsOrderly(x.s, x.inbox[0]);
      ReceiveAdopts(x.s, x.inbox[0], h);
    }
  }

  lemma OfferingConcat(c: seq<Message>, d: seq<Message>, h: nat)
    requires Offering(c, h) && Offering(d, h)
    ensures Offering(c + d, h) && (c != [] ==> Offering(c[1..], h))
  {
  }

  lemma {:induction false} AdoptedRun(p: Pair, acts: seq<Action>, h: nat)
    requires AllAdopted(p, h) && IsRun(p, acts)
    ensures AllAdopted(Final(p, acts), h)
    decreases |acts|
  {
    hide Adopted, Offering, Effect;
    if acts != [] {
      var act := acts[0];
      var x, y := At(p, Where(act)), Peer(p, Where(act));
      EffectAdopts(x, act, h);
      OfferingConcat(y.inbox, Effect(x, act).sent, h);
      OfferingConcat(x.inbox, Effect(x, act).sent, h);
      AdoptedRun(Step(p, act), acts[1..], h);
    }
  }

  /** In every run of a fresh pair, in either mode and whatever the numbers: a side that is
      logged on uses the interval the initiator was configured with, and sends heartbeats if
      and only if it is not zero. */
  lemma HeartbeatsAgree(i: State, a: State, acts: seq<Action>)
    requires Newcomers(i, a) && IsRun(SessionRecovery.Opened(i, a), acts)
    ensures var p, h := Final(SessionRecovery.Opened(i, a), acts), i.heartbeatInterval;
            && (p.i.s.phase == LoggedOn ==> p.i.s.heartbeatInterval == h && p.i.s.defibrillating == (h > 0))
            && (p.a.s.phase == LoggedOn ==> p.a.s.heartbeatInterval == h && p.a.s.defibrillating == (h > 0))
  {
    hide IsRun, Final;
    AdoptedRun(SessionRecovery.Opened(i, a), acts, i.heartbeatInterval);
  }

  // ----------------------------------------------------------------------- Logouts

  predicate HasLogout(c: seq<Message>) { exists k :: 0 <= k < |c| && c[k].body.Logout? }

  /** Whoever has a Logout on its way to its peer has closed. */
  predicate Parting(p: Pair) {
    && (HasLogout(p.i.inbox) ==> p.a.s.phase == Disconnected)
    && (HasLogout(p.a.inbox) ==> p.i.s.phase == Disconnected)
  }

  /** A session sends a Logout only when it closes, and once closed it stays closed. */
  lemma EffectParts(x: End, act: Action)
    requires Enabled(x, act)
    ensures var o := Effect(x, act);
            && (HasLogout(o.sent) ==> o.state.phase == Disconnected)
            && (x.s.phase == Disconnected ==> o.state.phase == Disconnected)
  {
    hide Receive;
    if act.Deliver? {
      ReceiveIsOrderly(x.s, x.inbox[0]);
    }
  }

  lemma LogoutConcat(c: seq<Message>, d: seq<Message>)
    ensures HasLogout(c + d) ==> HasLogout(c) || HasLogout(d)
    ensures c != [] && HasLogout(c[1..]) ==> HasLogout(c)
  {
    if HasLogout(c + d) {
      var k :| 0 <= k < |c + d| && (c + d)[k].body.Logout?;
      assert if k < |c| then c[k].body.Logout? else d[k - |c|].body.Logout?;
    }
    if c != [] && HasLogout(c[1..]) {
      var k :| 0 <= k < |c[1..]| && c[1..][k].body.Logout?;
      assert c[k + 1].body.Logout?;
    }
  }

  predicate BothClosed(p: Pair) { p.i.s.phase == Disconnected && p.a.s.phase == Disconnected }

  lemma {:induction false} PartingRun(p: Pair, acts: seq<Action>)
    requires Parting(p) && IsRun(p, acts)
    ensures Parting(Final(p, acts)) && (BothClosed(p) ==> BothClosed(Final(p, acts)))
    decreases |acts|
  {
    hide Effect, HasLogout;
    if acts != [] {
      var act := acts[0];
      var x, y := At(p, Where(act)), Peer(p, Where(act));
      EffectParts(x, act);
      LogoutConcat(y.inbox, Effect(x, act).sent);
      LogoutConcat(x.inbox, []);
      PartingRun(Step(p, act), acts[1..]);
    }
  }

  /** In every run of a fresh pair: once a Logout is delivered in sequence, both sides are
      closed, nothing is answered, and they stay closed whatever happens then. */
  lemma LogoutClosesBoth(i: State, a: State, acts: seq<Action>, side: Side, more: seq<Action>)
    requires Newcomers(i, a) && IsRun(SessionRecovery.Opened(i, a), acts)
    requires var p := Final(SessionRecovery.Opened(i, a), acts);
             && CanStep(p, Deliver(side)) && At(p, side).inbox[0].body.Logout?
             && InOrder(At(p, side).s, At(p, side).inbox[0])
             && IsRun(Step(p, Deliver(side)), more)
    ensures var q := Step(Final(SessionRecovery.Opened(i, a), acts), Deliver(side));
            && BothClosed(q) && BothClosed(Final(q, more))
            && Peer(q, side).inbox == Peer(Final(SessionRecovery.Opened(i, a), acts), side).inbox
  {
    var p := Final(SessionRecovery.Opened(i, a), acts);
    var x := At(p, side);
    assert Parting(SessionRecovery.Opened(i, a));
    PartingRun(SessionRecovery.Opened(i, a), acts);
    LogoutCloses(x.s, x.inbox[0]);
    hide Receive, IsRun, Final;
    assert HasLogout(x.inbox);
    var q := Step(p, Deliver(side));
    assert BothClosed(q);
    LogoutConcat(x.inbox, []);
    PartingRun(q, more);
  }
}
