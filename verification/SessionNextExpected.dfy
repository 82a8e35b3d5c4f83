/** Logon with NextExpectedMsgSeqNum: an acceptor that is up to date repairs an initiator
    that is behind by any amount with at most one gap fill, which the initiator takes while
    it is still logging on; an acceptor that is behind rejects in some run. */
module SessionNextExpected {
  import opened Optional
  import opened SessionModel
  import opened SessionPair
  import opened SessionRecovery

  predicate IsLogonWith(m: Message, nextExpected: nat) {
    IsPlainLogon(m) && m.body.nextExpected == Some(Decimal(nextExpected))
  }

  /** Only the initiator's Logon is in flight; the acceptor expects its number or the next. */
  predicate Proposing(p: Pair) {
    var i, a := p.i.s, p.a.s;
    && p.i.inbox == [] && |p.a.inbox| == 1 && IsLogonWith(p.a.inbox[0], i.incoming)
    && p.a.inbox[0].seqNum + 1 == i.outgoing
    && i.behaviour == Initiator && i.phase == LoggingOn && i.nextExpectedMode && Idle(i)
    && a.behaviour == Acceptor && a.phase == LoggingOn && a.nextExpectedMode && Idle(a) && !a.logonReceived
    && a.incoming <= i.outgoing <= a.incoming + 1 && i.incoming <= a.outgoing
  }

  /** The acceptor's repair is on its way: a gap fill that lands exactly on the number of the
      Logon behind it. Once it is taken the pair is settled. */
  predicate Filling(p: Pair) {
    && p.a.inbox == [] && |p.i.inbox| >= 2 && LogonComing(p.i.inbox[1..])
    && p.i.inbox[0] == GapFillMessage(p.i.s.incoming, p.i.inbox[1].seqNum) && p.i.s.incoming < p.i.inbox[1].seqNum
    && Landed(p, p.i.inbox[1].seqNum, p.i.inbox[1..])
  }

  /** The initiator has missed exactly one message: no gap fill, and its number is ignored. */
  predicate Skipping(p: Pair) {
    && p.a.inbox == [] && LogonComing(p.i.inbox) && p.i.inbox[0].seqNum == p.i.s.incoming + 1
    && Landed(p, p.i.inbox[0].seqNum, p.i.inbox)
  }

  /** The pair would be settled if the initiator already expected the number n. */
  predicate Landed(p: Pair, n: nat, c: seq<Message>) {
    && p.i.s.behaviour == Initiator && p.i.s.phase == LoggingOn && p.i.s.nextExpectedMode
    && Both(p.i.s.(incoming := n), p.a.s, [], c)
  }

  predicate Agreeing(p: Pair) { Chronicle(p, 0) && (Proposing(p) || Filling(p) || Skipping(p) || Normal(p)) }

  // ------------------------------------------------------ the first Logon arrives

  predicate NeedsFill(a: State, nextExpected: nat) { nextExpected + 1 < a.outgoing }

  /** The acceptor once it has taken the Logon m and sent its own. */
  function Replied(a: State, m: Message, nextExpected: nat): State
    requires IsLogonWith(m, nextExpected)
  {
    a.(heartbeatInterval := m.body.heartBtInt.value.n, logonReceived := true, outgoing := a.outgoing + 1,
       incoming := m.seqNum + 1, phase := if NeedsFill(a, nextExpected) then Resending else a.phase)
  }

  function ReplyLogon(a: State, m: Message): Message
    requires IsPlainLogon(m)
  {
    Message(a.outgoing, false, true, Logon(Some(m.body.heartBtInt.value), false, Some(Decimal(a.incoming))))
  }

  function Fill(a: State, nextExpected: nat): seq<Message> {
    if NeedsFill(a, nextExpected) then [GapFillMessage(nextExpected, a.outgoing)] else []
  }

  predicate IsReplyTo(a: State, m: Message, nextExpected: nat, o: Outcome)
    requires IsLogonWith(m, nextExpected)
  {
    var s := Replied(a, m, nextExpected);
    if a.delayed then
      o.state == s.(timers := s.timers + 1, armed := true) && o.sent == Fill(a, nextExpected) + [ReplyLogon(a, m)]
    else
      o.state == AskState(s) && o.sent == Fill(a, nextExpected) + [ReplyLogon(a, m), AskMessage(s)]
  }

  lemma ReplyToLogon(a: State, m: Message, nextExpected: nat)
    requires a.behaviour == Acceptor && a.nextExpectedMode && IsLogonWith(m, nextExpected) && nextExpected <= a.outgoing
    ensures IsReplyTo(a, m, nextExpected, Receive(a, m))
  {
  }

  lemma ReplyIsOrderly(x: End, y: End, nextExpected: nat, o: Outcome)
    requires |x.inbox| == 1 && IsLogonWith(x.inbox[0], nextExpected) && IsReplyTo(x.s, x.inbox[0], nextExpected, o)
    requires x.s.behaviour == Acceptor && !x.s.logonReceived && Idle(x.s)
    requires y.inbox == [] && y.s.behaviour == Initiator && y.s.phase == LoggingOn
    ensures Orderly(x, y, o, true, 0)
  {
    hide Load, ResendRequests, Bonus, Peaceful;
    var fill, rest := Fill(x.s, nextExpected), o.sent[|Fill(x.s, nextExpected)|..];
    assert o.sent == fill + rest;
    LoadConcat(fill, rest);
    ResendRequestsConcat(fill, rest);
    FillIsSmall(x.s, nextExpected);
    RestIsSmall(x.s, x.inbox[0], nextExpected, rest);
    assert Peaceful(fill + rest) by { PeacefulConcat(fill, rest); }
    ReplyBonus(x, y, o);
  }

  lemma FillIsSmall(a: State, nextExpected: nat)
    ensures var fill := Fill(a, nextExpected); Load(fill) <= 3 && ResendRequests(fill) == 0 && Peaceful(fill)
  {
    if NeedsFill(a, nextExpected) {
      Two(Fill(a, nextExpected)[0], Fill(a, nextExpected)[0]);
    }
  }

  lemma RestIsSmall(a: State, m: Message, nextExpected: nat, rest: seq<Message>)
    requires IsLogonWith(m, nextExpected)
    requires var s := Replied(a, m, nextExpected);
             rest == if a.delayed then [ReplyLogon(a, m)] else [ReplyLogon(a, m), AskMessage(s)]
    ensures Load(rest) == (if a.delayed then 8 else 10) && ResendRequests(rest) == 0 && Peaceful(rest)
  {
    Two(rest[0], rest[|rest| - 1]);
    Two(rest[|rest| - 1], rest[0]);
  }

  lemma PeacefulConcat(c: seq<Message>, d: seq<Message>)
    requires Peaceful(c) && Peaceful(d)
    ensures Peaceful(c + d)
  {
  }

  lemma ReplyBonus(x: End, y: End, o: Outcome)
    requires |x.inbox| == 1 && x.inbox[0].body.Logon? && x.s.behaviour == Acceptor && !x.s.logonReceived
    requires y.inbox == [] && y.s.behaviour == Initiator && y.s.phase == LoggingOn
    ensures BonusKept(x, y, o, true) && Bonus(x.s, x.inbox) == 8
  {
    assert x.inbox[1..] == [];
  }

  /** What follows the optional gap fill: the acceptor's Logon and, at once or later, its
      test request. */
  lemma ReplySettles(i: State, a: State, m: Message, nextExpected: nat)
    requires IsLogonWith(m, nextExpected) && a.behaviour == Acceptor && Idle(a) && a.nextExpectedMode
    requires a.phase == LoggingOn
    requires i.behaviour == Initiator && i.phase == LoggingOn && i.nextExpectedMode && Idle(i)
    requires i.outgoing == m.seqNum + 1 && m.seqNum <= a.incoming <= m.seqNum + 1
    ensures var s, j := Replied(a, m, nextExpected), i.(incoming := a.outgoing);
            && Both(j, AskState(s), [], [ReplyLogon(a, m), AskMessage(s)])
            && Both(j, s.(timers := 1, armed := true), [], [ReplyLogon(a, m)])
  {
    var s, j, logon := Replied(a, m, nextExpected), i.(incoming := a.outgoing), ReplyLogon(a, m);
    assert Awaited(j, logon);
    assert Ready(s, j, [logon], []);
    AskNow(s, j, [logon], []);
    AskLater(s, j, [logon], []);
    assert [logon] + [AskMessage(s)] == [logon, AskMessage(s)];
  }

  lemma ProposingToNext(p: Pair, o: Outcome)
    requires Proposing(p) && IsReplyTo(p.a.s, p.a.inbox[0], p.i.s.incoming, o)
    ensures var q, n := Advance(p, A, o, true), p.a.s.outgoing;
            if NeedsFill(p.a.s, p.i.s.incoming) then
              && |q.i.inbox| >= 2 && q.i.inbox[0] == GapFillMessage(p.i.s.incoming, n)
              && Landed(q, n, q.i.inbox[1..])
            else Landed(q, n, q.i.inbox)
  {
    var m := p.a.inbox[0];
    var s := Replied(p.a.s, m, p.i.s.incoming);
    ReplySettles(p.i.s, p.a.s, m, p.i.s.incoming);
    var rest := if p.a.s.delayed then [ReplyLogon(p.a.s, m)] else [ReplyLogon(p.a.s, m), AskMessage(s)];
    assert p.i.inbox + o.sent == Fill(p.a.s, p.i.s.incoming) + rest;
    if NeedsFill(p.a.s, p.i.s.incoming) {
      assert (p.i.inbox + o.sent)[1..] == rest;
    } else {
      assert p.i.inbox + o.sent == rest;
    }
  }

  /** What the initiator's channel holds once the acceptor has replied. */
  lemma ReplyShape(p: Pair, o: Outcome)
    requires Proposing(p) && IsReplyTo(p.a.s, p.a.inbox[0], p.i.s.incoming, o)
    ensures var q, n, g := Advance(p, A, o, true), p.a.s.outgoing, |Fill(p.a.s, p.i.s.incoming)|;
            && q.a.inbox == [] && q.i.s == p.i.s && |q.i.inbox| > g
            && q.i.inbox[g].body.Logon? && q.i.inbox[g].seqNum == n
  {
  }

  lemma ProposingLands(p: Pair, o: Outcome)
    requires Proposing(p) && IsReplyTo(p.a.s, p.a.inbox[0], p.i.s.incoming, o)
    ensures var q := Advance(p, A, o, true); Filling(q) || Skipping(q) || Normal(q)
  {
    ProposingToNext(p, o);
    ReplyShape(p, o);
    var q := Advance(p, A, o, true);
    if NeedsFill(p.a.s, p.i.s.incoming) {
      assert q.i.inbox[1..][0] == q.i.inbox[1];
      assert Filling(q);
    } else if p.i.s.incoming < p.a.s.outgoing {
      assert Skipping(q);
    } else {
      assert q.i.s.(incoming := p.a.s.outgoing) == q.i.s;
      assert Normal(q);
    }
  }

  lemma ProposingStep(p: Pair, act: Action)
    requires Proposing(p) && CanStep(p, act) && Chronicle(p, 0)
    ensures Agreeing(Step(p, act)) && Rank(Step(p, act)) < Rank(p)
  {
    var o := Receive(p.a.s, p.a.inbox[0]);
    ReplyToLogon(p.a.s, p.a.inbox[0], p.i.s.incoming);
    ReplyIsOrderly(p.a, p.i, p.i.s.incoming, o);
    OrderlyStep(p, A, o, true, 0, 0);
    ProposingLands(p, o);
  }

  // --------------------------------------------------- the initiator catches up

  /** The gap fill is accepted while logging on: nothing is sent and nothing is rejected. */
  lemma TakeFillLoggingOn(i: State, n: nat)
    requires i.behaviour == Initiator && i.phase == LoggingOn && i.nextExpectedMode && i.incoming < n
    ensures Receive(i, GapFillMessage(i.incoming, n)) ==
            Outcome(i.(incoming := n, resent := n), [], [Covered(i.incoming, n)])
  {
  }

  /** The conversation of x does not depend on the field `resent`. */
  lemma ResentIsIrrelevant(x: State, y: State, out: seq<Message>, inn: seq<Message>, n: nat)
    requires Both(x, y, out, inn)
    ensures Both(x.(resent := n), y, out, inn)
  {
  }

  lemma FillTaken(p: Pair)
    requires Filling(p) && Chronicle(p, 0)
    ensures Normal(Step(p, Deliver(I))) && Chronicle(Step(p, Deliver(I)), 0) && Rank(Step(p, Deliver(I))) < Rank(p)
  {
    var n := p.i.inbox[1].seqNum;
    var o := Receive(p.i.s, p.i.inbox[0]);
    TakeFillLoggingOn(p.i.s, n);
    hide Receive, Settled, Rank, Chronicle, Orderly;
    FillSettles(p, o);
    OrderlyStep(p, I, o, true, 0, 0);
  }

  lemma FillSettles(p: Pair, o: Outcome)
    requires Filling(p)
    requires var n := p.i.inbox[1].seqNum;
             o == Outcome(p.i.s.(incoming := n, resent := n), [], [Covered(p.i.s.incoming, n)])
    ensures Normal(Advance(p, I, o, true)) && Orderly(p.i, p.a, o, true, 0)
  {
    hide Settled;
    var n := p.i.inbox[1].seqNum;
    ResentIsIrrelevant(p.i.s.(incoming := n), p.a.s, [], p.i.inbox[1..], n);
    NoBonus(o.state, p.a.s, [], p.i.inbox[1..]);
    assert p.a.inbox + o.sent == [];
  }

  lemma SkipTaken(p: Pair)
    requires Skipping(p) && Chronicle(p, 0)
    ensures Normal(Step(p, Deliver(I))) && Chronicle(Step(p, Deliver(I)), 0) && Rank(Step(p, Deliver(I))) < Rank(p)
  {
    var n := p.i.inbox[0].seqNum;
    var j := p.i.s.(incoming := n);
    var o, o1 := Receive(p.i.s, p.i.inbox[0]), Receive(j, p.i.inbox[0]);
    ReceiveAwaited(p.i.s, p.i.inbox[0]);
    ReceiveNormal(j, p.a.s, [], p.i.inbox);
    ReceiveAwaited(j, p.i.inbox[0]);
    assert o.state == o1.state && o.sent == o1.sent;
    hide Receive, Orderly, Chronicle, Rank, IsNormalOutcome;
    SkipSettles(p, o1, o);
    OrderlyStep(p, I, o, true, 0, 0);
  }

  /** The number of that Logon does not matter: all goes on as if it had been expected. */
  lemma SkipSettles(p: Pair, o1: Outcome, o: Outcome)
    requires Skipping(p) && IsNormalOutcome(p.i.s.(incoming := p.i.inbox[0].seqNum), p.i.inbox[0], o1)
    requires o.state == o1.state && o.sent == o1.sent
    ensures Normal(Advance(p, I, o, true)) && Orderly(p.i, p.a, o, true, 0)
  {
    var j := p.i.s.(incoming := p.i.inbox[0].seqNum);
    hide Settled;
    SkippingIsIdle(p);
    TakeNormal(j, p.a.s, [], p.i.inbox, o1);
    NormalOutcomeIsSmall(j, p.i.inbox[0], o1);
    hide IsNormalOutcome, Load, ResendRequests;
    NoBonus(j, p.a.s, [], p.i.inbox);
    NoBonus(o1.state, p.a.s, [] + o1.sent, p.i.inbox[1..]);
    assert p.a.inbox + o.sent == [] + o1.sent;
  }

  lemma SkippingIsIdle(p: Pair)
    requires Skipping(p)
    ensures p.i.s.timers == 0
  {
  }

  /** While the initiator catches up, the acceptor may act by itself. */
  lemma LandedSpontaneous(p: Pair, n: nat, c: seq<Message>, act: Action)
    requires Landed(p, n, c) && Where(act) == A && Enabled(p.a, act) && !act.Deliver? && p.a.inbox == []
    requires LogonComing(c)
    ensures var o := Effect(p.a, act);
            && Landed(Advance(p, A, o, false), n, c + o.sent)
            && Proper(p.a, o, false) && ResendRequests(o.sent) == 0 && (IsInternal(act) ==> Shrinks(p.a, o, false))
            && o.sent != [] && !o.sent[0].body.Logon?
  {
    var y := End(p.i.s.(incoming := n), c, [], [], 0);
    NormalSpontaneous(p.a, y, act);
  }

  /** The bookkeeping of such an act. */
  lemma SpontaneousStep(p: Pair, act: Action)
    requires Chronicle(p, 0) && p.i.inbox != [] && p.a.inbox == [] && Where(act) == A && Enabled(p.a, act)
    requires !act.Deliver?
    requires var o := Effect(p.a, act);
             Proper(p.a, o, false) && ResendRequests(o.sent) == 0 && (IsInternal(act) ==> Shrinks(p.a, o, false))
    ensures Chronicle(Step(p, act), 0) && (IsInternal(act) ==> Rank(Step(p, act)) < Rank(p))
  {
    var o := Effect(p.a, act);
    ChronicleStep(p, A, o, false, 0, 0);
    if IsInternal(act) {
      RankStep(p, A, o, false);
    }
  }

  lemma FillingSpontaneous(p: Pair, act: Action)
    requires Filling(p) && Where(act) == A && CanStep(p, act)
    ensures Filling(Step(p, act))
    ensures var o := Effect(p.a, act);
            Proper(p.a, o, false) && ResendRequests(o.sent) == 0 && (IsInternal(act) ==> Shrinks(p.a, o, false))
  {
    var o := Effect(p.a, act);
    LandedSpontaneous(p, p.i.inbox[1].seqNum, p.i.inbox[1..], act);
    assert (p.i.inbox + o.sent)[1..] == p.i.inbox[1..] + o.sent;
    assert p.i.inbox[1..][0] == p.i.inbox[1];
  }

  lemma SkippingSpontaneous(p: Pair, act: Action)
    requires Skipping(p) && Where(act) == A && CanStep(p, act)
    ensures Skipping(Step(p, act))
    ensures var o := Effect(p.a, act);
            Proper(p.a, o, false) && ResendRequests(o.sent) == 0 && (IsInternal(act) ==> Shrinks(p.a, o, false))
  {
    LandedSpontaneous(p, p.i.inbox[0].seqNum, p.i.inbox, act);
  }

  lemma CatchingUpStep(p: Pair, act: Action)
    requires (Filling(p) || Skipping(p)) && CanStep(p, act) && Chronicle(p, 0)
    ensures Agreeing(Step(p, act)) && (IsInternal(act) ==> Rank(Step(p, act)) < Rank(p))
  {
    if act.Deliver? {
      if Filling(p) {
        FillTaken(p);
      } else {
        SkipTaken(p);
      }
    } else {
      if Filling(p) {
        FillingSpontaneous(p, act);
      } else {
        SkippingSpontaneous(p, act);
      }
      SpontaneousStep(p, act);
    }
  }

  lemma AgreeingStep(p: Pair, act: Action)
    requires Agreeing(p) && CanStep(p, act)
    ensures Agreeing(Step(p, act)) && (IsInternal(act) ==> Rank(Step(p, act)) < Rank(p))
  {
    if Proposing(p) {
      ProposingStep(p, act);
    } else if Filling(p) || Skipping(p) {
      CatchingUpStep(p, act);
    } else {
      NormalPairStep(p, act, 0);
    }
  }

  lemma {:induction false} AgreeingRun(p: Pair, acts: seq<Action>)
    requires Agreeing(p) && IsRun(p, acts)
    ensures Agreeing(Final(p, acts))
    ensures AllInternal(acts) ==> |acts| + Rank(Final(p, acts)) <= Rank(p)
    decreases |acts|
  {
    if acts != [] {
      AgreeingStep(p, acts[0]);
      AgreeingRun(Step(p, acts[0]), acts[1..]);
      if AllInternal(acts) {
        AllInternalTail(acts);
      }
    }
  }

  // ---------------------------------------------------------------- the theorems

  /** A fresh initiator and a fresh acceptor in this mode, with any numbers. */
  predicate Fresh(i: State, a: State) {
    && i == NewSession(Initiator, i.delayed, true, i.incoming, i.outgoing, i.heartbeatInterval)
    && a == NewSession(Acceptor, a.delayed, true, a.incoming, a.outgoing, a.heartbeatInterval)
  }

  /** The initiator expects no number that the acceptor has not reached, and the acceptor
      expects the number of the initiator's Logon, or the one after it: taking that Logon
      moves it there in any case. */
  predicate Compatible(i: State, a: State) {
    i.incoming <= a.outgoing && i.outgoing <= a.incoming <= i.outgoing + 1
  }

  /** A gap fill on its way to the initiator will be accepted while it is logging on, and it
      lands exactly on the number of the Logon that follows it. */
  predicate FillLands(p: Pair) {
    p.i.inbox != [] && p.i.inbox[0].body.SequenceReset? ==>
      && |p.i.inbox| >= 2 && p.i.inbox[1].body.Logon?
      && p.i.s.phase == LoggingOn
      && p.i.inbox[0].seqNum == p.i.s.incoming
      && p.i.inbox[0].body.newSeqNo == Some(Decimal(p.i.inbox[1].seqNum))
      && Receive(p.i.s, p.i.inbox[0]).state.incoming == p.i.inbox[1].seqNum
  }

  lemma AgreeingMeans(p: Pair)
    requires Agreeing(p)
    ensures Alive(p) && FillLands(p)
    ensures Quiescent(p) ==> Normal(p)
  {
    if Filling(p) {
      TakeFillLoggingOn(p.i.s, p.i.inbox[1].seqNum);
      assert p.i.inbox[1..][0] == p.i.inbox[1];
    }
  }

  lemma OpenedAgrees(i: State, a: State)
    requires Fresh(i, a) && Compatible(i, a)
    ensures Agreeing(Opened(i, a))
  {
    var p := Opened(i, a);
    assert Proposing(p);
    assert Payloads(p.i.sent[1..]) == [];
    assert ResendRequests(p.i.sent[1..]) == 0;
  }

  /** With the acceptor up to date, or one ahead, and the initiator behind by any amount, every
      run is free of Reject, Logout, ResendRequest and disconnection, every gap fill lands,
      internal steps run out, and when nothing is left to happen both are logged on and in step. */
  lemma NextExpectedAgrees(i: State, a: State, acts: seq<Action>)
    requires Fresh(i, a) && Compatible(i, a) && IsRun(Opened(i, a), acts)
    ensures var p := Final(Opened(i, a), acts);
            && Chronicle(p, 0) && Alive(p) && FillLands(p)
            && (Quiescent(p) ==> InSync(p) && p.i.got == Payloads(p.a.sent) && p.a.got == Payloads(p.i.sent))
    ensures AllInternal(acts) ==> |acts| <= Rank(Opened(i, a))
  {
    OpenedAgrees(i, a);
    AgreeingRun(Opened(i, a), acts);
    var p := Final(Opened(i, a), acts);
    AgreeingMeans(p);
    if Quiescent(p) {
      NormalQuiescent(p, 0);
    }
  }

  // --------------------------------------------------------- an acceptor behind

  /** A gap fill that does not reach beyond the expected number is rejected. */
  lemma RejectFill(a: State, begin: nat, n: nat)
    requires a.logonReceived && n <= a.incoming
    ensures Receive(a, GapFillMessage(begin, n)).sent == [Message(a.outgoing, false, true, Reject(begin))]
  {
  }

  /** An initiator whose peer expects too low a number answers its Logon with a gap fill. */
  lemma FillBack(i: State, m: Message, nextExpected: nat)
    requires i.behaviour == Initiator && i.nextExpectedMode && IsLogonWith(m, nextExpected)
    requires NeedsFill(i, nextExpected)
    ensures Receive(i, m).sent != [] && Receive(i, m).sent[0] == GapFillMessage(nextExpected, i.outgoing)
  {
  }

  /** The acceptor's expected number was too low when it replied, but taking the initiator's
      Logon has already moved it past the gap. */
  predicate Overtaken(p: Pair, nextExpected: nat) {
    && p.a.inbox == [] && p.a.s.logonReceived && p.a.s.incoming == p.i.s.outgoing
    && p.a.s.phase != Disconnected && p.i.s.phase != Disconnected
    && p.i.s.behaviour == Initiator && p.i.s.nextExpectedMode && NeedsFill(p.i.s, nextExpected)
    && p.i.inbox != [] && IsLogonWith(p.i.inbox[0], nextExpected)
  }

  lemma OvertakenRejects(p: Pair, nextExpected: nat)
    requires Overtaken(p, nextExpected)
    ensures IsRun(p, [Deliver(I), Deliver(A)]) && !Peaceful(Final(p, [Deliver(I), Deliver(A)]).a.sent)
  {
    FillBack(p.i.s, p.i.inbox[0], nextExpected);
    var q := Step(p, Deliver(I));
    assert q.a.inbox[0] == GapFillMessage(nextExpected, p.i.s.outgoing);
    RejectFill(q.a.s, nextExpected, p.i.s.outgoing);
    var r := Step(q, Deliver(A));
    assert r.a.sent[|q.a.sent|].body.Reject?;
    assert r.a.sent[|q.a.sent|] in r.a.sent;
    RunCons(q, Deliver(A), []);
    RunCons(p, Deliver(I), [Deliver(A)]);
    assert [Deliver(I)] + [Deliver(A)] == [Deliver(I), Deliver(A)];
    assert [Deliver(A)] + [] == [Deliver(A)];
  }

  /** An acceptor that is behind, by any amount, rejects in some run. */
  lemma AcceptorBehindRejects(i: State, a: State) returns (acts: seq<Action>)
    requires Fresh(i, a) && a.incoming < i.outgoing && i.incoming <= a.outgoing
    ensures IsRun(Opened(i, a), acts) && !Peaceful(Final(Opened(i, a), acts).a.sent)
  {
    var p := Opened(i, a);
    var m := p.a.inbox[0];
    ReplyToLogon(p.a.s, m, i.incoming);
    var q := Step(p, Deliver(A));
    acts := [Deliver(I), Deliver(A)];
    if NeedsFill(a, i.incoming) {
      TakeFillLoggingOn(q.i.s, a.outgoing);
      assert q.i.inbox[0] == GapFillMessage(i.incoming, a.outgoing);
      var r := Step(q, Deliver(I));
      OvertakenRejects(r, a.incoming);
      RunCons(q, Deliver(I), acts);
      acts := [Deliver(I)] + acts;
    } else {
      OvertakenRejects(q, a.incoming);
    }
    RunCons(p, Deliver(A), acts);
    acts := [Deliver(A)] + acts;
  }

  // --------------------------------------------------------------- a side ahead

  /** A Logon that asks for a number not reached yet is answered with a Logout. */
  lemma LogoutOnExpected(x: State, m: Message, nextExpected: nat)
    requires x.nextExpectedMode && IsLogonWith(m, nextExpected) && nextExpected > x.outgoing
    ensures var sent := Receive(x, m).sent; sent != [] && sent[0].body.Logout?
  {
  }

  lemma LogoutIsNotPeaceful(c: seq<Message>, d: seq<Message>)
    requires d != [] && d[0].body.Logout?
    ensures !Peaceful(c + d)
  {
    assert (c + d)[|c|] == d[0];
  }

  /** The initiator expects a number the acceptor has not reached. */
  lemma InitiatorAheadLogsOut(i: State, a: State)
    requires Fresh(i, a) && i.incoming > a.outgoing
    ensures IsRun(Opened(i, a), [Deliver(A)]) && !Peaceful(Final(Opened(i, a), [Deliver(A)]).a.sent)
  {
    var p := Opened(i, a);
    LogoutOnExpected(p.a.s, p.a.inbox[0], i.incoming);
    hide Receive;
    LogoutIsNotPeaceful(p.a.sent, Receive(p.a.s, p.a.inbox[0]).sent);
    RunCons(p, Deliver(A), []);
    assert [Deliver(A)] + [] == [Deliver(A)];
  }

  /** The acceptor's Logon, next in line, asks for too high a number. */
  lemma TooHighLogsOut(q: Pair, nextExpected: nat)
    requires q.i.inbox != [] && IsLogonWith(q.i.inbox[0], nextExpected)
    requires q.i.s.nextExpectedMode && nextExpected > q.i.s.outgoing && q.i.s.phase == LoggingOn
    ensures IsRun(q, [Deliver(I)]) && !Peaceful(Final(q, [Deliver(I)]).i.sent)
  {
    LogoutOnExpected(q.i.s, q.i.inbox[0], nextExpected);
    hide Receive;
    LogoutIsNotPeaceful(q.i.sent, Receive(q.i.s, q.i.inbox[0]).sent);
    RunCons(q, Deliver(I), []);
    assert [Deliver(I)] + [] == [Deliver(I)];
  }

  /** The acceptor expects more than the number after the initiator's Logon. */
  lemma AcceptorAheadLogsOut(i: State, a: State) returns (acts: seq<Action>)
    requires Fresh(i, a) && i.incoming <= a.outgoing && a.incoming > i.outgoing + 1
    ensures IsRun(Opened(i, a), acts) && !Peaceful(Final(Opened(i, a), acts).i.sent)
  {
    var p := Opened(i, a);
    ReplyToLogon(p.a.s, p.a.inbox[0], i.incoming);
    hide Receive, Peaceful;
    var q := Step(p, Deliver(A));
    acts := [Deliver(I)];
    if NeedsFill(a, i.incoming) {
      FillIsTaken(q, a.outgoing);
      var r := Step(q, Deliver(I));
      TooHighLogsOut(r, a.incoming);
      RunCons(q, Deliver(I), acts);
      acts := [Deliver(I)] + acts;
    } else {
      TooHighLogsOut(q, a.incoming);
    }
    RunCons(p, Deliver(A), acts);
    acts := [Deliver(A)] + acts;
  }

  lemma FillIsTaken(q: Pair, n: nat)
    requires q.i.s.behaviour == Initiator && q.i.s.phase == LoggingOn && q.i.s.nextExpectedMode && q.i.s.incoming < n
    requires q.i.inbox != [] && q.i.inbox[0] == GapFillMessage(q.i.s.incoming, n)
    ensures var r := Step(q, Deliver(I));
            r.i.inbox == q.i.inbox[1..] && r.i.s == q.i.s.(incoming := n, resent := n)
  {
    TakeFillLoggingOn(q.i.s, n);
  }

  /** In this mode, no run from a fresh pair contains a Reject or a Logout if and only if the
      two sides' numbers are compatible: an initiator ahead, or an acceptor ahead by more than
      one, leads to a Logout, and an acceptor behind to a Reject. */
  lemma NextExpectedIsPeacefulIff(i: State, a: State)
    requires Fresh(i, a)
    ensures (forall acts :: IsRun(Opened(i, a), acts) ==>
               Peaceful(Final(Opened(i, a), acts).i.sent) && Peaceful(Final(Opened(i, a), acts).a.sent))
            <==> i.incoming <= a.outgoing && i.outgoing <= a.incoming <= i.outgoing + 1
  {
    hide IsRun, Final, Opened, Peaceful;
    if Compatible(i, a) {
      forall acts | IsRun(Opened(i, a), acts)
        ensures Peaceful(Final(Opened(i, a), acts).i.sent) && Peaceful(Final(Opened(i, a), acts).a.sent)
      {
        NextExpectedAgrees(i, a, acts);
      }
    } else if i.incoming > a.outgoing {
      InitiatorAheadLogsOut(i, a);
    } else if a.incoming < i.outgoing {
      var acts := AcceptorBehindRejects(i, a);
    } else {
      var acts := AcceptorAheadLogsOut(i, a);
    }
  }
}
