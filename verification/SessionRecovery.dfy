/** Logon between an initiator and an acceptor, one of which may have missed any number of
    its peer's messages: every interleaving recovers with at most one ResendRequest. */
module SessionRecovery {
  import opened Optional
  import opened SessionModel
  import opened SessionPair

  /** Both ends have called open() and the initiator's Logon is in flight. */
  function Opened(i: State, a: State): Pair {
    Pair(End(Open(i).state, [], Open(i).sent, [], 0), End(Open(a).state, Open(i).sent, [], [], 0))
  }

  predicate Idle(x: State) { x.timers == 0 && !x.armed }

  predicate IsPlainLogon(m: Message) {
    && m.intact && !m.possDup && m.body.Logon?
    && m.body.heartBtInt.Some? && m.body.heartBtInt.value.Decimal? && !m.body.resetSeqNum
  }

  predicate IsTest(m: Message) { Regular(m) && m.body.TestRequest? }

  predicate IsResendRequest(m: Message, begin: nat) {
    && m.intact && !m.possDup && m.body.ResendRequest?
    && m.body.beginSeqNo == Some(Decimal(begin))
    && m.body.endSeqNo.Some? && m.body.endSeqNo.value.Decimal?
  }

  /** Only the initiator's Logon is in flight, and at most one side is behind. */
  predicate Opening(p: Pair) {
    var i, a := p.i.s, p.a.s;
    && p.i.inbox == [] && |p.a.inbox| == 1 && IsPlainLogon(p.a.inbox[0]) && p.a.inbox[0].seqNum + 1 == i.outgoing
    && i.behaviour == Initiator && i.phase == LoggingOn && !i.nextExpectedMode && Idle(i)
    && a.behaviour == Acceptor && a.phase == LoggingOn && !a.nextExpectedMode && Idle(a) && !a.logonReceived
    && a.incoming < i.outgoing && i.incoming <= a.outgoing
    && (a.incoming + 1 == i.outgoing || i.incoming == a.outgoing)
    && p.i.highest == 0 && p.a.highest == 0
  }

  /** The acceptor is behind: it has answered with a Logon and a ResendRequest. */
  predicate Announced(p: Pair) {
    var i, a := p.i.s, p.a.s;
    && p.a.inbox == [] && |p.i.inbox| == 2
    && IsPlainLogon(p.i.inbox[0]) && IsResendRequest(p.i.inbox[1], a.incoming)
    && Consecutive(p.i.inbox, i.incoming, a.outgoing)
    && i.behaviour == Initiator && i.phase == LoggingOn && !i.nextExpectedMode && Idle(i)
    && a.logonReceived && a.phase == Resending && !a.nextExpectedMode && Idle(a)
    && a.incoming < i.outgoing && a.target < i.outgoing && p.a.highest < i.outgoing
  }

  /** The initiator is behind: it will find the acceptor's Logon number too high. */
  predicate Advised(p: Pair) {
    var i, a := p.i.s, p.a.s;
    && p.a.inbox == [] && 1 <= |p.i.inbox| <= 2
    && IsPlainLogon(p.i.inbox[0]) && (|p.i.inbox| == 2 ==> IsTest(p.i.inbox[1]))
    && Consecutive(p.i.inbox, p.i.inbox[0].seqNum, a.outgoing)
    && i.behaviour == Initiator && i.phase == LoggingOn && !i.nextExpectedMode && Idle(i)
    && i.incoming < p.i.inbox[0].seqNum && p.i.highest < p.i.inbox[0].seqNum
    && a.logonReceived && a.phase == LoggingOn && !a.nextExpectedMode
    && a.timers <= 1 && a.armed == (a.timers == 1) && (a.timers == 1) == (|p.i.inbox| == 1)
    && a.incoming == i.outgoing
  }

  /** b is behind and its ResendRequest is the only message on its way to u. */
  predicate Requested(u: End, b: End) {
    && |u.inbox| == 1 && IsResendRequest(u.inbox[0], b.s.incoming)
    && Consecutive(u.inbox, u.s.incoming, b.s.outgoing)
    && |b.inbox| <= 1 && (forall k :: 0 <= k < |b.inbox| ==> IsTest(b.inbox[k]))
    && |b.inbox| <= u.s.outgoing && Consecutive(b.inbox, u.s.outgoing - |b.inbox|, u.s.outgoing)
    && Introduced(u.s) && u.s.phase == LoggingOn && !u.s.nextExpectedMode
    && u.s.timers <= 1 && u.s.armed == (u.s.timers == 1) && (u.s.timers == 1 ==> b.inbox == [])
    && Introduced(b.s) && b.s.phase == Resending && !b.s.nextExpectedMode && Idle(b.s)
    && b.s.incoming + |b.inbox| < u.s.outgoing
    && b.s.target + |b.inbox| < u.s.outgoing && b.highest + |b.inbox| < u.s.outgoing
  }

  /** b is behind and the gap fill is on its way to b, after g stale test requests. */
  predicate FilledAt(u: End, b: End, g: nat) {
    && u.inbox == [] && b.s.outgoing == u.s.incoming
    && g < |b.inbox| <= g + 2
    && b.inbox[g].body.SequenceReset? && b.inbox[g].body.newSeqNo.Some? && b.inbox[g].body.newSeqNo.value.Decimal?
    && var n := b.inbox[g].body.newSeqNo.value.n;
    && b.inbox[g] == GapFillMessage(b.s.incoming, n) && b.s.incoming < n
    && b.s.target < n && b.highest < n
    && (forall k :: 0 <= k < g ==> IsTest(b.inbox[k]) && b.s.incoming < b.inbox[k].seqNum < n)
    && Consecutive(b.inbox[g + 1..], n, u.s.outgoing)
    && (forall k :: g < k < |b.inbox| ==>
          IsTest(b.inbox[k]) && u.s.expectedTestReqId.Some?
          && b.inbox[k].body.testReqId == Some(Decimal(u.s.expectedTestReqId.value)))
    && Introduced(u.s) && u.s.phase == LoggingOn && !u.s.nextExpectedMode
    && u.s.timers <= 1 && u.s.armed == (u.s.timers == 1) && (u.s.timers == 1) == (|b.inbox| == g + 1)
    && Introduced(b.s) && b.s.phase == Resending && !b.s.nextExpectedMode && Idle(b.s)
  }

  predicate Filled(u: End, b: End) { FilledAt(u, b, 0) || FilledAt(u, b, 1) }

  /** The inductive invariant of a recovering logon. */
  predicate Recovering(p: Pair) {
    || (Chronicle(p, 0) && (Opening(p) || Advised(p)))
    || (Chronicle(p, 1) && (Announced(p) || Normal(p)))
    || (Chronicle(p, 1) && (Requested(p.i, p.a) || Requested(p.a, p.i) || Filled(p.i, p.a) || Filled(p.a, p.i)))
  }


  /** The measures of a short batch of messages. */
  lemma Two(m: Message, n: Message)
    ensures Load([m]) == Weight(m) && Load([m, n]) == Weight(m) + Weight(n)
    ensures ResendRequests([m]) == (if m.body.ResendRequest? then 1 else 0)
    ensures ResendRequests([m, n]) == ResendRequests([m]) + ResendRequests([n])
  {
    LoadConcat([m], [n]);
    ResendRequestsConcat([m], [n]);
    assert [m] + [n] == [m, n];
  }

  /** An outcome that may happen at one side of a pair: bookkeeping and measure are kept. */
  predicate Orderly(x: End, y: End, o: Outcome, took: bool, resends: nat)
    requires took ==> x.inbox != []
  {
    && Proper(x, o, took) && Shrinks(x, o, took) && BonusKept(x, y, o, took) && ResendRequests(o.sent) == resends
  }

  // ------------------------------------------------------ the first Logon arrives

  /** The acceptor once it has answered the Logon m with its own. */
  function Answered(a: State, m: Message): State
    requires IsPlainLogon(m)
  {
    a.(heartbeatInterval := m.body.heartBtInt.value.n, logonReceived := true, outgoing := a.outgoing + 1)
  }

  /** The acceptor answers the Logon m, asking for a resend if its number is too high. */
  predicate IsAnswer(a: State, m: Message, o: Outcome)
    requires IsPlainLogon(m)
  {
    var s := Answered(a, m);
    var logon := Message(a.outgoing, false, true, LogonBody(s, false));
    if a.incoming < m.seqNum then
      && o.state == s.(phase := Resending, resent := a.incoming, target := m.seqNum, outgoing := a.outgoing + 2)
      && var request := ResendRequest(Some(Decimal(a.incoming)), Some(Decimal(m.seqNum)));
      o.sent == [logon, Message(a.outgoing + 1, false, true, request)]
    else if a.delayed then
      o.state == s.(incoming := m.seqNum + 1, timers := 1, armed := true) && o.sent == [logon]
    else
      o.state == AskState(s).(incoming := m.seqNum + 1) && o.sent == [logon, AskMessage(s)]
  }

  lemma AnswerLogon(a: State, m: Message)
    requires a.behaviour == Acceptor && a.phase == LoggingOn && !a.nextExpectedMode && Idle(a)
    requires IsPlainLogon(m) && a.incoming <= m.seqNum
    ensures IsAnswer(a, m, Receive(a, m))
  {
  }

  lemma AnswerIsOrderly(x: End, y: End, o: Outcome)
    requires |x.inbox| == 1 && IsPlainLogon(x.inbox[0]) && IsAnswer(x.s, x.inbox[0], o)
    requires x.s.behaviour == Acceptor && !x.s.logonReceived && Idle(x.s)
    requires y.inbox == [] && y.s.behaviour == Initiator && y.s.phase == LoggingOn
    ensures Orderly(x, y, o, true, if x.s.incoming < x.inbox[0].seqNum then 1 else 0)
  {
    Two(o.sent[0], o.sent[|o.sent| - 1]);
  }

  lemma OpeningToAnnounced(p: Pair, o: Outcome)
    requires Opening(p) && IsAnswer(p.a.s, p.a.inbox[0], o) && p.a.s.incoming + 1 < p.i.s.outgoing
    ensures Announced(Advance(p, A, o, true))
  {
    assert p.i.inbox + o.sent == o.sent;
  }

  lemma OpeningToAdvised(p: Pair, o: Outcome)
    requires Opening(p) && IsAnswer(p.a.s, p.a.inbox[0], o) && p.a.s.incoming + 1 == p.i.s.outgoing
    requires p.i.s.incoming < p.a.s.outgoing
    ensures Advised(Advance(p, A, o, true))
  {
    assert p.i.inbox + o.sent == o.sent;
  }

  lemma OpeningReady(p: Pair, o: Outcome)
    requires Opening(p) && IsAnswer(p.a.s, p.a.inbox[0], o) && p.a.s.incoming + 1 == p.i.s.outgoing
    requires p.i.s.incoming == p.a.s.outgoing
    ensures Ready(Answered(p.a.s, p.a.inbox[0]).(incoming := p.a.inbox[0].seqNum + 1), p.i.s, [o.sent[0]], [])
  {
    hide AskState, AskMessage;
  }

  lemma OpeningToNormal(p: Pair, o: Outcome)
    requires Opening(p) && IsAnswer(p.a.s, p.a.inbox[0], o) && p.a.s.incoming + 1 == p.i.s.outgoing
    requires p.i.s.incoming == p.a.s.outgoing
    ensures Normal(Advance(p, A, o, true))
  {
    hide Ready, Settled;
    var m := p.a.inbox[0];
    var s := Answered(p.a.s, m).(incoming := m.seqNum + 1);
    var logon := o.sent[0];
    OpeningReady(p, o);
    AskNow(s, p.i.s, [logon], []);
    AskLater(s, p.i.s, [logon], []);
    assert p.a.inbox[1..] == [];
    if p.a.s.delayed {
      assert p.i.inbox + o.sent == [logon];
    } else {
      assert p.i.inbox + o.sent == [logon] + [AskMessage(s)];
      assert o.state == AskState(s);
    }
  }

  lemma OpeningStep(p: Pair, act: Action)
    requires Opening(p) && CanStep(p, act) && Chronicle(p, 0)
    ensures Recovering(Step(p, act)) && Rank(Step(p, act)) < Rank(p)
  {
    AnswerLogon(p.a.s, p.a.inbox[0]);
    var o := Receive(p.a.s, p.a.inbox[0]);
    AnswerIsOrderly(p.a, p.i, o);
    ChronicleStep(p, A, o, true, 0, 1);
    RankStep(p, A, o, true);
    if p.a.s.incoming + 1 < p.i.s.outgoing {
      OpeningToAnnounced(p, o);
    } else {
      ChronicleStep(p, A, o, true, 0, 0);
      if p.i.s.incoming < p.a.s.outgoing {
        OpeningToAdvised(p, o);
      } else {
        OpeningToNormal(p, o);
      }
    }
  }

  // ------------------------------------------------------- the request and the fill

  /** x asks its test request, at once or by timer. */
  predicate IsAsking(x: State, o: Outcome) {
    || (o.state == AskState(x) && o.sent == [AskMessage(x)])
    || (o.state == x.(timers := x.timers + 1, armed := true) && o.sent == [])
  }

  lemma AskingIsSmall(x: State, o: Outcome)
    requires IsAsking(x, o)
    ensures Peaceful(o.sent) && ResendRequests(o.sent) == 0
    ensures Load(o.sent) + 3 * o.state.timers <= 3 * x.timers + 3
  {
  }

  lemma AnnouncedToRequested(p: Pair, o: Outcome)
    requires Announced(p) && IsAsking(LogonState(p.i.s, p.i.inbox[0]), o)
    ensures Requested(Applied(p.i, o, true), Enqueue(p.a, o.sent))
    ensures Orderly(p.i, p.a, o, true, 0)
  {
    AskingIsSmall(LogonState(p.i.s, p.i.inbox[0]), o);
    assert p.a.inbox + o.sent == o.sent;
  }

  /** The initiator finds the acceptor's Logon too high. */
  function RequestState(b: State, m: Message): State
    requires IsPlainLogon(m)
  {
    b.(heartbeatInterval := m.body.heartBtInt.value.n, logonReceived := true, phase := Resending,
       resent := b.incoming, target := m.seqNum, outgoing := b.outgoing + 1)
  }

  predicate IsRequest(b: State, m: Message, o: Outcome)
    requires IsPlainLogon(m)
  {
    && o.state == RequestState(b, m)
    && o.sent == [Message(b.outgoing, false, true, ResendRequest(Some(Decimal(b.incoming)), Some(Decimal(m.seqNum))))]
  }

  lemma RequestOnLogon(b: State, m: Message)
    requires b.behaviour == Initiator && b.phase == LoggingOn && !b.nextExpectedMode
    requires IsPlainLogon(m) && b.incoming < m.seqNum
    ensures IsRequest(b, m, Receive(b, m))
  {
  }

  lemma AdvisedToRequested(p: Pair, o: Outcome)
    requires Advised(p) && IsRequest(p.i.s, p.i.inbox[0], o)
    ensures Requested(Enqueue(p.a, o.sent), Applied(p.i, o, true))
    ensures Orderly(p.i, p.a, o, true, 1)
  {
    Two(o.sent[0], o.sent[0]);
    assert p.a.inbox + o.sent == o.sent;
  }

  /** The timer of u fires. */
  predicate IsFired(u: State, o: Outcome) {
    && u.timers > 0
    && var s := u.(timers := u.timers - 1, armed := false);
    o.state == AskState(s) && o.sent == [AskMessage(s)]
  }

  lemma FiredIsOrderly(u: End, b: End, o: Outcome)
    requires IsFired(u.s, o) && u.s.timers == 1 && !LogonComing(o.sent)
    requires Bonus(b.s, b.inbox + o.sent) <= Bonus(b.s, b.inbox)
    ensures Orderly(u, b, o, false, 0)
  {
    Two(o.sent[0], o.sent[0]);
  }

  lemma AdvisedTimer(p: Pair, o: Outcome)
    requires Advised(p) && IsFired(p.a.s, o)
    ensures Advised(Advance(p, A, o, false))
  {
    assert |p.i.inbox| == 1;
  }

  lemma RequestedTimer(u: End, b: End, o: Outcome)
    requires Requested(u, b) && IsFired(u.s, o)
    ensures Requested(Applied(u, o, false), Enqueue(b, o.sent))
  {
    assert b.inbox + o.sent == o.sent;
  }

  /** A message numbered too high during a recovery is dropped and extends the target. */
  lemma DropStale(b: State, m: Message)
    requires Regular(m) && b.incoming < m.seqNum && b.phase == Resending && Introduced(b)
    ensures Receive(b, m) == Quiet(b.(target := Max(b.target, m.seqNum)))
  {
  }

  /** The next message b will receive is one that it drops. */
  predicate HasStaleHead(b: End) {
    && b.inbox != [] && Regular(b.inbox[0]) && b.s.incoming < b.inbox[0].seqNum
    && b.s.phase == Resending && Introduced(b.s)
  }

  lemma RequestedHead(u: End, b: End)
    requires Requested(u, b) && b.inbox != []
    ensures HasStaleHead(b)
  {
  }

  lemma FilledHead(u: End, b: End)
    requires FilledAt(u, b, 1)
    ensures b.inbox != [] && HasStaleHead(b)
  {
    hide Consecutive;
  }

  lemma DropHead(b: End) returns (o: Outcome)
    requires b.inbox != [] && HasStaleHead(b)
    ensures o == Receive(b.s, b.inbox[0]) == Quiet(b.s.(target := Max(b.s.target, b.inbox[0].seqNum)))
  {
    hide Receive;
    DropStale(b.s, b.inbox[0]);
    o := Receive(b.s, b.inbox[0]);
  }

  lemma RequestedStale(u: End, b: End, o: Outcome)
    requires Requested(u, b) && b.inbox != [] && o == Quiet(b.s.(target := Max(b.s.target, b.inbox[0].seqNum)))
    ensures Requested(Enqueue(u, o.sent), Applied(b, o, true)) && Orderly(b, u, o, true, 0)
  {
    assert u.inbox + o.sent == u.inbox;
  }

  /** u answers the ResendRequest: it stops its timer, fills the gap and asks again. */
  predicate IsFill(u: State, begin: nat, o: Outcome) {
    var s := u.(incoming := u.incoming + 1, timers := 0, armed := false);
    var fill := GapFillMessage(begin, u.outgoing);
    if u.delayed then o.state == s.(timers := 1, armed := true) && o.sent == [fill]
    else o.state == AskState(s) && o.sent == [fill, AskMessage(s)]
  }

  lemma FillOnRequest(u: State, m: Message, begin: nat)
    requires IsResendRequest(m, begin) && m.seqNum == u.incoming && Introduced(u)
    requires u.timers <= 1 && u.armed == (u.timers == 1)
    ensures IsFill(u, begin, Receive(u, m))
  {
  }

  lemma RequestedToFilled(u: End, b: End, o: Outcome)
    requires Requested(u, b) && IsFill(u.s, b.s.incoming, o)
    ensures FilledAt(Applied(u, o, true), Enqueue(b, o.sent), |b.inbox|)
    ensures Orderly(u, b, o, true, 0)
  {
    Two(o.sent[0], o.sent[|o.sent| - 1]);
    var c, g := b.inbox + o.sent, |b.inbox|;
    assert c[g + 1..] == o.sent[1..];
  }

  lemma FilledTimer(u: End, b: End, g: nat, o: Outcome)
    requires FilledAt(u, b, g) && IsFired(u.s, o)
    ensures FilledAt(Applied(u, o, false), Enqueue(b, o.sent), g)
  {
    hide GapFillMessage;
    assert b.inbox[g + 1..] == [];
    assert (b.inbox + o.sent)[g + 1..] == o.sent;
    assert (b.inbox + o.sent)[..g + 1] == b.inbox;
  }

  lemma FilledFired(u: End, b: End, g: nat, o: Outcome)
    requires FilledAt(u, b, g) && IsFired(u.s, o)
    ensures Orderly(u, b, o, false, 0)
  {
    hide Orderly, Consecutive;
    assert LogonComing(b.inbox + o.sent) ==> LogonComing(b.inbox);
    FiredIsOrderly(u, b, o);
  }

  lemma FilledStale(u: End, b: End, o: Outcome)
    requires FilledAt(u, b, 1) && o == Quiet(b.s.(target := Max(b.s.target, b.inbox[0].seqNum)))
    ensures FilledAt(Enqueue(u, o.sent), Applied(b, o, true), 0) && Orderly(b, u, o, true, 0)
  {
    assert b.inbox[1..][1..] == b.inbox[2..];
    assert u.inbox + o.sent == u.inbox;
  }

  /** b takes the gap fill: it now expects the next number u will use, and asks. */
  function RecoveredState(b: State, n: nat): State {
    StartDefibrillator(AskState(b.(resent := n, incoming := n)))
  }

  lemma TakeFill(b: State, n: nat)
    requires b.phase == Resending && !b.nextExpectedMode && Introduced(b)
    requires b.incoming < n && b.target < n
    ensures var o := Receive(b, GapFillMessage(b.incoming, n));
            o.state == RecoveredState(b, n) && o.sent == [AskMessage(b)]
  {
  }

  lemma FilledReady(u: End, b: End, n: nat)
    requires FilledAt(u, b, 0) && b.inbox[0] == GapFillMessage(b.s.incoming, n)
    ensures Ready(StartDefibrillator(b.s.(resent := n, incoming := n)), u.s, [], b.inbox[1..])
    ensures u.inbox == []
  {
    var live := b.inbox[1..];
    assert live != [] ==> live[0].body.TestRequest?;
  }

  lemma FilledToNormal(u: End, b: End, n: nat)
    requires FilledAt(u, b, 0) && b.inbox[0] == GapFillMessage(b.s.incoming, n)
    ensures Both(RecoveredState(b.s, n), u.s, u.inbox + [AskMessage(b.s)], b.inbox[1..])
  {
    var s := StartDefibrillator(b.s.(resent := n, incoming := n));
    var live := b.inbox[1..];
    FilledReady(u, b, n);
    hide Ready, Settled, FilledAt;
    AskNow(s, u.s, [], live);
    assert u.inbox + [AskMessage(b.s)] == [] + [AskMessage(s)];
  }

  // ------------------------------------------------------------- the invariant

  /** An orderly outcome keeps the bookkeeping and uses up the measure. */
  lemma OrderlyStep(p: Pair, side: Side, o: Outcome, took: bool, n: nat, k: nat)
    requires (took ==> At(p, side).inbox != []) && Chronicle(p, n) && Orderly(At(p, side), Peer(p, side), o, took, k)
    ensures Chronicle(Advance(p, side, o, took), n + k) && Rank(Advance(p, side, o, took)) < Rank(p)
  {
    ChronicleStep(p, side, o, took, n, k);
    RankStep(p, side, o, took);
  }

  lemma AnnouncedStep(p: Pair, act: Action)
    requires Announced(p) && CanStep(p, act) && Chronicle(p, 1)
    ensures Recovering(Step(p, act)) && Rank(Step(p, act)) < Rank(p)
  {
    var o := Receive(p.i.s, p.i.inbox[0]);
    ReceiveAwaited(p.i.s, p.i.inbox[0]);
    AnnouncedToRequested(p, o);
    OrderlyStep(p, I, o, true, 1, 0);
  }

  lemma AdvisedTake(p: Pair)
    requires Advised(p) && Chronicle(p, 0)
    ensures var q := Step(p, Deliver(I)); Requested(q.a, q.i) && Chronicle(q, 1) && Rank(q) < Rank(p)
  {
    var o := Receive(p.i.s, p.i.inbox[0]);
    RequestOnLogon(p.i.s, p.i.inbox[0]);
    AdvisedToRequested(p, o);
    hide Receive, Requested, Orderly, Chronicle, Rank;
    OrderlyStep(p, I, o, true, 0, 1);
  }

  lemma AdvisedFire(p: Pair)
    requires Advised(p) && Chronicle(p, 0) && p.a.s.timers > 0
    ensures var q := Step(p, FireTestTimer(A)); Advised(q) && Chronicle(q, 0) && Rank(q) < Rank(p)
  {
    hide Chronicle, Rank;
    var o := TestTimer(p.a.s);
    AdvisedFired(p, o);
    AdvisedTimer(p, o);
    hide Advised, Orderly;
    OrderlyStep(p, A, o, false, 0, 0);
  }

  lemma AdvisedFired(p: Pair, o: Outcome)
    requires Advised(p) && IsFired(p.a.s, o)
    ensures Orderly(p.a, p.i, o, false, 0)
  {
    hide Orderly, Consecutive;
    FiredIsOrderly(p.a, p.i, o);
  }

  /** What can happen while the acceptor's Logon is on its way. */
  lemma AdvisedActs(p: Pair, act: Action)
    requires Advised(p) && CanStep(p, act)
    ensures act == Deliver(I) || (act == FireTestTimer(A) && p.a.s.timers > 0)
  {
    hide Consecutive;
  }

  lemma AdvisedStep(p: Pair, act: Action)
    requires Advised(p) && CanStep(p, act) && Chronicle(p, 0)
    ensures Recovering(Step(p, act)) && Rank(Step(p, act)) < Rank(p)
  {
    hide Advised, Requested, FilledAt, Normal, Chronicle, Step, Rank;
    AdvisedActs(p, act);
    if act.Deliver? {
      AdvisedTake(p);
    } else {
      AdvisedFire(p);
    }
  }

  lemma RequestedFill(p: Pair, side: Side)
    requires Requested(At(p, side), Peer(p, side)) && Chronicle(p, 1)
    ensures var q := Step(p, Deliver(side)); Filled(At(q, side), Peer(q, side)) && Chronicle(q, 1) && Rank(q) < Rank(p)
  {
    var u, b := At(p, side), Peer(p, side);
    var o := Receive(u.s, u.inbox[0]);
    FillOnRequest(u.s, u.inbox[0], b.s.incoming);
    hide Receive, FilledAt, Orderly, Chronicle, Rank;
    RequestedToFilled(u, b, o);
    OrderlyStep(p, side, o, true, 1, 0);
  }

  lemma RequestedDrop(p: Pair, side: Side)
    requires Requested(At(p, side), Peer(p, side)) && Chronicle(p, 1) && Peer(p, side).inbox != []
    ensures var q := Step(p, Deliver(Opposite(side)));
            Requested(At(q, side), Peer(q, side)) && Chronicle(q, 1) && Rank(q) < Rank(p)
  {
    hide Receive, Requested, Orderly, Chronicle, Rank, HasStaleHead;
    var u, b := At(p, side), Peer(p, side);
    RequestedHead(u, b);
    var o := DropHead(b);
    RequestedStale(u, b, o);
    OrderlyStep(p, Opposite(side), o, true, 1, 0);
  }

  lemma RequestedFire(p: Pair, side: Side)
    requires Requested(At(p, side), Peer(p, side)) && Chronicle(p, 1) && At(p, side).s.timers > 0
    ensures var q := Step(p, FireTestTimer(side));
            Requested(At(q, side), Peer(q, side)) && Chronicle(q, 1) && Rank(q) < Rank(p)
  {
    hide Chronicle, Rank;
    var u, b := At(p, side), Peer(p, side);
    var o := TestTimer(u.s);
    FiredIsOrderly(u, b, o);
    RequestedTimer(u, b, o);
    OrderlyStep(p, side, o, false, 1, 0);
  }

  /** What can happen while the ResendRequest is on its way. */
  lemma RequestedActs(p: Pair, side: Side, act: Action)
    requires Requested(At(p, side), Peer(p, side)) && CanStep(p, act)
    ensures || act == Deliver(side)
            || (act == Deliver(Opposite(side)) && Peer(p, side).inbox != [])
            || (act == FireTestTimer(side) && At(p, side).s.timers > 0)
  {
    hide Requested;
    RequestedIsQuiet(At(p, side), Peer(p, side));
  }

  lemma RequestedIsQuiet(u: End, b: End)
    requires Requested(u, b)
    ensures b.s.timers == 0 && u.s.phase != LoggedOn && b.s.phase != LoggedOn
  {
    hide Consecutive;
  }

  lemma RequestedStep(p: Pair, side: Side, act: Action)
    requires Requested(At(p, side), Peer(p, side)) && CanStep(p, act) && Chronicle(p, 1)
    ensures Recovering(Step(p, act)) && Rank(Step(p, act)) < Rank(p)
  {
    hide Requested, FilledAt, Normal, Chronicle, Step, Rank;
    RequestedActs(p, side, act);
    if act == Deliver(side) {
      RequestedFill(p, side);
    } else if act.Deliver? {
      RequestedDrop(p, side);
    } else {
      RequestedFire(p, side);
    }
  }

  lemma FillIsOrderly(b: End, u: End, n: nat)
    requires FilledAt(u, b, 0) && b.inbox[0] == GapFillMessage(b.s.incoming, n)
    ensures Orderly(b, u, Receive(b.s, b.inbox[0]), true, 0)
  {
    TakeFill(b.s, n);
    Two(AskMessage(b.s), AskMessage(b.s));
    assert u.inbox + [AskMessage(b.s)] == [AskMessage(b.s)];
    assert b.inbox[1..] != [] ==> b.inbox[1..][0] == b.inbox[1];
  }

  lemma FilledDrop(p: Pair, side: Side)
    requires FilledAt(At(p, side), Peer(p, side), 1) && Chronicle(p, 1)
    ensures var q := Step(p, Deliver(Opposite(side)));
            FilledAt(At(q, side), Peer(q, side), 0) && Chronicle(q, 1) && Rank(q) < Rank(p)
  {
    hide Receive, FilledAt, Orderly, Chronicle, Rank, HasStaleHead;
    var u, b := At(p, side), Peer(p, side);
    FilledHead(u, b);
    var o := DropHead(b);
    FilledStale(u, b, o);
    OrderlyStep(p, Opposite(side), o, true, 1, 0);
  }

  lemma FilledTake(p: Pair, side: Side)
    requires FilledAt(At(p, side), Peer(p, side), 0) && Chronicle(p, 1)
    ensures var q := Step(p, Deliver(Opposite(side))); Normal(q) && Chronicle(q, 1) && Rank(q) < Rank(p)
  {
    var u, b := At(p, side), Peer(p, side);
    var n := b.inbox[0].body.newSeqNo.value.n;
    TakeFill(b.s, n);
    FillIsOrderly(b, u, n);
    FilledToNormal(u, b, n);
    OrderlyStep(p, Opposite(side), Receive(b.s, b.inbox[0]), true, 1, 0);
  }

  lemma FilledFire(p: Pair, side: Side, g: nat)
    requires g <= 1 && FilledAt(At(p, side), Peer(p, side), g) && Chronicle(p, 1) && At(p, side).s.timers > 0
    ensures var q := Step(p, FireTestTimer(side));
            FilledAt(At(q, side), Peer(q, side), g) && Chronicle(q, 1) && Rank(q) < Rank(p)
  {
    hide FilledAt, Orderly, Chronicle, Rank;
    var u, b := At(p, side), Peer(p, side);
    var o := TestTimer(u.s);
    FilledFired(u, b, g, o);
    FilledTimer(u, b, g, o);
    OrderlyStep(p, side, o, false, 1, 0);
  }

  /** What can happen while the gap fill is on its way. */
  lemma FilledActs(p: Pair, side: Side, g: nat, act: Action)
    requires FilledAt(At(p, side), Peer(p, side), g) && CanStep(p, act)
    ensures act == Deliver(Opposite(side)) || (act == FireTestTimer(side) && At(p, side).s.timers > 0)
  {
    hide FilledAt;
    FilledIsQuiet(At(p, side), Peer(p, side), g);
  }

  lemma FilledIsQuiet(u: End, b: End, g: nat)
    requires FilledAt(u, b, g)
    ensures u.inbox == [] && b.s.timers == 0 && u.s.phase != LoggedOn && b.s.phase != LoggedOn
  {
    assert u.s.phase == LoggingOn && b.s.phase == Resending && Idle(b.s);
  }

  lemma FilledStep(p: Pair, side: Side, g: nat, act: Action)
    requires g <= 1 && FilledAt(At(p, side), Peer(p, side), g) && CanStep(p, act) && Chronicle(p, 1)
    ensures Recovering(Step(p, act)) && Rank(Step(p, act)) < Rank(p)
  {
    hide FilledAt, Normal, Chronicle, Step, Rank;
    FilledActs(p, side, g, act);
    if act.Deliver? {
      if g == 1 {
        FilledDrop(p, side);
      } else {
        FilledTake(p, side);
      }
    } else {
      FilledFire(p, side, g);
    }
  }

  lemma RecoveringStep(p: Pair, act: Action)
    requires Recovering(p) && CanStep(p, act)
    ensures Recovering(Step(p, act))
    ensures IsInternal(act) ==> Rank(Step(p, act)) < Rank(p)
  {
    hide Opening, Advised, Announced, Requested, FilledAt, Normal, Chronicle, CanStep, Step, Rank;
    if Chronicle(p, 0) && Opening(p) {
      OpeningStep(p, act);
    } else if Chronicle(p, 0) && Advised(p) {
      AdvisedStep(p, act);
    } else if Announced(p) {
      AnnouncedStep(p, act);
    } else if Requested(p.i, p.a) {
      RequestedStep(p, I, act);
    } else if Requested(p.a, p.i) {
      RequestedStep(p, A, act);
    } else if Filled(p.i, p.a) {
      FilledStep(p, I, if FilledAt(p.i, p.a, 0) then 0 else 1, act);
    } else if Filled(p.a, p.i) {
      FilledStep(p, A, if FilledAt(p.a, p.i, 0) then 0 else 1, act);
    } else {
      NormalPairStep(p, act, 1);
    }
  }

  /** A fresh initiator and a fresh acceptor, with any numbers. */
  predicate Startable(i: State, a: State) {
    && i == NewSession(Initiator, i.delayed, false, i.incoming, i.outgoing, i.heartbeatInterval)
    && a == NewSession(Acceptor, a.delayed, false, a.incoming, a.outgoing, a.heartbeatInterval)
  }

  /** Neither expects a number its peer has not reached, and at most one of them expects a
      number lower than the one its peer will send next. */
  predicate OneBehind(i: State, a: State) {
    && Startable(i, a)
    && a.incoming <= i.outgoing && i.incoming <= a.outgoing
    && (a.incoming == i.outgoing || i.incoming == a.outgoing)
  }

  lemma {:induction false} RecoveringRun(p: Pair, acts: seq<Action>)
    requires Recovering(p) && IsRun(p, acts)
    ensures Recovering(Final(p, acts))
    ensures AllInternal(acts) ==> |acts| + Rank(Final(p, acts)) <= Rank(p)
    decreases |acts|
  {
    if acts != [] {
      RecoveringStep(p, acts[0]);
      RecoveringRun(Step(p, acts[0]), acts[1..]);
      if AllInternal(acts) {
        AllInternalTail(acts);
      }
    }
  }

  lemma OpenedRecovers(i: State, a: State)
    requires OneBehind(i, a)
    ensures Recovering(Opened(i, a))
  {
    var p := Opened(i, a);
    assert Opening(p);
    assert Payloads(p.i.sent[1..]) == [];
    assert ResendRequests(p.i.sent[1..]) == 0;
  }

  /** At a gap fill the receiver is waiting for exactly its number, and the number it moves
      to lies above everything received before. */
  predicate FillFits(x: End) {
    x.inbox != [] && x.inbox[0].body.SequenceReset? ==>
      && x.inbox[0].seqNum == x.s.incoming
      && x.inbox[0].body.newSeqNo.Some? && x.inbox[0].body.newSeqNo.value.Decimal?
      && x.inbox[0].body.newSeqNo.value.n > Max(x.highest, x.s.incoming)
  }

  lemma FilledMeans(u: End, b: End)
    requires Filled(u, b)
    ensures FillFits(u) && FillFits(b) && Active(u.s) && Active(b.s) && b.inbox != []
  {
  }

  lemma RequestedMeans(u: End, b: End)
    requires Requested(u, b)
    ensures FillFits(u) && FillFits(b) && Active(u.s) && Active(b.s) && u.inbox != []
  {
  }

  lemma NormalMeans(p: Pair)
    requires Normal(p)
    ensures FillFits(p.i) && FillFits(p.a) && Active(p.i.s) && Active(p.a.s)
  {
  }

  lemma RecoveringMeans(p: Pair)
    requires Recovering(p)
    ensures Chronicle(p, 1) && Alive(p) && FillFits(p.i) && FillFits(p.a)
    ensures Quiescent(p) ==> Normal(p)
  {
    if Requested(p.i, p.a) {
      RequestedMeans(p.i, p.a);
    } else if Requested(p.a, p.i) {
      RequestedMeans(p.a, p.i);
    } else if Filled(p.i, p.a) {
      FilledMeans(p.i, p.a);
    } else if Filled(p.a, p.i) {
      FilledMeans(p.a, p.i);
    } else if Normal(p) {
      NormalMeans(p);
    }
  }

  /** In every run from an opened pair, at most one of which is behind by any amount: nobody
      sends Reject or Logout or disconnects, at most one ResendRequest is sent, every gap
      fill fits, no application message is lost, and whenever nothing is left to happen both
      are logged on and in step. */
  lemma RecoveryIsSafe(i: State, a: State, acts: seq<Action>)
    requires OneBehind(i, a) && IsRun(Opened(i, a), acts)
    ensures var p := Final(Opened(i, a), acts);
            && Chronicle(p, 1) && Alive(p) && FillFits(p.i) && FillFits(p.a)
            && (Quiescent(p) ==> InSync(p) && p.i.got == Payloads(p.a.sent) && p.a.got == Payloads(p.i.sent))
  {
    OpenedRecovers(i, a);
    RecoveringRun(Opened(i, a), acts);
    var p := Final(Opened(i, a), acts);
    RecoveringMeans(p);
    if Quiescent(p) {
      NormalQuiescent(p, 1);
    }
  }

  /** Recovery cannot go on for ever: from any point of any run, a continuation of
      deliveries and timers alone has at most Rank steps. */
  lemma RecoveryTerminates(i: State, a: State, acts: seq<Action>, more: seq<Action>)
    requires OneBehind(i, a) && IsRun(Opened(i, a), acts) && IsRun(Final(Opened(i, a), acts), more)
    requires AllInternal(more)
    ensures |more| <= Rank(Final(Opened(i, a), acts))
  {
    OpenedRecovers(i, a);
    RecoveringRun(Opened(i, a), acts);
    RecoveringRun(Final(Opened(i, a), acts), more);
  }

  // ------------------------------------------------------------ both sides behind

  /** During a recovery even a ResendRequest numbered too high is dropped. */
  lemma DropRequest(b: State, m: Message, begin: nat)
    requires IsResendRequest(m, begin) && b.incoming < m.seqNum && b.phase == Resending && Introduced(b)
    ensures Receive(b, m) == Quiet(b.(target := Max(b.target, m.seqNum)))
  {
  }

  /** Both sides wait for a gap fill, and each will drop the other's ResendRequest. */
  predicate Deadlocked(p: Pair) {
    && |p.i.inbox| == 1 && |p.a.inbox| == 1
    && IsResendRequest(p.i.inbox[0], p.a.s.incoming) && p.i.s.incoming < p.i.inbox[0].seqNum
    && IsResendRequest(p.a.inbox[0], p.i.s.incoming) && p.a.s.incoming < p.a.inbox[0].seqNum
    && p.i.s.phase == Resending && p.i.s.behaviour == Initiator && Idle(p.i.s)
    && p.a.s.phase == Resending && p.a.s.logonReceived && Idle(p.a.s)
  }

  lemma DeadlockedStops(p: Pair)
    requires Deadlocked(p)
    ensures IsRun(p, [Deliver(I), Deliver(A)])
    ensures var q := Final(p, [Deliver(I), Deliver(A)]); Quiescent(q) && !InSync(q)
  {
    DropRequest(p.i.s, p.i.inbox[0], p.a.s.incoming);
    var q := Step(p, Deliver(I));
    assert q.a.inbox == p.a.inbox;
    DropRequest(q.a.s, q.a.inbox[0], p.i.s.incoming);
    RunCons(q, Deliver(A), []);
    RunCons(p, Deliver(I), [Deliver(A)]);
    assert [Deliver(I)] + [Deliver(A)] == [Deliver(I), Deliver(A)] && [Deliver(A)] + [] == [Deliver(A)];
  }

  lemma BothBehindStops(i: State, a: State) returns (acts: seq<Action>)
    requires Startable(i, a) && a.incoming < i.outgoing && i.incoming < a.outgoing
    ensures IsRun(Opened(i, a), acts)
    ensures Quiescent(Final(Opened(i, a), acts)) && !InSync(Final(Opened(i, a), acts))
  {
    var p := Opened(i, a);
    AnswerLogon(p.a.s, p.a.inbox[0]);
    var q := Step(p, Deliver(A));
    RequestOnLogon(q.i.s, q.i.inbox[0]);
    var r := Step(q, Deliver(I));
    assert r.i.inbox[0] == q.i.inbox[1] && r.a.inbox == r.i.sent[1..];
    DeadlockedStops(r);
    acts := [Deliver(I), Deliver(A)];
    RunCons(q, Deliver(I), acts);
    RunCons(p, Deliver(A), [Deliver(I)] + acts);
    acts := [Deliver(A)] + ([Deliver(I)] + acts);
  }

  // -------------------------------------------------------------- a side ahead

  /** A Logon numbered too low is answered with a Logout. */
  lemma LogonTooLow(x: State, m: Message)
    requires IsPlainLogon(m) && m.seqNum < x.incoming && !x.nextExpectedMode
    ensures Receive(x, m).state.phase == Disconnected
  {
  }

  /** The acceptor expects a number the initiator has not reached. */
  lemma AcceptorAheadCloses(i: State, a: State)
    requires Startable(i, a) && a.incoming > i.outgoing
    ensures IsRun(Opened(i, a), [Deliver(A)]) && !Alive(Final(Opened(i, a), [Deliver(A)]))
  {
    var p := Opened(i, a);
    LogonTooLow(p.a.s, p.a.inbox[0]);
    RunCons(p, Deliver(A), []);
    assert [Deliver(A)] + [] == [Deliver(A)];
  }

  /** The initiator expects a number the acceptor has not reached. */
  lemma InitiatorAheadCloses(i: State, a: State) returns (acts: seq<Action>)
    requires Startable(i, a) && a.incoming <= i.outgoing && i.incoming > a.outgoing
    ensures IsRun(Opened(i, a), acts) && !Alive(Final(Opened(i, a), acts))
  {
    var p := Opened(i, a);
    AnswerLogon(p.a.s, p.a.inbox[0]);
    hide Receive;
    var q := Step(p, Deliver(A));
    assert q.i.inbox[0] == Receive(p.a.s, p.a.inbox[0]).sent[0];
    LogonTooLow(q.i.s, q.i.inbox[0]);
    RunCons(q, Deliver(I), []);
    RunCons(p, Deliver(A), [Deliver(I)] + []);
    acts := [Deliver(A)] + ([Deliver(I)] + []);
  }

  /** A fresh pair never disconnects and always ends logged on and in step if and only if
      neither side expects a number its peer has not reached and at most one side is behind:
      a side ahead logs out, and two sides behind drop each other's ResendRequest. */
  lemma RecoveryEndsInStepIff(i: State, a: State)
    requires Startable(i, a)
    ensures (forall acts :: IsRun(Opened(i, a), acts) ==>
               var p := Final(Opened(i, a), acts); Alive(p) && (Quiescent(p) ==> InSync(p)))
            <==> && a.incoming <= i.outgoing && i.incoming <= a.outgoing
                 && (a.incoming == i.outgoing || i.incoming == a.outgoing)
  {
    hide IsRun, Final, Opened, Alive, Quiescent, InSync;
    if OneBehind(i, a) {
      forall acts | IsRun(Opened(i, a), acts)
        ensures var p := Final(Opened(i, a), acts); Alive(p) && (Quiescent(p) ==> InSync(p))
      {
        RecoveryIsSafe(i, a, acts);
      }
    } else if a.incoming > i.outgoing {
      AcceptorAheadCloses(i, a);
    } else if i.incoming > a.outgoing {
      var acts := InitiatorAheadCloses(i, a);
    } else {
      var acts := BothBehindStops(i, a);
    }
  }
}
