/** Two sessions joined by two lossless first-in first-out channels. A run is any
    interleaving of deliveries, test request timers, heartbeat timers and application
    sends (the last two only while the sender is logged on). */
module SessionPair {
  import opened Optional
  import opened SessionModel

  /** One end: its session, the messages in flight towards it, everything it has sent, the
      application payloads it has accepted and the highest number it has been sent. */
  datatype End = End(s: State, inbox: seq<Message>, sent: seq<Message>, got: seq<nat>, highest: nat)

  datatype Pair = Pair(i: End, a: End)

  datatype Side = I | A

  datatype Action =
    | Deliver(to: Side)
    | FireTestTimer(at: Side)
    | FireHeartbeat(at: Side)
    | SendApplication(at: Side, payload: nat)

  function Max(a: nat, b: nat): nat { if a < b then b else a }

  function Enqueue(y: End, sent: seq<Message>): End { y.(inbox := y.inbox + sent) }

  /** The payloads accepted by an outcome of receiving m. */
  function Accepted(m: Message, o: Outcome): seq<nat> {
    if m.body.Application? && o.log != [] then [m.body.payload] else []
  }

  /** x after the outcome o, which took the head of its inbox or happened by itself. */
  function Applied(x: End, o: Outcome, took: bool): End
    requires took ==> x.inbox != []
  {
    if took then
      End(o.state, x.inbox[1..], x.sent + o.sent, x.got + Accepted(x.inbox[0], o), Max(x.highest, x.inbox[0].seqNum))
    else x.(s := o.state, sent := x.sent + o.sent)
  }

  /** A closed session has closed its socket and receives nothing more. */
  predicate Enabled(x: End, act: Action) {
    match act
    case Deliver(_) => x.inbox != [] && x.s.phase != Disconnected
    case FireTestTimer(_) => x.s.timers > 0
    case FireHeartbeat(_) => x.s.defibrillating && x.s.phase == LoggedOn
    case SendApplication(_, _) => x.s.phase == LoggedOn
  }

  /** The outcome of an action at the end x. */
  function Effect(x: End, act: Action): Outcome
    requires Enabled(x, act)
  {
    match act
    case Deliver(_) => Receive(x.s, x.inbox[0])
    case FireTestTimer(_) => TestTimer(x.s)
    case FireHeartbeat(_) => HeartbeatTimer(x.s)
    case SendApplication(_, payload) => Send(x.s, Application(payload))
  }

  function Where(act: Action): Side { if act.Deliver? then act.to else act.at }

  function At(p: Pair, side: Side): End { if side == I then p.i else p.a }

  function Opposite(side: Side): Side { if side == I then A else I }

  function Peer(p: Pair, side: Side): End { if side == I then p.a else p.i }

  predicate CanStep(p: Pair, act: Action) { Enabled(At(p, Where(act)), act) }

  /** The pair after the outcome o at one side: what it sent is queued for the other. */
  function Advance(p: Pair, side: Side, o: Outcome, took: bool): Pair
    requires took ==> At(p, side).inbox != []
  {
    if side == I then Pair(Applied(p.i, o, took), Enqueue(p.a, o.sent))
    else Pair(Enqueue(p.i, o.sent), Applied(p.a, o, took))
  }

  function Step(p: Pair, act: Action): Pair
    requires CanStep(p, act)
  {
    Advance(p, Where(act), Effect(At(p, Where(act)), act), act.Deliver?)
  }

  /** acts is a run from p. */
  predicate IsRun(p: Pair, acts: seq<Action>)
    decreases |acts|
  {
    acts == [] || (CanStep(p, acts[0]) && IsRun(Step(p, acts[0]), acts[1..]))
  }

  function Final(p: Pair, acts: seq<Action>): Pair
    requires IsRun(p, acts)
    decreases |acts|
  {
    if acts == [] then p else Final(Step(p, acts[0]), acts[1..])
  }

  /** Putting a step in front of a run. */
  lemma RunCons(p: Pair, act: Action, acts: seq<Action>)
    requires CanStep(p, act) && IsRun(Step(p, act), acts)
    ensures IsRun(p, [act] + acts) && Final(p, [act] + acts) == Final(Step(p, act), acts)
  {
    assert ([act] + acts)[1..] == acts;
  }

  /** Deliveries and test request timers: the steps that cannot be put off for ever. */
  predicate IsInternal(act: Action) { act.Deliver? || act.FireTestTimer? }

  predicate AllInternal(acts: seq<Action>) { forall k :: 0 <= k < |acts| ==> IsInternal(acts[k]) }

  lemma AllInternalTail(acts: seq<Action>)
    requires acts != [] && AllInternal(acts)
    ensures IsInternal(acts[0]) && AllInternal(acts[1..])
  {
  }

  /** No delivery and no test request timer is left to happen. */
  predicate Quiescent(p: Pair) {
    p.i.inbox == [] && p.a.inbox == [] && p.i.s.timers == 0 && p.a.s.timers == 0
  }

  /** x may receive something other than a Logon. */
  predicate Introduced(x: State) { x.behaviour == Initiator || x.logonReceived }

  // -------------------------------------------------- what a run may contain

  function Payloads(c: seq<Message>): seq<nat> {
    if c == [] then []
    else (if c[0].body.Application? then [c[0].body.payload] else []) + Payloads(c[1..])
  }

  function ResendRequests(c: seq<Message>): nat {
    if c == [] then 0 else (if c[0].body.ResendRequest? then 1 else 0) + ResendRequests(c[1..])
  }

  predicate Peaceful(c: seq<Message>) {
    forall m :: m in c ==> !m.body.Reject? && !m.body.Logout?
  }

  lemma {:induction false} PayloadsConcat(c: seq<Message>, d: seq<Message>)
    ensures Payloads(c + d) == Payloads(c) + Payloads(d)
  {
    if c == [] {
      assert c + d == d;
    } else {
      var head := if c[0].body.Application? then [c[0].body.payload] else [];
      assert (c + d)[1..] == c[1..] + d;
      PayloadsConcat(c[1..], d);
      assert head + (Payloads(c[1..]) + Payloads(d)) == (head + Payloads(c[1..])) + Payloads(d);
    }
  }

  lemma PayloadsCons(c: seq<Message>)
    requires c != []
    ensures Payloads(c) == (if c[0].body.Application? then [c[0].body.payload] else []) + Payloads(c[1..])
  {
  }

  lemma {:induction false} ResendRequestsConcat(c: seq<Message>, d: seq<Message>)
    ensures ResendRequests(c + d) == ResendRequests(c) + ResendRequests(d)
  {
    if c == [] {
      assert c + d == d;
    } else {
      assert (c + d)[1..] == c[1..] + d;
      ResendRequestsConcat(c[1..], d);
    }
  }

  // ------------------------------------------------------- the settled state

  predicate Consecutive(c: seq<Message>, lo: nat, hi: nat) {
    lo + |c| == hi && forall k :: 0 <= k < |c| ==> c[k].seqNum == lo + k
  }

  /** Messages that may follow a completed logon exchange. */
  predicate Regular(m: Message) {
    && m.intact && !m.possDup
    && (m.body.Application? || m.body.Heartbeat? || (m.body.TestRequest? && m.body.testReqId.Some?))
  }

  predicate IsReply(m: Message) { m.body.Heartbeat? && m.body.testReqId.Some? }

  predicate HasTest(c: seq<Message>) { exists k :: 0 <= k < |c| && c[k].body.TestRequest? }

  predicate HasReply(c: seq<Message>) { exists k :: 0 <= k < |c| && IsReply(c[k]) }

  /** The peer's half of the logon exchange is the next message x will receive. */
  predicate LogonComing(c: seq<Message>) { c != [] && c[0].body.Logon? }

  /** A Logon that x will accept without recovery. */
  predicate Awaited(x: State, m: Message) {
    && m.body.Logon? && m.intact && !m.possDup
    && m.body.heartBtInt.Some? && m.body.heartBtInt.value.Decimal?
    && if x.nextExpectedMode then
         && x.phase == LoggingOn && x.behaviour == Initiator
         && m.body.nextExpected.Some? && m.body.nextExpected.value.Decimal?
         && m.body.nextExpected.value.n <= x.outgoing <= m.body.nextExpected.value.n + 1
       else if m.body.resetSeqNum then
         m.seqNum == 1 && x.phase == Resetting
       else
         x.phase == LoggingOn && x.behaviour == Initiator
  }

  /** The conversation that x itself conducts is settled: out is the channel from x to its
      peer y, inn the channel from y to x. */
  predicate Settled(x: State, y: State, out: seq<Message>, inn: seq<Message>) {
    && Consecutive(out, y.incoming, x.outgoing)
    && (forall k :: 0 <= k < |out| ==> Regular(out[k]) || (k == 0 && Awaited(y, out[k])))
    && x.phase in {LoggingOn, Resending, Resetting, LoggedOn}
    && Introduced(x)
    && x.timers <= 1 && x.armed == (x.timers == 1)
    && Asked(x, out, inn)
    && (LogonComing(inn) ==> x.timers == 0)
    && (x.timers == 1 || LogonComing(inn) ==> !HasTest(out) && !HasReply(inn))
    && (x.phase != LoggedOn ==> x.timers == 1 || LogonComing(inn) || HasTest(out) || HasReply(inn))
  }

  /** Every test request of x still under way, and every reply to one, carries the id x expects. */
  predicate Asked(x: State, out: seq<Message>, inn: seq<Message>) {
    && (forall k :: 0 <= k < |out| && out[k].body.TestRequest? ==>
          x.expectedTestReqId.Some? && out[k].body.testReqId == Some(Decimal(x.expectedTestReqId.value)))
    && (forall k :: 0 <= k < |inn| && IsReply(inn[k]) ==>
          x.expectedTestReqId.Some? && inn[k].body.testReqId == Some(Decimal(x.expectedTestReqId.value)))
  }

  predicate Normal(p: Pair) {
    Settled(p.i.s, p.a.s, p.a.inbox, p.i.inbox) && Settled(p.a.s, p.i.s, p.i.inbox, p.a.inbox)
  }

  /** What is not at the head of a channel is still in it once the head is taken, and what
      is in a channel stays there when more is sent. */
  lemma StillThere(c: seq<Message>, d: seq<Message>)
    ensures HasTest(c) ==> HasTest(c + d)
    ensures HasReply(c) ==> HasReply(c + d)
    ensures HasTest(c) && !c[0].body.TestRequest? ==> HasTest(c[1..])
    ensures HasReply(c) && !IsReply(c[0]) ==> HasReply(c[1..])
  {
    if HasTest(c) {
      var k :| 0 <= k < |c| && c[k].body.TestRequest?;
      assert (c + d)[k] == c[k];
      assert k > 0 ==> c[1..][k - 1] == c[k];
    }
    if HasReply(c) {
      var k :| 0 <= k < |c| && IsReply(c[k]);
      assert (c + d)[k] == c[k];
      assert k > 0 ==> c[1..][k - 1] == c[k];
    }
  }

  /** Both conversations between x and y are settled. */
  predicate Both(x: State, y: State, out: seq<Message>, inn: seq<Message>) {
    Settled(x, y, out, inn) && Settled(y, x, inn, out)
  }

  /** What is neither a Logon nor a SequenceReset and carries the expected number is accepted
      and dispatched. */
  lemma InSequence(x: State, m: Message)
    requires m.intact && !m.possDup && !m.body.Logon? && !m.body.SequenceReset?
    requires m.seqNum == x.incoming && Introduced(x)
    ensures var o := Accept(x, m); Receive(x, m) == o.Then(Dispatch(o.state, m))
  {
    hide ProcessLogon, ProcessSequenceReset, Dispatch, SendLogout, SendReject, OnHigh;
  }

  /** A regular message in sequence is accepted; a test request is answered, and a
      heartbeat completes a logon, reset or recovery. */
  lemma ReceiveRegular(x: State, m: Message)
    requires Regular(m) && m.seqNum == x.incoming && Introduced(x)
    requires x.phase in {LoggingOn, Resending, Resetting, LoggedOn}
    requires IsReply(m) ==> x.expectedTestReqId.Some? && m.body.testReqId == Some(Decimal(x.expectedTestReqId.value))
    ensures Receive(x, m) == Outcome(RegularState(x, m), RegularReply(x, m), [Covered(x.incoming, x.incoming + 1)])
  {
    hide Receive, ProcessResendRequest, SendReject;
    InSequence(x, m);
    assert [Covered(x.incoming, x.incoming + 1)] + [] == [Covered(x.incoming, x.incoming + 1)];
  }

  function RegularState(x: State, m: Message): State {
    var s := x.(incoming := x.incoming + 1);
    if m.body.TestRequest? then s.(outgoing := x.outgoing + 1)
    else if m.body.Heartbeat? && x.phase != LoggedOn then StartDefibrillator(s.(phase := LoggedOn))
    else s
  }

  function RegularReply(x: State, m: Message): seq<Message> {
    if m.body.TestRequest? then [Message(x.outgoing, false, true, Heartbeat(m.body.testReqId))] else []
  }

  lemma TakeApplication(x: State, y: State, out: seq<Message>, inn: seq<Message>)
    requires Both(x, y, out, inn) && inn != [] && inn[0].body.Application?
    ensures Both(x.(incoming := x.incoming + 1), y, out, inn[1..])
  {
    StillThere(inn, []);
  }

  lemma TakeHeartbeat(x: State, y: State, out: seq<Message>, inn: seq<Message>)
    requires Both(x, y, out, inn) && inn != [] && inn[0].body.Heartbeat?
    ensures Both(RegularState(x, inn[0]), y, out, inn[1..])
  {
    hide Settled;
    HeartbeatTaken(x, y, out, inn);
    HeartbeatGone(x, y, out, inn);
  }

  /** For the receiver of a heartbeat: its own conversation may now be complete. */
  lemma HeartbeatTaken(x: State, y: State, out: seq<Message>, inn: seq<Message>)
    requires Both(x, y, out, inn) && inn != [] && inn[0].body.Heartbeat?
    ensures Settled(RegularState(x, inn[0]), y, out, inn[1..])
  {
    hide Awaited;
    StillThere(inn, []);
  }

  /** For its sender: nothing of its own conversation was in the heartbeat. */
  lemma HeartbeatGone(x: State, y: State, out: seq<Message>, inn: seq<Message>)
    requires Both(x, y, out, inn) && inn != [] && inn[0].body.Heartbeat?
    ensures Settled(y, RegularState(x, inn[0]), inn[1..], out)
  {
    hide Awaited;
    StillThere(inn, []);
  }

  lemma TakeTestRequest(x: State, y: State, out: seq<Message>, inn: seq<Message>)
    requires Both(x, y, out, inn) && inn != [] && inn[0].body.TestRequest?
    ensures Both(RegularState(x, inn[0]), y, out + RegularReply(x, inn[0]), inn[1..])
  {
    var reply := RegularReply(x, inn[0]);
    StillThere(inn, []);
    StillThere(out, reply);
    assert IsReply((out + reply)[|out|]);
  }

  /** The state of x once the Logon it awaited has been taken, before x asks its own test
      request. */
  function LogonState(x: State, m: Message): State
    requires Awaited(x, m)
  {
    x.(heartbeatInterval := m.body.heartBtInt.value.n, logonReceived := true, incoming := m.seqNum + 1)
  }

  /** x accepts the Logon it awaits and asks its own test request, at once or by timer. */
  lemma ReceiveAwaited(x: State, m: Message)
    requires Awaited(x, m) && (x.nextExpectedMode || m.seqNum == x.incoming)
    ensures var s := LogonState(x, m);
            var o := if x.phase == Resetting then SendTestRequest(s) else SendPostLogonTestRequest(s);
            && Receive(x, m).state == o.state && Receive(x, m).sent == o.sent
  {
    hide ProcessSequenceReset, Dispatch, SendLogout, SendReject, OnHigh, PerformResend, SendLogon;
  }

  function AskState(x: State): State {
    x.(expectedTestReqId := Some(x.nextTestReqId), nextTestReqId := x.nextTestReqId + 1, outgoing := x.outgoing + 1)
  }

  function AskMessage(x: State): Message {
    Message(x.outgoing, false, true, TestRequest(Some(Decimal(x.nextTestReqId))))
  }

  /** x has taken the Logon and has not asked yet: everything but x's own progress holds. */
  predicate Ready(x: State, y: State, out: seq<Message>, inn: seq<Message>) {
    && Settled(x.(phase := LoggedOn), y, out, inn) && Settled(y, x, inn, out)
    && x.phase in {LoggingOn, Resending, Resetting, LoggedOn}
    && x.timers == 0 && !LogonComing(inn) && !HasTest(out) && !HasReply(inn)
  }

  lemma TakeLogon(x: State, y: State, out: seq<Message>, inn: seq<Message>)
    requires Both(x, y, out, inn) && LogonComing(inn)
    ensures Ready(LogonState(x, inn[0]), y, out, inn[1..])
  {
    StillThere(inn, []);
  }

  lemma AskNow(x: State, y: State, out: seq<Message>, inn: seq<Message>)
    requires Ready(x, y, out, inn)
    ensures Both(AskState(x), y, out + [AskMessage(x)], inn)
  {
    StillThere(out, [AskMessage(x)]);
    assert (out + [AskMessage(x)])[|out|].body.TestRequest?;
  }

  lemma AskLater(x: State, y: State, out: seq<Message>, inn: seq<Message>)
    requires Ready(x, y, out, inn)
    ensures Both(x.(timers := 1, armed := true), y, out, inn)
  {
  }

  /** A logged on session sends one more regular message. */
  lemma SendRegular(x: State, y: State, out: seq<Message>, inn: seq<Message>, m: Message)
    requires Both(x, y, out, inn) && x.phase == LoggedOn
    requires Regular(m) && m.seqNum == x.outgoing && !m.body.TestRequest? && !IsReply(m)
    ensures Both(x.(outgoing := x.outgoing + 1), y, out + [m], inn)
  {
    StillThere(out, [m]);
  }

  /** The timer of x has fired. */
  lemma TakeTimer(x: State, y: State, out: seq<Message>, inn: seq<Message>)
    requires Both(x, y, out, inn) && x.timers == 1
    ensures Ready(x.(timers := 0, armed := false), y, out, inn)
  {
  }

  // ------------------------------------------------------------- the measure

  /** An upper bound on the internal steps that a message in flight can still cause. */
  function Weight(m: Message): nat {
    match m.body
    case Logon(_, _, _) => 8
    case ResendRequest(_, _) => 7
    case SequenceReset(_, _) => 3
    case TestRequest(_) => 2
    case _ => 1
  }

  function Load(c: seq<Message>): nat {
    if c == [] then 0 else Weight(c[0]) + Load(c[1..])
  }

  lemma {:induction false} LoadConcat(c: seq<Message>, d: seq<Message>)
    ensures Load(c + d) == Load(c) + Load(d)
  {
    if c == [] {
      assert c + d == d;
    } else {
      assert (c + d)[1..] == c[1..] + d;
      LoadConcat(c[1..], d);
    }
  }

  /** A Logon that its receiver answers with a Logon of its own counts double. */
  function Bonus(x: State, c: seq<Message>): nat {
    if LogonComing(c) && (x.phase == LoggedOn || (x.behaviour == Acceptor && !x.logonReceived)) then 8 else 0
  }

  function Rank(p: Pair): nat {
    Load(p.i.inbox) + Load(p.a.inbox) + 3 * p.i.s.timers + 3 * p.a.s.timers
    + Bonus(p.i.s, p.i.inbox) + Bonus(p.a.s, p.a.inbox)
  }

  /** An outcome that produces less than it uses up. */
  predicate Shrinks(x: End, o: Outcome, took: bool)
    requires took ==> x.inbox != []
  {
    Load(o.sent) + 3 * o.state.timers <
      3 * x.s.timers + (if took then Weight(x.inbox[0]) + Bonus(x.s, x.inbox) else 0)
  }

  // ---------------------------------------------------------------- the step

  /** What every outcome of every run below does: it sends no Reject and no Logout, and an
      application message is not dropped. */
  predicate Proper(x: End, o: Outcome, took: bool)
    requires took ==> x.inbox != []
  {
    && Peaceful(o.sent)
    && (took && x.inbox[0].body.Application? ==> o.log != [])
  }

  /** What receiving m does to x in a settled pair. */
  predicate IsNormalOutcome(x: State, m: Message, o: Outcome) {
    && o.log != []
    && if m.body.Logon? then
         && Awaited(x, m)
         && var s := LogonState(x, m);
            if x.phase == Resetting || !x.delayed then o.state == AskState(s) && o.sent == [AskMessage(s)]
            else o.state == s.(timers := s.timers + 1, armed := true) && o.sent == []
       else
         Regular(m) && o.state == RegularState(x, m) && o.sent == RegularReply(x, m)
  }

  lemma ReceiveNormal(x: State, y: State, out: seq<Message>, inn: seq<Message>)
    requires Both(x, y, out, inn) && inn != []
    ensures IsNormalOutcome(x, inn[0], Receive(x, inn[0]))
  {
    if inn[0].body.Logon? {
      ReceiveAwaited(x, inn[0]);
    } else {
      ReceiveRegular(x, inn[0]);
    }
  }

  lemma TakeNormal(x: State, y: State, out: seq<Message>, inn: seq<Message>, o: Outcome)
    requires Both(x, y, out, inn) && inn != [] && IsNormalOutcome(x, inn[0], o)
    ensures Both(o.state, y, out + o.sent, inn[1..])
  {
    assert out + [] == out;
    if inn[0].body.Logon? {
      TakeLogon(x, y, out, inn);
      AskNow(LogonState(x, inn[0]), y, out, inn[1..]);
      AskLater(LogonState(x, inn[0]), y, out, inn[1..]);
    } else if inn[0].body.TestRequest? {
      TakeTestRequest(x, y, out, inn);
    } else if inn[0].body.Heartbeat? {
      TakeHeartbeat(x, y, out, inn);
    } else {
      TakeApplication(x, y, out, inn);
    }
  }

  /** A normal outcome contains no Reject, Logout or ResendRequest and produces less than it
      uses up. */
  lemma NormalOutcomeIsSmall(x: State, m: Message, o: Outcome)
    requires IsNormalOutcome(x, m, o) && (m.body.Logon? ==> x.timers == 0)
    ensures Peaceful(o.sent) && ResendRequests(o.sent) == 0
    ensures Load(o.sent) + 3 * o.state.timers < 3 * x.timers + Weight(m)
  {
  }

  lemma OneTimer(x: State, y: State, out: seq<Message>, inn: seq<Message>)
    requires Both(x, y, out, inn)
    ensures x.timers <= 1
  {
  }

  /** What x does by itself in a settled pair: a test request by timer, a heartbeat or an
      application message. */
  lemma NormalSpontaneous(x: End, y: End, act: Action)
    requires Both(x.s, y.s, y.inbox, x.inbox) && Enabled(x, act) && !act.Deliver?
    ensures var o := Effect(x, act);
            && Both(o.state, y.s, y.inbox + o.sent, x.inbox)
            && Peaceful(o.sent) && ResendRequests(o.sent) == 0
            && (IsInternal(act) ==> Load(o.sent) + 3 * o.state.timers < 3 * x.s.timers)
  {
    hide Settled, Ready;
    if act.FireTestTimer? {
      OneTimer(x.s, y.s, y.inbox, x.inbox);
      TakeTimer(x.s, y.s, y.inbox, x.inbox);
      AskNow(x.s.(timers := 0, armed := false), y.s, y.inbox, x.inbox);
    } else {
      SendRegular(x.s, y.s, y.inbox, x.inbox, Effect(x, act).sent[0]);
    }
  }

  /** Whatever x does in a settled pair, the pair stays settled. */
  lemma NormalStep(x: End, y: End, act: Action)
    requires Both(x.s, y.s, y.inbox, x.inbox) && Enabled(x, act)
    ensures var o := Effect(x, act);
            && Both(o.state, y.s, y.inbox + o.sent, if act.Deliver? then x.inbox[1..] else x.inbox)
            && Proper(x, o, act.Deliver?) && ResendRequests(o.sent) == 0
            && (IsInternal(act) ==> Shrinks(x, o, act.Deliver?))
  {
    if act.Deliver? {
      var o := Effect(x, act);
      ReceiveNormal(x.s, y.s, y.inbox, x.inbox);
      TakeNormal(x.s, y.s, y.inbox, x.inbox, o);
      NormalOutcomeIsSmall(x.s, x.inbox[0], o);
    } else {
      NormalSpontaneous(x, y, act);
    }
  }

  // ------------------------------------------------------- bookkeeping of runs

  /** Every application payload y has sent was accepted by x, in order, or is in flight. */
  predicate Ledger(x: End, y: End) { Payloads(y.sent) == x.got + Payloads(x.inbox) }

  /** Nobody has sent a Reject or a Logout, at most n ResendRequests were sent, and no
      application message was lost, duplicated or reordered. */
  predicate Chronicle(p: Pair, n: nat) {
    && Peaceful(p.i.sent) && Peaceful(p.a.sent)
    && ResendRequests(p.i.sent) + ResendRequests(p.a.sent) <= n
    && Ledger(p.i, p.a) && Ledger(p.a, p.i)
  }

  lemma LedgerStep(x: End, y: End, o: Outcome, took: bool)
    requires (took ==> x.inbox != []) && Proper(x, o, took) && Ledger(x, y) && Ledger(y, x)
    ensures Ledger(Applied(x, o, took), y) && Ledger(Enqueue(y, o.sent), Applied(x, o, took))
  {
    hide Payloads;
    PayloadsConcat(x.sent, o.sent);
    PayloadsConcat(y.inbox, o.sent);
    assert y.got + (Payloads(y.inbox) + Payloads(o.sent)) == (y.got + Payloads(y.inbox)) + Payloads(o.sent);
    if took {
      var head := if x.inbox[0].body.Application? then [x.inbox[0].body.payload] else [];
      assert Accepted(x.inbox[0], o) == head;
      PayloadsCons(x.inbox);
      assert x.got + (head + Payloads(x.inbox[1..])) == (x.got + head) + Payloads(x.inbox[1..]);
    }
  }

  lemma ChronicleStep(p: Pair, side: Side, o: Outcome, took: bool, n: nat, k: nat)
    requires (took ==> At(p, side).inbox != []) && Chronicle(p, n) && Proper(At(p, side), o, took)
    requires ResendRequests(o.sent) <= k
    ensures Chronicle(Advance(p, side, o, took), n + k)
  {
    ResendRequestsConcat(At(p, side).sent, o.sent);
    LedgerStep(At(p, side), Peer(p, side), o, took);
  }

  /** No Logon gains weight on either side. */
  predicate BonusKept(x: End, y: End, o: Outcome, took: bool)
    requires took ==> x.inbox != []
  {
    && Bonus(y.s, y.inbox + o.sent) <= Bonus(y.s, y.inbox)
    && (if took then Bonus(o.state, x.inbox[1..]) == 0 else Bonus(o.state, x.inbox) <= Bonus(x.s, x.inbox))
  }

  lemma RankStep(p: Pair, side: Side, o: Outcome, took: bool)
    requires took ==> At(p, side).inbox != []
    requires Shrinks(At(p, side), o, took) && BonusKept(At(p, side), Peer(p, side), o, took)
    ensures Rank(Advance(p, side, o, took)) < Rank(p)
  {
    LoadConcat(Peer(p, side).inbox, o.sent);
  }

  /** In a settled pair no Logon counts double. */
  lemma NoBonus(x: State, y: State, out: seq<Message>, inn: seq<Message>)
    requires Both(x, y, out, inn)
    ensures Bonus(x, inn) == 0 && Bonus(y, out) == 0
  {
  }

  /** A settled pair stays settled; its bookkeeping is kept and internal steps use it up. */
  lemma NormalPairStep(p: Pair, act: Action, n: nat)
    requires Normal(p) && CanStep(p, act) && Chronicle(p, n)
    ensures Normal(Step(p, act)) && Chronicle(Step(p, act), n)
    ensures IsInternal(act) ==> Rank(Step(p, act)) < Rank(p)
  {
    var x, y := At(p, Where(act)), Peer(p, Where(act));
    var o, took := Effect(x, act), act.Deliver?;
    NormalStep(x, y, act);
    ChronicleStep(p, Where(act), o, took, n, 0);
    NoBonus(x.s, y.s, y.inbox, x.inbox);
    NoBonus(o.state, y.s, y.inbox + o.sent, if took then x.inbox[1..] else x.inbox);
    if IsInternal(act) {
      RankStep(p, Where(act), o, took);
    }
  }

  /** Both logged on, and each side expects exactly the number its peer will send next. */
  predicate InSync(p: Pair) {
    && p.i.s.phase == LoggedOn && p.a.s.phase == LoggedOn
    && p.i.s.incoming == p.a.s.outgoing && p.a.s.incoming == p.i.s.outgoing
  }

  /** Neither side has disconnected or fallen back to the unopened state. */
  predicate Alive(p: Pair) { Active(p.i.s) && Active(p.a.s) }

  predicate Active(x: State) { x.phase in {LoggingOn, Resending, Resetting, LoggedOn} }

  /** A settled pair with nothing left to happen is logged on and in step, and each side has
      received every application message of the other. */
  lemma NormalQuiescent(p: Pair, n: nat)
    requires Normal(p) && Quiescent(p) && Chronicle(p, n)
    ensures InSync(p) && p.i.got == Payloads(p.a.sent) && p.a.got == Payloads(p.i.sent)
  {
  }
}
