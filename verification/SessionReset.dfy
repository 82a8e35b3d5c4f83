/** Resetting the sequence numbers of a logged on pair: a Logon with ResetSeqNumFlag sent by
    either side, or by both at once, leads every interleaving back to a pair that is logged
    on and in step. */
module SessionReset {
  import opened Optional
  import opened SessionModel
  import opened SessionPair
  import opened SessionRecovery

  /** A pair on which nothing is under way: logged on, in step, nothing in flight, no timer. */
  predicate AtRest(p: Pair) {
    && InSync(p) && Quiescent(p) && !p.i.s.armed && !p.a.s.armed
    && !p.i.s.nextExpectedMode && !p.a.s.nextExpectedMode
    && Introduced(p.i.s) && Introduced(p.a.s)
  }

  /** Regular messages numbered from lo on. */
  predicate Following(c: seq<Message>, lo: nat) {
    forall k :: 0 <= k < |c| ==> Regular(c[k]) && c[k].seqNum == lo + k
  }

  /** A logged on pair, with any regular messages in flight and any timers pending. */
  predicate Talking(p: Pair) {
    && p.i.s.phase == LoggedOn && !p.i.s.nextExpectedMode && Introduced(p.i.s) && (p.i.s.armed ==> p.i.s.timers > 0)
    && p.a.s.phase == LoggedOn && !p.a.s.nextExpectedMode && Introduced(p.a.s) && (p.a.s.armed ==> p.a.s.timers > 0)
    && Following(p.i.inbox, p.i.s.incoming) && p.i.s.incoming + |p.i.inbox| == p.a.s.outgoing
    && Following(p.a.inbox, p.a.s.incoming) && p.a.s.incoming + |p.a.inbox| == p.i.s.outgoing
  }

  /** That is what every settled pair is once both sides are logged on. */
  lemma SettledIsTalking(p: Pair)
    requires Normal(p) && p.i.s.phase == LoggedOn && p.a.s.phase == LoggedOn
    requires !p.i.s.nextExpectedMode && !p.a.s.nextExpectedMode
    ensures Talking(p)
  {
    hide Asked, HasTest, HasReply;
  }

  /** One side may reset: no timer is pending, nothing is on its way to that side, and nothing
      on its way to its peer will be answered. */
  predicate Poised(p: Pair, side: Side) {
    && Talking(p) && p.i.s.timers == 0 && p.a.s.timers == 0
    && At(p, side).inbox == [] && !HasTest(Peer(p, side).inbox)
  }

  lemma AtRestIsPoised(p: Pair, side: Side)
    requires AtRest(p)
    ensures Poised(p, side)
  {
  }

  /** The application at one side sends a Logon with ResetSeqNumFlag. */
  function SendReset(p: Pair, side: Side, heartBtInt: nat): Pair {
    Advance(p, side, Send(At(p, side).s, Logon(Some(Decimal(heartBtInt)), true, None)), false)
  }

  predicate IsResetLogon(m: Message) {
    && m.intact && !m.possDup && m.body.Logon? && m.body.resetSeqNum && m.seqNum == 1
    && m.body.heartBtInt.Some? && m.body.heartBtInt.value.Decimal?
  }

  /** x has reset and its Logon has not reached y yet: there may be messages ahead of it, none
      of which y will answer. */
  predicate ResetSent(x: End, y: End) {
    && x.inbox == [] && y.inbox != [] && IsResetLogon(y.inbox[|y.inbox| - 1])
    && Following(y.inbox[..|y.inbox| - 1], y.s.incoming) && !HasTest(y.inbox[..|y.inbox| - 1])
    && x.s.phase == Resetting && x.s.incoming == 1 && x.s.outgoing == 2
    && Introduced(x.s) && Idle(x.s) && !x.s.nextExpectedMode
    && y.s.phase == LoggedOn && Introduced(y.s) && Idle(y.s) && !y.s.nextExpectedMode
  }

  /** The peer of a side that has reset does not know it yet. */
  predicate Unaware(p: Pair) { ResetSent(p.i, p.a) || ResetSent(p.a, p.i) }

  predicate Resettling(p: Pair, n: nat) { Chronicle(p, n) && (Unaware(p) || Normal(p)) }

  function Restarting(y: State, m: Message): State
    requires IsResetLogon(m)
  {
    y.(heartbeatInterval := m.body.heartBtInt.value.n, logonReceived := true, defibrillating := false,
       phase := Resetting, outgoing := 2, incoming := 2)
  }

  /** y resets too, answers with its own reset Logon and asks its test request. */
  predicate IsRestart(y: State, m: Message, o: Outcome)
    requires IsResetLogon(m)
  {
    var s := Restarting(y, m);
    var logon := Message(1, false, true, LogonBody(s.(incoming := 1), true));
    if y.delayed then o.state == s.(timers := s.timers + 1, armed := true) && o.sent == [logon]
    else o.state == AskState(s) && o.sent == [logon, AskMessage(s)]
  }

  lemma RestartOnLogon(y: State, m: Message)
    requires IsResetLogon(m) && y.phase != Resetting && !y.nextExpectedMode
    ensures IsRestart(y, m, Receive(y, m))
  {
  }

  lemma RestartIsOrderly(x: End, y: End, o: Outcome)
    requires ResetSent(x, y) && |y.inbox| == 1 && IsRestart(y.s, y.inbox[0], o)
    ensures Orderly(y, x, o, true, 0)
  {
    Two(o.sent[0], o.sent[|o.sent| - 1]);
  }

  lemma RestartSettles(x: End, y: End, o: Outcome)
    requires ResetSent(x, y) && |y.inbox| == 1 && IsRestart(y.s, y.inbox[0], o)
    ensures Both(o.state, x.s, x.inbox + o.sent, [])
  {
    var s := Restarting(y.s, y.inbox[0]);
    var logon := o.sent[0];
    assert Ready(s, x.s, [logon], []);
    AskNow(s, x.s, [logon], []);
    AskLater(s, x.s, [logon], []);
    assert x.inbox + o.sent == [logon] + (if y.s.delayed then [] else [AskMessage(s)]);
  }

  /** A logged on session takes a regular message in sequence, whatever test request it
      remembers. */
  lemma TakeLoggedOn(y: State, m: Message)
    requires Regular(m) && m.seqNum == y.incoming && Introduced(y) && y.phase == LoggedOn
    ensures Receive(y, m) == Outcome(RegularState(y, m), RegularReply(y, m), [Covered(y.incoming, y.incoming + 1)])
  {
    hide Receive, ProcessResendRequest, SendReject;
    InSequence(y, m);
    assert [Covered(y.incoming, y.incoming + 1)] + [] == [Covered(y.incoming, y.incoming + 1)];
  }

  /** The measure of a run after a reset: a reset Logon behind other messages will count
      double once they are taken. */
  function ResetRank(p: Pair): nat { Rank(p) + Waiting(p.i, p.a) + Waiting(p.a, p.i) }

  function Waiting(x: End, y: End): nat { if ResetSent(x, y) && |y.inbox| > 1 then 8 else 0 }

  /** The messages ahead of the reset Logon are taken without an answer. */
  lemma HeadTaken(x: End, y: End, o: Outcome)
    requires ResetSent(x, y) && |y.inbox| > 1
    requires o.state == RegularState(y.s, y.inbox[0]) && o.sent == RegularReply(y.s, y.inbox[0]) && o.log != []
    ensures ResetSent(Enqueue(x, o.sent), Applied(y, o, true)) && o.sent == [] && Proper(y, o, true)
    ensures Weight(y.inbox[0]) == 1 && !y.inbox[0].body.Logon?
  {
    var c := y.inbox[..|y.inbox| - 1];
    assert c[0] == y.inbox[0] && !c[0].body.TestRequest?;
    var d := y.inbox[1..];
    assert d[..|d| - 1] == c[1..];
    assert x.inbox + o.sent == [];
  }

  lemma UnansweredHead(p: Pair, side: Side, n: nat)
    requires ResetSent(At(p, side), Peer(p, side)) && |Peer(p, side).inbox| > 1 && Chronicle(p, n)
    ensures var q := Step(p, Deliver(Opposite(side)));
            && ResetSent(At(q, side), Peer(q, side)) && Chronicle(q, n)
            && Rank(q) + Waiting(At(q, side), Peer(q, side)) < Rank(p) + 8
  {
    hide Receive, Chronicle, Proper;
    var x, y := At(p, side), Peer(p, side);
    assert y.inbox[..|y.inbox| - 1][0] == y.inbox[0];
    TakeLoggedOn(y.s, y.inbox[0]);
    var o := Receive(y.s, y.inbox[0]);
    HeadTaken(x, y, o);
    ChronicleStep(p, Opposite(side), o, true, n, 0);
    hide ResetSent;
    assert Load(y.inbox) == 1 + Load(y.inbox[1..]);
    assert x.inbox + [] == x.inbox;
  }

  lemma ResetTaken(p: Pair, side: Side, n: nat)
    requires ResetSent(At(p, side), Peer(p, side)) && |Peer(p, side).inbox| == 1 && Chronicle(p, n)
    ensures var q := Step(p, Deliver(Opposite(side))); Normal(q) && Chronicle(q, n) && Rank(q) < Rank(p)
  {
    var x, y := At(p, side), Peer(p, side);
    var o := Receive(y.s, y.inbox[0]);
    RestartOnLogon(y.s, y.inbox[0]);
    hide Receive, Chronicle, Rank, Orderly, Settled;
    RestartIsOrderly(x, y, o);
    RestartSettles(x, y, o);
    assert y.inbox[1..] == [];
    OrderlyStep(p, Opposite(side), o, true, n, 0);
  }

  /** A side that is resetting is not logged on, so at most one side is unaware. */
  lemma OneIsUnaware(x: End, y: End)
    requires ResetSent(x, y)
    ensures !ResetSent(y, x)
  {
  }

  lemma UnawareActs(p: Pair, side: Side, act: Action)
    requires ResetSent(At(p, side), Peer(p, side)) && CanStep(p, act)
    ensures IsInternal(act) ==> act == Deliver(Opposite(side))
    ensures !IsInternal(act) ==> Where(act) == Opposite(side)
  {
    hide Following, HasTest;
  }

  /** The peer comes closer to the reset Logon, or takes it and settles the pair. */
  lemma UnawareStep(p: Pair, side: Side, act: Action, n: nat)
    requires ResetSent(At(p, side), Peer(p, side)) && CanStep(p, act) && IsInternal(act) && Chronicle(p, n)
    ensures var q := Step(p, act);
            (Normal(q) || ResetSent(At(q, side), Peer(q, side))) && Chronicle(q, n) && ResetRank(q) < ResetRank(p)
  {
    hide ResetSent, Normal, Chronicle, Step, Rank, CanStep;
    UnawareActs(p, side, act);
    var q := Step(p, act);
    OneIsUnaware(At(p, side), Peer(p, side));
    if |Peer(p, side).inbox| > 1 {
      UnansweredHead(p, side, n);
      OneIsUnaware(At(q, side), Peer(q, side));
    } else {
      PeerHasMail(At(p, side), Peer(p, side));
      ResetTaken(p, side, n);
      NormalIsAware(q);
    }
  }

  lemma PeerHasMail(x: End, y: End)
    requires ResetSent(x, y)
    ensures y.inbox != []
  {
  }

  lemma NormalIsAware(p: Pair)
    requires Normal(p)
    ensures !ResetSent(p.i, p.a) && !ResetSent(p.a, p.i)
  {
    hide Asked, HasTest, HasReply, Following;
  }

  lemma ResettlingStep(p: Pair, act: Action, n: nat)
    requires Resettling(p, n) && CanStep(p, act) && (Unaware(p) ==> IsInternal(act))
    ensures Resettling(Step(p, act), n)
    ensures IsInternal(act) ==> ResetRank(Step(p, act)) < ResetRank(p)
  {
    hide ResetSent, Normal, Chronicle, Step, Rank, CanStep;
    if ResetSent(p.i, p.a) {
      UnawareStep(p, I, act, n);
    } else if ResetSent(p.a, p.i) {
      UnawareStep(p, A, act, n);
    } else {
      NormalPairStep(p, act, n);
      NormalIsAware(p);
      NormalIsAware(Step(p, act));
    }
  }

  /** Nothing is sent by a side that does not yet know of the reset: no heartbeat timer
      fires and no application message is sent there. */
  predicate Hushed(p: Pair, acts: seq<Action>)
    requires IsRun(p, acts)
    decreases |acts|
  {
    acts == [] || ((Unaware(p) ==> IsInternal(acts[0])) && Hushed(Step(p, acts[0]), acts[1..]))
  }

  lemma {:induction false} ResettlingRun(p: Pair, acts: seq<Action>, n: nat)
    requires Resettling(p, n) && IsRun(p, acts) && Hushed(p, acts)
    ensures Resettling(Final(p, acts), n)
    ensures AllInternal(acts) ==> |acts| + ResetRank(Final(p, acts)) <= ResetRank(p)
    decreases |acts|
  {
    hide Resettling, Unaware, ResetRank, Step, CanStep;
    if acts != [] {
      ResettlingStep(p, acts[0], n);
      ResettlingRun(Step(p, acts[0]), acts[1..], n);
      if AllInternal(acts) {
        AllInternalTail(acts);
      }
    }
  }

  lemma ResetIsSent(p: Pair, side: Side, heartBtInt: nat, n: nat)
    requires Poised(p, side) && Chronicle(p, n)
    ensures ResetSent(At(SendReset(p, side, heartBtInt), side), Peer(SendReset(p, side, heartBtInt), side))
    ensures Chronicle(SendReset(p, side, heartBtInt), n)
  {
    hide Chronicle;
    var o := Send(At(p, side).s, Logon(Some(Decimal(heartBtInt)), true, None));
    Two(o.sent[0], o.sent[0]);
    ChronicleStep(p, side, o, false, n, 0);
    var c := Peer(p, side).inbox;
    assert (c + o.sent)[..|c + o.sent| - 1] == c;
  }

  lemma CrossedLogons(x: State, y: State, mx: Message, my: Message)
    requires x.phase == Resetting && x.incoming == 1 && x.outgoing == 2 && Idle(x) && !x.nextExpectedMode
    requires y.phase == Resetting && y.incoming == 1 && y.outgoing == 2 && Idle(y) && !y.nextExpectedMode
    requires Introduced(x) && Introduced(y)
    requires IsResetLogon(mx) && IsResetLogon(my)
    ensures Both(x, y, [mx], [my])
  {
  }

  /** When the peer resets as well before it learns of the first reset, the two Logons cross
      and the pair is settled at once. */
  lemma CrossedResetsSettle(p: Pair, side: Side, h1: nat, h2: nat, n: nat)
    requires AtRest(p) && Chronicle(p, n)
    ensures Resettling(SendReset(SendReset(p, side, h1), Opposite(side), h2), n)
  {
    hide Chronicle, Settled;
    var q := SendReset(p, side, h1);
    AtRestIsPoised(p, side);
    ResetIsSent(p, side, h1, n);
    var o := Send(At(q, Opposite(side)).s, Logon(Some(Decimal(h2)), true, None));
    Two(o.sent[0], o.sent[0]);
    ChronicleStep(q, Opposite(side), o, false, n, 0);
    var r := SendReset(q, Opposite(side), h2);
    assert At(r, side).inbox == [o.sent[0]] && Peer(r, side).inbox == [Peer(r, side).inbox[0]];
    CrossedLogons(At(r, side).s, Peer(r, side).s, Peer(r, side).inbox[0], o.sent[0]);
  }

  lemma ResettlingMeans(p: Pair, n: nat)
    requires Resettling(p, n)
    ensures Alive(p)
    ensures Quiescent(p) ==> InSync(p) && p.i.got == Payloads(p.a.sent) && p.a.got == Payloads(p.i.sent)
  {
    if Normal(p) && Quiescent(p) {
      NormalQuiescent(p, n);
    }
  }

  /** The pair after one side has reset and, if crossed holds an interval, the other has
      reset too before the first Logon arrived. */
  function AfterReset(p: Pair, side: Side, heartBtInt: nat, crossed: Option<nat>): Pair {
    var q := SendReset(p, side, heartBtInt);
    if crossed.None? then q else SendReset(q, Opposite(side), crossed.value)
  }

  /** Where a reset may be sent: one side is poised, or, if both reset, the pair is at rest. */
  predicate MayReset(p: Pair, side: Side, crossed: Option<nat>) {
    if crossed.None? then Poised(p, side) else AtRest(p)
  }

  /** From there every run that follows stays free of Logout, Reject, ResendRequest and
      disconnection, has at most ResetRank internal steps if it has no others, and when nothing
      is left to happen both sides are logged on and in step again. */
  lemma ResetConverges(p: Pair, side: Side, heartBtInt: nat, crossed: Option<nat>, acts: seq<Action>, n: nat)
    requires MayReset(p, side, crossed) && Chronicle(p, n)
    requires IsRun(AfterReset(p, side, heartBtInt, crossed), acts)
    requires Hushed(AfterReset(p, side, heartBtInt, crossed), acts)
    ensures var r := Final(AfterReset(p, side, heartBtInt, crossed), acts);
            && Chronicle(r, n) && Alive(r)
            && (Quiescent(r) ==> InSync(r) && r.i.got == Payloads(r.a.sent) && r.a.got == Payloads(r.i.sent))
    ensures AllInternal(acts) ==> |acts| <= ResetRank(AfterReset(p, side, heartBtInt, crossed))
  {
    hide Poised, AtRest, Chronicle, ResetSent, Normal, SendReset, ResetRank, Alive, Quiescent, InSync;
    var q := AfterReset(p, side, heartBtInt, crossed);
    if crossed.Some? {
      CrossedResetsSettle(p, side, heartBtInt, crossed.value, n);
    } else {
      ResetIsSent(p, side, heartBtInt, n);
    }
    ResettlingRun(q, acts, n);
    ResettlingMeans(Final(q, acts), n);
  }
}
