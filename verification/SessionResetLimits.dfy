/** When a reset of the sequence numbers of a logged on pair is not safe: a post-logon test
    request still pending, a message on its way to the side that resets, or a message that its
    peer sends before it learns of the reset can end in a disconnection; and nothing else can. */
module SessionResetLimits {
  import opened Optional
  import opened SessionModel
  import opened SessionPair
  import opened SessionRecovery
  import opened SessionReset

  /** x has reset and its Logon has not reached y yet; whatever else is in flight has old
      numbers. */
  predicate Stirred(x: End, y: End) {
    && x.s.phase == Resetting && Introduced(x.s) && !x.s.nextExpectedMode && x.s.incoming == 1 && x.s.outgoing == 2
    && (forall k :: 0 <= k < |x.inbox| ==> Regular(x.inbox[k]) && x.inbox[k].seqNum > 1)
    && y.s.phase == LoggedOn && Introduced(y.s) && !y.s.nextExpectedMode && y.s.outgoing > 1
    && y.inbox != [] && IsResetLogon(y.inbox[|y.inbox| - 1]) && Following(y.inbox[..|y.inbox| - 1], y.s.incoming)
  }

  // ------------------------------------------------- a test request still to come

  lemma {:induction false} InternalRunsAreHushed(p: Pair, acts: seq<Action>)
    requires IsRun(p, acts) && AllInternal(acts)
    ensures Hushed(p, acts)
    decreases |acts|
  {
    if acts != [] {
      AllInternalTail(acts);
      InternalRunsAreHushed(Step(p, acts[0]), acts[1..]);
    }
  }

  /** x is about to take the answer to a test request it has since superseded. */
  predicate Doomed(x: End) {
    && x.s.phase == Resetting && Introduced(x.s) && 1 <= |x.inbox| <= 2
    && (forall k :: 0 <= k < |x.inbox| ==> Regular(x.inbox[k]) && x.inbox[k].seqNum == x.s.incoming + k)
    && (|x.inbox| == 2 ==> IsTest(x.inbox[0]))
    && IsReply(x.inbox[|x.inbox| - 1]) && x.s.expectedTestReqId.Some?
    && x.inbox[|x.inbox| - 1].body.testReqId != Some(Decimal(x.s.expectedTestReqId.value))
  }

  lemma CloseOnStaleReply(x: State, m: Message)
    requires x.phase == Resetting && Introduced(x) && Regular(m) && m.seqNum == x.incoming && IsReply(m)
    requires x.expectedTestReqId.Some? && m.body.testReqId != Some(Decimal(x.expectedTestReqId.value))
    ensures Receive(x, m).state.phase == Disconnected
  {
  }

  lemma DoomedCloses(p: Pair, side: Side) returns (acts: seq<Action>)
    requires Doomed(At(p, side))
    ensures IsRun(p, acts) && AllInternal(acts) && !Alive(Final(p, acts))
  {
    var x := At(p, side);
    acts := [Deliver(side)];
    if |x.inbox| == 1 {
      CloseOnStaleReply(x.s, x.inbox[0]);
      RunCons(p, Deliver(side), []);
      assert [Deliver(side)] + [] == acts;
    } else {
      ReceiveRegular(x.s, x.inbox[0]);
      var q := Step(p, Deliver(side));
      CloseOnStaleReply(At(q, side).s, At(q, side).inbox[0]);
      RunCons(q, Deliver(side), []);
      assert [Deliver(side)] + [] == acts;
      RunCons(p, Deliver(side), acts);
      acts := [Deliver(side)] + acts;
    }
  }

  /** x, which is resetting, has let its old timer fire: its test request k is behind its
      reset Logon. */
  predicate FiredEarly(x: End, y: End, k: nat) {
    && x.inbox == [] && |y.inbox| == 2 && IsResetLogon(y.inbox[0])
    && y.inbox[1] == Query(k)
    && x.s.phase == Resetting && Introduced(x.s) && !x.s.nextExpectedMode && x.s.incoming == 1
    && x.s.nextTestReqId == k + 1
    && y.s.phase == LoggedOn && Introduced(y.s) && !y.s.nextExpectedMode
  }

  /** x will take a reset Logon, perhaps a test request, and then the answer to its test
      request k; taking the Logon makes it ask again. */
  predicate Superseding(x: End, k: nat) {
    && x.s.phase == Resetting && Introduced(x.s) && !x.s.nextExpectedMode && x.s.nextTestReqId > k
    && 2 <= |x.inbox| <= 3 && IsResetLogon(x.inbox[0])
    && (|x.inbox| == 3 ==> IsTest(x.inbox[1]) && x.inbox[1].seqNum == 2)
    && x.inbox[|x.inbox| - 1] == Message(|x.inbox|, false, true, Heartbeat(Some(Decimal(k))))
  }

  /** A session that is resetting takes a reset Logon whatever number it expects. */
  lemma TakeCrossed(x: State, m: Message)
    requires IsResetLogon(m) && x.phase == Resetting && !x.nextExpectedMode && Introduced(x)
    ensures var s := LogonState(x, m); Receive(x, m).state == AskState(s) && Receive(x, m).sent == [AskMessage(s)]
  {
    hide ProcessSequenceReset, Dispatch, SendLogout, SendReject, OnHigh, PerformResend, SendLogon;
  }

  lemma SupersedingDooms(p: Pair, side: Side, k: nat) returns (acts: seq<Action>)
    requires Superseding(At(p, side), k)
    ensures IsRun(p, acts) && AllInternal(acts) && !Alive(Final(p, acts))
  {
    var x := At(p, side);
    TakeCrossed(x.s, x.inbox[0]);
    hide Receive;
    var q := Step(p, Deliver(side));
    assert At(q, side).inbox == x.inbox[1..];
    assert Doomed(At(q, side));
    acts := DoomedCloses(q, side);
    RunCons(p, Deliver(side), acts);
    acts := [Deliver(side)] + acts;
  }

  /** The test request k, sent right behind a reset Logon. */
  function Query(k: nat): Message { Message(2, false, true, TestRequest(Some(Decimal(k)))) }

  /** y has restarted and is about to answer the test request k of x. */
  predicate Answering(x: End, y: End, k: nat) {
    && x.s.phase == Resetting && Introduced(x.s) && !x.s.nextExpectedMode && x.s.nextTestReqId > k
    && 1 <= |x.inbox| <= 2 && IsResetLogon(x.inbox[0])
    && (|x.inbox| == 2 ==> IsTest(x.inbox[1]) && x.inbox[1].seqNum == 2)
    && y.inbox != [] && y.inbox[0] == Query(k)
    && y.s.phase == Resetting && Introduced(y.s) && y.s.incoming == 2 && y.s.outgoing == 1 + |x.inbox|
  }

  lemma AnsweringDooms(p: Pair, side: Side, k: nat) returns (acts: seq<Action>)
    requires Answering(At(p, side), Peer(p, side), k)
    ensures IsRun(p, acts) && AllInternal(acts) && !Alive(Final(p, acts))
  {
    var x, y, other := At(p, side), Peer(p, side), Opposite(side);
    ReceiveRegular(y.s, y.inbox[0]);
    var q := Step(p, Deliver(other));
    assert At(q, side).inbox == x.inbox + [Message(y.s.outgoing, false, true, Heartbeat(Some(Decimal(k))))];
    acts := SupersedingDooms(q, side, k);
    RunCons(p, Deliver(other), acts);
    acts := [Deliver(other)] + acts;
  }

  lemma FiredEarlyDooms(p: Pair, side: Side, k: nat) returns (acts: seq<Action>)
    requires FiredEarly(At(p, side), Peer(p, side), k)
    ensures IsRun(p, acts) && AllInternal(acts) && !Alive(Final(p, acts))
  {
    var x, y, other := At(p, side), Peer(p, side), Opposite(side);
    RestartOnLogon(y.s, y.inbox[0]);
    hide Receive;
    var q := Step(p, Deliver(other));
    assert Peer(q, side).inbox == [y.inbox[1]];
    acts := AnsweringDooms(q, side, k);
    RunCons(p, Deliver(other), acts);
    acts := [Deliver(other)] + acts;
  }

  /** The side that has reset still has a test request to send. */
  lemma OwnTimerDooms(q: Pair, side: Side) returns (acts: seq<Action>)
    requires Stirred(At(q, side), Peer(q, side)) && At(q, side).s.timers > 0
    requires At(q, side).inbox == [] && |Peer(q, side).inbox| == 1
    ensures IsRun(q, acts) && AllInternal(acts) && !Alive(Final(q, acts))
  {
    var r := Step(q, FireTestTimer(side));
    assert Peer(r, side).inbox == Peer(q, side).inbox + [AskMessage(At(q, side).s)];
    acts := FiredEarlyDooms(r, side, At(q, side).s.nextTestReqId);
    RunCons(q, FireTestTimer(side), acts);
    acts := [FireTestTimer(side)] + acts;
  }

  /** y, which has restarted, has a superfluous timer and is about to take the answer to its
      test request k. */
  predicate Lagging(y: End, k: nat) {
    && y.s.phase == Resetting && Introduced(y.s) && y.s.incoming == 2 && y.s.timers > 0 && y.s.nextTestReqId == k + 1
    && |y.inbox| == 2 && IsTest(y.inbox[0]) && y.inbox[0].seqNum == 2
    && y.inbox[1] == Message(3, false, true, Heartbeat(Some(Decimal(k))))
  }

  lemma LaggingDooms(p: Pair, side: Side, k: nat) returns (acts: seq<Action>)
    requires Lagging(At(p, side), k)
    ensures IsRun(p, acts) && AllInternal(acts) && !Alive(Final(p, acts))
  {
    var q := Step(p, FireTestTimer(side));
    acts := DoomedCloses(q, side);
    RunCons(p, FireTestTimer(side), acts);
    acts := [FireTestTimer(side)] + acts;
  }

  /** x is about to take y's reset Logon and y's test request k. */
  predicate Queried(x: End, y: End, k: nat) {
    && x.s.phase == Resetting && Introduced(x.s) && !x.s.nextExpectedMode && x.s.incoming == 1 && x.s.outgoing == 2
    && |x.inbox| == 2 && IsResetLogon(x.inbox[0]) && x.inbox[1] == Query(k)
    && y.inbox == [] && y.s.phase == Resetting && Introduced(y.s) && y.s.incoming == 2 && y.s.timers > 0
    && y.s.nextTestReqId == k + 1
  }

  /** x has taken that Logon and asked in turn; it is about to answer. */
  predicate Replying(x: End, y: End, k: nat) {
    && x.s.phase == Resetting && Introduced(x.s) && x.s.incoming == 2 && x.s.outgoing == 3 && x.inbox == [Query(k)]
    && |y.inbox| == 1 && IsTest(y.inbox[0]) && y.inbox[0].seqNum == 2
    && y.s.phase == Resetting && Introduced(y.s) && y.s.incoming == 2 && y.s.timers > 0 && y.s.nextTestReqId == k + 1
  }

  lemma ReplyingDooms(p: Pair, side: Side, k: nat) returns (acts: seq<Action>)
    requires Replying(At(p, side), Peer(p, side), k)
    ensures IsRun(p, acts) && AllInternal(acts) && !Alive(Final(p, acts))
  {
    var x := At(p, side);
    ReceiveRegular(x.s, x.inbox[0]);
    hide Receive;
    var q := Step(p, Deliver(side));
    assert Peer(q, side).inbox == Peer(p, side).inbox + RegularReply(x.s, x.inbox[0]);
    acts := LaggingDooms(q, Opposite(side), k);
    RunCons(p, Deliver(side), acts);
    acts := [Deliver(side)] + acts;
  }

  lemma QueriedDooms(p: Pair, side: Side, k: nat) returns (acts: seq<Action>)
    requires Queried(At(p, side), Peer(p, side), k)
    ensures IsRun(p, acts) && AllInternal(acts) && !Alive(Final(p, acts))
  {
    var x := At(p, side);
    TakeCrossed(x.s, x.inbox[0]);
    hide Receive;
    var q := Step(p, Deliver(side));
    assert At(q, side).inbox == [x.inbox[1]] && Peer(q, side).inbox == [AskMessage(LogonState(x.s, x.inbox[0]))];
    acts := ReplyingDooms(q, side, k);
    RunCons(p, Deliver(side), acts);
    acts := [Deliver(side)] + acts;
  }

  /** y has restarted and has one timer too many; its test request k is still to be asked. */
  predicate Rearmed(x: End, y: End, k: nat) {
    && x.s.phase == Resetting && Introduced(x.s) && !x.s.nextExpectedMode && x.s.incoming == 1 && x.s.outgoing == 2
    && |x.inbox| == 1 && IsResetLogon(x.inbox[0])
    && y.inbox == [] && y.s.phase == Resetting && Introduced(y.s) && y.s.incoming == 2 && y.s.outgoing == 2
    && y.s.timers > 1 && y.s.nextTestReqId == k
  }

  lemma RearmedDooms(p: Pair, side: Side, k: nat) returns (acts: seq<Action>)
    requires Rearmed(At(p, side), Peer(p, side), k)
    ensures IsRun(p, acts) && AllInternal(acts) && !Alive(Final(p, acts))
  {
    var other := Opposite(side);
    var q := Step(p, FireTestTimer(other));
    assert At(q, side).inbox == At(p, side).inbox + [Query(k)];
    acts := QueriedDooms(q, side, k);
    RunCons(p, FireTestTimer(other), acts);
    acts := [FireTestTimer(other)] + acts;
  }

  /** x has just reset, and y has timers pending. */
  predicate ResetTooSoon(x: End, y: End) {
    && x.inbox == [] && x.s.phase == Resetting && Introduced(x.s) && !x.s.nextExpectedMode
    && x.s.incoming == 1 && x.s.outgoing == 2
    && |y.inbox| == 1 && IsResetLogon(y.inbox[0]) && y.s.timers > 0
  }

  lemma RestartRearms(x: End, y: End, o: Outcome)
    requires ResetTooSoon(x, y) && IsRestart(y.s, y.inbox[0], o) && y.s.delayed
    ensures Rearmed(Enqueue(x, o.sent), Applied(y, o, true), y.s.nextTestReqId)
  {
    assert x.inbox + o.sent == o.sent;
  }

  lemma RestartQueries(x: End, y: End, o: Outcome)
    requires ResetTooSoon(x, y) && IsRestart(y.s, y.inbox[0], o) && !y.s.delayed
    ensures Queried(Enqueue(x, o.sent), Applied(y, o, true), y.s.nextTestReqId)
  {
    assert x.inbox + o.sent == o.sent;
  }

  /** The other side still has a test request to send. */
  lemma PeerTimerDooms(q: Pair, side: Side) returns (acts: seq<Action>)
    requires Stirred(At(q, side), Peer(q, side)) && Peer(q, side).s.timers > 0
    requires At(q, side).inbox == [] && |Peer(q, side).inbox| == 1
    ensures IsRun(q, acts) && AllInternal(acts) && !Alive(Final(q, acts))
  {
    var y, other := Peer(q, side), Opposite(side);
    RestartOnLogon(y.s, y.inbox[0]);
    hide Receive, IsRestart, Rearmed, Queried;
    var o, r := Receive(y.s, y.inbox[0]), Step(q, Deliver(other));
    if y.s.delayed {
      RestartRearms(At(q, side), y, o);
      acts := RearmedDooms(r, side, y.s.nextTestReqId);
    } else {
      RestartQueries(At(q, side), y, o);
      acts := QueriedDooms(r, side, y.s.nextTestReqId);
    }
    RunCons(q, Deliver(other), acts);
    acts := [Deliver(other)] + acts;
  }

  // -------------------------------------- a message with an old number reaches the resetter

  /** y has restarted in the meantime: its reset Logon and its test request k are behind g
      messages with old numbers. */
  predicate Overtaken(x: End, y: End, k: nat, g: nat) {
    && x.s.phase == Resetting && Introduced(x.s) && !x.s.nextExpectedMode && x.s.incoming == 1 && x.s.outgoing == 2
    && 0 < g && Behind(x.inbox, k, g)
    && y.inbox == [] && StartedOver(y.s, k) && y.s.incoming == 2
  }

  predicate Behind(c: seq<Message>, k: nat, g: nat) {
    && |c| >= g + 2 && (forall j :: 0 <= j < g ==> Regular(c[j]) && c[j].seqNum > 1)
    && IsResetLogon(c[g]) && c[g + 1] == Query(k)
  }

  predicate StartedOver(y: State, k: nat) {
    y.phase == Resetting && Introduced(y) && !y.nextExpectedMode && y.nextTestReqId > k
  }

  /** x has taken the old number for a gap: it no longer waits for the reset Logon of y. */
  predicate Misled(x: End, y: End, k: nat) {
    && x.s.phase == Resending && Introduced(x.s) && !x.s.nextExpectedMode
    && |x.inbox| >= 2 && IsResetLogon(x.inbox[0]) && x.inbox[1] == Query(k)
    && StartedOver(y.s, k)
  }

  lemma RestartAnswers(x: End, y: End, k: nat, o: Outcome)
    requires Misled(x, y, k) && y.inbox == [] && IsRestart(x.s, x.inbox[0], o)
    ensures Answering(Enqueue(y, o.sent), Applied(x, o, true), k)
  {
    assert y.inbox + o.sent == o.sent;
  }

  /** x restarts once more; y takes that for the answer to its own reset and asks again. */
  lemma MisledDooms(p: Pair, side: Side, k: nat) returns (acts: seq<Action>)
    requires Misled(At(p, side), Peer(p, side), k) && Peer(p, side).inbox == []
    ensures IsRun(p, acts) && AllInternal(acts) && !Alive(Final(p, acts))
  {
    var x := At(p, side);
    RestartOnLogon(x.s, x.inbox[0]);
    hide Receive, IsRestart, Answering;
    RestartAnswers(x, Peer(p, side), k, Receive(x.s, x.inbox[0]));
    acts := AnsweringDooms(Step(p, Deliver(side)), Opposite(side), k);
    RunCons(p, Deliver(side), acts);
    acts := [Deliver(side)] + acts;
  }

  /** t is s as far as StartedOver can tell. */
  predicate StillSo(s: State, t: State) {
    && t.phase == s.phase && t.behaviour == s.behaviour && t.logonReceived == s.logonReceived
    && t.nextExpectedMode == s.nextExpectedMode && t.nextTestReqId >= s.nextTestReqId
  }

  lemma StoppingKeeps(s: State)
    ensures StillSo(s, StopTestRequestTimer(s))
  {
  }

  lemma AskingKeeps(s: State)
    ensures StillSo(s, SendPostLogonTestRequest(s).state)
  {
  }

  lemma TakeRequest(y: State, m: Message)
    requires IsResendRequest(m, 1) && m.seqNum == y.incoming && Introduced(y)
    ensures StillSo(y, Receive(y, m).state)
  {
    hide Receive, StopTestRequestTimer, SendPostLogonTestRequest;
    InSequence(y, m);
    var s := Accept(y, m).state;
    StoppingKeeps(s);
    AskingKeeps(StopTestRequestTimer(s));
  }

  /** Before that, y answers the ResendRequest. */
  lemma RequestDooms(p: Pair, side: Side, k: nat) returns (acts: seq<Action>)
    requires Misled(At(p, side), Peer(p, side), k)
    requires var y := Peer(p, side);
             |y.inbox| == 1 && IsResendRequest(y.inbox[0], 1) && y.inbox[0].seqNum == y.s.incoming
    ensures IsRun(p, acts) && AllInternal(acts) && !Alive(Final(p, acts))
  {
    var x, y, other := At(p, side), Peer(p, side), Opposite(side);
    TakeRequest(y.s, y.inbox[0]);
    var q := Step(p, Deliver(other));
    assert At(q, side).inbox[0] == x.inbox[0] && At(q, side).inbox[1] == x.inbox[1] && Peer(q, side).inbox == [];
    acts := MisledDooms(q, side, k);
    RunCons(p, Deliver(other), acts);
    acts := [Deliver(other)] + acts;
  }

  lemma MistakeForGap(x: State, m: Message)
    requires Regular(m) && Introduced(x) && x.phase == Resetting && m.seqNum > x.incoming
    ensures Receive(x, m) == RequestResend(x, m.seqNum)
  {
    hide ProcessLogon, ProcessSequenceReset, SendLogout, SendReject, RequestResend;
  }

  /** x takes the first old number for a gap; the others only raise its target. */
  predicate Catching(x: End, y: End, k: nat, g: nat) {
    && x.s.phase == Resending && Introduced(x.s) && !x.s.nextExpectedMode && x.s.incoming == 1
    && Behind(x.inbox, k, g) && StartedOver(y.s, k)
    && |y.inbox| == 1 && IsResendRequest(y.inbox[0], 1) && y.inbox[0].seqNum == y.s.incoming
  }

  lemma {:induction false} CatchingDooms(p: Pair, side: Side, k: nat, g: nat) returns (acts: seq<Action>)
    requires Catching(At(p, side), Peer(p, side), k, g)
    ensures IsRun(p, acts) && AllInternal(acts) && !Alive(Final(p, acts))
    decreases g
  {
    var x := At(p, side);
    if g == 0 {
      acts := RequestDooms(p, side, k);
    } else {
      DropStale(x.s, x.inbox[0]);
      hide Receive;
      var q := Step(p, Deliver(side));
      assert At(q, side).inbox == x.inbox[1..] && Peer(q, side).inbox == Peer(p, side).inbox;
      acts := CatchingDooms(q, side, k, g - 1);
      RunCons(p, Deliver(side), acts);
      acts := [Deliver(side)] + acts;
    }
  }

  lemma OvertakenDooms(p: Pair, side: Side, k: nat, g: nat) returns (acts: seq<Action>)
    requires Overtaken(At(p, side), Peer(p, side), k, g)
    ensures IsRun(p, acts) && AllInternal(acts) && !Alive(Final(p, acts))
  {
    var x := At(p, side);
    MistakeForGap(x.s, x.inbox[0]);
    hide Receive;
    var q := Step(p, Deliver(side));
    assert At(q, side).inbox == x.inbox[1..] && Peer(q, side).inbox == RequestResend(x.s, x.inbox[0].seqNum).sent;
    acts := CatchingDooms(q, side, k, g - 1);
    RunCons(p, Deliver(side), acts);
    acts := [Deliver(side)] + acts;
  }

  /** The same, with the test request k still to be asked. */
  predicate Pausing(x: End, y: End, k: nat, g: nat) {
    && x.s.phase == Resetting && Introduced(x.s) && !x.s.nextExpectedMode && x.s.incoming == 1 && x.s.outgoing == 2
    && 0 < g && |x.inbox| == g + 1 && IsResetLogon(x.inbox[g])
    && (forall j :: 0 <= j < g ==> Regular(x.inbox[j]) && x.inbox[j].seqNum > 1)
    && y.inbox == [] && y.s.phase == Resetting && Introduced(y.s) && !y.s.nextExpectedMode
    && y.s.incoming == 2 && y.s.outgoing == 2 && y.s.timers > 0 && y.s.nextTestReqId == k
  }

  lemma PausingDooms(p: Pair, side: Side, k: nat, g: nat) returns (acts: seq<Action>)
    requires Pausing(At(p, side), Peer(p, side), k, g)
    ensures IsRun(p, acts) && AllInternal(acts) && !Alive(Final(p, acts))
  {
    var other := Opposite(side);
    var q := Step(p, FireTestTimer(other));
    assert At(q, side).inbox == At(p, side).inbox + [Query(k)];
    acts := OvertakenDooms(q, side, k, g);
    RunCons(p, FireTestTimer(other), acts);
    acts := [FireTestTimer(other)] + acts;
  }

  lemma RestartPauses(x: End, y: End, o: Outcome)
    requires Stirred(x, y) && x.inbox != [] && |y.inbox| == 1 && IsRestart(y.s, y.inbox[0], o) && y.s.delayed
    ensures Pausing(Enqueue(x, o.sent), Applied(y, o, true), y.s.nextTestReqId, |x.inbox|)
  {
  }

  lemma RestartOvertakes(x: End, y: End, o: Outcome)
    requires Stirred(x, y) && x.inbox != [] && |y.inbox| == 1 && IsRestart(y.s, y.inbox[0], o) && !y.s.delayed
    ensures Overtaken(Enqueue(x, o.sent), Applied(y, o, true), y.s.nextTestReqId, |x.inbox|)
  {
  }

  /** The reset Logon is next for y, but something with an old number is on its way to x. */
  lemma InterruptedDooms(p: Pair, side: Side) returns (acts: seq<Action>)
    requires Stirred(At(p, side), Peer(p, side)) && At(p, side).inbox != [] && |Peer(p, side).inbox| == 1
    ensures IsRun(p, acts) && AllInternal(acts) && !Alive(Final(p, acts))
  {
    var x, y, other := At(p, side), Peer(p, side), Opposite(side);
    RestartOnLogon(y.s, y.inbox[0]);
    hide Receive, IsRestart, Pausing, Overtaken;
    var o, q := Receive(y.s, y.inbox[0]), Step(p, Deliver(other));
    if y.s.delayed {
      RestartPauses(x, y, o);
      acts := PausingDooms(q, side, y.s.nextTestReqId, |x.inbox|);
    } else {
      RestartOvertakes(x, y, o);
      acts := OvertakenDooms(q, side, y.s.nextTestReqId, |x.inbox|);
    }
    RunCons(p, Deliver(other), acts);
    acts := [Deliver(other)] + acts;
  }

  // ------------------------------------------------- messages ahead of the reset Logon

  /** Something in flight, or still to be sent by a timer, will confuse the reset. */
  predicate Unsafe(x: End, y: End) { x.inbox != [] || HasTest(y.inbox) || x.s.timers > 0 || y.s.timers > 0 }

  /** y takes a message that is ahead of the reset Logon. */
  lemma StirredHead(x: End, y: End, o: Outcome)
    requires Stirred(x, y) && |y.inbox| > 1 && Unsafe(x, y)
    requires o.state == RegularState(y.s, y.inbox[0]) && o.sent == RegularReply(y.s, y.inbox[0])
    ensures Stirred(Enqueue(x, o.sent), Applied(y, o, true)) && Unsafe(Enqueue(x, o.sent), Applied(y, o, true))
  {
    var c, d := y.inbox[..|y.inbox| - 1], y.inbox[1..];
    assert c[0] == y.inbox[0];
    assert d[..|d| - 1] == c[1..];
    StillThere(y.inbox, []);
  }

  lemma {:induction false} StirredDooms(p: Pair, side: Side) returns (acts: seq<Action>)
    requires Stirred(At(p, side), Peer(p, side)) && Unsafe(At(p, side), Peer(p, side))
    ensures IsRun(p, acts) && AllInternal(acts) && !Alive(Final(p, acts))
    decreases |Peer(p, side).inbox|
  {
    var x, y, other := At(p, side), Peer(p, side), Opposite(side);
    if |y.inbox| > 1 {
      assert y.inbox[..|y.inbox| - 1][0] == y.inbox[0];
      TakeLoggedOn(y.s, y.inbox[0]);
      hide Receive, Stirred, Unsafe;
      StirredHead(x, y, Receive(y.s, y.inbox[0]));
      acts := StirredDooms(Step(p, Deliver(other)), side);
      RunCons(p, Deliver(other), acts);
      acts := [Deliver(other)] + acts;
    } else {
      acts := LastDooms(p, side);
    }
  }

  lemma LastDooms(p: Pair, side: Side) returns (acts: seq<Action>)
    requires Stirred(At(p, side), Peer(p, side)) && Unsafe(At(p, side), Peer(p, side)) && |Peer(p, side).inbox| <= 1
    ensures IsRun(p, acts) && AllInternal(acts) && !Alive(Final(p, acts))
  {
    hide IsRun, Final, AllInternal, Alive;
    if At(p, side).inbox != [] {
      acts := InterruptedDooms(p, side);
    } else if At(p, side).s.timers > 0 {
      acts := OwnTimerDooms(p, side);
    } else {
      acts := PeerTimerDooms(p, side);
    }
  }

  // ------------------------------------------------------------- the exact condition

  /** Deliveries and timers alone can lead to a disconnection. */
  ghost predicate AtRisk(p: Pair) {
    exists more :: IsRun(p, more) && AllInternal(more) && !Alive(Final(p, more))
  }

  /** At no point of the run. */
  ghost predicate NeverAtRisk(p: Pair, acts: seq<Action>)
    requires IsRun(p, acts)
    decreases |acts|
  {
    !AtRisk(p) && (acts == [] || NeverAtRisk(Step(p, acts[0]), acts[1..]))
  }

  lemma ResettlingIsSafe(p: Pair, n: nat)
    requires Resettling(p, n)
    ensures !AtRisk(p)
  {
    forall more | IsRun(p, more) && AllInternal(more)
      ensures Alive(Final(p, more))
    {
      InternalRunsAreHushed(p, more);
      ResettlingRun(p, more, n);
      ResettlingMeans(Final(p, more), n);
    }
  }

  lemma {:induction false} HushedIsSafe(p: Pair, acts: seq<Action>, n: nat)
    requires Resettling(p, n) && IsRun(p, acts) && Hushed(p, acts)
    ensures NeverAtRisk(p, acts)
    decreases |acts|
  {
    hide AtRisk, Resettling, Unaware, Step, CanStep, ResetRank;
    ResettlingIsSafe(p, n);
    if acts != [] {
      ResettlingStep(p, acts[0], n);
      HushedIsSafe(Step(p, acts[0]), acts[1..], n);
    }
  }

  /** A settled pair knows of every reset, so its runs are hushed. */
  lemma {:induction false} NormalIsHushed(p: Pair, acts: seq<Action>, n: nat)
    requires Normal(p) && Chronicle(p, n) && IsRun(p, acts)
    ensures Hushed(p, acts)
    decreases |acts|
  {
    hide Normal, Chronicle, ResetSent, Step, CanStep, Rank;
    if acts != [] {
      NormalIsAware(p);
      NormalPairStep(p, acts[0], n);
      NormalIsHushed(Step(p, acts[0]), acts[1..], n);
    }
  }

  /** What a side that does not know of the reset sends of its own accord dooms the pair. */
  lemma UnhushedIsAtRisk(p: Pair, side: Side, act: Action)
    requires ResetSent(At(p, side), Peer(p, side)) && Peer(p, side).s.outgoing > 1
    requires CanStep(p, act) && !IsInternal(act)
    ensures AtRisk(Step(p, act))
  {
    var q := Step(p, act);
    UnawareActs(p, side, act);
    assert At(q, side).inbox == Effect(Peer(p, side), act).sent && Peer(q, side).inbox == Peer(p, side).inbox;
    var more := StirredDooms(q, side);
  }

  /** Taking what is ahead of the reset Logon sends nothing. */
  lemma StillUnaware(p: Pair, side: Side, act: Action)
    requires ResetSent(At(p, side), Peer(p, side)) && CanStep(p, act) && IsInternal(act)
    requires ResetSent(At(Step(p, act), side), Peer(Step(p, act), side))
    ensures Peer(Step(p, act), side).s.outgoing == Peer(p, side).s.outgoing
  {
    var y := Peer(p, side);
    UnawareActs(p, side, act);
    if |y.inbox| > 1 {
      assert y.inbox[..|y.inbox| - 1][0] == y.inbox[0];
      TakeLoggedOn(y.s, y.inbox[0]);
      HeadTaken(At(p, side), y, Receive(y.s, y.inbox[0]));
    }
  }

  lemma {:induction false} UnhushedRun(p: Pair, side: Side, acts: seq<Action>, n: nat)
    requires ResetSent(At(p, side), Peer(p, side)) && Chronicle(p, n) && Peer(p, side).s.outgoing > 1
    requires IsRun(p, acts) && !Hushed(p, acts)
    ensures !NeverAtRisk(p, acts)
    decreases |acts|
  {
    hide ResetSent, Chronicle, Normal, Step, CanStep, ResetRank, AtRisk;
    if IsInternal(acts[0]) {
      UnawareStep(p, side, acts[0], n);
      var q := Step(p, acts[0]);
      if ResetSent(At(q, side), Peer(q, side)) {
        StillUnaware(p, side, acts[0]);
        UnhushedRun(q, side, acts[1..], n);
      } else {
        NormalIsHushed(q, acts[1..], n);
      }
    } else {
      UnhushedIsAtRisk(p, side, acts[0]);
    }
  }

  /** A reset by a side that is not poised. */
  lemma UnpoisedIsAtRisk(p: Pair, side: Side, heartBtInt: nat)
    requires Talking(p) && !Poised(p, side) && At(p, side).s.incoming > 1
    ensures AtRisk(SendReset(p, side, heartBtInt))
  {
    var q := SendReset(p, side, heartBtInt);
    UnpoisedIsUnsafe(p, side, heartBtInt);
    hide Stirred, Unsafe, IsRun, Final;
    var more := StirredDooms(q, side);
  }

  lemma UnpoisedIsUnsafe(p: Pair, side: Side, heartBtInt: nat)
    requires Talking(p) && !Poised(p, side) && At(p, side).s.incoming > 1
    ensures var q := SendReset(p, side, heartBtInt);
            Stirred(At(q, side), Peer(q, side)) && Unsafe(At(q, side), Peer(q, side))
  {
    var o := Send(At(p, side).s, Logon(Some(Decimal(heartBtInt)), true, None));
    var c := Peer(p, side).inbox;
    assert (c + o.sent)[..|c + o.sent| - 1] == c;
    StillThere(c, o.sent);
  }

  lemma SendResetKeepsPeer(p: Pair, side: Side, heartBtInt: nat)
    requires Talking(p) && At(p, side).s.incoming > 1
    ensures Peer(SendReset(p, side, heartBtInt), side).s.outgoing > 1
  {
  }

  /** The exact condition, for a reset of a logged on pair with anything in flight, and over
      every run that follows: at no point can deliveries and timers lead to a disconnection if
      and only if, when the reset was sent, no post-logon test request was pending on either
      side, nothing was on its way to the side that resets and no test request to its peer,
      and if the peer sent nothing of its own accord before it took the reset Logon. (A side
      that has taken its peer's Logon expects a number above 1.) */
  lemma ResetIsSafeIff(p: Pair, side: Side, heartBtInt: nat, acts: seq<Action>, n: nat)
    requires Talking(p) && Chronicle(p, n) && At(p, side).s.incoming > 1
    requires IsRun(SendReset(p, side, heartBtInt), acts)
    ensures NeverAtRisk(SendReset(p, side, heartBtInt), acts)
            <==> Poised(p, side) && Hushed(SendReset(p, side, heartBtInt), acts)
  {
    hide Talking, Poised, Chronicle, ResetSent, Normal, SendReset, Step, CanStep, Hushed, AtRisk;
    var q := SendReset(p, side, heartBtInt);
    if Poised(p, side) {
      ResetIsSent(p, side, heartBtInt, n);
      if Hushed(q, acts) {
        HushedIsSafe(q, acts, n);
      } else {
        SendResetKeepsPeer(p, side, heartBtInt);
        UnhushedRun(q, side, acts, n);
      }
    } else {
      UnpoisedIsAtRisk(p, side, heartBtInt);
    }
  }
}
