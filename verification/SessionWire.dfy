/** What reaches the wire: session::send takes a number before the writer encodes the message,
    so a message the writer refuses leaves a gap. */
module SessionWire {
  import opened Optional
  import opened SessionModel
  import opened SessionRuns

  /** An event of a run; `refused` says of a message the application sends that the writer
      throws instead of taking it. */
  datatype Call = Call(event: Event, refused: bool)

  /** A message handed to the writer. */
  datatype Attempt = Attempt(m: Message, refused: bool)

  function Events(calls: seq<Call>): seq<Event> {
    if calls == [] then [] else [calls[0].event] + Events(calls[1..])
  }

  function Tagged(sent: seq<Message>, refused: bool): (r: seq<Attempt>)
    ensures |r| == |sent| && forall k :: 0 <= k < |r| ==> r[k] == Attempt(sent[k], refused)
  {
    if sent == [] then [] else [Attempt(sent[0], refused)] + Tagged(sent[1..], refused)
  }

  /** Everything handed to the writer: the exception comes after the number is taken, so the
      session goes on from the same state. */
  function Attempts(s: State, calls: seq<Call>): seq<Attempt>
    decreases |calls|
  {
    if calls == [] then []
    else
      var o := React(s, calls[0].event);
      Tagged(o.sent, calls[0].refused && calls[0].event.Submit?) + Attempts(o.state, calls[1..])
  }

  /** What the application sends is one message, with a number. */
  lemma SubmitSendsOne(s: State, body: Body)
    ensures var sent := React(s, Submit(body)).sent; |sent| == 1 && !Unnumbered(sent[0])
  {
  }

  lemma MatchesConcat(at: seq<Attempt>, sent: seq<Message>, more: seq<Attempt>, rest: seq<Message>)
    requires Matches(at, sent) && Matches(more, rest)
    ensures Matches(at + more, sent + rest)
  {
    hide Unnumbered;
  }

  lemma {:induction false} EventsCons(calls: seq<Call>)
    requires calls != []
    ensures Events(calls) != [] && Events(calls)[0] == calls[0].event && Events(calls)[1..] == Events(calls[1..])
  {
  }

  lemma StepMatches(s: State, c: Call)
    ensures Matches(Tagged(React(s, c.event).sent, c.refused && c.event.Submit?), React(s, c.event).sent)
  {
    hide React, Unnumbered;
    if c.event.Submit? {
      SubmitSendsOne(s, c.event.body);
    }
  }

  /** They are the messages of the run, and what is refused carries a number. */
  lemma {:induction false} AttemptsAreSent(s: State, calls: seq<Call>)
    ensures Matches(Attempts(s, calls), Run(s, Events(calls)).sent)
    decreases |calls|
  {
    hide React, Matches, Unnumbered;
    if calls == [] {
      assert Matches([], []) by { MatchesNothing(); }
    } else {
      var o := React(s, calls[0].event);
      EventsCons(calls);
      StepMatches(s, calls[0]);
      AttemptsAreSent(o.state, calls[1..]);
      var more, rest := Attempts(o.state, calls[1..]), Run(o.state, Events(calls[1..])).sent;
      MatchesConcat(Tagged(o.sent, calls[0].refused && calls[0].event.Submit?), o.sent, more, rest);
    }
  }

  lemma MatchesNothing()
    ensures Matches([], [])
  {
  }

  function Refusals(at: seq<Attempt>): nat {
    if at == [] then 0 else (if at[0].refused then 1 else 0) + Refusals(at[1..])
  }

  /** Across messages that are either gap fills or refused, the number moves by the refusals. */
  lemma {:induction false} RefusalsTakeNumbers(next: nat, sent: seq<Message>, at: seq<Attempt>)
    requires |at| == |sent| && NextNumber(next, sent).Some?
    requires forall k :: 0 <= k < |sent| ==> at[k].refused == !Unnumbered(sent[k]) && !IsReset(sent[k])
    ensures NextNumber(next, sent).value == next + Refusals(at)
    decreases |sent|
  {
    if sent != [] {
      RefusalsTakeNumbers(if Unnumbered(sent[0]) then next else next + 1, sent[1..], at[1..]);
    }
  }

  /** j and k are neighbours on the wire: both went out, k carries a number, and what was handed
      to the writer between them was refused or is a gap fill; no reset Logon comes in. */
  predicate Neighbours(at: seq<Attempt>, j: nat, k: nat) {
    && j < k < |at| && !at[j].refused && !at[k].refused && !Unnumbered(at[k].m)
    && (forall l :: j < l < k ==> at[l].refused || Unnumbered(at[l].m))
    && (forall l :: j < l <= k ==> !IsReset(at[l].m))
  }

  /** The number that should follow a message. */
  function NumberAfter(m: Message): Option<nat> {
    if !Unnumbered(m) then Some(m.seqNum + 1)
    else if m.body.newSeqNo.Some? && m.body.newSeqNo.value.Decimal? then Some(m.body.newSeqNo.value.n)
    else None
  }

  /** The attempts carry the messages, and what is refused carries a number. */
  predicate Matches(at: seq<Attempt>, sent: seq<Message>) {
    && |at| == |sent|
    && forall k :: 0 <= k < |at| ==> at[k].m == sent[k] && (at[k].refused ==> !Unnumbered(at[k].m))
  }

  lemma BetweenNeighbours(at: seq<Attempt>, sent: seq<Message>, j: nat, k: nat, next: nat)
    requires Matches(at, sent) && Neighbours(at, j, k) && NextNumber(next, sent[j + 1..k]).Some?
    ensures NextNumber(next, sent[j + 1..k]).value == next + Refusals(at[j + 1..k])
  {
    hide Unnumbered, IsReset, NextNumber, Refusals;
    var between, those := sent[j + 1..k], at[j + 1..k];
    forall l | 0 <= l < |between|
      ensures those[l].refused == !Unnumbered(between[l]) && !IsReset(between[l])
    {
      assert between[l] == sent[j + 1 + l] && those[l] == at[j + 1 + l];
    }
    RefusalsTakeNumbers(next, between, those);
  }

  lemma OneMore(next: nat, m: Message, rest: seq<Message>)
    requires NextNumber(next, [m] + rest).Some? && !IsReset(m)
    ensures NumberAfter(m).Some? && NextNumber(next, [m] + rest) == NextNumber(NumberAfter(m).value, rest)
  {
    assert ([m] + rest)[1..] == rest;
  }

  lemma AfterReset(next: nat, m: Message, rest: seq<Message>)
    requires NextNumber(next, [m] + rest).Some? && IsReset(m) && !Unnumbered(m)
    ensures NumberAfter(m) == Some(2) && NextNumber(next, [m] + rest) == NextNumber(2, rest)
  {
    assert ([m] + rest)[1..] == rest;
  }

  lemma GapIsRefusals(next: nat, at: seq<Attempt>, sent: seq<Message>, j: nat, k: nat)
    requires Matches(at, sent) && Neighbours(at, j, k) && NextNumber(next, sent).Some?
    ensures NumberAfter(sent[j]).Some? && sent[k].seqNum == NumberAfter(sent[j]).value + Refusals(at[j + 1..k])
  {
    hide NextNumber, Refusals, NumberAfter, Unnumbered;
    NumberAt(next, sent, j);
    NumberAt(next, sent, k);
    var n, between := NextNumber(next, sent[..j]).value, sent[j + 1..k];
    assert sent[..k] == sent[..j] + ([sent[j]] + between);
    NextNumberConcat(next, sent[..j], [sent[j]] + between);
    if IsReset(sent[j]) {
      assert !Unnumbered(sent[j]) by { ResetIsNumbered(sent[j]); }
      AfterReset(n, sent[j], between);
    } else {
      OneMore(n, sent[j], between);
    }
    BetweenNeighbours(at, sent, j, k, NumberAfter(sent[j]).value);
  }

  lemma ResetIsNumbered(m: Message)
    requires IsReset(m)
    ensures !Unnumbered(m)
  {
  }

  /** Over every run: between neighbours on the wire exactly as many numbers are missing as
      messages were refused between them. */
  lemma RefusalsLeaveGaps(s: State, calls: seq<Call>, j: nat, k: nat)
    requires Neighbours(Attempts(s, calls), j, k)
    ensures var at := Attempts(s, calls);
            NumberAfter(at[j].m).Some? && at[k].m.seqNum == NumberAfter(at[j].m).value + Refusals(at[j + 1..k])
  {
    hide Attempts, Run, Refusals, NumberAfter, Unnumbered;
    AttemptsAreSent(s, calls);
    RunNumbers(s, Events(calls));
    GapIsRefusals(s.outgoing, Attempts(s, calls), Run(s, Events(calls)).sent, j, k);
  }

  predicate AnyRefused(at: seq<Attempt>) { exists k :: 0 <= k < |at| && at[k].refused }

  lemma {:induction false} NoRefusals(at: seq<Attempt>)
    ensures Refusals(at) == 0 <==> !AnyRefused(at)
  {
    if at != [] {
      NoRefusals(at[1..]);
      assert forall k :: 0 < k < |at| ==> at[k] == at[1..][k - 1];
    }
  }

  /** Neighbours on the wire carry consecutive numbers if and only if nothing was refused
      between them. */
  lemma WireIsConsecutiveIff(s: State, calls: seq<Call>, j: nat, k: nat)
    requires Neighbours(Attempts(s, calls), j, k)
    ensures var at := Attempts(s, calls);
            NumberAfter(at[j].m) == Some(at[k].m.seqNum) <==> !AnyRefused(at[j + 1..k])
  {
    hide Attempts, Refusals, NumberAfter, AnyRefused;
    RefusalsLeaveGaps(s, calls, j, k);
    NoRefusals(Attempts(s, calls)[j + 1..k]);
  }
}

/** The session on top of the socket writer. */
module SessionTransport {
  import opened SessionModel
  import opened SessionRuns
  import opened Session
  import opened Codec
  import opened SocketWriters
  import Messages

  /** session::send: the number is taken first; the message is refused, and nothing reaches the
      wire, if and only if it does not fit the room that the writer has left. */
  method SendThrough(session: Session, writer: SocketWriter, body: Body, message: Messages.Message, options: Options,
                     schedule: seq<SocketWriters.Event>)
    returns (refused: bool)
    requires session.Sound() && writer.Valid()
    modifies session, writer, writer.first, writer.second, writer.first.data, writer.second.data, message
    ensures session.Sound()
    ensures session.Trace() == old(session.Trace()).Then(SessionModel.Send(old(session.View()), body))
    ensures writer.Valid()
    ensures refused <==> !Fits(old(message.fields), options, WRITE_BUFFER_SIZE - old(writer.pending.offset))
    ensures refused ==> writer.log == old(writer.log)
    ensures !refused ==> old(writer.log) + [Encoding(old(message.fields), options)] <= writer.log
  {
    hide Fits, Encoding, Calls, Used, Numbers, Tiles, SessionModel.Send;
    session.Handle(Submit(body));
    ghost var before := writer.log + [Encoding(message.fields, options)];
    var ending, rest := writer.Write(message, options, schedule);
    refused := ending.Rejected?;
    if !refused {
      UsedGrows(schedule, rest, ending, before, writer.log);
    }
  }
}
