/** The socket writer: messages are encoded into the pending buffer, which is swapped with
    the active one whenever no socket write is outstanding. */
module SocketWriters {
  import opened Bytes
  import opened Fields
  import opened Codec
  import opened Messages

  const WRITE_BUFFER_SIZE := 8192
  const HIGH_WATER_MARK := 7500

  /** What one turn of the event loop can do while write waits: the socket write completes, a
      handler sends another message, or something else happens. */
  datatype Event = Completion | Nested(fields: seq<Field>, options: Options) | Other

  /** How a call ends: normally; its own message does not encode; the exception of a nested
      write escapes through it; or it is still waiting when the events end. */
  datatype Ending = Done | Rejected | Escaped | Waiting

  function Calls(events: seq<Event>): seq<seq<byte>> {
    if events == [] then []
    else if events[0].Nested? then [Encoding(events[0].fields, events[0].options)] + Calls(events[1..])
    else Calls(events[1..])
  }

  predicate NoNested(events: seq<Event>) { forall e :: e in events ==> !e.Nested? }

  lemma {:induction false} CallsConcat(a: seq<Event>, b: seq<Event>)
    ensures Calls(a + b) == Calls(a) + Calls(b)
  {
    hide Encoding;
    if a == [] {
      assert a + b == b;
    } else {
      assert (a + b)[1..] == a[1..] + b;
      CallsConcat(a[1..], b);
    }
  }

  /** What n events of the schedule add to the log, and what m more add behind them. */
  lemma CallsSplit(schedule: seq<Event>, n: nat, m: nat)
    requires n + m <= |schedule|
    ensures Calls(schedule[..n + m]) == Calls(schedule[..n]) + Calls(schedule[n..][..m])
  {
    hide Calls;
    assert schedule[..n + m] == schedule[..n] + schedule[n..][..m];
    CallsConcat(schedule[..n], schedule[n..][..m]);
  }

  lemma CallsOfOne(schedule: seq<Event>, n: nat)
    requires n < |schedule|
    ensures var e := schedule[n];
            Calls(schedule[..n + 1]) == Calls(schedule[..n]) + if e.Nested? then [Encoding(e.fields, e.options)] else []
  {
    hide Encoding;
    CallsSplit(schedule, n, 1);
    var one := schedule[n..][..1];
    assert |one| == 1 && one[0] == schedule[n] && Calls(one[1..]) == [];
  }

  /** A message can be appended when its encoding is not empty and fits the room. */
  predicate Fits(fs: seq<Field>, options: Options, room: nat) {
    !EncodeThrows(fs, options) && 0 < |Encoding(fs, options)| <= room
  }

  class WriteBuffer {
    const data: array<byte>
    var offset: nat

    constructor ()
      ensures fresh(data) && data.Length == WRITE_BUFFER_SIZE && offset == 0
    {
      data := new byte[WRITE_BUFFER_SIZE](_ => 0);
      offset := 0;
    }

    predicate InBounds()
      reads this
    {
      data.Length == WRITE_BUFFER_SIZE && offset <= data.Length
    }

    function Contents(): seq<byte>
      requires InBounds()
      reads this, data
    {
      data[..offset]
    }

    /** Encodes a message behind what is there; it all stays as it was if it does not encode. */
    method Append(message: Message, options: Options) returns (ok: bool)
      requires InBounds()
      modifies this, data, message
      ensures InBounds() && ok == Fits(old(message.fields), options, WRITE_BUFFER_SIZE - old(offset))
      ensures Contents() == old(Contents()) + if ok then Encoding(old(message.fields), options) else []
    {
      hide Encoding, EncodeThrows, Head;
      HeadFitsFirst(message.fields, options);
      var size, threw := message.Encode(data, offset, options);
      if threw || size == 0 {
        return false;
      }
      SplitAt(data[..], offset, size);
      offset := offset + size;
      ok := true;
    }
  }

  class SocketWriter {
    const first: WriteBuffer
    const second: WriteBuffer
    var pending: WriteBuffer
    var active: WriteBuffer
    var outstanding: bool               // an asynchronous socket write has not completed
    ghost var flight: seq<byte>         // the bytes that write was started with
    ghost var flightBuffer: WriteBuffer // and the buffer they are in
    ghost var sent: seq<byte>           // the bytes of all completed socket writes
    ghost var log: seq<seq<byte>>       // the encodings of all messages, in encode order

    constructor ()
      ensures Valid() && log == [] && fresh(first) && fresh(second) && fresh(first.data) && fresh(second.data)
      ensures pending.offset == 0
    {
      first := new WriteBuffer();
      second := new WriteBuffer();
      pending, active, outstanding := first, second, false;
      flight, flightBuffer, sent, log := [], second, [], [];
      new;
      assert Flatten(log) == [];
    }

    predicate Shape()
      reads this, first, second
    {
      && first != second && first.data != second.data && first.InBounds() && second.InBounds()
      && ((pending == first && active == second) || (pending == second && active == first))
    }

    /** Bytes sent, in flight and pending are the encodings in encode order. A socket write is
        outstanding exactly while the active buffer holds bytes: those it was started with,
        neither modified nor swapped away. Nothing is pending without such a write. */
    ghost predicate Valid()
      reads this, first, second, first.data, second.data
    {
      && Shape()
      && outstanding == (active.offset > 0)
      && (outstanding ==> flightBuffer == active && flight == active.Contents())
      && (pending.offset > 0 ==> outstanding)
      && sent + active.Contents() + pending.Contents() == Flatten(log)
    }

    /** Encodes a message behind the pending ones; all stays as it was if it does not encode. */
    method Append(message: Message, options: Options) returns (ok: bool)
      requires Valid()
      modifies this`log, pending, pending.data, message
      ensures Shape() && active.offset == old(active.offset) && active.Contents() == old(active.Contents())
      ensures ok == Fits(old(message.fields), options, WRITE_BUFFER_SIZE - old(pending.offset))
      ensures ok ==> log == old(log) + [Encoding(old(message.fields), options)]
      ensures ok ==>
                pending.offset == old(pending.offset) + |Encoding(old(message.fields), options)| > old(pending.offset)
      ensures !ok ==> Valid() && log == old(log)
      ensures sent + active.Contents() + pending.Contents() == Flatten(log)
    {
      hide Encoding, Flatten;
      ghost var before, bytes := pending.Contents(), Encoding(message.fields, options);
      ok := pending.Append(message, options);
      assert active.Contents() == old(active.Contents());
      if ok {
        log := log + [bytes];
        assert log[..|log| - 1] == old(log) && log[..|log|] == log;
        FlattenSnoc(log, |log| - 1);
        assert sent + active.Contents() + (before + bytes) == sent + active.Contents() + before + bytes;
        assert |pending.Contents()| == pending.offset && |before| == old(pending.offset);
      } else {
        assert pending.Contents() == before && |before| == old(pending.offset);
      }
    }

    /** Starts a socket write of everything pending, unless one is outstanding. */
    method FlushPendingWrites()
      requires Shape() && outstanding == (active.offset > 0) && (pending.offset > 0 || active.offset > 0)
      requires outstanding ==> flightBuffer == active && flight == active.Contents()
      requires sent + active.Contents() + pending.Contents() == Flatten(log)
      modifies this`pending, this`active, this`outstanding, this`flight, this`flightBuffer
      ensures Valid() && outstanding
      ensures if old(active.offset) > 0 then pending == old(pending) && active == old(active)
              else pending == old(active) && active == old(pending)
    {
      if active.offset > 0 {
        return;
      }
      active, pending := pending, active;
      assert !outstanding;
      outstanding, flight, flightBuffer := true, active.Contents(), active;
    }

    /** The completion handler of the outstanding socket write. */
    method Complete()
      requires Valid() && outstanding
      modifies this`pending, this`active, this`outstanding, this`flight
      modifies this`flightBuffer, this`sent, first`offset, second`offset
      ensures Valid() && log == old(log) && sent == old(sent) + old(active.Contents()) && pending.offset == 0
    {
      hide Flatten;
      ghost var now := active.Contents();
      sent := sent + flight;
      outstanding := false;
      active.offset := 0;
      assert active.Contents() == [];
      assert sent + [] + pending.Contents() == old(sent) + now + pending.Contents();
      if pending.offset > 0 {
        FlushPendingWrites();
      }
    }

    /** Writes one message. The call waits only if a socket write is outstanding and more than
        7500 bytes are pending behind it; `schedule` is what the event loop does while it waits,
        `rest` what of it the call did not get to. The log grows by this message and by the
        nested ones behind it, in call order; a write that escapes is the last event used. */
    method Write(message: Message, options: Options, schedule: seq<Event>) returns (r: Ending, rest: seq<Event>)
      requires Valid()
      modifies this, first, second, first.data, second.data, message
      ensures Valid()
      ensures r.Rejected? <==> !Fits(old(message.fields), options, 8192 - old(pending.offset))
      ensures r.Rejected? ==> log == old(log) && rest == schedule
      ensures !r.Rejected? ==> Used(schedule, rest, r, old(log) + [Encoding(old(message.fields), options)], log)
      ensures r.Waiting? ==> rest == []
      ensures r.Done? ==> pending.offset <= 7500
      ensures var size := |Encoding(old(message.fields), options)|;
              !r.Rejected? && (!old(outstanding) || old(pending.offset) + size <= 7500) ==>
                r == Done && rest == schedule
      decreases |schedule|, 1
    {
      hide Fits, Encoding;
      var ok := Append(message, options);
      if !ok {
        return Rejected, schedule;
      }
      FlushPendingWrites();
      ghost var logged := log;
      if pending.offset > HIGH_WATER_MARK {
        r, rest := Wait(schedule);
      } else {
        r, rest := Done, schedule;
        NoneUsed(schedule, logged);
      }
    }

    /** The wait loop: runs the event loop until nothing is in flight, and so nothing pending. */
    method Wait(schedule: seq<Event>) returns (r: Ending, rest: seq<Event>)
      requires Valid()
      modifies this, first, second, first.data, second.data
      ensures Valid() && !r.Rejected?
      ensures Used(schedule, rest, r, old(log), log)
      ensures r.Waiting? ==> rest == []
      ensures r.Done? ==> pending.offset == 0 && active.offset == 0
      decreases |schedule|, 0
    {
      hide Fits, Encoding, Calls;
      rest := schedule;
      NoneUsed(schedule, log);
      while active.offset > 0
        invariant Valid() && Used(schedule, rest, Done, old(log), log)
        decreases |rest|
      {
        if rest == [] {
          return Waiting, [];
        }
        var e := rest[0];
        ghost var before := rest;
        UsedStep(schedule, rest, old(log), log);
        rest := rest[1..];
        match e
        case Completion => Complete();
        case Other =>
        case Nested(fields, options) =>
          var message := new Message(fields);
          ghost var at := log;
          ghost var after := rest;
          r, rest := Write(message, options, rest);
          if r.Rejected? {
            return Escaped, rest;
          }
          UsedChain(schedule, before, rest, r, old(log), at, log);
          if r != Done {
            return r, rest;
          }
      }
      r := Done;
    }

    /** A whole run of the writer: calls of write, and socket writes completing in between.
        If no handler run by a wait loop writes, whatever comes at once fits: every message
        that is not empty, encodes to at most 692 bytes and can be checksummed is accepted, and
        what was accepted goes out in call order. */
    method Run(steps: seq<Step>) returns (r: Ending, taken: nat)
      requires Valid() && pending.offset <= HIGH_WATER_MARK
      requires forall s :: s in steps && s.Call? ==>
                 NoNested(s.schedule) && Fits(s.fields, s.options, 692)
      modifies this, first, second, first.data, second.data
      ensures Valid() && (r.Done? || r.Waiting?) && taken <= |steps| && (r.Done? ==> taken == |steps|)
      ensures log == old(log) + Written(steps[..taken])
    {
      hide Fits, Encoding, Used, Written, Calls;
      taken := 0;
      assert steps[..0] == [] && Written([]) == [] by { WrittenNothing(); }
      while taken < |steps|
        invariant taken <= |steps| && Valid() && pending.offset <= HIGH_WATER_MARK
        invariant log == old(log) + Written(steps[..taken])
      {
        var s := steps[taken];
        WrittenSnoc(steps, taken);
        taken := taken + 1;
        match s
        case Complete =>
          if outstanding {
            Complete();
          }
        case Call(fields, options, schedule) =>
          var message := new Message(fields);
          FitsIn(fields, options, 692, WRITE_BUFFER_SIZE - pending.offset);
          ghost var logged := log + [Encoding(fields, options)];
          var ending, rest := Write(message, options, schedule);
          NothingNested(schedule, rest, ending, logged, log);
          if ending.Waiting? {
            return Waiting, taken;
          }
      }
      r := Done;
    }
  }

  datatype Step = Complete | Call(fields: seq<Field>, options: Options, schedule: seq<Event>)

  function Written(steps: seq<Step>): seq<seq<byte>> {
    if steps == [] then []
    else
      var s := steps[|steps| - 1];
      Written(steps[..|steps| - 1]) + if s.Call? then [Encoding(s.fields, s.options)] else []
  }

  lemma WrittenNothing()
    ensures Written([]) == []
  {
  }

  lemma WrittenSnoc(steps: seq<Step>, n: nat)
    requires n < |steps|
    ensures var s := steps[n];
            Written(steps[..n + 1]) == Written(steps[..n]) + if s.Call? then [Encoding(s.fields, s.options)] else []
  {
    assert steps[..n + 1][..n] == steps[..n];
  }

  /** The events from schedule up to rest have been used, and took the log from one to the
      other; when an exception escaped, the last event is the write that failed. */
  predicate Used(schedule: seq<Event>, rest: seq<Event>, r: Ending, before: seq<seq<byte>>, after: seq<seq<byte>>) {
    && |rest| <= |schedule|
    && var n := |schedule| - |rest|;
    && rest == schedule[n..]
    && if r.Escaped? then n > 0 && schedule[n - 1].Nested? && after == before + Calls(schedule[..n - 1])
       else after == before + Calls(schedule[..n])
  }

  lemma UsedGrows(schedule: seq<Event>, rest: seq<Event>, r: Ending, before: seq<seq<byte>>, after: seq<seq<byte>>)
    requires Used(schedule, rest, r, before, after)
    ensures before <= after
  {
    hide Calls;
  }

  lemma NoneUsed(schedule: seq<Event>, log: seq<seq<byte>>)
    ensures Used(schedule, schedule, Done, log, log)
  {
    assert schedule[..0] == [];
  }

  /** One more event: a write that fails escapes, any other adds its encoding. */
  lemma UsedStep(schedule: seq<Event>, rest: seq<Event>, before: seq<seq<byte>>, log: seq<seq<byte>>)
    requires rest != [] && Used(schedule, rest, Done, before, log)
    ensures if rest[0].Nested? then
              && Used(schedule, rest[1..], Escaped, before, log)
              && Used(schedule, rest[1..], Done, before, log + [Encoding(rest[0].fields, rest[0].options)])
            else Used(schedule, rest[1..], Done, before, log)
  {
    hide Calls, Encoding;
    CallsOfOne(schedule, |schedule| - |rest|);
  }

  /** What a nested write used counts as used by the call around it. */
  lemma UsedChain(schedule: seq<Event>, rest: seq<Event>, last: seq<Event>, r: Ending, before: seq<seq<byte>>,
                  log: seq<seq<byte>>, after: seq<seq<byte>>)
    requires rest != [] && rest[0].Nested?
    requires Used(schedule, rest[1..], Done, before, log + [Encoding(rest[0].fields, rest[0].options)])
    requires Used(rest[1..], last, r, log + [Encoding(rest[0].fields, rest[0].options)], after)
    ensures Used(schedule, last, r, before, after)
  {
    hide Calls, Encoding;
    var n, m := |schedule| - |rest| + 1, |rest| - 1 - |last|;
    CallsSplit(schedule, n, m);
    if r.Escaped? {
      CallsSplit(schedule, n, m - 1);
    }
  }

  lemma {:induction false} CallsOfNoNested(events: seq<Event>)
    requires NoNested(events)
    ensures Calls(events) == []
  {
    if events != [] {
      CallsOfNoNested(events[1..]);
    }
  }

  lemma NothingNested(schedule: seq<Event>, rest: seq<Event>, r: Ending, before: seq<seq<byte>>, after: seq<seq<byte>>)
    requires NoNested(schedule) && Used(schedule, rest, r, before, after)
    ensures !r.Escaped? && after == before
  {
    hide Calls;
    CallsOfNoNested(schedule[..|schedule| - |rest|]);
  }

  lemma FitsIn(fs: seq<Field>, options: Options, room: nat, more: nat)
    requires Fits(fs, options, room) && room <= more
    ensures Fits(fs, options, more)
  {
  }

  lemma SplitAt(data: seq<byte>, n: nat, size: nat)
    requires n + size <= |data|
    ensures data[..n + size] == data[..n] + data[n..n + size]
  {
  }
}
