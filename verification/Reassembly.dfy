/** Reassembling messages from a byte stream that arrives in pieces: what the socket reader
    and the asyncio stream reader have in common. */
module Reassembly {
  import opened Bytes
  import opened Fields
  import opened Codec
  import opened CodecTheorems

  /** Between reads: everything received is either dispatched, in the partial message, or
      still in the window, exactly as one parse of it all says. */
  predicate Settled(dict: Dictionary, received: seq<byte>, dispatched: seq<Decoder>, view: Decoder, window: seq<byte>) {
    var p := ParseStream(dict, FRESH, received);
    !p.failed && p.messages == dispatched && p.partial == view && received[p.consumed..] == window
  }

  /** While decoding: parsing the window is what is missing from the parse of it all. */
  predicate Decoding(dict: Dictionary, received: seq<byte>, dispatched: seq<Decoder>, view: Decoder,
                     window: seq<byte>)
  {
    && |window| <= |received|
    && received[|received| - |window|..] == window
    && var rest := ParseStream(dict, view, window);
    SameParse(ParseStream(dict, FRESH, received), Prepend(dispatched, |received| - |window|, rest))
  }

  lemma Nothing(dict: Dictionary)
    ensures Settled(dict, [], [], FRESH, [])
  {
    NothingToScan(dict, []);
  }

  lemma SettledIs(dict: Dictionary, received: seq<byte>, dispatched: seq<Decoder>, view: Decoder, window: seq<byte>)
    requires Settled(dict, received, dispatched, view, window)
    ensures var p := ParseStream(dict, FRESH, received);
            !p.failed && p.messages == dispatched && |window| == |received| - p.consumed
  {
    hide ParseStream;
  }

  lemma Arrive(dict: Dictionary, received: seq<byte>, dispatched: seq<Decoder>, view: Decoder, window: seq<byte>,
               chunk: seq<byte>)
    requires Settled(dict, received, dispatched, view, window)
    ensures Decoding(dict, received + chunk, dispatched, view, window + chunk)
  {
    hide ParseStream;
    StreamRestarts(dict, FRESH, received, chunk);
  }

  lemma Dispatch(dict: Dictionary, received: seq<byte>, dispatched: seq<Decoder>, view: Decoder, window: seq<byte>)
    requires Decoding(dict, received, dispatched, view, window)
    requires Decode(dict, view, window).Decoded? && Decode(dict, view, window).complete
    ensures var r := Decode(dict, view, window);
            Decoding(dict, received, dispatched + [r.state], FRESH, window[r.consumed..])
  {
    hide Decode, ParseStream;
    ParseStep(dict, view, window);
    var r := Decode(dict, view, window);
    var s := ParseStream(dict, FRESH, window[r.consumed..]);
    assert dispatched + ([r.state] + s.messages) == dispatched + [r.state] + s.messages;
  }

  lemma Pause(dict: Dictionary, received: seq<byte>, dispatched: seq<Decoder>, view: Decoder, window: seq<byte>)
    requires Decoding(dict, received, dispatched, view, window)
    requires Decode(dict, view, window).Decoded? && !Decode(dict, view, window).complete
    ensures var r := Decode(dict, view, window); Settled(dict, received, dispatched, r.state, window[r.consumed..])
  {
    hide Decode, ParseStream;
    ParseStep(dict, view, window);
  }

  lemma Fail(dict: Dictionary, received: seq<byte>, dispatched: seq<Decoder>, view: Decoder, window: seq<byte>)
    requires Decoding(dict, received, dispatched, view, window) && Decode(dict, view, window).Threw?
    ensures ParseStream(dict, FRESH, received).failed && ParseStream(dict, FRESH, received).messages == dispatched
  {
    hide Decode, ParseStream;
    ParseStep(dict, view, window);
  }

  // ------------------------------------------------- streams of well-formed messages

  function Stream(ms: seq<seq<Field>>): seq<byte> {
    if ms == [] then [] else Wire(ms[0]) + Stream(ms[1..])
  }

  function DecodedMessages(ms: seq<seq<Field>>): (r: seq<Decoder>)
    ensures |r| == |ms| && forall k :: 0 <= k < |ms| ==> r[k] == DecodedMessage(ms[k])
  {
    seq(|ms|, k requires 0 <= k < |ms| => DecodedMessage(ms[k]))
  }

  /** Whole messages whose fields take at most `limit` bytes each. */
  predicate WellFormed(dict: Dictionary, ms: seq<seq<Field>>, limit: nat) {
    AreMessages(dict, ms) && AreBounded(ms, limit)
  }

  predicate AreMessages(dict: Dictionary, ms: seq<seq<Field>>) { forall m :: m in ms ==> IsMessage(dict, m) }

  predicate AreBounded(ms: seq<seq<Field>>, limit: nat) { forall m :: m in ms ==> Bounded(m, limit) }

  predicate Bounded(fs: seq<Field>, limit: nat) { forall f :: f in fs ==> |FieldBytes(f)| <= limit }

  /** Part of a field is no field yet. */
  lemma PartOfField(dict: Dictionary, prev: seq<Field>, f: Field, buf: seq<byte>)
    requires Readable(dict, prev, f) && buf < FieldBytes(f)
    ensures ParseField(dict, prev, buf).NeedMore?
  {
    hide ParseField, FieldBytes, Readable;
    var rest := FieldBytes(f)[|buf|..];
    assert buf + rest == FieldBytes(f) + [];
    ParseEncoded(dict, prev, f, []);
    if !ParseField(dict, prev, buf).NeedMore? {
      ParseIsStable(dict, prev, buf, rest);
      assert false;
    }
  }

  /** Part of a message decodes to some of its fields, leaving less than one field over. */
  lemma {:induction false} PartOfMessage(dict: Dictionary, prev: seq<Field>, fs: seq<Field>, buf: seq<byte>, limit: nat)
    requires AllReadable(dict, prev, fs) && Bounded(fs, limit) && buf < Wire(fs)
    requires fs != [] && forall k :: 0 <= k < |fs| - 1 ==> fs[k].tag != CHECK_SUM
    ensures var r := ScanFields(dict, prev, buf); !r.bad && !r.complete && |buf| - r.consumed < limit
    decreases |fs|
  {
    hide ParseField, ScanFields, FieldBytes, Readable;
    var f, n := fs[0], |FieldBytes(fs[0])|;
    var rest := Wire(fs[1..]);
    assert Wire(fs) == FieldBytes(f) + rest;
    ScanStep(dict, prev, buf);
    if |buf| < n {
      assert buf < FieldBytes(f) by { assert (FieldBytes(f) + rest)[..|buf|] == FieldBytes(f)[..|buf|]; }
      PartOfField(dict, prev, f, buf);
    } else {
      var tail := buf[n..];
      assert buf == FieldBytes(f) + tail;
      ParseEncoded(dict, prev, f, tail);
      assert tail < rest by { assert (FieldBytes(f) + rest)[n..|buf|] == rest[..|tail|]; }
      assert fs[1..] != [];
      PartOfMessage(dict, prev + [f], fs[1..], tail, limit);
    }
  }

  lemma StreamCons(m: seq<Field>, ms: seq<seq<Field>>, k: nat)
    requires k <= |ms|
    ensures Stream(([m] + ms)[..k + 1]) == Wire(m) + Stream(ms[..k])
  {
    assert ([m] + ms)[..k + 1][1..] == ms[..k];
  }

  /** What a part of a stream parses into, when k of its messages are there in full. */
  predicate ParsesInto(dict: Dictionary, ms: seq<seq<Field>>, received: seq<byte>, limit: nat, k: nat) {
    var p := ParseStream(dict, FRESH, received);
    && k <= |ms|
    && |Stream(ms[..k])| <= |received| && (k < |ms| ==> |received| < |Stream(ms[..k + 1])|)
    && !p.failed && p.messages == DecodedMessages(ms[..k]) && |received| - p.consumed < limit
  }

  lemma OneMoreMessage(dict: Dictionary, m: seq<Field>, tail: seq<seq<Field>>, rest: seq<byte>, limit: nat, j: nat)
    requires IsMessage(dict, m) && ParsesInto(dict, tail, rest, limit, j)
    ensures ParsesInto(dict, [m] + tail, Wire(m) + rest, limit, j + 1)
  {
    hide Decode, Wire, ParseStream, IsMessage, DecodedMessage, Stream;
    var ms, received := [m] + tail, Wire(m) + rest;
    StreamCons(m, tail, j);
    if j < |tail| {
      StreamCons(m, tail, j + 1);
    }
    DecodeMessage(dict, m, rest);
    ParseStep(dict, FRESH, received);
    assert received[|Wire(m)|..] == rest;
    assert [DecodedMessage(m)] + DecodedMessages(tail[..j]) == DecodedMessages(ms[..j + 1]);
  }

  /** However much of a well-formed stream has arrived, it does not fail; exactly the messages
      that are there in full are dispatched, in order; and what is left over is less than
      one field. */
  lemma {:induction false} PartOfStream(dict: Dictionary, ms: seq<seq<Field>>, received: seq<byte>, limit: nat)
    returns (k: nat)
    requires WellFormed(dict, ms, limit) && received <= Stream(ms) && limit > 0
    ensures ParsesInto(dict, ms, received, limit, k)
    decreases |ms|
  {
    hide Decode, Wire, ParseStream, IsMessage, Bounded, DecodedMessage;
    assert ms[..0] == [];
    if ms == [] {
      assert received == [];
      Nothing(dict);
      return 0;
    }
    var m, tail := ms[0], ms[1..];
    assert ms == [m] + tail;
    StreamCons(m, tail, 0);
    if |received| < |Wire(m)| {
      assert received < Wire(m) by { assert Stream(ms)[..|received|] == Wire(m)[..|received|]; }
      PartOfFirst(dict, m, received, limit);
      return 0;
    }
    var rest := received[|Wire(m)|..];
    assert received == Wire(m) + rest by { assert Stream(ms)[..|Wire(m)|] == Wire(m); }
    assert rest <= Stream(tail) by { assert Stream(ms)[|Wire(m)|..|received|] == Stream(tail)[..|rest|]; }
    var j := PartOfStream(dict, tail, rest, limit);
    OneMoreMessage(dict, m, tail, rest, limit, j);
    return j + 1;
  }

  lemma PartOfFirst(dict: Dictionary, m: seq<Field>, received: seq<byte>, limit: nat)
    requires IsMessage(dict, m) && Bounded(m, limit) && received < Wire(m)
    ensures var p := ParseStream(dict, FRESH, received);
            !p.failed && p.messages == [] && |received| - p.consumed < limit
  {
    hide ScanFields, Wire, ParseStream, Bounded;
    PartOfMessage(dict, [], m, received, limit);
    ParseStep(dict, FRESH, received);
  }

  /** A whole well-formed stream is parsed into all its messages, with nothing left over. */
  lemma {:induction false} WholeStream(dict: Dictionary, ms: seq<seq<Field>>, limit: nat)
    requires WellFormed(dict, ms, limit)
    ensures ParseStream(dict, FRESH, Stream(ms)) == Parse(DecodedMessages(ms), FRESH, |Stream(ms)|, false)
    decreases |ms|
  {
    hide Decode, Wire, ParseStream, IsMessage, Bounded, DecodedMessage;
    if ms == [] {
      Nothing(dict);
    } else {
      var m, rest := ms[0], Stream(ms[1..]);
      DecodeMessage(dict, m, rest);
      ParseStep(dict, FRESH, Wire(m) + rest);
      assert (Wire(m) + rest)[|Wire(m)|..] == rest;
      WholeStream(dict, ms[1..], limit);
      assert [DecodedMessage(m)] + DecodedMessages(ms[1..]) == DecodedMessages(ms);
    }
  }

  // ------------------------------------------------------------- fields that are too long

  predicate Leaves(dict: Dictionary, received: seq<byte>, n: nat) {
    |received| - ParseStream(dict, FRESH, received).consumed == n
  }

  /** The first `limit` bytes of a longer field stay unparsed. */
  lemma LongFieldWaits(dict: Dictionary, m: seq<Field>, i: nat, limit: nat) returns (t: seq<byte>)
    requires IsMessage(dict, m) && i < |m| && limit < |FieldBytes(m[i])|
    ensures t <= Wire(m) && Leaves(dict, t, limit)
  {
    hide ScanFields, Wire, ParseStream, FieldBytes, IndexOf, ParseField, Readable;
    var prev, f := m[..i], m[i];
    var part := FieldBytes(f)[..limit];
    t := Wire(prev) + part;
    assert m == prev + ([f] + m[i + 1..]);
    WireConcat(prev, [f] + m[i + 1..]);
    WireConcat([f], m[i + 1..]);
    WireOfOne(f);
    AllReadableSplit(dict, [], prev, [f] + m[i + 1..]);
    assert [] + prev == prev;
    ScanEncoded(dict, [], prev, part);
    PartOfField(dict, prev, f, part);
    ScanStep(dict, prev, part);
    ParseStep(dict, FRESH, t);
  }

  lemma {:induction false} LongFieldFills(dict: Dictionary, ms: seq<seq<Field>>, j: nat, i: nat, limit: nat)
    returns (t: seq<byte>)
    requires AreMessages(dict, ms) && j < |ms| && i < |ms[j]| && limit < |FieldBytes(ms[j][i])|
    ensures t <= Stream(ms) && Leaves(dict, t, limit)
    decreases j
  {
    hide Decode, Wire, ParseStream, IsMessage, FieldBytes;
    var m := ms[0];
    if j == 0 {
      t := LongFieldWaits(dict, m, i, limit);
    } else {
      var rest := LongFieldFills(dict, ms[1..], j - 1, i, limit);
      t := Wire(m) + rest;
      DecodeMessage(dict, m, rest);
      ParseStep(dict, FRESH, t);
      assert t[|Wire(m)|..] == rest;
    }
  }

  /** The window stays smaller than the limit, whatever part of the stream has arrived, if and
      only if every field takes at most that many bytes. */
  lemma WindowBoundedIff(dict: Dictionary, ms: seq<seq<Field>>, limit: nat)
    requires AreMessages(dict, ms) && limit > 0
    ensures (forall t, n: nat :: t <= Stream(ms) && Leaves(dict, t, n) ==> n < limit) <==> AreBounded(ms, limit)
  {
    hide ParseStream, Stream, IsMessage;
    if AreBounded(ms, limit) {
      forall t, n: nat | t <= Stream(ms) && Leaves(dict, t, n)
        ensures n < limit
      {
        var _ := PartOfStream(dict, ms, t, limit);
      }
    } else {
      var m :| m in ms && !Bounded(m, limit);
      var j :| 0 <= j < |ms| && ms[j] == m;
      var f :| f in m && |FieldBytes(f)| > limit;
      var i :| 0 <= i < |m| && m[i] == f;
      var _ := LongFieldFills(dict, ms, j, i, limit);
    }
  }
}
