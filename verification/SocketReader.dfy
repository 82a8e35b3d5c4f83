/** The socket reader: an 8192-byte window that is compacted when its end is reached. */
module SocketReaders {
  import opened Bytes
  import opened Fields
  import opened Codec
  import opened CodecTheorems
  import opened Messages
  import opened Reassembly

  const READ_BUFFER_SIZE := 8192

  function Min(a: nat, b: nat): nat { if a <= b then a else b }

  class SocketReader {
    const dict: Dictionary
    const buffer: array<byte>
    const message: Message
    var readOffset: nat
    var writeOffset: nat
    var dispatched: seq<Decoder>   // the messages handed to dispatch_message_read, in order
    ghost var received: seq<byte>  // every byte the socket has delivered

    constructor (dict: Dictionary)
      ensures Valid() && this.dict == dict && received == [] && fresh(buffer) && fresh(message)
    {
      this.dict := dict;
      buffer := new byte[READ_BUFFER_SIZE](_ => 0);
      message := new Message([]);
      readOffset, writeOffset, dispatched, received := 0, 0, [], [];
      new;
      Nothing(dict);
      assert Window() == [];
    }

    predicate InBounds()
      reads this, message
    {
      buffer.Length == READ_BUFFER_SIZE && readOffset <= writeOffset <= buffer.Length && message.Valid()
    }

    function Window(): seq<byte>
      requires InBounds()
      reads this, message, buffer
    {
      buffer[readOffset..writeOffset]
    }

    ghost predicate Valid()
      reads this, message, buffer
    {
      InBounds() && Settled(dict, received, dispatched, message.View(), Window())
    }

    /** Makes room at the end of a full buffer by moving what is left over to its start. */
    method Compact()
      requires Valid()
      modifies this`readOffset, this`writeOffset, buffer
      ensures Valid() && Window() == old(Window())
      ensures writeOffset == buffer.Length <==> |Window()| == buffer.Length
    {
      hide Settled;
      if writeOffset == buffer.Length {
        var remainder := writeOffset - readOffset;
        if remainder > 0 {
          for k := 0 to remainder
            invariant readOffset + remainder == buffer.Length && buffer[..k] == old(buffer[readOffset..readOffset + k])
            invariant buffer[readOffset + k..] == old(buffer[readOffset + k..])
          {
            buffer[k] := buffer[readOffset + k];
          }
        }
        assert buffer[..remainder] == old(Window());
        readOffset := 0;
        writeOffset := remainder;
      }
    }

    /** The completion handler: chunk has been written behind the window. */
    method OnData(chunk: seq<byte>) returns (threw: bool)
      requires Valid() && writeOffset + |chunk| <= buffer.Length
      modifies this, message, buffer
      ensures received == old(received) + chunk && dispatched == ParseStream(dict, FRESH, received).messages
      ensures threw <==> ParseStream(dict, FRESH, received).failed
      ensures !threw ==> Valid() && writeOffset == old(writeOffset) + |chunk|
    {
      hide Settled, Decoding, ParseStream, Codec.Decode;
      Arrive(dict, received, dispatched, message.View(), Window(), chunk);
      CopyInto(buffer, writeOffset, chunk);
      received := received + chunk;
      writeOffset := writeOffset + |chunk|;
      assert Window() == old(Window()) + chunk by { assert Window() == buffer[..writeOffset][readOffset..]; }
      while true
        invariant InBounds() && received == old(received) + chunk && writeOffset == old(writeOffset) + |chunk|
        invariant Decoding(dict, received, dispatched, message.View(), Window())
        decreases writeOffset - readOffset
      {
        ghost var view, window := message.View(), Window();
        var consumed, complete, failed := message.Decode(dict, Window());
        if failed {
          Fail(dict, received, dispatched, view, window);
          return true;
        }
        assert window[consumed..] == buffer[readOffset + consumed..writeOffset];
        readOffset := readOffset + consumed;
        if !complete {
          Pause(dict, received, dispatched, view, window);
          break;
        }
        Dispatch(dict, received, dispatched, view, window);
        dispatched := dispatched + [message.View()];
        message.Reset();
      }
      threw := false;
      SettledIs(dict, received, dispatched, message.View(), Window());
    }

    /** Reading a well-formed stream: `sizes` is how much more than one byte the socket is
        ready to deliver each time. However it is cut, every read is offered room, nothing
        throws, and exactly the messages that have arrived in full are dispatched, even those
        longer than the buffer. */
    method Run(ghost ms: seq<seq<Field>>, stream: seq<byte>, sizes: seq<nat>) returns (threw: bool)
      requires Valid() && received == [] && WellFormed(dict, ms, 8192) && stream == Stream(ms)
      modifies this, message, buffer
      ensures !threw && Valid() && received <= stream && |received| >= Min(|sizes|, |stream|)
      ensures exists k: nat ::
                ParsesInto(dict, ms, received, 8192, k) && dispatched == DecodedMessages(ms[..k])
      ensures |sizes| >= |stream| ==> received == stream && dispatched == DecodedMessages(ms)
    {
      hide Settled, ParseStream, Stream, WellFormed;
      var at := 0;
      threw := false;
      for i := 0 to |sizes|
        invariant Min(i, |stream|) <= at <= |stream| && !threw && Valid() && received == stream[..at]
      {
        Compact();
        ghost var k := PartOfStream(dict, ms, received, READ_BUFFER_SIZE);
        SettledIs(dict, received, dispatched, message.View(), Window());
        assert writeOffset < buffer.Length;
        var n := Min(Min(1 + sizes[i], buffer.Length - writeOffset), |stream| - at);
        var chunk := stream[at..at + n];
        assert received + chunk == stream[..at + n];
        threw := OnData(chunk);
        k := PartOfStream(dict, ms, received, READ_BUFFER_SIZE);
        assert !threw;
        at := at + n;
      }
      ghost var k := PartOfStream(dict, ms, received, READ_BUFFER_SIZE);
      SettledIs(dict, received, dispatched, message.View(), Window());
      if |sizes| >= |stream| {
        assert stream[..at] == stream;
        WholeStream(dict, ms, READ_BUFFER_SIZE);
      }
    }
  }
}

/** The asyncio reader: the bytes left over are kept by the caller and put in front of the
    next piece. */
module StreamReaders {
  import opened Bytes
  import opened Codec
  import opened CodecTheorems
  import opened Messages
  import opened Reassembly

  class StreamReader {
    const dict: Dictionary
    const message: Message
    var dispatched: seq<Decoder>
    ghost var received: seq<byte>

    constructor (dict: Dictionary)
      ensures this.dict == dict && received == [] && fresh(message) && Ready([])
    {
      this.dict := dict;
      message := new Message([]);
      dispatched, received := [], [];
      new;
      Nothing(dict);
    }

    ghost predicate Ready(leftovers: seq<byte>)
      reads this, message
    {
      message.Valid() && Settled(dict, received, dispatched, message.View(), leftovers)
    }

    /** Dispatches every whole message in `all`: what was left over before and the new bytes
        behind it. */
    method ProcessData(all: seq<byte>, ghost before: seq<byte>) returns (leftovers: seq<byte>, threw: bool)
      requires Ready(before) && before <= all
      modifies this, message
      ensures received == old(received) + all[|before|..] && dispatched == ParseStream(dict, FRESH, received).messages
      ensures threw <==> ParseStream(dict, FRESH, received).failed
      ensures !threw ==> Ready(leftovers)
    {
      hide Settled, Decoding, ParseStream, Codec.Decode;
      ghost var chunk := all[|before|..];
      assert all == before + chunk;
      Arrive(dict, received, dispatched, message.View(), before, chunk);
      received := received + chunk;
      var data := all;
      leftovers, threw := [], false;
      while |data| > 0
        invariant message.Valid() && received == old(received) + chunk && leftovers == []
        invariant Decoding(dict, received, dispatched, message.View(), data)
        decreases |data|
      {
        ghost var view := message.View();
        var consumed, complete, failed := message.Decode(dict, data);
        if failed {
          Fail(dict, received, dispatched, view, data);
          return [], true;
        }
        if complete {
          Dispatch(dict, received, dispatched, view, data);
          dispatched := dispatched + [message.View()];
          message.Reset();
          data := data[consumed..];
        } else {
          Pause(dict, received, dispatched, view, data);
          SettledIs(dict, received, dispatched, message.View(), data[consumed..]);
          if consumed >= |data| {
            assert data[consumed..] == [];
            return [], false;
          }
          return data[consumed..], false;
        }
      }
      ghost var view := message.View();
      NothingLeft(dict, view);
      Pause(dict, received, dispatched, view, data);
      SettledIs(dict, received, dispatched, view, []);
    }

    /** Reading until the peer closes: the chunks may cut the stream anywhere. */
    method ReadMessages(chunks: seq<seq<byte>>) returns (threw: bool)
      requires Ready([]) && received == []
      modifies this, message
      ensures received <= Flatten(chunks) && dispatched == ParseStream(dict, FRESH, received).messages
      ensures threw <==> ParseStream(dict, FRESH, received).failed
      ensures !threw ==> received == Flatten(chunks[..FirstEmpty(chunks)])
    {
      hide ParseStream, Settled;
      var leftovers := [];
      var i := 0;
      SettledIs(dict, received, dispatched, message.View(), leftovers);
      while i < |chunks|
        invariant i <= FirstEmpty(chunks) && Ready(leftovers) && received == Flatten(chunks[..i])
        invariant dispatched == ParseStream(dict, FRESH, received).messages
        invariant !ParseStream(dict, FRESH, received).failed
      {
        if |chunks[i]| == 0 {
          break;
        }
        FlattenSnoc(chunks, i);
        leftovers, threw := ProcessData(leftovers + chunks[i], leftovers);
        if threw {
          FlattenPrefix(chunks, i + 1);
          return true;
        }
        i := i + 1;
      }
      FlattenPrefix(chunks, i);
      threw := false;
    }
  }

  /** The read that returns no bytes is the end of the stream. */
  function FirstEmpty(chunks: seq<seq<byte>>): (k: nat)
    ensures k <= |chunks| && (k < |chunks| ==> chunks[k] == []) && forall j :: 0 <= j < k ==> chunks[j] != []
  {
    if chunks == [] || chunks[0] == [] then 0
    else
      var k := FirstEmpty(chunks[1..]);
      assert forall j :: 0 < j < k + 1 ==> chunks[j] == chunks[1..][j - 1];
      k + 1
  }

  lemma NothingLeft(dict: Dictionary, view: Decoder)
    requires view.checksum < 256
    ensures Decode(dict, view, []) == Decoded(view, 0, false)
  {
    NothingToScan(dict, view.fields);
  }
}
