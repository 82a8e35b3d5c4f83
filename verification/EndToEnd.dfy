/** From the writer's log to the reader's dispatches: messages encoded one after the other
    come out of the stream again, however it is cut, and pass the receiver's validation. */
module EndToEnd {
  import opened Bytes
  import opened Fields
  import opened Codec
  import opened CodecTheorems
  import opened Reassembly

  /** Fields that session::send may emit: BodyLength stands ahead of CheckSum. */
  predicate Emittable(dict: Dictionary, fs: seq<Field>) {
    Encodable(dict, fs) && IndexOf(fs, BODY_LENGTH) < IndexOf(fs, CHECK_SUM) < |fs|
  }

  function Encodings(ms: seq<seq<Field>>): (r: seq<seq<byte>>)
    ensures |r| == |ms|
  {
    if ms == [] then [] else [Encoding(ms[0], STANDARD)] + Encodings(ms[1..])
  }

  function StampedAll(ms: seq<seq<Field>>): (r: seq<seq<Field>>)
    ensures |r| == |ms|
    ensures forall k :: 0 <= k < |ms| ==> r[k] == Stamped(ms[k], STANDARD)
  {
    if ms == [] then [] else [Stamped(ms[0], STANDARD)] + StampedAll(ms[1..])
  }

  lemma {:induction false} EncodingsAreAStream(ms: seq<seq<Field>>)
    ensures Flatten(Encodings(ms)) == Stream(StampedAll(ms))
  {
    hide Encoding, Stamped, Wire;
    if ms != [] {
      EncodingsAreAStream(ms[1..]);
      assert Encodings(ms)[1..] == Encodings(ms[1..]) && StampedAll(ms)[1..] == StampedAll(ms[1..]);
      EncodingIs(ms[0]);
    }
  }

  lemma EncodingIs(fs: seq<Field>)
    ensures Encoding(fs, STANDARD) == Wire(Stamped(fs, STANDARD))
  {
  }

  /** What an emitted message decodes to passes validation. */
  lemma DispatchedIsValid(dict: Dictionary, fs: seq<Field>)
    requires Usable(dict) && Emittable(dict, fs)
    ensures IsMessage(dict, Stamped(fs, STANDARD)) && PassesValidation(DecodedMessage(Stamped(fs, STANDARD)))
  {
    hide Decode, Stamped, Encoding, PassesValidation, IsMessage, IndexOf;
    StampedIsReadable(dict, fs);
    RoundTrip(dict, fs);
    EmittedPassesValidation(dict, fs);
  }

  /** However much of what was written has been received, exactly the messages that are there
      in full have been dispatched, in the order of writing, with their fields as stamped by
      the encoder, and each of them passes validation. */
  lemma WrittenIsRead(dict: Dictionary, ms: seq<seq<Field>>, received: seq<byte>, limit: nat) returns (k: nat)
    requires Usable(dict) && (forall m :: m in ms ==> Emittable(dict, m)) && AreBounded(StampedAll(ms), limit)
    requires limit > 0
    requires received <= Flatten(Encodings(ms))
    ensures ParsesInto(dict, StampedAll(ms), received, limit, k)
    ensures forall d :: d in ParseStream(dict, FRESH, received).messages ==> d.checksum < 256 && PassesValidation(d)
    ensures received == Flatten(Encodings(ms)) ==>
              ParseStream(dict, FRESH, received).messages == DecodedMessages(StampedAll(ms))
  {
    hide ParseStream, Stamped, PassesValidation, IsMessage, DecodedMessage;
    hide Emittable, Stream, Encodings, Flatten, AreBounded;
    var out := StampedAll(ms);
    forall j | 0 <= j < |ms|
      ensures IsMessage(dict, out[j]) && DecodedMessage(out[j]).checksum < 256
      ensures PassesValidation(DecodedMessage(out[j]))
    {
      ChecksumIsSmall(out[j]);
      DispatchedIsValid(dict, ms[j]);
    }
    EncodingsAreAStream(ms);
    k := PartOfStream(dict, out, received, limit);
    WholeStream(dict, out, limit);
    assert forall j :: 0 <= j < k ==> DecodedMessages(out[..k])[j] == DecodedMessage(out[j]);
  }

  lemma ChecksumIsSmall(fs: seq<Field>)
    ensures DecodedMessage(fs).checksum < 256
  {
  }
}
