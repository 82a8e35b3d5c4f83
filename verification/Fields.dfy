/** Fields and the ordered collection of them that a message holds. */
module Fields {
  import opened Optional
  import opened Bytes

  type Tag = x: int | 0 <= x < INT_LIMIT

  datatype Field = Field(tag: Tag, value: seq<byte>)

  const BODY_LENGTH: Tag := 9
  const CHECK_SUM: Tag := 10

  datatype SetOperation = ReplaceFirst | ReplaceFirstOrAppend | Append

  /** The position of the first field with this tag, or |fs|. */
  function IndexOf(fs: seq<Field>, tag: Tag): (k: nat)
    ensures k <= |fs| && (k < |fs| ==> fs[k].tag == tag) && forall j :: 0 <= j < k ==> fs[j].tag != tag
  {
    if fs == [] || fs[0].tag == tag then 0
    else
      var k := IndexOf(fs[1..], tag);
      assert forall j :: 0 < j < k + 1 ==> fs[j] == fs[1..][j - 1];
      k + 1
  }

  predicate Has(fs: seq<Field>, tag: Tag) { IndexOf(fs, tag) < |fs| }

  /** field_collection::try_get. */
  function TryGet(fs: seq<Field>, tag: Tag): (r: Option<Field>)
    ensures r.Some? ==> r.value in fs && r.value.tag == tag
    ensures r.None? <==> forall f :: f in fs ==> f.tag != tag
  {
    var k := IndexOf(fs, tag);
    if k < |fs| then Some(fs[k]) else None
  }

  /** field_collection::set: the new content. */
  function SetField(fs: seq<Field>, f: Field, operation: SetOperation): seq<Field> {
    if operation == Append then fs + [f]
    else
      var k := IndexOf(fs, f.tag);
      if k < |fs| then fs[k := f]
      else if operation == ReplaceFirstOrAppend then fs + [f]
      else fs
  }

  /** The first field with a tag is where the facts about the collection say it is. */
  lemma IndexIs(fs: seq<Field>, tag: Tag, k: nat)
    requires k <= |fs| && (k < |fs| ==> fs[k].tag == tag) && forall j :: 0 <= j < k ==> fs[j].tag != tag
    ensures IndexOf(fs, tag) == k
  {
  }

  /** A field that is set shows: always if it replaced one or was appended for lack of one,
      but behind a field with its tag an appended one is hidden. */
  predicate Shows(fs: seq<Field>, f: Field, operation: SetOperation) {
    match operation
    case ReplaceFirst => Has(fs, f.tag)
    case ReplaceFirstOrAppend => true
    case Append => !Has(fs, f.tag)
  }

  /** Looking up its tag finds the field that was set exactly when it shows; nothing else that
      can be looked up changes. */
  lemma GetAfterSet(fs: seq<Field>, f: Field, operation: SetOperation, tag: Tag)
    ensures var gs := SetField(fs, f, operation);
            TryGet(gs, tag) == if tag == f.tag && Shows(fs, f, operation) then Some(f) else TryGet(fs, tag)
  {
    var gs, k, n := SetField(fs, f, operation), IndexOf(fs, f.tag), IndexOf(fs, tag);
    if tag == f.tag {
      if k < |fs| || operation != ReplaceFirst {
        IndexIs(gs, tag, k);
      }
    } else if n < |fs| {
      IndexIs(gs, tag, n);
    } else {
      IndexIs(gs, tag, |gs|);
    }
  }
}
