/** The generated field dictionary: a sparse table from tags to positions in the list of
    fields, as the generator writes it and orchestration_field_collection reads it. */
module FieldIndex {
  import opened Optional
  import Codec

  datatype Definition = Definition(tag: nat, name: string, isData: bool)

  const DUMMY := Definition(0, "", false)
  const LAST_EMITTED := 3000
  const MAX_OFFSET := 65535

  /** sorted() over a dictionary keyed by tag. */
  predicate Sorted(fs: seq<Definition>) { forall i, j :: 0 <= i < j < |fs| ==> fs[i].tag < fs[j].tag }

  predicate Positive(fs: seq<Definition>) { forall i :: 0 <= i < |fs| ==> fs[i].tag > 0 }

  predicate Defines(fs: seq<Definition>, tag: nat) { exists i :: 0 <= i < |fs| && fs[i].tag == tag }

  function TableSize(fs: seq<Definition>): nat { if fs == [] then 0 else fs[|fs| - 1].tag + 1 }

  /** Each tag's entry is one more than its position; every other entry is 0. */
  predicate IsTable(offsets: seq<nat>, fs: seq<Definition>) {
    && |offsets| == TableSize(fs)
    && (forall i :: 0 <= i < |fs| ==> fs[i].tag < |offsets| && offsets[fs[i].tag] == i + 1)
    && (forall t :: 0 <= t < |offsets| && !Defines(fs, t) ==> offsets[t] == 0)
  }

  /** The inner loop: zeros up to the next tag, both counters in step. */
  method FillGap(before: seq<nat>, tag: nat, start: int) returns (offsets: seq<nat>, offset: int)
    requires |before| <= tag
    ensures |offsets| == tag && before <= offsets && forall t :: |before| <= t < tag ==> offsets[t] == 0
    ensures offset == start + tag - |before|
  {
    offsets, offset := before, start;
    var index := |before|;
    while index < tag
      invariant |before| <= index == |offsets| <= tag && offset == start + index - |before|
      invariant before <= offsets && forall t :: |before| <= t < |offsets| ==> offsets[t] == 0
    {
      offsets := offsets + [0];
      index := index + 1;
      offset := offset + 1;
    }
  }

  /** The two counters of the generator write exactly that table. */
  method GenerateOffsets(fs: seq<Definition>) returns (offsets: seq<nat>)
    requires Sorted(fs)
    ensures IsTable(offsets, fs)
  {
    hide IsTable, Sorted;
    offsets := [];
    var index, offset: int := 0, -1;
    NoTable();
    assert fs[..0] == [];
    for n := 0 to |fs|
      invariant |offsets| == index == TableSize(fs[..n]) && offset == index - n - 1
      invariant IsTable(offsets, fs[..n])
    {
      SizeBefore(fs, n);
      ghost var before := offsets;
      offsets, offset := FillGap(offsets, fs[n].tag, offset);
      index := fs[n].tag;
      offsets := offsets + [index - offset];
      TableGrows(before, offsets, fs, n);
      index := index + 1;
    }
    assert fs[..|fs|] == fs;
  }

  lemma NoTable()
    ensures IsTable([], [])
  {
  }

  lemma SizeBefore(fs: seq<Definition>, n: nat)
    requires Sorted(fs) && n < |fs|
    ensures TableSize(fs[..n]) <= fs[n].tag && TableSize(fs[..n + 1]) == fs[n].tag + 1
  {
    assert n > 0 ==> fs[n - 1].tag < fs[n].tag;
  }

  lemma DefinesMore(fs: seq<Definition>, n: nat, m: nat, tag: nat)
    requires n <= m <= |fs| && Defines(fs[..n], tag)
    ensures Defines(fs[..m], tag)
  {
    var i :| 0 <= i < n && fs[..n][i].tag == tag;
    assert fs[..m][i].tag == tag;
  }

  lemma TableGrows(before: seq<nat>, after: seq<nat>, fs: seq<Definition>, n: nat)
    requires Sorted(fs) && n < |fs| && IsTable(before, fs[..n])
    requires |after| == fs[n].tag + 1 && before <= after && after[fs[n].tag] == n + 1
    requires forall t :: |before| <= t < fs[n].tag ==> after[t] == 0
    ensures IsTable(after, fs[..n + 1])
  {
    var big := fs[..n + 1];
    forall t | 0 <= t < |after| && !Defines(big, t)
      ensures after[t] == 0
    {
      assert t != fs[n].tag by { assert big[n].tag == fs[n].tag; }
      if Defines(fs[..n], t) {
        DefinesMore(fs, n, n + 1, t);
      }
    }
  }

  /** The emitted list: the dummy and at most 3001 fields, because the loop writes before it
      looks at its counter. */
  method EmitFields(fs: seq<Definition>) returns (emitted: seq<Definition>)
    ensures emitted == Emitted(fs)
  {
    emitted := [DUMMY];
    var index := 1;
    for n := 0 to |fs|
      invariant index == n + 1 && n <= LAST_EMITTED && emitted == [DUMMY] + fs[..n]
    {
      emitted := emitted + [fs[n]];
      assert fs[..n] + [fs[n]] == fs[..n + 1];
      if index > LAST_EMITTED {
        return;
      }
      index := index + 1;
    }
    assert fs[..|fs|] == fs;
  }

  function Emitted(fs: seq<Definition>): (r: seq<Definition>)
    ensures |r| == 1 + if |fs| < 3001 then |fs| else 3001
  {
    [DUMMY] + if |fs| <= LAST_EMITTED + 1 then fs else fs[..LAST_EMITTED + 1]
  }

  // ------------------------------------------------------------ the collection

  /** operator[](size_t): None is out_of_range. */
  function Lookup(offsets: seq<nat>, emitted: seq<Definition>, tag: nat): Option<Definition> {
    if tag < |offsets| && offsets[tag] < |emitted| then Some(emitted[offsets[tag]]) else None
  }

  function Search(fs: seq<Definition>, tag: nat): (r: Option<Definition>)
    ensures r.None? <==> !Defines(fs, tag)
    ensures r.Some? ==> r.value in fs && r.value.tag == tag
  {
    if fs == [] then None
    else if fs[0].tag == tag then Some(fs[0])
    else
      assert Defines(fs, tag) <==> Defines(fs[1..], tag) by { DefinesTail(fs, tag); }
      Search(fs[1..], tag)
  }

  lemma DefinesTail(fs: seq<Definition>, tag: nat)
    requires fs != []
    ensures Defines(fs, tag) <==> fs[0].tag == tag || Defines(fs[1..], tag)
  {
    if Defines(fs, tag) && fs[0].tag != tag {
      var i :| 0 <= i < |fs| && fs[i].tag == tag;
      assert fs[1..][i - 1].tag == tag;
    }
    if Defines(fs[1..], tag) {
      var i :| 0 <= i < |fs[1..]| && fs[1..][i].tag == tag;
      assert fs[i + 1].tag == tag;
    }
  }

  lemma {:induction false} SearchFinds(fs: seq<Definition>, i: nat)
    requires Sorted(fs) && i < |fs|
    ensures Search(fs, fs[i].tag) == Some(fs[i])
    decreases |fs|
  {
    if i > 0 {
      assert Sorted(fs[1..]);
      SearchFinds(fs[1..], i - 1);
    }
  }

  /** Looking up a tag through the table is searching the emitted fields for it. Any other tag
      gives the dummy if it lies in a gap, and is out of range if it lies beyond the last tag
      or belongs to a field that was not emitted. */
  lemma LookupIsSearch(offsets: seq<nat>, fs: seq<Definition>, tag: nat)
    requires Sorted(fs) && Positive(fs) && IsTable(offsets, fs)
    ensures var emitted := Emitted(fs);
            Lookup(offsets, emitted, tag) ==
              if Defines(emitted[1..], tag) then Search(emitted[1..], tag)
              else if Defines(fs, tag) || tag >= TableSize(fs) then None
              else Some(DUMMY)
  {
    hide Search, Defines, IsTable, Sorted, Positive, TableSize;
    GapEntry(offsets, fs, tag);
    var n := if |fs| <= LAST_EMITTED + 1 then |fs| else LAST_EMITTED + 1;
    var shown := Emitted(fs)[1..];
    assert shown == fs[..n] && fs[..|fs|] == fs;
    if Defines(shown, tag) {
      DefinesMore(fs, n, |fs|, tag);
    }
    if Defines(fs, tag) {
      var i := PositionOf(fs, tag);
      PrefixDefines(fs, n, i);
      FieldEntry(offsets, fs, i);
      if i < n {
        assert Sorted(shown) by { SortedPrefix(fs, n); }
        SearchFinds(shown, i);
      }
    }
  }

  lemma FieldEntry(offsets: seq<nat>, fs: seq<Definition>, i: nat)
    requires IsTable(offsets, fs) && i < |fs|
    ensures fs[i].tag < |offsets| && offsets[fs[i].tag] == i + 1
  {
  }

  lemma GapEntry(offsets: seq<nat>, fs: seq<Definition>, tag: nat)
    requires IsTable(offsets, fs)
    ensures |offsets| == TableSize(fs) && (tag < |offsets| && !Defines(fs, tag) ==> offsets[tag] == 0)
  {
  }

  lemma SortedPrefix(fs: seq<Definition>, n: nat)
    requires Sorted(fs) && n <= |fs|
    ensures Sorted(fs[..n])
  {
  }

  lemma PositionOf(fs: seq<Definition>, tag: nat) returns (i: nat)
    requires Defines(fs, tag)
    ensures i < |fs| && fs[i].tag == tag
  {
    i :| 0 <= i < |fs| && fs[i].tag == tag;
  }

  lemma PrefixDefines(fs: seq<Definition>, n: nat, i: nat)
    requires Sorted(fs) && n <= |fs| && i < |fs|
    ensures Defines(fs[..n], fs[i].tag) <==> i < n
  {
    if i < n {
      assert fs[..n][i].tag == fs[i].tag;
    }
  }

  /** Distinct positive tags are at least as large as their position. */
  lemma {:induction false} TagsSpread(fs: seq<Definition>, n: nat)
    requires Sorted(fs) && Positive(fs) && n < |fs|
    ensures fs[n].tag >= n + 1
  {
    if n > 0 {
      TagsSpread(fs, n - 1);
    }
  }

  datatype Collection = Collection(offsets: seq<nat>, fields: seq<Definition>, byName: map<string, Definition>)

  /** The first field with this name. */
  function Named(fs: seq<Definition>, name: string): Option<Definition> {
    if fs == [] then None else if fs[0].name == name then Some(fs[0]) else Named(fs[1..], name)
  }

  lemma {:induction false} NamedSnoc(fs: seq<Definition>, f: Definition, name: string)
    ensures Named(fs + [f], name) == if Named(fs, name).Some? then Named(fs, name)
                                     else if f.name == name then Some(f) else None
  {
    if fs == [] {
      assert fs + [f] == [f];
    } else {
      assert (fs + [f])[1..] == fs[1..] + [f];
      NamedSnoc(fs[1..], f, name);
    }
  }

  /** The constructor: None is invalid_argument. It indexes the fields by name, the first of
      equal names winning. */
  method Construct(offsets: seq<nat>, fields: seq<Definition>) returns (r: Option<Collection>)
    requires fields != []
    ensures r.None? <==> |offsets| < |fields| || fields[|fields| - 1].tag > MAX_OFFSET
    ensures r.Some? ==> r.value.offsets == offsets && r.value.fields == fields
    ensures r.Some? ==>
              forall name :: Named(fields, name) == if name in r.value.byName then Some(r.value.byName[name]) else None
  {
    if |offsets| < |fields| {
      return None;
    }
    var maxTag := fields[|fields| - 1].tag;
    if maxTag > MAX_OFFSET {
      return None;
    }
    var byName: map<string, Definition> := map[];
    for i := 0 to |fields|
      invariant forall name :: Named(fields[..i], name) == if name in byName then Some(byName[name]) else None
    {
      var f := fields[i];
      assert fields[..i + 1] == fields[..i] + [f];
      forall name
        ensures Named(fields[..i + 1], name) == if Named(fields[..i], name).Some? then Named(fields[..i], name)
                                                else if f.name == name then Some(f) else None
      {
        NamedSnoc(fields[..i], f, name);
      }
      if f.name !in byName {
        byName := byName[f.name := f];
      }
    }
    assert fields[..|fields|] == fields;
    r := Some(Collection(offsets, fields, byName));
  }

  /** What is generated for at least one field passes the constructor's size check, so it is
      accepted if and only if the last emitted tag fits the offset type. */
  lemma GeneratedIsAccepted(offsets: seq<nat>, fs: seq<Definition>)
    requires Sorted(fs) && Positive(fs) && IsTable(offsets, fs)
    ensures |offsets| < |Emitted(fs)| <==> fs == []
  {
    if fs != [] {
      TagsSpread(fs, |fs| - 1);
    }
  }

  /** From the dictionary to a lookup: generate, construct, look up. */
  method GenerateAndLookup(fs: seq<Definition>, tag: nat) returns (built: bool, r: Option<Definition>)
    requires Sorted(fs) && Positive(fs)
    ensures built <==> fs != [] && Emitted(fs)[|Emitted(fs)| - 1].tag <= MAX_OFFSET
    ensures built ==> var shown := Emitted(fs)[1..];
            r == if Defines(shown, tag) then Search(shown, tag)
                 else if Defines(fs, tag) || tag >= TableSize(fs) then None
                 else Some(DUMMY)
  {
    var offsets := GenerateOffsets(fs);
    var emitted := EmitFields(fs);
    var c := Construct(offsets, emitted);
    GeneratedIsAccepted(offsets, fs);
    if c.None? {
      return false, None;
    }
    LookupIsSearch(offsets, fs, tag);
    return true, Lookup(c.value.offsets, c.value.fields, tag);
  }

  predicate IsDataField(offsets: seq<nat>, emitted: seq<Definition>, tag: nat) {
    Lookup(offsets, emitted, tag).Some? && Lookup(offsets, emitted, tag).value.isData
  }

  /** What the decoder sees of the collection. */
  function DictionaryOf(offsets: seq<nat>, emitted: seq<Definition>): Codec.Dictionary {
    Codec.Dictionary(set t: nat | t < |offsets| && Lookup(offsets, emitted, t).Some?,
                     set t: nat | t < |offsets| && IsDataField(offsets, emitted, t))
  }

  /** The decoder takes a tag for a data field exactly when an emitted field says so, and
      rejects exactly the tags beyond the table and those of fields that were not emitted. */
  lemma GeneratedDictionary(offsets: seq<nat>, fs: seq<Definition>, tag: nat)
    requires Sorted(fs) && Positive(fs) && IsTable(offsets, fs)
    ensures var dict, shown := DictionaryOf(offsets, Emitted(fs)), Emitted(fs)[1..];
            && (tag in dict.data <==> Defines(shown, tag) && Search(shown, tag).value.isData)
            && (tag in dict.known <==> tag < TableSize(fs) && (Defines(fs, tag) ==> Defines(shown, tag)))
  {
    hide Search, Defines, IsTable, Sorted, Positive, TableSize, Emitted;
    GapEntry(offsets, fs, tag);
    LookupIsSearch(offsets, fs, tag);
    EmittedAreDefined(fs, tag);
    if Defines(Emitted(fs)[1..], tag) {
      var i := PositionOf(fs, tag);
      FieldEntry(offsets, fs, i);
    }
  }

  lemma EmittedAreDefined(fs: seq<Definition>, tag: nat)
    ensures Emitted(fs) != [] && (Defines(Emitted(fs)[1..], tag) ==> Defines(fs, tag))
  {
    var shown := Emitted(fs)[1..];
    if Defines(shown, tag) {
      var i :| 0 <= i < |shown| && shown[i].tag == tag;
      assert fs[i].tag == tag;
    }
  }
}
