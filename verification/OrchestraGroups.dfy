/** Orchestrations with groups, and repositories that are not complete. */
module OrchestraGroups {
  import opened Optional
  import opened Orchestra

  // -------------------------------------------------- a group is flattened like a component

  function AsComponent(id: Id): Id { "c" + id }

  function AsGroup(id: Id): Id { "g" + id }

  /** The reference in an orchestration that has only components. */
  function Moved(ref: Reference): Reference {
    if ref.fieldId.Some? && ref.fieldId.value != 0 then Reference(ref.fieldId, None, None, ref.presence)
    else if ref.groupId.Some? && ref.groupId.value != "" then
      Reference(None, None, Some(AsGroup(ref.groupId.value)), ref.presence)
    else if ref.componentId.Some? && ref.componentId.value != "" then
      Reference(None, None, Some(AsComponent(ref.componentId.value)), ref.presence)
    else Reference(None, None, None, ref.presence)
  }

  function MovedAll(refs: seq<Reference>): (r: seq<Reference>)
    ensures |r| == |refs| && forall k :: 0 <= k < |refs| ==> r[k] == Moved(refs[k])
  {
    if refs == [] then [] else [Moved(refs[0])] + MovedAll(refs[1..])
  }

  function Ids(o: Orchestration): set<Id> {
    (set id | id in o.components :: AsComponent(id)) + (set id | id in o.groups :: AsGroup(id))
  }

  lemma IdIs(o: Orchestration, id: Id)
    ensures AsComponent(id) in Ids(o) <==> id in o.components
    ensures AsGroup(id) in Ids(o) <==> id in o.groups
  {
    assert forall a: Id, b: Id :: AsComponent(a)[1..] == a && AsGroup(b)[1..] == b && AsComponent(a) != AsGroup(b) by {
      forall a: Id, b: Id
        ensures AsComponent(a)[1..] == a && AsGroup(b)[1..] == b && AsComponent(a) != AsGroup(b)
      {
        assert AsComponent(a)[0] == 'c' && AsGroup(b)[0] == 'g';
      }
    }
  }

  function Contents(o: Orchestration, id: Id): seq<Reference> {
    if id == "" then []
    else if id[0] == 'c' && id[1..] in o.components then o.components[id[1..]]
    else if id[0] == 'g' && id[1..] in o.groups then o.groups[id[1..]]
    else []
  }

  /** Every group has become a component under an id that no component has. */
  function WithoutGroups(o: Orchestration): Orchestration {
    Orchestration(o.fields, map id | id in Ids(o) :: MovedAll(Contents(o, id)), map[],
                  map name | name in o.messages :: MovedAll(o.messages[name]))
  }

  function RankOf(ranks: Ranks, id: Id): nat {
    if id == "" then 0
    else if id[0] == 'c' && id[1..] in ranks.components then ranks.components[id[1..]]
    else if id[0] == 'g' && id[1..] in ranks.groups then ranks.groups[id[1..]]
    else 0
  }

  /** The ranks that go with it. */
  function MovedRanks(o: Orchestration, ranks: Ranks): Ranks {
    Ranks(map id | id in Ids(o) && Ranked(ranks, id) :: RankOf(ranks, id), map[])
  }

  predicate Ranked(ranks: Ranks, id: Id) {
    id != "" && ((id[0] == 'c' && id[1..] in ranks.components) || (id[0] == 'g' && id[1..] in ranks.groups))
  }

  lemma MovedIs(ref: Reference)
    ensures IsField(Moved(ref)) == IsField(ref) && !IsGroup(Moved(ref))
    ensures IsComponent(Moved(ref)) <==> IsGroup(ref) || IsComponent(ref)
  {
  }

  lemma MovedBelow(o: Orchestration, ranks: Ranks, refs: seq<Reference>, bound: nat)
    requires Below(o, ranks, refs, bound)
    ensures Below(WithoutGroups(o), MovedRanks(o, ranks), MovedAll(refs), bound)
  {
    hide Ids, MovedAll, WithoutGroups, MovedRanks, RankedBelow, Moved;
    forall moved | moved in MovedAll(refs)
      ensures !IsGroup(moved)
      ensures IsComponent(moved) ==>
                var p, r := WithoutGroups(o), MovedRanks(o, ranks);
                RankedBelow(p.components, r.components, moved.componentId.value, bound)
    {
      var k :| 0 <= k < |refs| && MovedAll(refs)[k] == moved;
      assert refs[k] in refs && moved == Moved(refs[k]);
      OneBelow(o, ranks, refs[k], bound);
    }
  }

  lemma OneBelow(o: Orchestration, ranks: Ranks, ref: Reference, bound: nat)
    requires IsGroup(ref) ==> RankedBelow(o.groups, ranks.groups, ref.groupId.value, bound)
    requires IsComponent(ref) ==> RankedBelow(o.components, ranks.components, ref.componentId.value, bound)
    ensures var moved := Moved(ref);
            && !IsGroup(moved)
            && (IsComponent(moved) ==>
                  var p, r := WithoutGroups(o), MovedRanks(o, ranks);
                  RankedBelow(p.components, r.components, moved.componentId.value, bound))
  {
    hide Ids, MovedAll;
    MovedIs(ref);
    if IsGroup(ref) {
      IdIs(o, ref.groupId.value);
      assert AsGroup(ref.groupId.value)[1..] == ref.groupId.value;
    } else if IsComponent(ref) {
      IdIs(o, ref.componentId.value);
      assert AsComponent(ref.componentId.value)[1..] == ref.componentId.value;
    }
  }

  lemma MovedAcyclic(o: Orchestration, ranks: Ranks)
    requires Acyclic(o, ranks)
    ensures Acyclic(WithoutGroups(o), MovedRanks(o, ranks))
  {
    hide Below, MovedAll;
    var p, moved := WithoutGroups(o), MovedRanks(o, ranks);
    forall id | id in p.components && id in moved.components
      ensures Below(p, moved, p.components[id], moved.components[id])
    {
      hide Ids;
      assert IdShape(o, id) by { IdHasShape(o, id); }
      MovedBelow(o, ranks, Contents(o, id), moved.components[id]);
    }
  }

  predicate IdShape(o: Orchestration, id: Id) {
    id != "" && ((id[0] == 'c' && id[1..] in o.components) || (id[0] == 'g' && id[1..] in o.groups))
  }

  lemma IdHasShape(o: Orchestration, id: Id)
    requires id in Ids(o)
    ensures IdShape(o, id)
  {
    if c :| c in o.components && id == AsComponent(c) {
      assert id[1..] == c;
    } else {
      var g :| g in o.groups && id == AsGroup(g);
      assert id[1..] == g;
    }
  }

  /** Flattening does not tell a group from a component: moving every group to a component with a
      fresh id leaves every flattening unchanged, exceptions included. */
  lemma {:induction false} GroupsFlattenLikeComponents(o: Orchestration, ranks: Ranks, refs: seq<Reference>, n: nat,
                                                       bound: nat, depth: nat)
    requires Acyclic(o, ranks) && Below(o, ranks, refs, bound) && n <= |refs|
    requires Acyclic(WithoutGroups(o), MovedRanks(o, ranks))
    requires Below(WithoutGroups(o), MovedRanks(o, ranks), MovedAll(refs), bound)
    ensures Resolve(WithoutGroups(o), MovedRanks(o, ranks), MovedAll(refs), n, bound, depth) ==
            Resolve(o, ranks, refs, n, bound, depth)
    decreases bound, n, 1
  {
    hide Acyclic, Below, WithoutGroups, MovedRanks, MovedAll, ResolveOne;
    if n > 0 {
      GroupsFlattenLikeComponents(o, ranks, refs, n - 1, bound, depth);
      var ref, moved := refs[n - 1], MovedAll(refs)[n - 1];
      assert Below(o, ranks, [ref], bound) by { BelowOne(o, ranks, refs, bound, n - 1); }
      assert Below(WithoutGroups(o), MovedRanks(o, ranks), [moved], bound) by {
        BelowOne(WithoutGroups(o), MovedRanks(o, ranks), MovedAll(refs), bound, n - 1);
      }
      OneFlattensAlike(o, ranks, ref, bound, depth);
    }
  }

  lemma BelowOne(o: Orchestration, ranks: Ranks, refs: seq<Reference>, bound: nat, k: nat)
    requires Below(o, ranks, refs, bound) && k < |refs|
    ensures Below(o, ranks, [refs[k]], bound)
  {
  }

  lemma {:induction false} OneFlattensAlike(o: Orchestration, ranks: Ranks, ref: Reference, bound: nat, depth: nat)
    requires Acyclic(o, ranks) && Below(o, ranks, [ref], bound)
    requires Acyclic(WithoutGroups(o), MovedRanks(o, ranks))
    requires Below(WithoutGroups(o), MovedRanks(o, ranks), [Moved(ref)], bound)
    ensures ResolveOne(WithoutGroups(o), MovedRanks(o, ranks), Moved(ref), bound, depth) ==
            ResolveOne(o, ranks, ref, bound, depth)
    decreases bound, 0, 0
  {
    hide Acyclic, Ids, MovedAll, Resolve;
    assert ref in [ref] && Moved(ref) in [Moved(ref)];
    MovedIs(ref);
    if IsGroup(ref) {
      var id := ref.groupId.value;
      IdIs(o, id);
      assert AsGroup(id)[1..] == id;
      if id in o.groups {
        GroupIsBelow(o, ranks, id);
        MovedBelow(o, ranks, o.groups[id], ranks.groups[id]);
        GroupsFlattenLikeComponents(o, ranks, o.groups[id], |o.groups[id]|, ranks.groups[id], depth + 1);
      }
    } else if IsComponent(ref) {
      var id := ref.componentId.value;
      IdIs(o, id);
      assert AsComponent(id)[1..] == id;
      if id in o.components {
        ComponentIsBelow(o, ranks, id);
        MovedBelow(o, ranks, o.components[id], ranks.components[id]);
        GroupsFlattenLikeComponents(o, ranks, o.components[id], |o.components[id]|, ranks.components[id], depth + 1);
      }
    }
  }

  lemma GroupIsBelow(o: Orchestration, ranks: Ranks, id: Id)
    requires Acyclic(o, ranks) && id in o.groups && id in ranks.groups
    ensures Below(o, ranks, o.groups[id], ranks.groups[id])
  {
    hide Below;
  }

  lemma ComponentIsBelow(o: Orchestration, ranks: Ranks, id: Id)
    requires Acyclic(o, ranks) && id in o.components && id in ranks.components
    ensures Below(o, ranks, o.components[id], ranks.components[id])
  {
    hide Below;
  }

  /** The same for whole messages. */
  lemma MessagesFlattenAlike(o: Orchestration, ranks: Ranks, message: Name, bound: nat)
    requires Acyclic(o, ranks) && message in o.messages && Below(o, ranks, o.messages[message], bound)
    ensures var p, moved := WithoutGroups(o), MovedRanks(o, ranks);
            && Acyclic(p, moved) && message in p.messages && Below(p, moved, p.messages[message], bound)
            && Resolve(p, moved, p.messages[message], |p.messages[message]|, bound, 0) ==
               Resolve(o, ranks, o.messages[message], |o.messages[message]|, bound, 0)
  {
    hide Acyclic, Below, MovedRanks, Ids, Resolve, MovedAll;
    MovedAcyclic(o, ranks);
    MovedBelow(o, ranks, o.messages[message], bound);
    GroupsFlattenLikeComponents(o, ranks, o.messages[message], |o.messages[message]|, bound, 0);
  }

  // ----------------------------------------------------------------- unknown references

  /** What a reference names is there. */
  predicate IsKnown(o: Orchestration, ref: Reference) {
    if ref.fieldId.Some? && ref.fieldId.value != 0 then ref.fieldId.value in o.fields
    else if ref.groupId.Some? && ref.groupId.value != "" then ref.groupId.value in o.groups
    else ref.componentId.Some? && ref.componentId.value != "" ==> ref.componentId.value in o.components
  }

  predicate AllKnown(o: Orchestration, refs: seq<Reference>) { forall ref :: ref in refs ==> IsKnown(o, ref) }

  /** A reference to nothing known raises, wherever it stands. */
  lemma UnknownRaises(o: Orchestration, ranks: Ranks, refs: seq<Reference>, k: nat, bound: nat, depth: nat)
    requires Acyclic(o, ranks) && Below(o, ranks, refs, bound) && k < |refs| && !IsKnown(o, refs[k])
    ensures Resolve(o, ranks, refs, |refs|, bound, depth).None?
  {
    hide Acyclic;
    BelowOne(o, ranks, refs, bound, k);
    assert ResolveOne(o, ranks, refs[k], bound, depth).None?;
    StaysFailed(o, ranks, refs, k + 1, |refs|, bound, depth);
  }

  /** Nothing raises if all that is named, directly or in any component or group, is there. */
  lemma {:induction false} KnownResolves(o: Orchestration, ranks: Ranks, refs: seq<Reference>, n: nat, bound: nat,
                                         depth: nat)
    requires Acyclic(o, ranks) && Below(o, ranks, refs, bound) && n <= |refs| && AllKnown(o, refs)
    requires forall id :: id in o.components ==> AllKnown(o, o.components[id])
    requires forall id :: id in o.groups ==> AllKnown(o, o.groups[id])
    ensures Resolve(o, ranks, refs, n, bound, depth).Some?
    decreases bound, n
  {
    hide Acyclic;
    if n > 0 {
      KnownResolves(o, ranks, refs, n - 1, bound, depth);
      var ref := refs[n - 1];
      assert ref in refs && IsKnown(o, ref);
      if IsGroup(ref) {
        GroupIsBelow(o, ranks, ref.groupId.value);
        var inner := o.groups[ref.groupId.value];
        KnownResolves(o, ranks, inner, |inner|, ranks.groups[ref.groupId.value], depth + 1);
      } else if IsComponent(ref) {
        ComponentIsBelow(o, ranks, ref.componentId.value);
        var inner := o.components[ref.componentId.value];
        KnownResolves(o, ranks, inner, |inner|, ranks.components[ref.componentId.value], depth + 1);
      }
    }
  }

  // --------------------------------------------------- repositories that are not complete

  /** How many content lines come before the first that names nothing known. */
  function Usable(r: Repository, contents: seq<Content>): (k: nat)
    ensures k <= |contents| && (k < |contents| ==> Fails(r, contents[k]))
    ensures forall j :: 0 <= j < k ==> !Fails(r, contents[j])
  {
    if contents == [] || Fails(r, contents[0]) then 0
    else
      var k := Usable(r, contents[1..]);
      assert forall j :: 0 < j < k + 1 ==> contents[j] == contents[1..][j - 1];
      k + 1
  }

  /** The lines of the first k content lines: a field gives one, a component all of its own, one
      level deeper, and a component without contents none. */
  function Lines(r: Repository, rank: map<Id, nat>, contents: seq<Content>, k: nat, depth: nat): seq<Line>
    requires Orchestra.Ranked(r, rank) && k <= |contents| && forall j :: 0 <= j < k ==> !Fails(r, contents[j])
  {
    if k == 0 then []
    else
      var c := contents[k - 1];
      assert !Fails(r, c);
      Lines(r, rank, contents, k - 1, depth) +
      match c.tagText
      case Number(tag) => [Line(tag, depth, c.reqd == "1")]
      case Text(name) =>
        var child := r.components[name];
        if child in r.contents then ExtractAll(r, rank, child, depth + 1) else []
  }

  lemma {:induction false} ExtractIsLines(r: Repository, rank: map<Id, nat>, id: Id, n: nat, depth: nat)
    requires Orchestra.Ranked(r, rank) && id in r.contents && n <= Usable(r, r.contents[id])
    ensures Extract(r, rank, id, n, depth) == Flat(Lines(r, rank, r.contents[id], n, depth), false)
  {
    if n > 0 {
      ExtractIsLines(r, rank, id, n - 1, depth);
    }
  }

  /** For every repository without cycles, complete or not: a component flattens to the lines of
      its contents up to the first line that names nothing known, and what follows is lost. */
  lemma ExtractStopsAtUnknown(r: Repository, rank: map<Id, nat>, id: Id, depth: nat)
    requires Orchestra.Ranked(r, rank) && id in r.contents
    ensures ExtractAll(r, rank, id, depth) == Lines(r, rank, r.contents[id], Usable(r, r.contents[id]), depth)
  {
    hide Lines, LinesOf;
    var k, n := Usable(r, r.contents[id]), |r.contents[id]|;
    ExtractIsLines(r, rank, id, k, depth);
    if k < n {
      StaysStopped(r, rank, id, k + 1, n, depth);
    }
  }

  /** The conversion skips such a line and keeps what follows: a message that names an unknown
      component ahead of a field has the field after the conversion and not before. */
  lemma UnknownNameDiffers(r: Repository, rank: map<Id, nat>, message: Name, unknown: Content, c: Content)
    requires Orchestra.Ranked(r, rank) && AllConvertible(r) && message in r.messages
    requires unknown.tagText.Text? && unknown.tagText.name !in r.components
    requires c.tagText.Number? && c.tagText.tag in r.fields && c.tagText.tag != 0
    requires r.messages[message] in r.contents && r.contents[r.messages[message]] == [unknown, c]
    requires Acyclic(Target(r), Ranks(rank, map[]))
    ensures var id, line := r.messages[message], Line(c.tagText.tag, 0, c.reqd == "1");
            && ExtractAll(r, rank, id, 0) == []
            && var refs := Target(r).messages[message];
            && Below(Target(r), Ranks(rank, map[]), refs, 0)
            && Resolve(Target(r), Ranks(rank, map[]), refs, |refs|, 0, 0) == Some([line])
  {
    hide Acyclic, Convertible, ConvertedAll;
    var id := r.messages[message];
    ExtractStopsAtUnknown(r, rank, id, 0);
    assert r.contents[id][0] == unknown;
    TwoLines(r, id, unknown, c);
    var o, ranks, refs := Target(r), Ranks(rank, map[]), Target(r).messages[message];
    var ref := refs[0];
    assert refs == [ref] && IsField(ref);
    assert ResolveOne(o, ranks, ref, 0, 0) == Some([Line(c.tagText.tag, 0, c.reqd == "1")]);
    ResolveSingle(o, ranks, ref, 0, 0);
  }

  lemma ResolveSingle(o: Orchestration, ranks: Ranks, ref: Reference, bound: nat, depth: nat)
    requires Acyclic(o, ranks) && Below(o, ranks, [ref], bound)
    ensures Resolve(o, ranks, [ref], 1, bound, depth) == ResolveOne(o, ranks, ref, bound, depth)
  {
    hide ResolveOne;
    var more := ResolveOne(o, ranks, ref, bound, depth);
    assert Resolve(o, ranks, [ref], 0, bound, depth) == Some([]);
    assert more.Some? ==> [] + more.value == more.value;
  }

  lemma TwoLines(r: Repository, id: Id, unknown: Content, c: Content)
    requires unknown.tagText.Text? && unknown.tagText.name !in r.components && c.tagText.Number?
    ensures ConvertedAll(r, id, [unknown, c]) == [Reference(Some(c.tagText.tag), None, Some(id), Presence(c))]
  {
    ConvertedSnoc(r, id, [], unknown);
    ConvertedSnoc(r, id, [unknown], c);
    assert [] + [unknown] == [unknown] && [unknown] + [c] == [unknown, c];
  }

  lemma ConvertedSnoc(r: Repository, id: Id, contents: seq<Content>, c: Content)
    ensures ConvertedAll(r, id, contents + [c]) == ConvertedAll(r, id, contents) + Converted(r, id, c)
  {
    assert (contents + [c])[..|contents|] == contents;
  }
}
