/** Converting a FIX repository into an orchestration: both describe the contents of messages
    through components, by name in the one and by id in the other. */
module Orchestra {
  import opened Optional

  type Name = string
  type Id = string

  /** The text of a content line: a tag if int() reads it, else a component's name. */
  datatype TagText = Number(tag: int) | Text(name: Name)

  datatype Content = Content(tagText: TagText, reqd: string)

  /** The repository's dictionaries: field tags, component ids by name, content lines by
      component id, and the component ids of messages by message type. */
  datatype Repository = Repository(
    fields: set<int>,
    components: map<Name, Id>,
    contents: map<Id, seq<Content>>,
    messages: map<Name, Id>)

  datatype Reference = Reference(fieldId: Option<int>, groupId: Option<Id>, componentId: Option<Id>, presence: string)

  datatype Orchestration = Orchestration(
    fields: set<int>,
    components: map<Id, seq<Reference>>,
    groups: map<Id, seq<Reference>>,
    messages: map<Name, seq<Reference>>)

  /** One line of a flattened message. */
  datatype Line = Line(tag: int, depth: nat, required: bool)

  // --------------------------------------------------------------- repository

  /** Every component ranks below whatever contains it: the component graph has no cycle. */
  predicate Ranked(r: Repository, rank: map<Id, nat>) {
    && (forall id :: id in r.contents ==> id in rank)
    && (forall id, c :: id in r.contents && c in r.contents[id] ==> Descends(r, rank, id, c))
  }

  predicate Descends(r: Repository, rank: map<Id, nat>, id: Id, c: Content)
    requires (forall i :: i in r.contents ==> i in rank) && id in r.contents
  {
    c.tagText.Text? && c.tagText.name in r.components && r.components[c.tagText.name] in r.contents ==>
      rank[r.components[c.tagText.name]] < rank[id]
  }

  /** Lines collected by extract_fields; `stopped` once a lookup has failed, for that ends the
      component it fails in. */
  datatype Flat = Flat(lines: seq<Line>, stopped: bool)

  /** extract_fields: the first n content lines of a component, flattened. */
  function Extract(r: Repository, rank: map<Id, nat>, id: Id, n: nat, depth: nat): Flat
    requires Ranked(r, rank) && id in r.contents && n <= |r.contents[id]|
    decreases rank[id], n
  {
    if n == 0 then Flat([], false)
    else
      var c, flat := r.contents[id][n - 1], Extract(r, rank, id, n - 1, depth);
      if flat.stopped || Fails(r, c) then flat.(stopped := true)
      else Flat(flat.lines + LinesOf(r, rank, id, c, depth), false)
  }

  predicate Fails(r: Repository, c: Content) {
    match c.tagText
    case Number(tag) => tag !in r.fields
    case Text(name) => name !in r.components
  }

  function LinesOf(r: Repository, rank: map<Id, nat>, id: Id, c: Content, depth: nat): seq<Line>
    requires Ranked(r, rank) && id in r.contents && c in r.contents[id] && !Fails(r, c)
    decreases rank[id], 0
  {
    match c.tagText
    case Number(tag) => [Line(tag, depth, c.reqd == "1")]
    case Text(name) =>
      var child := r.components[name];
      assert Descends(r, rank, id, c);
      if child in r.contents then Extract(r, rank, child, |r.contents[child]|, depth + 1).lines else []
  }

  /** A component without contents has no fields. */
  function ExtractAll(r: Repository, rank: map<Id, nat>, id: Id, depth: nat): seq<Line>
    requires Ranked(r, rank)
  {
    if id in r.contents then Extract(r, rank, id, |r.contents[id]|, depth).lines else []
  }

  /** The loop of extract_fields. */
  method ExtractFields(r: Repository, ghost rank: map<Id, nat>, id: Id, depth: nat) returns (fields: seq<Line>)
    requires Ranked(r, rank)
    ensures fields == ExtractAll(r, rank, id, depth)
    decreases if id in r.contents then rank[id] else 0, if id in r.contents then 1 else 0
  {
    fields := [];
    if id !in r.contents {
      return;
    }
    var contents := r.contents[id];
    for n := 0 to |contents|
      invariant Extract(r, rank, id, n, depth) == Flat(fields, false)
    {
      var c := contents[n];
      if Fails(r, c) {
        StaysStopped(r, rank, id, n + 1, |contents|, depth);
        return;
      }
      match c.tagText
      case Number(tag) => fields := fields + [Line(tag, depth, c.reqd == "1")];
      case Text(name) =>
        assert Descends(r, rank, id, c);
        var more := ExtractFields(r, rank, r.components[name], depth + 1);
        fields := fields + more;
    }
  }

  lemma {:induction false} StaysStopped(r: Repository, rank: map<Id, nat>, id: Id, n: nat, m: nat, depth: nat)
    requires Ranked(r, rank) && id in r.contents && n <= m <= |r.contents[id]| && Extract(r, rank, id, n, depth).stopped
    ensures Extract(r, rank, id, m, depth) == Extract(r, rank, id, n, depth)
  {
    if n < m {
      StaysStopped(r, rank, id, n, m - 1, depth);
    }
  }

  // ------------------------------------------------------------ orchestration

  /** A reference is to a field if it has a field id other than 0, which Python takes for none. */
  predicate IsField(ref: Reference) { ref.fieldId.Some? && ref.fieldId.value != 0 }

  /** Otherwise it is to a group, if it has a group id, or to a component; an empty id is none. */
  predicate IsGroup(ref: Reference) { !IsField(ref) && ref.groupId.Some? && ref.groupId.value != "" }

  predicate IsComponent(ref: Reference) {
    !IsField(ref) && !IsGroup(ref) && ref.componentId.Some? && ref.componentId.value != ""
  }

  datatype Ranks = Ranks(components: map<Id, nat>, groups: map<Id, nat>)

  predicate RankedBelow(ids: map<Id, seq<Reference>>, rank: map<Id, nat>, id: Id, bound: nat) {
    id in ids ==> id in rank && rank[id] < bound
  }

  /** The references are to groups and components that rank below the bound. */
  predicate Below(o: Orchestration, ranks: Ranks, refs: seq<Reference>, bound: nat) {
    forall ref :: ref in refs ==>
      && (IsGroup(ref) ==> RankedBelow(o.groups, ranks.groups, ref.groupId.value, bound))
      && (IsComponent(ref) ==> RankedBelow(o.components, ranks.components, ref.componentId.value, bound))
  }

  /** Groups and components contain only what ranks below them: there is no cycle. */
  predicate Acyclic(o: Orchestration, ranks: Ranks) {
    && (forall id :: id in o.components && id in ranks.components ==>
          Below(o, ranks, o.components[id], ranks.components[id]))
    && (forall id :: id in o.groups && id in ranks.groups ==> Below(o, ranks, o.groups[id], ranks.groups[id]))
  }

  /** references_to_fields: the first n references, flattened; None is an exception. */
  function Resolve(o: Orchestration, ranks: Ranks, refs: seq<Reference>, n: nat, bound: nat, depth: nat)
    : Option<seq<Line>>
    requires Acyclic(o, ranks) && Below(o, ranks, refs, bound) && n <= |refs|
    decreases bound, n
  {
    if n == 0 then Some([])
    else
      var flat, more := Resolve(o, ranks, refs, n - 1, bound, depth), ResolveOne(o, ranks, refs[n - 1], bound, depth);
      if flat.None? || more.None? then None else Some(flat.value + more.value)
  }

  function ResolveOne(o: Orchestration, ranks: Ranks, ref: Reference, bound: nat, depth: nat): Option<seq<Line>>
    requires Acyclic(o, ranks) && Below(o, ranks, [ref], bound)
    decreases bound, 0
  {
    assert ref in [ref];
    if IsField(ref) then
      if ref.fieldId.value in o.fields then Some([Line(ref.fieldId.value, depth, ref.presence == "required")]) else None
    else if IsGroup(ref) then
      var id := ref.groupId.value;
      if id in o.groups then Resolve(o, ranks, o.groups[id], |o.groups[id]|, ranks.groups[id], depth + 1) else None
    else if IsComponent(ref) then
      var id := ref.componentId.value;
      if id in o.components then
        Resolve(o, ranks, o.components[id], |o.components[id]|, ranks.components[id], depth + 1)
      else None
    else Some([])
  }

  /** The loop of references_to_fields. */
  method ReferencesToFields(o: Orchestration, ghost ranks: Ranks, refs: seq<Reference>, ghost bound: nat, depth: nat)
    returns (result: Option<seq<Line>>)
    requires Acyclic(o, ranks) && Below(o, ranks, refs, bound)
    ensures result == Resolve(o, ranks, refs, |refs|, bound, depth)
    decreases bound
  {
    var lines := [];
    for n := 0 to |refs|
      invariant Resolve(o, ranks, refs, n, bound, depth) == Some(lines)
    {
      var ref := refs[n];
      ghost var more := ResolveOne(o, ranks, ref, bound, depth);
      if more.None? {
        StaysFailed(o, ranks, refs, n + 1, |refs|, bound, depth);
      }
      if IsField(ref) {
        if ref.fieldId.value !in o.fields {
          return None;
        }
        lines := lines + [Line(ref.fieldId.value, depth, ref.presence == "required")];
      } else if IsGroup(ref) {
        var id := ref.groupId.value;
        if id !in o.groups {
          return None;
        }
        var inner := ReferencesToFields(o, ranks, o.groups[id], ranks.groups[id], depth + 1);
        if inner.None? {
          return None;
        }
        lines := lines + inner.value;
      } else if IsComponent(ref) {
        var id := ref.componentId.value;
        if id !in o.components {
          return None;
        }
        var inner := ReferencesToFields(o, ranks, o.components[id], ranks.components[id], depth + 1);
        if inner.None? {
          return None;
        }
        lines := lines + inner.value;
      } else {
        assert lines + [] == lines;
      }
    }
    result := Some(lines);
  }

  lemma {:induction false} StaysFailed(o: Orchestration, ranks: Ranks, refs: seq<Reference>, n: nat, m: nat, bound: nat,
                                       depth: nat)
    requires Acyclic(o, ranks) && Below(o, ranks, refs, bound) && n <= m <= |refs|
    requires Resolve(o, ranks, refs, n, bound, depth).None?
    ensures Resolve(o, ranks, refs, m, bound, depth).None?
  {
    if n < m {
      StaysFailed(o, ranks, refs, n, m - 1, bound, depth);
    }
  }

  // --------------------------------------------------------------- conversion

  function Presence(c: Content): string { if c.reqd == "1" then "required" else "optional" }

  /** A line that build_references chokes on: a tag that is no field. */
  predicate Unknown(r: Repository, c: Content) { c.tagText.Number? && c.tagText.tag !in r.fields }

  /** What build_references makes of a content line of component id; nothing of a name it does
      not know. A field's reference also carries the id of the component it stands in. */
  function Converted(r: Repository, id: Id, c: Content): seq<Reference> {
    match c.tagText
    case Number(tag) => [Reference(Some(tag), None, Some(id), Presence(c))]
    case Text(name) => if name in r.components then [Reference(None, None, Some(r.components[name]), Presence(c))]
                       else []
  }

  function ConvertedAll(r: Repository, id: Id, contents: seq<Content>): seq<Reference> {
    if contents == [] then []
    else ConvertedAll(r, id, contents[..|contents| - 1]) + Converted(r, id, contents[|contents| - 1])
  }

  predicate Convertible(r: Repository, id: Id) {
    id in r.contents && forall c :: c in r.contents[id] ==> !Unknown(r, c)
  }

  /** build_references: None is an exception, and it comes exactly when the component has no
      contents or one of them is an unknown tag. */
  method BuildReferences(r: Repository, id: Id) returns (refs: Option<seq<Reference>>)
    ensures refs == if Convertible(r, id) then Some(ConvertedAll(r, id, r.contents[id])) else None
  {
    if id !in r.contents {
      return None;
    }
    var contents := r.contents[id];
    var list := [];
    for n := 0 to |contents|
      invariant list == ConvertedAll(r, id, contents[..n])
      invariant forall k :: 0 <= k < n ==> !Unknown(r, contents[k])
    {
      var c := contents[n];
      assert contents[..n + 1][..n] == contents[..n];
      match c.tagText
      case Number(tag) =>
        if tag !in r.fields {
          assert c in r.contents[id] && Unknown(r, c);
          return None;
        }
        list := list + [Reference(Some(tag), None, Some(id), Presence(c))];
      case Text(name) =>
        if name in r.components {
          list := list + [Reference(None, None, Some(r.components[name]), Presence(c))];
        }
    }
    assert contents[..|contents|] == contents;
    return Some(list);
  }

  predicate AllConvertible(r: Repository) {
    && (forall name :: name in r.components ==> Convertible(r, r.components[name]))
    && (forall name :: name in r.messages ==> Convertible(r, r.messages[name]))
  }

  function Target(r: Repository): Orchestration
    requires AllConvertible(r)
  {
    Orchestration(r.fields,
                  map id | id in r.components.Values :: ConvertedAll(r, id, ContentsOf(r, id)),
                  map[],
                  map name | name in r.messages :: ConvertedMessage(r, r.messages[name]))
  }

  function ConvertedMessage(r: Repository, id: Id): seq<Reference> { ConvertedAll(r, id, ContentsOf(r, id)) }

  function ContentsOf(r: Repository, id: Id): seq<Content> { if id in r.contents then r.contents[id] else [] }

  /** The conversion: an exception exactly when some component or message does not convert. */
  method Convert(r: Repository) returns (o: Option<Orchestration>)
    ensures o.None? <==> !AllConvertible(r)
    ensures o.Some? ==> o.value == Target(r)
  {
    hide Convertible, ConvertedAll;
    var components := ConvertComponents(r);
    if components.None? {
      return None;
    }
    var messages := ConvertMessages(r);
    if messages.None? {
      return None;
    }
    o := Some(Orchestration(r.fields, components.value, map[], messages.value));
  }

  /** The component loop: it reads a dictionary by name, in any order, and fills one by id. */
  method ConvertComponents(r: Repository) returns (o: Option<map<Id, seq<Reference>>>)
    ensures o.None? <==> exists name :: name in r.components && !Convertible(r, r.components[name])
    ensures o.Some? ==> o.value == map id | id in r.components.Values :: ConvertedAll(r, id, ContentsOf(r, id))
  {
    hide Convertible, ConvertedAll;
    var done: map<Id, seq<Reference>> := map[];
    var left := r.components.Keys;
    while left != {}
      invariant left <= r.components.Keys && done.Keys <= r.components.Values
      invariant forall name :: name in r.components && name !in left ==>
                  r.components[name] in done && Convertible(r, r.components[name])
      invariant forall id :: id in done ==> done[id] == ConvertedAll(r, id, ContentsOf(r, id))
      decreases |left|
    {
      var name :| name in left;
      var id := r.components[name];
      var refs := BuildReferences(r, id);
      if refs.None? {
        return None;
      }
      assert ContentsOf(r, id) == r.contents[id] by { ConvertibleHas(r, id); }
      done := done[id := refs.value];
      left := left - {name};
    }
    o := Some(done);
  }

  method ConvertMessages(r: Repository) returns (o: Option<map<Name, seq<Reference>>>)
    ensures o.None? <==> exists name :: name in r.messages && !Convertible(r, r.messages[name])
    ensures o.Some? ==>
              o.value == map name | name in r.messages :: ConvertedMessage(r, r.messages[name])
  {
    hide Convertible, ConvertedAll;
    var done: map<Name, seq<Reference>> := map[];
    var left := r.messages.Keys;
    while left != {}
      invariant left <= r.messages.Keys && done.Keys == r.messages.Keys - left
      invariant forall name :: name in done ==>
                  Convertible(r, r.messages[name]) && done[name] == ConvertedMessage(r, r.messages[name])
      decreases |left|
    {
      var name :| name in left;
      var refs := BuildReferences(r, r.messages[name]);
      if refs.None? {
        return None;
      }
      assert ContentsOf(r, r.messages[name]) == r.contents[r.messages[name]] by { ConvertibleHas(r, r.messages[name]); }
      done := done[name := refs.value];
      left := left - {name};
    }
    o := Some(done);
  }

  lemma ConvertibleHas(r: Repository, id: Id)
    requires Convertible(r, id)
    ensures id in r.contents
  {
  }

  // ------------------------------------------------------ meaning is preserved

  /** A line names a known field other than 0, or a known component with an id. */
  predicate Resolves(r: Repository, c: Content) {
    match c.tagText
    case Number(tag) => tag in r.fields && tag != 0
    case Text(name) => name in r.components && r.components[name] != ""
  }

  /** Every component and message has contents, and all contents can be resolved. */
  predicate Complete(r: Repository) {
    && (forall name :: name in r.components ==> r.components[name] in r.contents)
    && (forall name :: name in r.messages ==> r.messages[name] in r.contents)
    && (forall id, c :: id in r.contents && c in r.contents[id] ==> Resolves(r, c))
  }

  predicate WellFormed(r: Repository, rank: map<Id, nat>) { Complete(r) && Ranked(r, rank) }

  lemma CompleteConverts(r: Repository)
    requires Complete(r)
    ensures AllConvertible(r)
  {
    forall id | id in r.contents
      ensures Convertible(r, id)
    {
      forall c | c in r.contents[id]
        ensures !Unknown(r, c)
      {
        assert Resolves(r, c);
      }
    }
  }

  /** In a complete repository every content line becomes exactly one reference. */
  lemma {:induction false} OneEach(r: Repository, id: Id, contents: seq<Content>)
    requires forall c :: c in contents ==> Resolves(r, c)
    ensures var refs := ConvertedAll(r, id, contents);
            |refs| == |contents| && forall k :: 0 <= k < |contents| ==> Converted(r, id, contents[k]) == [refs[k]]
  {
    if contents != [] {
      assert contents[|contents| - 1] in contents;
      OneEach(r, id, contents[..|contents| - 1]);
    }
  }

  lemma ReferencesRank(r: Repository, rank: map<Id, nat>, id: Id)
    requires WellFormed(r, rank) && id in r.contents && AllConvertible(r)
    ensures Below(Target(r), Ranks(rank, map[]), ConvertedAll(r, id, r.contents[id]), rank[id])
  {
    hide ConvertedAll, Convertible;
    var o, contents, refs := Target(r), r.contents[id], ConvertedAll(r, id, r.contents[id]);
    OneEach(r, id, contents);
    forall ref | ref in refs
      ensures Below(o, Ranks(rank, map[]), [ref], rank[id])
    {
      var k :| 0 <= k < |refs| && refs[k] == ref;
      assert Resolves(r, contents[k]) && Descends(r, rank, id, contents[k]) && Converted(r, id, contents[k]) == [ref];
    }
    assert forall ref :: ref in refs ==> ref in [ref];
  }

  lemma TargetIsAcyclic(r: Repository, rank: map<Id, nat>)
    requires WellFormed(r, rank) && AllConvertible(r)
    ensures Acyclic(Target(r), Ranks(rank, map[]))
  {
    hide Below, ConvertedAll;
    forall id | id in Target(r).components && id in rank
      ensures Below(Target(r), Ranks(rank, map[]), Target(r).components[id], rank[id])
    {
      ReferencesRank(r, rank, id);
    }
  }

  predicate Ready(r: Repository, rank: map<Id, nat>, id: Id)
    requires AllConvertible(r)
  {
    && WellFormed(r, rank) && id in r.contents && Acyclic(Target(r), Ranks(rank, map[]))
    && var refs := ConvertedAll(r, id, r.contents[id]);
    |refs| == |r.contents[id]| && Below(Target(r), Ranks(rank, map[]), refs, rank[id])
  }

  lemma IsReady(r: Repository, rank: map<Id, nat>, id: Id)
    requires WellFormed(r, rank) && id in r.contents && AllConvertible(r)
    ensures Ready(r, rank, id)
  {
    hide Below, Acyclic, ConvertedAll, AllConvertible;
    TargetIsAcyclic(r, rank);
    ReferencesRank(r, rank, id);
    OneEach(r, id, r.contents[id]);
  }

  /** A component flattens to the same lines before and after, and nothing fails. */
  lemma {:induction false} SameLines(r: Repository, rank: map<Id, nat>, id: Id, n: nat, depth: nat)
    requires AllConvertible(r) && Ready(r, rank, id) && n <= |r.contents[id]|
    ensures var flat := Extract(r, rank, id, n, depth);
            var refs := ConvertedAll(r, id, r.contents[id]);
            !flat.stopped && Resolve(Target(r), Ranks(rank, map[]), refs, n, rank[id], depth) == Some(flat.lines)
    decreases rank[id], n
  {
    hide ConvertedAll, Acyclic, Below, Complete, Ranked, AllConvertible, LinesOf, ResolveOne;
    if n > 0 {
      SameLines(r, rank, id, n - 1, depth);
      var c := r.contents[id][n - 1];
      LineOf(r, rank, id, n - 1);
      if c.tagText.Text? {
        var child := r.components[c.tagText.name];
        Child(r, rank, id, n - 1);
        SameLines(r, rank, child, |r.contents[child]|, depth + 1);
      }
      SameLine(r, rank, id, n - 1, depth);
    }
  }

  /** The same for one line, given its component if it names one. */
  lemma SameLine(r: Repository, rank: map<Id, nat>, id: Id, k: nat, depth: nat)
    requires AllConvertible(r) && Ready(r, rank, id) && k < |r.contents[id]|
    requires var c := r.contents[id][k];
             c.tagText.Text? && c.tagText.name in r.components ==>
             var child := r.components[c.tagText.name];
             && Ready(r, rank, child)
             && var refs, n := ConvertedAll(r, child, r.contents[child]), |r.contents[child]|;
             Resolve(Target(r), Ranks(rank, map[]), refs, n, rank[child], depth + 1)
                == Some(Extract(r, rank, child, |r.contents[child]|, depth + 1).lines)
    ensures var c, ref := r.contents[id][k], ConvertedAll(r, id, r.contents[id])[k];
            && Below(Target(r), Ranks(rank, map[]), [ref], rank[id]) && !Fails(r, c)
            && ResolveOne(Target(r), Ranks(rank, map[]), ref, rank[id], depth) == Some(LinesOf(r, rank, id, c, depth))
  {
    hide ConvertedAll, Resolve, Extract, Convertible;
    LineOf(r, rank, id, k);
    if r.contents[id][k].tagText.Text? {
      Child(r, rank, id, k);
    }
  }

  lemma LineOf(r: Repository, rank: map<Id, nat>, id: Id, k: nat)
    requires WellFormed(r, rank) && id in r.contents && k < |r.contents[id]|
    ensures |ConvertedAll(r, id, r.contents[id])| == |r.contents[id]|
    ensures Resolves(r, r.contents[id][k])
    ensures Converted(r, id, r.contents[id][k]) == [ConvertedAll(r, id, r.contents[id])[k]]
  {
    OneEach(r, id, r.contents[id]);
  }

  lemma Child(r: Repository, rank: map<Id, nat>, id: Id, k: nat)
    requires WellFormed(r, rank) && id in r.contents && k < |r.contents[id]| && AllConvertible(r)
    requires r.contents[id][k].tagText.Text? && r.contents[id][k].tagText.name in r.components
    ensures var child := r.components[r.contents[id][k].tagText.name];
            && child in r.contents && child in rank && id in rank && rank[child] < rank[id] && Ready(r, rank, child)
            && child in Target(r).components && Target(r).components[child] == ConvertedAll(r, child, r.contents[child])
  {
    hide Below, ConvertedAll, Acyclic;
    assert Descends(r, rank, id, r.contents[id][k]);
    IsReady(r, rank, r.components[r.contents[id][k].tagText.name]);
  }

  /** For every well-formed repository the conversion succeeds, and every message flattens to
      the same tags, at the same depths, with the same presence. */
  lemma ConversionPreservesMeaning(r: Repository, rank: map<Id, nat>, message: Name)
    requires WellFormed(r, rank) && message in r.messages
    ensures AllConvertible(r) && Acyclic(Target(r), Ranks(rank, map[]))
    ensures var o, id := Target(r), r.messages[message];
            && message in o.messages && Below(o, Ranks(rank, map[]), o.messages[message], rank[id])
            && var refs := o.messages[message];
            Resolve(o, Ranks(rank, map[]), refs, |refs|, rank[id], 0) == Some(ExtractAll(r, rank, id, 0))
  {
    hide Below, ConvertedAll, Acyclic, Convertible;
    CompleteConverts(r);
    var id := r.messages[message];
    IsReady(r, rank, id);
    SameLines(r, rank, id, |r.contents[id]|, 0);
  }
}
