/** What holds of every order book that messages can build. */
module OrderTheorems {
  import opened Optional
  import opened Bytes
  import opened Fields
  import opened OrderModel

  // ------------------------------------------------------------ field merging

  predicate Carries(m: Fix, tag: Tag) { !IsIdentity(tag) && Has(m, tag) }

  /** The last field of m with this tag. */
  function Last(m: Fix, tag: Tag): Field
    requires Has(m, tag)
  {
    if m[|m| - 1].tag == tag then m[|m| - 1]
    else
      assert Has(m[..|m| - 1], tag) by { HasDropLast(m, tag); }
      Last(m[..|m| - 1], tag)
  }

  lemma HasDropLast(m: Fix, tag: Tag)
    requires m != []
    ensures Has(m, tag) <==> Has(m[..|m| - 1], tag) || m[|m| - 1].tag == tag
  {
    var n := m[..|m| - 1];
    if Has(n, tag) {
      IndexIs(m, tag, IndexOf(n, tag));
    } else if m[|m| - 1].tag == tag {
      IndexIs(m, tag, |m| - 1);
    } else {
      IndexIs(m, tag, |m|);
    }
  }

  /** Merging overrides a field with the last one that carries its tag, and nothing else. */
  lemma {:induction false} GetAfterMerge(fs: Fix, m: Fix, tag: Tag)
    ensures TryGet(Merge(fs, m), tag) == if Carries(m, tag) then Some(Last(m, tag)) else TryGet(fs, tag)
  {
    hide SetField, TryGet, IndexOf;
    if m == [] {
      NotInEmpty(tag);
    } else {
      var n, f := m[..|m| - 1], m[|m| - 1];
      GetAfterMerge(fs, n, tag);
      HasDropLast(m, tag);
      if !IsIdentity(f.tag) {
        GetAfterSet(Merge(fs, n), f, ReplaceFirstOrAppend, tag);
      }
    }
  }

  lemma NotInEmpty(tag: Tag)
    ensures !Has([], tag)
  {
  }

  lemma GetAfterStatus(fs: Fix, status: Text, tag: Tag)
    ensures TryGet(SetStatus(fs, status), tag) ==
            if tag == ORD_STATUS && Has(fs, tag) then Some(Field(ORD_STATUS, status)) else TryGet(fs, tag)
  {
    hide TryGet, IndexOf, SetField;
    GetAfterSet(fs, Field(ORD_STATUS, status), ReplaceFirst, tag);
  }

  // -------------------------------------------------- the identity of an order

  /** The order's key is built from its own ids, and its fields carry those ids. */
  predicate Coherent(o: Order) {
    && o.key == CreateKey(o.sender, o.target, o.clOrdID.value)
    && SameValue(TryGet(o.fields, CL_ORD_ID), Some(o.clOrdID))
    && SameValue(TryGet(o.fields, ORIG_CL_ORD_ID), o.origClOrdID)
    && (o.newClOrdID.Some? ==> o.newClOrdID.value.tag == CL_ORD_ID)
    && (o.previousOrdStatus.Some? ==> o.previousOrdStatus.value.tag == ORD_STATUS)
  }

  predicate SameValue(a: Option<Field>, b: Option<Field>) {
    a.Some? == b.Some? && (a.Some? ==> a.value.value == b.value.value)
  }

  predicate SameIdentity(o: Order, p: Order) {
    && o.key == p.key && o.sender == p.sender && o.target == p.target
    && o.clOrdID == p.clOrdID && o.origClOrdID == p.origClOrdID
  }

  lemma UpdateKeepsField(o: Order, m: Fix, tag: Tag)
    requires IsIdentity(tag)
    ensures TryGet(Update(o, m).order.fields, tag) == TryGet(o.fields, tag)
  {
    hide TryGet, Merge, SetStatus;
    GetAfterMerge(o.fields, m, tag);
    GetAfterStatus(o.fields, PENDING_REPLACE, tag);
    GetAfterStatus(o.fields, PENDING_CANCEL, tag);
  }

  lemma Identities()
    ensures IsIdentity(CL_ORD_ID) && IsIdentity(ORIG_CL_ORD_ID) && !IsIdentity(ORD_STATUS)
  {
  }

  /** Updates never touch the identity. */
  lemma UpdateKeepsIdentity(o: Order, m: Fix)
    requires Coherent(o)
    ensures Coherent(Update(o, m).order) && SameIdentity(o, Update(o, m).order)
  {
    hide TryGet, Merge, SetStatus, CreateKey, IsIdentity;
    assert IsIdentity(CL_ORD_ID) && IsIdentity(ORIG_CL_ORD_ID) by { Identities(); }
    UpdateKeepsField(o, m, CL_ORD_ID);
    UpdateKeepsField(o, m, ORIG_CL_ORD_ID);
    TagOf(m, CL_ORD_ID);
    TagOf(o.fields, ORD_STATUS);
  }

  lemma TagOf(fs: Fix, tag: Tag)
    ensures TryGet(fs, tag).Some? ==> TryGet(fs, tag).value.tag == tag
  {
  }

  lemma CommitKeepsIdentity(o: Order)
    requires Coherent(o)
    ensures Coherent(Commit(o)) && SameIdentity(o, Commit(o))
  {
    hide TryGet, Merge, CreateKey;
    GetAfterMerge(o.fields, o.pending, CL_ORD_ID);
    GetAfterMerge(o.fields, o.pending, ORIG_CL_ORD_ID);
  }

  lemma RollbackKeepsIdentity(o: Order)
    requires Coherent(o)
    ensures Coherent(Rollback(o)) && SameIdentity(o, Rollback(o))
  {
    hide TryGet, SetField, CreateKey;
    if o.previousOrdStatus.Some? {
      GetAfterSet(o.fields, o.previousOrdStatus.value, ReplaceFirst, CL_ORD_ID);
      GetAfterSet(o.fields, o.previousOrdStatus.value, ReplaceFirst, ORIG_CL_ORD_ID);
    }
  }

  lemma SupersededKeepsIdentity(o: Order, report: Fix)
    requires Coherent(o)
    ensures Coherent(Superseded(o, report)) && SameIdentity(o, Superseded(o, report))
  {
    hide TryGet, Rollback, SetStatus, CreateKey;
    RollbackKeepsIdentity(o);
    GetAfterStatus(Rollback(o).fields, REPLACED, CL_ORD_ID);
    GetAfterStatus(Rollback(o).fields, REPLACED, ORIG_CL_ORD_ID);
  }

  lemma RenamedIsCoherent(o: Order, id: Option<Field>)
    requires Coherent(o) && (id.Some? ==> id.value.tag == CL_ORD_ID)
    ensures var r := Renamed(o, id);
            && Coherent(r.(key := CreateKey(r.sender, r.target, r.clOrdID.value))) && r.sender == o.sender
            && r.target == o.target
            && if id.Some? then r.clOrdID == id.value && r.origClOrdID == Some(o.clOrdID) else r == o
  {
    hide TryGet, SetField, CreateKey;
    if id.Some? {
      var f, g := id.value, Field(ORIG_CL_ORD_ID, o.clOrdID.value);
      var fs := SetField(o.fields, f, ReplaceFirstOrAppend);
      GetAfterSet(o.fields, f, ReplaceFirstOrAppend, CL_ORD_ID);
      GetAfterSet(fs, g, ReplaceFirstOrAppend, CL_ORD_ID);
      GetAfterSet(fs, g, ReplaceFirstOrAppend, ORIG_CL_ORD_ID);
    }
  }

  /** A replacement is coherent, keeps the comp ids, and names the order it replaces; unless it
      got no new id, when its key is that of the order itself. */
  lemma ReplacementIsCoherent(o: Order, report: Fix)
    requires Coherent(o)
    ensures var r := Replacement(o, report);
            && Coherent(r) && r.sender == o.sender && r.target == o.target
            && (r.key != o.key ==> r.origClOrdID == Some(o.clOrdID))
  {
    hide TryGet, SetStatus, Update, Commit, Renamed, CreateKey;
    UpdateKeepsIdentity(o, report);
    var u := Update(o, report).order;
    CommitKeepsIdentity(u);
    TagOf(report, CL_ORD_ID);
    RenamedIsCoherent(Commit(u), NextId(o, report));
    var r := Renamed(Commit(u), NextId(o, report));
    GetAfterStatus(r.fields, NEW, CL_ORD_ID);
    GetAfterStatus(r.fields, NEW, ORIG_CL_ORD_ID);
  }

  // ------------------------------------------------------------------- keys

  lemma SplitAtDash(a: Text, x: Text, b: Text, y: Text)
    requires MINUS !in a && MINUS !in b && a + [MINUS] + x == b + [MINUS] + y
    ensures a == b && x == y
  {
    hide Find;
    var all := a + [MINUS] + x;
    assert all[|a|] == MINUS && all[|b|] == MINUS;
    FindIs(all, MINUS, |a|);
    FindIs(all, MINUS, |b|);
    assert all[..|a|] == a && all[..|b|] == b;
    assert all[|a| + 1..] == x && all[|b| + 1..] == y;
  }

  /** As long as comp ids contain no dash, different ids make different keys. */
  lemma KeysAreUnambiguous(s: Text, t: Text, c: Text, s': Text, t': Text, c': Text)
    requires MINUS !in s && MINUS !in t && MINUS !in s' && MINUS !in t'
    ensures CreateKey(s, t, c) == CreateKey(s', t', c') <==> s == s' && t == t' && c == c'
  {
    if CreateKey(s, t, c) == CreateKey(s', t', c') {
      var x, y := t + [MINUS] + c, t' + [MINUS] + c';
      assert CreateKey(s, t, c) == s + [MINUS] + x && CreateKey(s', t', c') == s' + [MINUS] + y;
      SplitAtDash(s, x, s', y);
      SplitAtDash(t, c, t', c');
    }
  }

  function Dashes(s: Text): nat {
    if s == [] then 0 else Dashes(s[..|s| - 1]) + if s[|s| - 1] == MINUS then 1 else 0
  }

  lemma {:induction false} DashesConcat(s: Text, t: Text)
    ensures Dashes(s + t) == Dashes(s) + Dashes(t)
    decreases |t|
  {
    if t == [] {
      assert s + t == s;
    } else {
      assert (s + t)[..|s + t| - 1] == s + t[..|t| - 1];
      DashesConcat(s, t[..|t| - 1]);
    }
  }

  lemma {:induction false} NoDashes(s: Text)
    ensures Dashes(s) == 0 <==> MINUS !in s
  {
    if s != [] {
      var t := s[..|s| - 1];
      NoDashes(t);
      assert MINUS in s <==> MINUS in t || s[|s| - 1] == MINUS;
    }
  }

  lemma DashesInKey(s: Text, t: Text, c: Text)
    ensures Dashes(CreateKey(s, t, c)) == Dashes(s) + Dashes(t) + Dashes(c) + 2
  {
    hide Dashes;
    DashesConcat(s, [MINUS]);
    DashesConcat(s + [MINUS], t);
    DashesConcat(s + [MINUS] + t, [MINUS]);
    DashesConcat(s + [MINUS] + t + [MINUS], c);
    OneDash();
  }

  lemma OneDash()
    ensures Dashes([MINUS]) == 1
  {
    assert Dashes([MINUS][..0]) == 0;
  }

  /** Moving a dash from one part of a key to the next does not change the key. */
  lemma DashMoves(a: Text, b: Text, c: Text, d: Text)
    ensures CreateKey(a + [MINUS] + b, c, d) == CreateKey(a, b + [MINUS] + c, d)
    ensures CreateKey(a, b + [MINUS] + c, d) == CreateKey(a, b, c + [MINUS] + d)
  {
    var all := a + [MINUS] + (b + [MINUS] + (c + [MINUS] + d));
    assert CreateKey(a + [MINUS] + b, c, d) == all;
    assert CreateKey(a, b + [MINUS] + c, d) == all;
    assert CreateKey(a, b, c + [MINUS] + d) == all;
  }

  /** These ids make the same key as others. */
  ghost predicate IsAmbiguous(s: Text, t: Text, c: Text) {
    exists s', t', c' :: (s' != s || t' != t || c' != c) && CreateKey(s', t', c') == CreateKey(s, t, c)
  }

  lemma AtDash(s: Text) returns (a: Text, b: Text)
    requires MINUS in s
    ensures s == a + [MINUS] + b
  {
    var k :| 0 <= k < |s| && s[k] == MINUS;
    a, b := s[..k], s[k + 1..];
  }

  lemma DashIsAmbiguous(s: Text, t: Text, c: Text)
    requires MINUS in s || MINUS in t || MINUS in c
    ensures IsAmbiguous(s, t, c)
  {
    hide CreateKey;
    if MINUS in s {
      var a, b := AtDash(s);
      DashMoves(a, b, t, c);
      assert |a| < |s|;
    } else if MINUS in t {
      var a, b := AtDash(t);
      DashMoves(s, a, b, c);
      assert |b| < |t|;
    } else {
      var a, b := AtDash(c);
      DashMoves(s, t, a, b);
      assert |b| < |c|;
    }
  }

  /** A key belongs to one order only if and only if none of its three ids contains a dash. */
  lemma KeyIsAmbiguousIff(s: Text, t: Text, c: Text)
    ensures IsAmbiguous(s, t, c) <==> MINUS in s || MINUS in t || MINUS in c
  {
    hide CreateKey, Dashes;
    if MINUS in s || MINUS in t || MINUS in c {
      DashIsAmbiguous(s, t, c);
    } else if IsAmbiguous(s, t, c) {
      var s', t', c' :| (s' != s || t' != t || c' != c) && CreateKey(s', t', c') == CreateKey(s, t, c);
      DashesInKey(s, t, c);
      DashesInKey(s', t', c');
      NoDashes(s);
      NoDashes(t);
      NoDashes(c);
      NoDashes(s');
      NoDashes(t');
      KeysAreUnambiguous(s, t, c, s', t', c');
      assert false;
    }
  }

  predicate Carrying(m: Fix, tag: Tag, value: Text) { TryGet(m, tag).Some? && TryGet(m, tag).value.value == value }

  /** A message is about an order if it names its ClOrdID, as OrigClOrdID if it has one, and
      comes from the order's sender, or, for reports and rejects, from its target. */
  lemma KeyAddressesOrder(o: Order, m: Fix, reverse: bool)
    requires Coherent(o) && Carrying(m, SENDER_COMP_ID, if reverse then o.target else o.sender)
    requires Carrying(m, TARGET_COMP_ID, if reverse then o.sender else o.target)
    requires if Has(m, ORIG_CL_ORD_ID) then Carrying(m, ORIG_CL_ORD_ID, o.clOrdID.value)
             else Carrying(m, CL_ORD_ID, o.clOrdID.value)
    ensures KeyForMessage(m, reverse) == Some(o.key)
  {
    hide TryGet, CreateKey;
    HasMeansGet(m, ORIG_CL_ORD_ID);
  }

  // ---------------------------------------------------------- reachable books

  predicate Distinct(births: seq<Birth>) { forall i, j :: 0 <= i < j < |births| ==> births[i].key != births[j].key }

  predicate Born(births: seq<Birth>, key: Text) { exists i :: 0 <= i < |births| && births[i].key == key }

  /** What births[j] says of its order: a NewOrderSingle names no original; a replacement
      names the ClOrdID of an order with the same comp ids that came in before it. */
  predicate Descends(h: History, j: nat)
    requires j < |h.births| && forall k :: 0 <= k < |h.births| ==> h.births[k].key in h.book
  {
    var b := h.births[j];
    var o := h.book[b.key];
    match b
    case Single(_) => o.origClOrdID.None?
    case Replacing(_, original) =>
      && Born(h.births[..j], original) && original in h.book
      && var p := h.book[original];
      && o.origClOrdID == Some(p.clOrdID) && o.sender == p.sender && o.target == p.target
      && original == CreateKey(o.sender, o.target, o.origClOrdID.value.value)
  }

  ghost predicate WellFounded(h: History) {
    && Distinct(h.births)
    && (forall key :: key in h.book <==> Born(h.births, key))
    && (forall key :: key in h.book ==> h.book[key].key == key && Coherent(h.book[key]))
    && (forall k :: 0 <= k < |h.births| ==> h.births[k].key in h.book)
    && (forall j :: 0 <= j < |h.births| ==> Descends(h, j))
  }

  /** Changing one order but not its identity changes nothing about the chains. */
  lemma ChangeKeeps(h: History, key: Text, o: Order)
    requires WellFounded(h) && key in h.book && Coherent(o) && SameIdentity(h.book[key], o)
    ensures WellFounded(History(h.book[key := o], h.births))
  {
    hide Coherent, CreateKey;
    var g := History(h.book[key := o], h.births);
    forall j | 0 <= j < |h.births|
      ensures Descends(g, j)
    {
      assert Descends(h, j);
    }
  }

  lemma BornSnoc(births: seq<Birth>, b: Birth, key: Text)
    ensures Born(births + [b], key) <==> Born(births, key) || b.key == key
  {
    var more := births + [b];
    if Born(births, key) {
      var i :| 0 <= i < |births| && births[i].key == key;
      assert more[i].key == key;
    }
    if b.key == key {
      assert more[|births|].key == key;
    }
  }

  predicate Joins(h: History, b: Birth, o: Order) {
    match b
    case Single(_) => o.origClOrdID.None?
    case Replacing(_, original) =>
      && original in h.book && o.origClOrdID == Some(h.book[original].clOrdID)
      && o.sender == h.book[original].sender && o.target == h.book[original].target
  }

  /** A new order joins the chains. */
  lemma InsertKeeps(h: History, b: Birth, o: Order)
    requires WellFounded(h) && b.key !in h.book && o.key == b.key && Coherent(o)
    requires Joins(h, b, o)
    ensures WellFounded(History(h.book[b.key := o], h.births + [b]))
  {
    hide Coherent, CreateKey, Descends, Born;
    var g := History(h.book[b.key := o], h.births + [b]);
    forall key
      ensures key in g.book <==> Born(g.births, key)
    {
      BornSnoc(h.births, b, key);
    }
    assert Distinct(g.births);
    forall j | 0 <= j < |g.births|
      ensures Descends(g, j)
    {
      InsertDescends(h, b, o, j);
    }
  }

  lemma InsertDescends(h: History, b: Birth, o: Order, j: nat)
    requires WellFounded(h) && b.key !in h.book && o.key == b.key && Coherent(o) && j <= |h.births|
    requires Joins(h, b, o)
    requires forall k :: 0 <= k <= |h.births| ==> (h.births + [b])[k].key in h.book[b.key := o]
    ensures Descends(History(h.book[b.key := o], h.births + [b]), j)
  {
    hide Born, CreateKey, WellFounded, SameValue;
    var g := History(h.book[b.key := o], h.births + [b]);
    if j < |h.births| {
      assert Descends(h, j) && (h.births[j].Replacing? ==> h.births[j].original in h.book) by { DescendsIn(h, j); }
      assert g.births[..j] == h.births[..j];
    } else {
      assert g.births[..j] == h.births;
      if b.Replacing? {
        OrderIn(h, b.original);
      }
    }
  }

  lemma DescendsIn(h: History, j: nat)
    requires WellFounded(h) && j < |h.births|
    ensures (forall k :: 0 <= k < |h.births| ==> h.births[k].key in h.book) && Descends(h, j)
  {
    hide Coherent;
  }

  predicate NoOriginal(m: Fix) { IsKind(m, NEW_ORDER_SINGLE) ==> !Has(m, ORIG_CL_ORD_ID) }

  lemma NewOrderIsCoherent(m: Fix)
    requires NewOrder(m).Some?
    ensures Coherent(NewOrder(m).value)
  {
    hide CreateKey, IndexOf;
  }

  lemma ReplaceKeeps(h: History, key: Text, report: Fix)
    requires WellFounded(h) && key in h.book
    ensures var r := ReplaceAt(h.book, key, report); WellFounded(History(r.book, h.births + r.births))
  {
    hide WellFounded, Coherent, Replacement, Superseded, CreateKey;
    var o := h.book[key];
    assert Coherent(o) && o.key == key by { OrderIn(h, key); }
    SupersededKeepsIdentity(o, report);
    ReplacementIsCoherent(o, report);
    var g := History(h.book[key := Superseded(o, report)], h.births);
    ChangeKeeps(h, key, Superseded(o, report));
    var r := Replacement(o, report);
    if r.key !in h.book {
      InsertKeeps(g, Replacing(r.key, key), r);
    } else {
      assert h.births + [] == h.births;
    }
  }

  lemma OrderIn(h: History, key: Text)
    requires WellFounded(h) && key in h.book
    ensures h.book[key].key == key && Coherent(h.book[key]) && Born(h.births, key)
  {
  }

  /** Every message, whatever it is, keeps the chains well founded. */
  lemma ProcessKeeps(h: History, m: Fix)
    requires WellFounded(h) && NoOriginal(m)
    ensures var r := Process(h.book, m); WellFounded(History(r.book, h.births + r.births))
  {
    hide WellFounded, Coherent, Rollback, Update, CreateKey, KeyForMessage, NewOrder, ReplaceAt, TryGet, IndexOf;
    assert h.births + [] == h.births;
    var r := Process(h.book, m);
    if IsKind(m, NEW_ORDER_SINGLE) {
      if r.reply == Ok {
        NewOrderIsCoherent(m);
        NewOrderIs(m);
        InsertKeeps(h, Single(NewOrder(m).value.key), NewOrder(m).value);
      }
    } else {
      var key := KeyForMessage(m, IsKind(m, EXECUTION_REPORT) || IsKind(m, ORDER_CANCEL_REJECT));
      if key.Some? && key.value in h.book {
        OrderIn(h, key.value);
        var o := h.book[key.value];
        UpdateKeepsIdentity(o, m);
        RollbackKeepsIdentity(o);
        ChangeKeeps(h, key.value, Update(o, m).order);
        ChangeKeeps(h, key.value, Rollback(o));
        ReplaceKeeps(h, key.value, m);
      }
    }
  }

  lemma NewOrderIs(m: Fix)
    requires NewOrder(m).Some?
    ensures Has(m, ORIG_CL_ORD_ID) <==> NewOrder(m).value.origClOrdID.Some?
  {
  }

  /** In every book built from messages among which no NewOrderSingle names an original:
      every key is the key of its order, ids and fields agree, and every OrigClOrdID leads to
      an order that came in strictly earlier. */
  lemma {:induction false} ReachableBooks(ms: seq<Fix>)
    requires forall m :: m in ms ==> NoOriginal(m)
    ensures WellFounded(After(ms))
  {
    hide Process, WellFounded, NoOriginal;
    if ms == [] {
      assert WellFounded(History(map[], [])) by { EmptyBook(); }
    } else {
      ReachableBooks(ms[..|ms| - 1]);
      ProcessKeeps(After(ms[..|ms| - 1]), ms[|ms| - 1]);
    }
  }

  lemma EmptyBook()
    ensures WellFounded(History(map[], []))
  {
  }

  /** Positions in births, each the original of the one ahead of it and strictly earlier, down
      to a NewOrderSingle. */
  predicate Path(births: seq<Birth>, r: seq<nat>) {
    && r != [] && r[0] < |births|
    && if |r| == 1 then births[r[0]].Single?
       else births[r[0]].Replacing? && r[1] < r[0] && births[r[1]].key == births[r[0]].original && Path(births, r[1..])
  }

  /** The replacement chain of every order is acyclic and ends at a NewOrderSingle. */
  lemma {:induction false} ChainsEnd(h: History, j: nat) returns (r: seq<nat>)
    requires WellFounded(h) && j < |h.births|
    ensures Path(h.births, r) && r[0] == j
    decreases j
  {
    hide WellFounded, Coherent, CreateKey;
    var i := Parent(h, j);
    match h.births[j]
    case Single(_) => return [j];
    case Replacing(_, original) =>
      var tail := ChainsEnd(h, i);
      r := [j] + tail;
      assert r[1..] == tail;
  }

  lemma Parent(h: History, j: nat) returns (i: nat)
    requires WellFounded(h) && j < |h.births|
    ensures h.births[j].Replacing? ==> i < j && h.births[i].key == h.births[j].original
  {
    hide Coherent, CreateKey;
    assert Descends(h, j);
    if h.births[j].Replacing? {
      i :| 0 <= i < j && h.births[..j][i].key == h.births[j].original;
    } else {
      i := 0;
    }
  }

  // ------------------------------------------------- requests that are rejected

  function Play(book: Book, ms: seq<Fix>): Book {
    if ms == [] then book else Process(Play(book, ms[..|ms| - 1]), ms[|ms| - 1]).book
  }

  predicate IsRequest(m: Fix, key: Text) {
    (IsKind(m, ORDER_CANCEL_REQUEST) || IsKind(m, ORDER_CANCEL_REPLACE_REQUEST)) && KeyForMessage(m, false) == Some(key)
  }

  predicate IsPlainReport(m: Fix, key: Text) {
    IsKind(m, EXECUTION_REPORT) && !IsReplaced(m) && KeyForMessage(m, true) == Some(key)
  }

  predicate IsReject(m: Fix, key: Text) { IsKind(m, ORDER_CANCEL_REJECT) && KeyForMessage(m, true) == Some(key) }

  function MergeAll(fs: Fix, reports: seq<Fix>): Fix {
    if reports == [] then fs else Merge(MergeAll(fs, reports[..|reports| - 1]), reports[|reports| - 1])
  }

  predicate AnyCarries(reports: seq<Fix>, tag: Tag) { exists m :: m in reports && Carries(m, tag) }

  /** What a rejected request leaves of an order, given the reports in between. */
  predicate RolledBack(before: Order, reports: seq<Fix>, after: Order) {
    && after.pending == []
    && (forall tag: Tag :: tag != ORD_STATUS ==>
          TryGet(after.fields, tag) == TryGet(MergeAll(before.fields, reports), tag))
    && (TryGet(after.fields, ORD_STATUS) == TryGet(before.fields, ORD_STATUS)
        <==> Has(before.fields, ORD_STATUS) || !AnyCarries(reports, ORD_STATUS))
    && (reports == [] ==> after.fields == before.fields)
  }

  /** The status put into the fields shows through reports at no other tag. */
  lemma {:induction false} StatusIsSeparate(fs: Fix, status: Text, reports: seq<Fix>, tag: Tag)
    requires tag != ORD_STATUS
    ensures TryGet(MergeAll(SetStatus(fs, status), reports), tag) == TryGet(MergeAll(fs, reports), tag)
  {
    hide TryGet, SetStatus, Merge, Carries;
    if reports == [] {
      GetAfterStatus(fs, status, tag);
    } else {
      var rest, m := reports[..|reports| - 1], reports[|reports| - 1];
      StatusIsSeparate(fs, status, rest, tag);
      GetAfterMerge(MergeAll(SetStatus(fs, status), rest), m, tag);
      GetAfterMerge(MergeAll(fs, rest), m, tag);
    }
  }

  /** Reports change a field exactly when one of them carries it, and remove none. */
  lemma {:induction false} GetAfterReports(fs: Fix, reports: seq<Fix>, tag: Tag)
    ensures Has(MergeAll(fs, reports), tag) <==> Has(fs, tag) || AnyCarries(reports, tag)
    ensures !AnyCarries(reports, tag) ==> TryGet(MergeAll(fs, reports), tag) == TryGet(fs, tag)
  {
    hide IndexOf, Merge, Carries;
    if reports != [] {
      var rest, m := reports[..|reports| - 1], reports[|reports| - 1];
      assert reports == rest + [m];
      GetAfterReports(fs, rest, tag);
      GetAfterMerge(MergeAll(fs, rest), m, tag);
    }
  }

  /** An order with a request outstanding: the status it had is cached, and only that. */
  ghost predicate Requested(before: Order, o: Order) {
    && o.previousOrdStatus == TryGet(before.fields, ORD_STATUS)
    && (o.fields == before.fields || exists status :: o.fields == SetStatus(before.fields, status))
  }

  lemma RequestUpdates(o: Order, m: Fix)
    requires IsKind(m, ORDER_CANCEL_REQUEST) || IsKind(m, ORDER_CANCEL_REPLACE_REQUEST)
    ensures Requested(o, Update(o, m).order)
  {
    hide TryGet, SetStatus, Merge;
  }

  lemma RestoreStatus(fs: Fix, status: Text)
    ensures var had := TryGet(fs, ORD_STATUS);
            had.Some? ==>
              && SetField(SetStatus(fs, status), had.value, ReplaceFirst) == fs
              && SetField(fs, had.value, ReplaceFirst) == fs
  {
    var k := IndexOf(fs, ORD_STATUS);
    if k < |fs| {
      IndexIs(SetStatus(fs, status), ORD_STATUS, k);
    }
  }

  lemma UnchangedStatus(fs: Fix, status: Text)
    requires !Has(fs, ORD_STATUS)
    ensures SetStatus(fs, status) == fs
  {
  }

  /** Rolling back after the reports. */
  lemma RollbackRestores(before: Order, requested: Order, reports: seq<Fix>, o: Order)
    requires Requested(before, requested)
    requires o.previousOrdStatus == requested.previousOrdStatus && o.fields == MergeAll(requested.fields, reports)
    ensures RolledBack(before, reports, Rollback(o))
  {
    hide TryGet, SetField, SetStatus, MergeAll, AnyCarries, IndexOf;
    var fs, gs := before.fields, requested.fields;
    var status := if gs == fs then [] else var t :| gs == SetStatus(fs, t); t;
    var after := Rollback(o);
    forall tag: Tag | tag != ORD_STATUS
      ensures TryGet(after.fields, tag) == TryGet(MergeAll(fs, reports), tag)
    {
      StatusIsSeparate(fs, status, reports, tag);
      TagOf(fs, ORD_STATUS);
      if o.previousOrdStatus.Some? {
        GetAfterSet(o.fields, o.previousOrdStatus.value, ReplaceFirst, tag);
      }
    }
    StatusAfterRollback(before, requested, status, reports, o);
    if reports == [] {
      assert MergeAll(gs, []) == gs by { NoReports(gs); }
      RestoreStatus(fs, status);
      HasMeansGet(fs, ORD_STATUS);
      if !Has(fs, ORD_STATUS) {
        UnchangedStatus(fs, status);
      }
    }
  }

  lemma NoReports(fs: Fix)
    ensures MergeAll(fs, []) == fs
  {
  }

  lemma HasMeansGet(fs: Fix, tag: Tag)
    ensures Has(fs, tag) <==> TryGet(fs, tag).Some?
  {
  }

  lemma StatusAfterRollback(before: Order, requested: Order, status: Text, reports: seq<Fix>, o: Order)
    requires o.previousOrdStatus == TryGet(before.fields, ORD_STATUS) && o.fields == MergeAll(requested.fields, reports)
    requires requested.fields == before.fields || requested.fields == SetStatus(before.fields, status)
    ensures TryGet(Rollback(o).fields, ORD_STATUS) == TryGet(before.fields, ORD_STATUS)
            <==> Has(before.fields, ORD_STATUS) || !AnyCarries(reports, ORD_STATUS)
  {
    hide TryGet, SetField, SetStatus, MergeAll, AnyCarries, IndexOf;
    var fs, gs := before.fields, requested.fields;
    HasMeansGet(fs, ORD_STATUS);
    HasMeansGet(gs, ORD_STATUS);
    HasMeansGet(o.fields, ORD_STATUS);
    GetAfterStatus(fs, status, ORD_STATUS);
    GetAfterReports(gs, reports, ORD_STATUS);
    TagOf(fs, ORD_STATUS);
    if Has(fs, ORD_STATUS) {
      GetAfterSet(o.fields, o.previousOrdStatus.value, ReplaceFirst, ORD_STATUS);
    } else {
      UnchangedStatus(fs, status);
    }
  }

  /** Reports for one order merge into its fields and leave the rest of it, and of the book. */
  lemma {:induction false} PlayReports(book: Book, key: Text, reports: seq<Fix>)
    requires key in book && forall m :: m in reports ==> IsPlainReport(m, key)
    ensures var after := Play(book, reports);
            && key in after && after == book[key := after[key]]
            && after[key].fields == MergeAll(book[key].fields, reports)
            && after[key].previousOrdStatus == book[key].previousOrdStatus && after[key].pending == book[key].pending
  {
    hide KeyForMessage, TryGet, Merge, IsReplaced;
    if reports != [] {
      var rest, m := reports[..|reports| - 1], reports[|reports| - 1];
      assert m in reports && IsPlainReport(m, key);
      PlayReports(book, key, rest);
    }
  }

  lemma {:induction false} PlayConcat(book: Book, a: seq<Fix>, b: seq<Fix>)
    ensures Play(book, a + b) == Play(Play(book, a), b)
    decreases |b|
  {
    hide Process;
    if b == [] {
      assert a + b == a;
    } else {
      var c := b[..|b| - 1];
      assert (a + b)[..|a + b| - 1] == a + c;
      PlayConcat(book, a, c);
    }
  }

  lemma PlayOne(book: Book, m: Fix)
    ensures Play(book, [m]) == Process(book, m).book
  {
    hide Process;
    assert [m][..0] == [] && Play(book, []) == book;
  }

  /** A request, any reports other than Replaced, and a reject for one order: the order gets
      back the status it had, if it had one, nothing stays pending, its other fields are as if
      only the reports had come, and no other order is touched. */
  lemma RejectRestores(book: Book, key: Text, request: Fix, reports: seq<Fix>, reject: Fix)
    requires key in book && IsRequest(request, key) && IsReject(reject, key)
    requires forall m :: m in reports ==> IsPlainReport(m, key)
    ensures var after := Play(book, [request] + reports + [reject]);
            key in after && after == book[key := after[key]] && RolledBack(book[key], reports, after[key])
  {
    hide KeyForMessage, TryGet, Play, Update, Rollback, RolledBack, Requested, MergeAll, IsPlainReport, IsReplaced;
    var b1 := Process(book, request).book;
    PlayOne(book, request);
    assert b1 == book[key := Update(book[key], request).order];
    RequestUpdates(book[key], request);
    PlayConcat(book, [request], reports);
    PlayReports(b1, key, reports);
    var b2 := Play(b1, reports);
    PlayConcat(book, [request] + reports, [reject]);
    PlayOne(b2, reject);
    assert Process(b2, reject).book == b2[key := Rollback(b2[key])];
    RollbackRestores(book[key], b1[key], reports, b2[key]);
  }

  // ------------------------------------------------- requests that are accepted

  /** What a Replaced report makes of an order and its replacement: the replacement takes each
      field from the request first, then from the report, then from the order, and is New;
      the order itself keeps its fields and is Replaced. */
  lemma ReplacementFields(o: Order, report: Fix, tag: Tag)
    requires Coherent(o) && IsKind(report, EXECUTION_REPORT)
    ensures var r, s := Replacement(o, report), Superseded(o, report);
            && r.pending == [] && s.pending == []
            && (tag == ORD_STATUS ==> TryGet(r.fields, tag).None? || TryGet(r.fields, tag) == Some(Field(tag, NEW)))
            && (tag == ORD_STATUS ==>
                  TryGet(s.fields, tag).None? || TryGet(s.fields, tag) == Some(Field(tag, REPLACED)))
            && (tag != ORD_STATUS ==> TryGet(s.fields, tag) == TryGet(o.fields, tag))
            && (tag != ORD_STATUS && !IsIdentity(tag) ==>
                TryGet(r.fields, tag) == if Carries(o.pending, tag) then Some(Last(o.pending, tag))
                                         else if Carries(report, tag) then Some(Last(report, tag))
                                         else TryGet(o.fields, tag))
  {
    hide TryGet, IndexOf, SetField, SetStatus, Merge, CreateKey, Last, Carries;
    var u := Update(o, report).order;
    assert u == o.(messages := o.messages + [report], fields := Merge(o.fields, report));
    var c := Commit(u);
    GetAfterMerge(o.fields, report, tag);
    GetAfterMerge(u.fields, u.pending, tag);
    if !IsIdentity(tag) {
      RenamedFields(c, NextId(o, report), tag, report, o);
    }
    var r := Renamed(c, NextId(o, report));
    GetAfterStatus(r.fields, NEW, tag);
    HasMeansGet(r.fields, tag);
    if tag != ORD_STATUS {
      RolledBackFields(o, tag);
    }
    GetAfterStatus(Rollback(o).fields, REPLACED, tag);
    HasMeansGet(Rollback(o).fields, tag);
  }

  lemma RenamedFields(c: Order, id: Option<Field>, tag: Tag, report: Fix, o: Order)
    requires Coherent(o) && id == NextId(o, report) && !IsIdentity(tag)
    ensures TryGet(Renamed(c, id).fields, tag) == TryGet(c.fields, tag)
  {
    hide TryGet, SetField, CreateKey;
    TagOf(report, CL_ORD_ID);
    if id.Some? {
      GetAfterSet(c.fields, id.value, ReplaceFirstOrAppend, tag);
      var fs := SetField(c.fields, id.value, ReplaceFirstOrAppend);
      GetAfterSet(fs, Field(ORIG_CL_ORD_ID, c.clOrdID.value), ReplaceFirstOrAppend, tag);
    }
  }

  lemma RolledBackFields(o: Order, tag: Tag)
    requires Coherent(o) && tag != ORD_STATUS
    ensures TryGet(Rollback(o).fields, tag) == TryGet(o.fields, tag)
  {
    hide TryGet, SetField, CreateKey;
    if o.previousOrdStatus.Some? {
      GetAfterSet(o.fields, o.previousOrdStatus.value, ReplaceFirst, tag);
    }
  }

  // ------------------------------------------------------- replies and changes

  /** The key a replacement of o would get. */
  function NextKey(o: Order, report: Fix): Text {
    var id := NextId(o, report);
    CreateKey(o.sender, o.target, if id.Some? then id.value.value else o.clOrdID.value)
  }

  lemma ReplacementKey(o: Order, report: Fix)
    ensures Replacement(o, report).key == NextKey(o, report)
  {
    hide TryGet, SetStatus, SetField, Merge, CreateKey;
  }

  lemma SupersededDiffers(o: Order, report: Fix)
    ensures Superseded(o, report) != o
  {
    hide SetField, SetStatus, Rollback;
    assert |Superseded(o, report).messages| == |Rollback(o).messages| + 1 == |o.messages| + 1 by {
      RollbackKeepsMessages(o);
    }
  }

  lemma RollbackKeepsMessages(o: Order)
    ensures Rollback(o).messages == o.messages
  {
  }

  /** The book holds the addressed order of a Replaced report, and another under the key its
      replacement would get. */
  predicate Collides(book: Book, m: Fix) {
    && IsKind(m, EXECUTION_REPORT) && IsReplaced(m)
    && var key := KeyForMessage(m, true);
    && key.Some? && key.value in book && NextKey(book[key.value], m) in book
  }

  /** A message that is answered with an error has changed the book if and only if it is such
      a Replaced report: then the original is already superseded. */
  lemma ErrorChangesIff(book: Book, m: Fix)
    ensures Process(book, m).reply == Error && Process(book, m).book != book <==> Collides(book, m)
  {
    hide KeyForMessage, TryGet, Update, Rollback, Replacement, Superseded, NewOrder, IsReplaced, NextKey;
    var key := KeyForMessage(m, true);
    if key.Some? && key.value in book {
      SupersededDiffers(book[key.value], m);
      ReplacementKey(book[key.value], m);
    }
  }

  /** A cancel/replace request for an order in the book that brings no new id. */
  predicate LacksId(book: Book, m: Fix) {
    && IsKind(m, ORDER_CANCEL_REPLACE_REQUEST) && TryGet(m, CL_ORD_ID).None?
    && var key := KeyForMessage(m, false);
    key.Some? && key.value in book
  }

  /** An update throws without a MsgType, and for a replace request without a ClOrdID; the
      message has been noted by then. */
  lemma UpdateThrowsIff(o: Order, m: Fix)
    ensures Update(o, m).threw <==>
            TryGet(m, MSG_TYPE).None? || (IsKind(m, ORDER_CANCEL_REPLACE_REQUEST) && TryGet(m, CL_ORD_ID).None?)
    ensures Update(o, m).order != o
  {
    hide TryGet, Merge, SetStatus;
    assert |Update(o, m).order.messages| == |o.messages| + 1;
  }

  /** An exception leaves the book changed if and only if it comes from such a request: the
      message and the cached status are already recorded when the id is missed. */
  lemma ExceptionChangesIff(book: Book, m: Fix)
    ensures Process(book, m).reply == Threw && Process(book, m).book != book <==> LacksId(book, m)
  {
    hide KeyForMessage, TryGet, Update, Rollback, Replacement, Superseded, NewOrder, IsReplaced;
    if TryGet(m, MSG_TYPE).Some? {
      var key := KeyForMessage(m, IsKind(m, EXECUTION_REPORT) || IsKind(m, ORDER_CANCEL_REJECT));
      if key.Some? && key.value in book {
        UpdateThrowsIff(book[key.value], m);
      }
    }
  }

  /** Such a collision: a Replaced report that brings no new id. */
  lemma NoNewIdCollides(book: Book, key: Text, report: Fix)
    requires IsKind(report, EXECUTION_REPORT) && IsReplaced(report) && KeyForMessage(report, true) == Some(key)
    requires key in book && book[key].key == key && Coherent(book[key]) && NextId(book[key], report).None?
    ensures Process(book, report).reply == Error && Process(book, report).book != book
  {
    hide Process, KeyForMessage, TryGet, IsReplaced;
    ErrorChangesIff(book, report);
  }
}
