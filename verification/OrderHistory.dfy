/** What an order in the book says about the messages that made it. */
module OrderHistory {
  import opened Optional
  import opened Bytes
  import opened Fields
  import opened OrderModel
  import opened OrderTheorems

  // --------------------------------------------------------------- new orders

  /** A NewOrderSingle that is accepted is stored with all its fields under the key made from
      its ids; nothing is pending, and no other order changes. */
  lemma SingleIsStored(book: Book, m: Fix)
    requires IsKind(m, NEW_ORDER_SINGLE) && Process(book, m).reply == Ok
    ensures var sender, target, id := TryGet(m, SENDER_COMP_ID), TryGet(m, TARGET_COMP_ID), TryGet(m, CL_ORD_ID);
            && sender.Some? && target.Some? && id.Some?
            && var key := CreateKey(sender.value.value, target.value.value, id.value.value);
            && key !in book && key in Process(book, m).book
            && var o := Process(book, m).book[key];
            && Process(book, m).book == book[key := o]
            && o.fields == m && o.pending == [] && o.messages == [m] && o.key == key
            && o.sender == sender.value.value && o.target == target.value.value && o.clOrdID == id.value
            && o.origClOrdID == TryGet(m, ORIG_CL_ORD_ID) && o.previousOrdStatus.None? && o.newClOrdID.None?
  {
    hide TryGet, CreateKey;
  }

  // ------------------------------------------------------------------ requests

  predicate IsCompleteRequest(m: Fix) {
    IsKind(m, ORDER_CANCEL_REQUEST) || (IsKind(m, ORDER_CANCEL_REPLACE_REQUEST) && TryGet(m, CL_ORD_ID).Some?)
  }

  function PendingStatus(m: Fix): Text {
    if IsKind(m, ORDER_CANCEL_REQUEST) then [54] else [69]
  }

  /** A request's fields become pending, the order's status, if it has one, becomes PendingCancel
      or PendingReplace, the status it had is remembered, and a replace request names the next
      ClOrdID; no other field of the order changes. */
  lemma RequestIsRecorded(o: Order, m: Fix, tag: Tag)
    requires IsCompleteRequest(m)
    ensures var c := Update(o, m);
            && !c.threw && SameIdentity(o, c.order) && c.order.messages == o.messages + [m]
            && TryGet(c.order.pending, tag) == (if Carries(m, tag) then Some(Last(m, tag)) else TryGet(o.pending, tag))
            && TryGet(c.order.fields, tag) ==
               (if tag == ORD_STATUS && Has(o.fields, tag) then Some(Field(tag, PendingStatus(m)))
                else TryGet(o.fields, tag))
            && c.order.previousOrdStatus == TryGet(o.fields, ORD_STATUS)
            && c.order.newClOrdID == if IsKind(m, ORDER_CANCEL_REPLACE_REQUEST) then TryGet(m, CL_ORD_ID)
                                     else o.newClOrdID
  {
    hide TryGet, Merge, SetStatus, Last, Carries, IndexOf;
    GetAfterMerge(o.pending, m, tag);
    GetAfterStatus(o.fields, PENDING_REPLACE, tag);
    GetAfterStatus(o.fields, PENDING_CANCEL, tag);
  }

  /** No two fields with the same tag. */
  predicate Unique(fs: Fix) { forall i, j :: 0 <= i < j < |fs| ==> fs[i].tag != fs[j].tag }

  lemma {:induction false} LastIsOnly(fs: Fix, tag: Tag)
    requires Unique(fs) && Has(fs, tag)
    ensures TryGet(fs, tag) == Some(Last(fs, tag))
  {
    hide IndexOf;
    var k := IndexOf(fs, tag);
    LastAt(fs, tag, k);
  }

  lemma {:induction false} LastAt(fs: Fix, tag: Tag, k: nat)
    requires Has(fs, tag) && k < |fs| && fs[k].tag == tag && forall j :: k < j < |fs| ==> fs[j].tag != tag
    ensures Last(fs, tag) == fs[k]
    decreases |fs|
  {
    hide IndexOf;
    if k < |fs| - 1 {
      HasDropLast(fs, tag);
      LastAt(fs[..|fs| - 1], tag, k);
    }
  }

  lemma SetKeepsUnique(fs: Fix, f: Field)
    requires Unique(fs)
    ensures Unique(SetField(fs, f, ReplaceFirstOrAppend))
  {
    hide IndexOf;
  }

  lemma {:induction false} MergeKeepsUnique(fs: Fix, m: Fix)
    requires Unique(fs)
    ensures Unique(Merge(fs, m))
  {
    hide SetField, Unique;
    if m != [] {
      MergeKeepsUnique(fs, m[..|m| - 1]);
      SetKeepsUnique(Merge(fs, m[..|m| - 1]), m[|m| - 1]);
    }
  }

  predicate AllUnique(book: Book) { forall key :: key in book ==> Unique(book[key].pending) }

  lemma ProcessKeepsUnique(book: Book, m: Fix)
    requires AllUnique(book)
    ensures AllUnique(Process(book, m).book)
  {
    hide KeyForMessage, TryGet, SetField, SetStatus, IsReplaced, Unique, CreateKey;
    NothingIsUnique();
    forall key | key in book
      ensures Unique(Merge(book[key].pending, m))
    {
      MergeKeepsUnique(book[key].pending, m);
    }
  }

  lemma NothingIsUnique()
    ensures Unique([])
  {
  }

  /** In every book that messages can build, what is pending has no tag twice. */
  lemma {:induction false} PendingIsUnique(ms: seq<Fix>)
    ensures AllUnique(After(ms).book)
  {
    hide Process, Unique;
    if ms != [] {
      PendingIsUnique(ms[..|ms| - 1]);
      ProcessKeepsUnique(After(ms[..|ms| - 1]).book, ms[|ms| - 1]);
    }
  }

  /** What a replacement takes its fields from: the request first, then what was pending before
      it, then the report, then the order. */
  function Source(o: Order, request: Fix, report: Fix, tag: Tag): Option<Field> {
    if Carries(request, tag) then Some(Last(request, tag))
    else if TryGet(o.pending, tag).Some? then TryGet(o.pending, tag)
    else if Carries(report, tag) then Some(Last(report, tag))
    else TryGet(o.fields, tag)
  }

  lemma PendingSource(o: Order, request: Fix, tag: Tag)
    requires Unique(o.pending) && !IsIdentity(tag)
    ensures var pending := Merge(o.pending, request);
            (if Carries(pending, tag) then Some(Last(pending, tag)) else None) ==
            if Carries(request, tag) then Some(Last(request, tag)) else TryGet(o.pending, tag)
  {
    hide Merge, TryGet, IndexOf, Last, Unique;
    var pending := Merge(o.pending, request);
    MergeKeepsUnique(o.pending, request);
    GetAfterMerge(o.pending, request, tag);
    HasMeansGet(pending, tag);
    if Has(pending, tag) {
      LastIsOnly(pending, tag);
    }
  }

  predicate IsReplacedReport(m: Fix, key: Text) {
    IsKind(m, EXECUTION_REPORT) && IsReplaced(m) && KeyForMessage(m, true) == Some(key)
  }

  /** End to end: a replace request and the Replaced report that answers it put a replacement
      into the book under the requested ClOrdID. It names its original, takes each field from
      the request first, and no other order but the original changes. */
  lemma AcceptedReplace(book: Book, key: Text, request: Fix, report: Fix, tag: Tag)
    requires key in book && book[key].key == key && Coherent(book[key]) && Unique(book[key].pending)
    requires IsRequest(request, key) && IsKind(request, ORDER_CANCEL_REPLACE_REQUEST)
    requires TryGet(request, CL_ORD_ID).Some?
    requires IsReplacedReport(report, key)
    requires CreateKey(book[key].sender, book[key].target, TryGet(request, CL_ORD_ID).value.value) !in book
    ensures var o, id := book[key], TryGet(request, CL_ORD_ID).value;
            var next, after := CreateKey(o.sender, o.target, id.value), Play(book, [request, report]);
            && next in after && key in after && after == book[key := after[key]][next := after[next]]
            && after[next].clOrdID == id && after[next].origClOrdID == Some(o.clOrdID) && after[next].pending == []
            && (tag != ORD_STATUS && !IsIdentity(tag) ==>
                  TryGet(after[next].fields, tag) == Source(o, request, report, tag))
            && (tag != ORD_STATUS ==> TryGet(after[key].fields, tag) == TryGet(o.fields, tag))
  {
    hide TryGet, KeyForMessage, IsReplaced, Update, Replacement, Superseded, Merge, CreateKey, Last, Carries;
    var o := book[key];
    var u := Update(o, request).order;
    PlayTwo(book, request, report);
    assert Process(book, request).book == book[key := u];
    RequestIsRecorded(o, request, tag);
    UpdateKeepsIdentity(o, request);
    ReplacementKey(u, report);
    ReplacementIsCoherent(u, report);
    ReplacementFields(u, report, tag);
    RenamedTo(u, report);
    assert u.pending == Merge(o.pending, request) by { PendingIs(o, request); }
    if !IsIdentity(tag) {
      PendingSource(o, request, tag);
    }
  }

  lemma PlayTwo(book: Book, m: Fix, n: Fix)
    ensures Play(book, [m, n]) == Process(Process(book, m).book, n).book
  {
    hide Process;
    PlayOne(book, m);
    PlayConcat(book, [m], [n]);
    PlayOne(Process(book, m).book, n);
    assert [m] + [n] == [m, n];
  }

  lemma PendingIs(o: Order, m: Fix)
    requires IsCompleteRequest(m)
    ensures Update(o, m).order.pending == Merge(o.pending, m)
  {
    hide TryGet, Merge;
  }

  lemma RenamedTo(o: Order, report: Fix)
    requires o.newClOrdID.Some?
    ensures Replacement(o, report).clOrdID == o.newClOrdID.value
  {
    hide TryGet, Merge, SetField, CreateKey;
  }

  // --------------------------------------------------------- an order through time

  /** What one message does to the order under a key, unless it is a Replaced report for it. */
  lemma StepAt(book: Book, key: Text, m: Fix)
    requires key in book && !IsReplacedReport(m, key)
    ensures key in Process(book, m).book
    ensures Process(book, m).book[key] ==
            if IsRequest(m, key) || IsPlainReport(m, key) then Update(book[key], m).order
            else if IsReject(m, key) then Rollback(book[key])
            else book[key]
  {
    hide KeyForMessage, TryGet, Update, Rollback, Replacement, Superseded, NewOrder, IsReplaced;
  }

  predicate NeverReplaced(ms: seq<Fix>, key: Text) { forall m :: m in ms ==> !IsReplacedReport(m, key) }

  /** The field of the last plain report for the order that carries the tag, else the given one. */
  function Reported(initial: Option<Field>, ms: seq<Fix>, key: Text, tag: Tag): Option<Field> {
    if ms == [] then initial
    else
      var m := ms[|ms| - 1];
      if IsPlainReport(m, key) && Carries(m, tag) then Some(Last(m, tag))
      else Reported(initial, ms[..|ms| - 1], key, tag)
  }

  /** The requests and plain reports for the order. */
  function Noted(ms: seq<Fix>, key: Text): seq<Fix> {
    if ms == [] then []
    else
      var m := ms[|ms| - 1];
      Noted(ms[..|ms| - 1], key) + if IsRequest(m, key) || IsPlainReport(m, key) then [m] else []
  }

  lemma UpdateFollows(o: Order, m: Fix, key: Text, tag: Tag)
    requires tag != ORD_STATUS && (IsRequest(m, key) || IsPlainReport(m, key))
    ensures TryGet(Update(o, m).order.fields, tag) ==
            if IsPlainReport(m, key) && Carries(m, tag) then Some(Last(m, tag)) else TryGet(o.fields, tag)
    ensures Update(o, m).order.messages == o.messages + [m]
  {
    hide TryGet, Merge, SetStatus, Last, Carries, KeyForMessage, IsReplaced;
    GetAfterMerge(o.fields, m, tag);
    GetAfterStatus(o.fields, PENDING_REPLACE, tag);
    GetAfterStatus(o.fields, PENDING_CANCEL, tag);
  }

  /** Over any messages, none of which is a Replaced report for it: every field of an order but
      its status is that of the last report for it that carries it, else the one it started
      with; its ids never change; and it has noted exactly the requests and reports for it. */
  lemma {:induction false} FieldsFollowReports(book: Book, key: Text, ms: seq<Fix>, tag: Tag)
    requires key in book && Coherent(book[key]) && NeverReplaced(ms, key) && tag != ORD_STATUS
    ensures var after := Play(book, ms);
            && key in after && Coherent(after[key]) && SameIdentity(book[key], after[key])
            && TryGet(after[key].fields, tag) == Reported(TryGet(book[key].fields, tag), ms, key, tag)
            && after[key].messages == book[key].messages + Noted(ms, key)
  {
    hide Process, TryGet, Update, Rollback, Coherent;
    hide Last, Carries, IsRequest, IsPlainReport, IsReject, IsReplacedReport;
    if ms != [] {
      var init, m := ms[..|ms| - 1], ms[|ms| - 1];
      FieldsFollowReports(book, key, init, tag);
      var before := Play(book, init);
      StepAt(before, key, m);
      UpdateKeepsIdentity(before[key], m);
      RollbackKeepsIdentity(before[key]);
      RolledBackFields(before[key], tag);
      RollbackKeepsMessages(before[key]);
      if IsRequest(m, key) || IsPlainReport(m, key) {
        UpdateFollows(before[key], m, key, tag);
      }
    }
  }

  /** Together: as long as no Replaced report has come for it, an order that a NewOrderSingle
      opened has in every field but its status the value of the last report for it that carries
      the field, else that of the NewOrderSingle. */
  lemma OrderSaysWhatWasReported(book: Book, single: Fix, ms: seq<Fix>, tag: Tag)
    requires IsKind(single, NEW_ORDER_SINGLE) && Process(book, single).reply == Ok && tag != ORD_STATUS
    requires NeverReplaced(ms, NewOrder(single).value.key)
    ensures var key, after := NewOrder(single).value.key, Play(book, [single] + ms);
            && key in after
            && TryGet(after[key].fields, tag) == Reported(TryGet(single, tag), ms, key, tag)
            && after[key].messages == [single] + Noted(ms, key)
  {
    hide TryGet, CreateKey, Play, Reported, Noted;
    SingleIsStored(book, single);
    NewOrderIsCoherent(single);
    PlayOne(book, single);
    PlayConcat(book, [single], ms);
    FieldsFollowReports(Process(book, single).book, NewOrder(single).value.key, ms, tag);
  }

  /** A second reject finds nothing to restore: it leaves every field as the reports since the
      first one have made it. */
  lemma SecondRejectIsIdle(book: Book, key: Text, first: Fix, reports: seq<Fix>, second: Fix)
    requires key in book && IsReject(first, key) && IsReject(second, key)
    requires forall m :: m in reports ==> IsPlainReport(m, key)
    ensures var before, after := Play(book, [first] + reports), Play(book, [first] + reports + [second]);
            key in before && key in after && after[key] == before[key]
  {
    hide KeyForMessage, TryGet, Play, MergeAll, IsPlainReport, IsReplaced, SetField;
    var b1 := Process(book, first).book;
    PlayOne(book, first);
    PlayConcat(book, [first], reports);
    assert b1 == book[key := Rollback(book[key])] && b1[key].pending == [] && b1[key].previousOrdStatus.None?;
    PlayReports(b1, key, reports);
    PlayConcat(book, [first] + reports, [second]);
    PlayOne(Play(b1, reports), second);
  }

  /** The codes of FIX 5.0 SP2 that the book goes by. */
  lemma CodesAreFix()
    ensures NEW_ORDER_SINGLE == [68] && EXECUTION_REPORT == [56] && ORDER_CANCEL_REQUEST == [70]
    ensures ORDER_CANCEL_REPLACE_REQUEST == [71] && ORDER_CANCEL_REJECT == [57]
    ensures PENDING_REPLACE == [69] && PENDING_CANCEL == [54] && NEW == [48] && REPLACED == [53]
    ensures BEGIN_STRING == 8 && CL_ORD_ID == 11 && MSG_TYPE == 35 && ORD_STATUS == 39 && ORIG_CL_ORD_ID == 41
    ensures SENDER_COMP_ID == 49 && TARGET_COMP_ID == 56 && EXEC_TYPE == 150
    ensures forall m: Fix :: IsReplaced(m) <==> Carrying(m, 150, [53])
  {
  }

  // -------------------------------------------------------------------- replies

  predicate HasIds(m: Fix) {
    && Has(m, SENDER_COMP_ID) && Has(m, TARGET_COMP_ID) && (Has(m, ORIG_CL_ORD_ID) || Has(m, CL_ORD_ID))
  }

  predicate IsFollowUp(m: Fix) {
    || IsKind(m, EXECUTION_REPORT) || IsKind(m, ORDER_CANCEL_REJECT)
    || IsKind(m, ORDER_CANCEL_REQUEST) || IsKind(m, ORDER_CANCEL_REPLACE_REQUEST)
  }

  /** The key of the order a report, reject or request is about. */
  function About(m: Fix): Option<Text> {
    KeyForMessage(m, IsKind(m, EXECUTION_REPORT) || IsKind(m, ORDER_CANCEL_REJECT))
  }

  lemma KeyNeedsIds(m: Fix, reverse: bool)
    ensures KeyForMessage(m, reverse).Some? <==> HasIds(m)
  {
    hide TryGet, IndexOf, CreateKey;
    HasMeansGet(m, SENDER_COMP_ID);
    HasMeansGet(m, TARGET_COMP_ID);
    HasMeansGet(m, ORIG_CL_ORD_ID);
    HasMeansGet(m, CL_ORD_ID);
  }

  lemma SingleNeedsFields(m: Fix)
    ensures NewOrder(m).Some?
            <==> Has(m, BEGIN_STRING) && Has(m, SENDER_COMP_ID) && Has(m, TARGET_COMP_ID) && Has(m, CL_ORD_ID)
  {
    hide TryGet, IndexOf, CreateKey;
    HasMeansGet(m, BEGIN_STRING);
    HasMeansGet(m, SENDER_COMP_ID);
    HasMeansGet(m, TARGET_COMP_ID);
    HasMeansGet(m, CL_ORD_ID);
  }

  /** Exactly when a NewOrderSingle is accepted, and that it never throws. */
  lemma SingleReply(book: Book, m: Fix)
    requires IsKind(m, NEW_ORDER_SINGLE)
    ensures Process(book, m).reply != Threw
    ensures Process(book, m).reply == Ok <==>
            && Has(m, BEGIN_STRING) && Has(m, SENDER_COMP_ID) && Has(m, TARGET_COMP_ID) && Has(m, CL_ORD_ID)
            && NewOrder(m).Some? && NewOrder(m).value.key !in book
  {
    hide TryGet, IndexOf, NewOrder;
    SingleNeedsFields(m);
  }

  /** Exactly which other messages are answered with an error, and which with an exception. */
  lemma FollowUpReply(book: Book, m: Fix)
    requires !IsKind(m, NEW_ORDER_SINGLE)
    ensures Process(book, m).reply == Error <==>
            !IsFollowUp(m) || (About(m).Some? && About(m).value !in book) || Collides(book, m)
    ensures Process(book, m).reply == Threw <==> (IsFollowUp(m) && !HasIds(m)) || LacksId(book, m)
  {
    hide KeyForMessage, TryGet, IndexOf, Update, Rollback;
    hide Replacement, Superseded, NewOrder, IsReplaced, HasIds, NextKey;
    KeyNeedsIds(m, true);
    KeyNeedsIds(m, false);
    if IsFollowUp(m) && About(m).Some? && About(m).value in book {
      UpdateThrowsIff(book[About(m).value], m);
      ReplacementKey(book[About(m).value], m);
    }
  }
}
