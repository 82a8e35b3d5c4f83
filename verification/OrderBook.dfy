/** The order and order_book classes, updating their state step by step. */
module OrderBooks {
  import opened Optional
  import opened Bytes
  import opened Fields
  import opened OrderModel

  class LiveOrder {
    var key: Text
    const sender: Text
    const target: Text
    var clOrdID: Field
    var origClOrdID: Option<Field>
    var previousOrdStatus: Option<Field>
    var newClOrdID: Option<Field>
    var fields: Fix
    var pending: Fix
    var messages: seq<Fix>

    /** The copy constructor. */
    constructor (o: Order)
      ensures View() == o
    {
      key, sender, target, clOrdID, origClOrdID := o.key, o.sender, o.target, o.clOrdID, o.origClOrdID;
      previousOrdStatus, newClOrdID := o.previousOrdStatus, o.newClOrdID;
      fields, pending, messages := o.fields, o.pending, o.messages;
    }

    function View(): Order
      reads this
    {
      Order(key, sender, target, clOrdID, origClOrdID, previousOrdStatus, newClOrdID, fields, pending, messages)
    }

    method UpdatePendingFields(m: Fix)
      modifies this`pending
      ensures pending == Merge(old(pending), m)
    {
      for i := 0 to |m|
        invariant pending == Merge(old(pending), m[..i])
      {
        assert m[..i + 1][..i] == m[..i];
        if !IsIdentity(m[i].tag) {
          pending := SetField(pending, m[i], ReplaceFirstOrAppend);
        }
      }
      assert m[..|m|] == m;
    }

    method UpdateFields(m: Fix)
      modifies this`fields
      ensures fields == Merge(old(fields), m)
    {
      for i := 0 to |m|
        invariant fields == Merge(old(fields), m[..i])
      {
        assert m[..i + 1][..i] == m[..i];
        if !IsIdentity(m[i].tag) {
          fields := SetField(fields, m[i], ReplaceFirstOrAppend);
        }
      }
      assert m[..|m|] == m;
    }

    method Update(m: Fix) returns (threw: bool)
      modifies this
      ensures Change(View(), threw) == OrderModel.Update(old(View()), m)
    {
      hide Merge, SetField, TryGet;
      messages := messages + [m];
      var kind := TryGet(m, MSG_TYPE);
      if kind.None? {
        return true;
      }
      if kind.value.value == ORDER_CANCEL_REPLACE_REQUEST {
        previousOrdStatus := TryGet(fields, ORD_STATUS);
        if TryGet(m, CL_ORD_ID).None? {
          return true;
        }
        newClOrdID := TryGet(m, CL_ORD_ID);
        UpdatePendingFields(m);
        fields := SetField(fields, Field(ORD_STATUS, PENDING_REPLACE), ReplaceFirst);
        return false;
      }
      if kind.value.value == ORDER_CANCEL_REQUEST {
        previousOrdStatus := TryGet(fields, ORD_STATUS);
        UpdatePendingFields(m);
        fields := SetField(fields, Field(ORD_STATUS, PENDING_CANCEL), ReplaceFirst);
        return false;
      }
      UpdateFields(m);
      return false;
    }

    method Commit()
      modifies this
      ensures View() == OrderModel.Commit(old(View()))
    {
      UpdateFields(pending);
      pending := [];
    }

    method Rollback()
      modifies this
      ensures View() == OrderModel.Rollback(old(View()))
    {
      pending := [];
      if previousOrdStatus.Some? {
        fields := SetField(fields, previousOrdStatus.value, ReplaceFirst);
        previousOrdStatus := None;
      }
    }

    /** Copies the order, makes the copy its replacement, and supersedes it. Nothing happens to
        it if the copy cannot take the report in. */
    method Replace(report: Fix) returns (replacement: LiveOrder, threw: bool)
      modifies this
      ensures fresh(replacement) && threw == OrderModel.Update(old(View()), report).threw
      ensures if threw then View() == old(View())
              else View() == Superseded(old(View()), report) && replacement.View() == Replacement(old(View()), report)
    {
      hide OrderModel.Update, OrderModel.Commit, OrderModel.Rollback, SetField, TryGet, CreateKey;
      replacement := new LiveOrder(View());
      threw := replacement.Update(report);
      if threw {
        return;
      }
      replacement.Commit();
      Rollback();
      assert View().newClOrdID == old(View()).newClOrdID by { RollbackKeepsNewId(old(View())); }
      var id := if newClOrdID.Some? then newClOrdID else TryGet(report, CL_ORD_ID);
      if id.Some? {
        replacement.fields := SetField(replacement.fields, id.value, ReplaceFirstOrAppend);
        var original := Field(ORIG_CL_ORD_ID, replacement.clOrdID.value);
        replacement.fields := SetField(replacement.fields, original, ReplaceFirstOrAppend);
        replacement.origClOrdID := Some(replacement.clOrdID);
        replacement.clOrdID := id.value;
      }
      replacement.key := CreateKey(replacement.sender, replacement.target, replacement.clOrdID.value);
      replacement.fields := SetField(replacement.fields, Field(ORD_STATUS, NEW), ReplaceFirst);
      fields := SetField(fields, Field(ORD_STATUS, REPLACED), ReplaceFirst);
      messages := messages + [report];
    }
  }

  lemma RollbackKeepsNewId(o: Order)
    ensures OrderModel.Rollback(o).newClOrdID == o.newClOrdID
  {
  }

  class OrderBook {
    var orders: Book
    ghost var history: seq<Fix>  // the messages processed so far

    constructor ()
      ensures orders == map[] && history == []
    {
      orders, history := map[], [];
    }

    method ProcessOrderSingle(m: Fix) returns (reply: Reply)
      requires IsKind(m, NEW_ORDER_SINGLE)
      modifies this`orders
      ensures var r := OrderModel.Process(old(orders), m); orders == r.book && reply == r.reply
    {
      hide TryGet, NewOrder;
      var o := NewOrder(m);
      if o.None? || o.value.key in orders {
        return Error;
      }
      orders := orders[o.value.key := o.value];
      return Ok;
    }

    method ProcessExecutionReport(m: Fix) returns (reply: Reply)
      requires IsKind(m, EXECUTION_REPORT)
      modifies this`orders
      ensures var r := OrderModel.Process(old(orders), m); orders == r.book && reply == r.reply
    {
      hide TryGet, KeyForMessage, Replacement, Superseded, Merge;
      var key := KeyForMessage(m, true);
      if key.None? {
        return Threw;
      }
      if key.value !in orders {
        return Error;
      }
      var order := new LiveOrder(orders[key.value]);
      if IsReplaced(m) {
        var replacement, threw := order.Replace(m);
        orders := orders[key.value := order.View()];
        var r := replacement.View();
        if r.key in orders {
          return Error;
        }
        orders := orders[r.key := r];
        return Ok;
      }
      var threw := order.Update(m);
      orders := orders[key.value := order.View()];
      return Ok;
    }

    /** Cancel and cancel/replace requests. */
    method ProcessRequest(m: Fix) returns (reply: Reply)
      requires IsKind(m, ORDER_CANCEL_REQUEST) || IsKind(m, ORDER_CANCEL_REPLACE_REQUEST)
      modifies this`orders
      ensures var r := OrderModel.Process(old(orders), m); orders == r.book && reply == r.reply
    {
      hide TryGet, KeyForMessage, OrderModel.Update;
      var key := KeyForMessage(m, false);
      if key.None? {
        return Threw;
      }
      if key.value !in orders {
        return Error;
      }
      var order := new LiveOrder(orders[key.value]);
      var threw := order.Update(m);
      orders := orders[key.value := order.View()];
      return if threw then Threw else Ok;
    }

    method ProcessOrderCancelReject(m: Fix) returns (reply: Reply)
      requires IsKind(m, ORDER_CANCEL_REJECT)
      modifies this`orders
      ensures var r := OrderModel.Process(old(orders), m); orders == r.book && reply == r.reply
    {
      hide TryGet, KeyForMessage, OrderModel.Rollback;
      var key := KeyForMessage(m, true);
      if key.None? {
        return Threw;
      }
      if key.value !in orders {
        return Error;
      }
      var order := new LiveOrder(orders[key.value]);
      order.Rollback();
      orders := orders[key.value := order.View()];
      return Ok;
    }

    method Process(m: Fix) returns (reply: Reply)
      requires orders == After(history).book
      modifies this
      ensures orders == After(history).book && history == old(history) + [m]
      ensures var r := OrderModel.Process(old(orders), m); orders == r.book && reply == r.reply
    {
      hide OrderModel.Process, TryGet;
      history := history + [m];
      assert history[..|history| - 1] == old(history);
      if TryGet(m, MSG_TYPE).None? {
        NotHandled(orders, m);
        return Error;
      }
      if IsKind(m, NEW_ORDER_SINGLE) {
        reply := ProcessOrderSingle(m);
      } else if IsKind(m, EXECUTION_REPORT) {
        reply := ProcessExecutionReport(m);
      } else if IsKind(m, ORDER_CANCEL_REQUEST) || IsKind(m, ORDER_CANCEL_REPLACE_REQUEST) {
        reply := ProcessRequest(m);
      } else if IsKind(m, ORDER_CANCEL_REJECT) {
        reply := ProcessOrderCancelReject(m);
      } else {
        NotHandled(orders, m);
        reply := Error;
      }
    }
  }

  lemma NotHandled(book: Book, m: Fix)
    requires !IsKind(m, NEW_ORDER_SINGLE) && !IsKind(m, EXECUTION_REPORT) && !IsKind(m, ORDER_CANCEL_REQUEST)
    requires !IsKind(m, ORDER_CANCEL_REPLACE_REQUEST) && !IsKind(m, ORDER_CANCEL_REJECT)
    ensures OrderModel.Process(book, m) == Outcome(book, Error, [])
  {
    hide TryGet;
  }
}
