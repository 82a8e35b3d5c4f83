/** The order book of libcrocofix/order.cpp and order_book.cpp as functions on values: the
    book stores its orders by value, and a replacement is a copy of the order it replaces. */
module OrderModel {
  import opened Optional
  import opened Bytes
  import opened Fields

  type Text = seq<byte>
  type Fix = seq<Field>  // the fields of one FIX message

  const BEGIN_STRING: Tag := 8
  const CL_ORD_ID: Tag := 11
  const MSG_TYPE: Tag := 35
  const ORD_STATUS: Tag := 39
  const ORIG_CL_ORD_ID: Tag := 41
  const SENDER_COMP_ID: Tag := 49
  const TARGET_COMP_ID: Tag := 56
  const EXEC_TYPE: Tag := 150

  const NEW_ORDER_SINGLE: Text := [68]             // D
  const EXECUTION_REPORT: Text := [56]             // 8
  const ORDER_CANCEL_REQUEST: Text := [70]         // F
  const ORDER_CANCEL_REPLACE_REQUEST: Text := [71] // G
  const ORDER_CANCEL_REJECT: Text := [57]          // 9
  const PENDING_REPLACE: Text := [69]              // E
  const PENDING_CANCEL: Text := [54]               // 6
  const NEW: Text := [48]                          // 0
  const REPLACED: Text := [53]                     // 5, of OrdStatus and of ExecType

  predicate IsIdentity(tag: Tag) { tag in {BEGIN_STRING, SENDER_COMP_ID, TARGET_COMP_ID, CL_ORD_ID, ORIG_CL_ORD_ID} }

  datatype Order = Order(key: Text, sender: Text, target: Text, clOrdID: Field, origClOrdID: Option<Field>,
                         previousOrdStatus: Option<Field>, newClOrdID: Option<Field>,
                         fields: Fix, pending: Fix, messages: seq<Fix>)

  function CreateKey(sender: Text, target: Text, clOrdID: Text): Text { sender + [MINUS] + target + [MINUS] + clOrdID }

  /** The key of the order a message is about; None is an exception. */
  function KeyForMessage(m: Fix, reverse: bool): Option<Text> {
    var sender, target := TryGet(m, SENDER_COMP_ID), TryGet(m, TARGET_COMP_ID);
    var id := if TryGet(m, ORIG_CL_ORD_ID).Some? then TryGet(m, ORIG_CL_ORD_ID) else TryGet(m, CL_ORD_ID);
    if sender.None? || target.None? || id.None? then None
    else if reverse then Some(CreateKey(target.value.value, sender.value.value, id.value.value))
    else Some(CreateKey(sender.value.value, target.value.value, id.value.value))
  }

  /** The order a message opens; None is an exception. */
  function NewOrder(m: Fix): Option<Order> {
    var sender, target, id := TryGet(m, SENDER_COMP_ID), TryGet(m, TARGET_COMP_ID), TryGet(m, CL_ORD_ID);
    if TryGet(m, BEGIN_STRING).None? || sender.None? || target.None? || id.None? then None
    else
      var key := CreateKey(sender.value.value, target.value.value, id.value.value);
      var original := TryGet(m, ORIG_CL_ORD_ID);
      Some(Order(key, sender.value.value, target.value.value, id.value, original, None, None, m, [], [m]))
  }

  /** update_fields and update_pending_fields: the fields of m, except those that identify the
      order, one after the other. */
  function Merge(fs: Fix, m: Fix): Fix {
    if m == [] then fs
    else
      var gs, f := Merge(fs, m[..|m| - 1]), m[|m| - 1];
      if IsIdentity(f.tag) then gs else SetField(gs, f, ReplaceFirstOrAppend)
  }

  function SetStatus(fs: Fix, status: Text): Fix { SetField(fs, Field(ORD_STATUS, status), ReplaceFirst) }

  /** The order as a call leaves it, and whether the call threw. */
  datatype Change = Change(order: Order, threw: bool)

  function Update(o: Order, m: Fix): Change {
    var noted := o.(messages := o.messages + [m]);
    var kind := TryGet(m, MSG_TYPE);
    if kind.None? then Change(noted, true)
    else if kind.value.value == ORDER_CANCEL_REPLACE_REQUEST then
      var cached := noted.(previousOrdStatus := TryGet(o.fields, ORD_STATUS));
      var id := TryGet(m, CL_ORD_ID);
      if id.None? then Change(cached, true)
      else
        var fields := SetStatus(o.fields, PENDING_REPLACE);
        Change(cached.(newClOrdID := id, pending := Merge(o.pending, m), fields := fields), false)
    else if kind.value.value == ORDER_CANCEL_REQUEST then
      var previous, fields := TryGet(o.fields, ORD_STATUS), SetStatus(o.fields, PENDING_CANCEL);
      Change(noted.(previousOrdStatus := previous, pending := Merge(o.pending, m), fields := fields), false)
    else
      Change(noted.(fields := Merge(o.fields, m)), false)
  }

  function Commit(o: Order): Order { o.(fields := Merge(o.fields, o.pending), pending := []) }

  function Rollback(o: Order): Order {
    if o.previousOrdStatus.None? then o.(pending := [])
    else
      var fields := SetField(o.fields, o.previousOrdStatus.value, ReplaceFirst);
      o.(pending := [], fields := fields, previousOrdStatus := None)
  }

  /** The id a replacement gets: the one asked for, else the one reported. */
  function NextId(o: Order, report: Fix): Option<Field> {
    if o.newClOrdID.Some? then o.newClOrdID else TryGet(report, CL_ORD_ID)
  }

  function Renamed(o: Order, id: Option<Field>): Order {
    if id.None? then o
    else
      var fs := SetField(o.fields, id.value, ReplaceFirstOrAppend);
      var gs := SetField(fs, Field(ORIG_CL_ORD_ID, o.clOrdID.value), ReplaceFirstOrAppend);
      o.(fields := gs, origClOrdID := Some(o.clOrdID), clOrdID := id.value)
  }

  /** The order that takes o's place. */
  function Replacement(o: Order, report: Fix): Order {
    var r := Renamed(Commit(Update(o, report).order), NextId(o, report));
    r.(key := CreateKey(r.sender, r.target, r.clOrdID.value), fields := SetStatus(r.fields, NEW))
  }

  /** What replace leaves of the order itself. */
  function Superseded(o: Order, report: Fix): Order {
    var r := Rollback(o);
    r.(fields := SetStatus(r.fields, REPLACED), messages := r.messages + [report])
  }

  // --------------------------------------------------------------- the book

  type Book = map<Text, Order>

  datatype Reply = Ok | Error | Threw

  /** How an order came into the book. */
  datatype Birth = Single(key: Text) | Replacing(key: Text, original: Text)

  datatype Outcome = Outcome(book: Book, reply: Reply, births: seq<Birth>)

  function Fail(book: Book, reply: Reply): Outcome { Outcome(book, reply, []) }

  function ProcessSingle(book: Book, m: Fix): Outcome {
    var o := NewOrder(m);
    if o.None? || o.value.key in book then Fail(book, Error)
    else Outcome(book[o.value.key := o.value], Ok, [Single(o.value.key)])
  }

  function UpdateAt(book: Book, key: Text, m: Fix): Outcome
    requires key in book
  {
    var c := Update(book[key], m);
    Outcome(book[key := c.order], if c.threw then Threw else Ok, [])
  }

  function ReplaceAt(book: Book, key: Text, report: Fix): Outcome
    requires key in book
  {
    var r, rest := Replacement(book[key], report), book[key := Superseded(book[key], report)];
    if r.key in book then Fail(rest, Error) else Outcome(rest[r.key := r], Ok, [Replacing(r.key, key)])
  }

  predicate IsReplaced(report: Fix) {
    TryGet(report, EXEC_TYPE).Some? && TryGet(report, EXEC_TYPE).value.value == REPLACED
  }

  predicate IsKind(m: Fix, kind: Text) { TryGet(m, MSG_TYPE).Some? && TryGet(m, MSG_TYPE).value.value == kind }

  function Process(book: Book, m: Fix): Outcome {
    if TryGet(m, MSG_TYPE).None? then Fail(book, Error)
    else if IsKind(m, NEW_ORDER_SINGLE) then ProcessSingle(book, m)
    else
      var report, reject := IsKind(m, EXECUTION_REPORT), IsKind(m, ORDER_CANCEL_REJECT);
      var request := IsKind(m, ORDER_CANCEL_REQUEST) || IsKind(m, ORDER_CANCEL_REPLACE_REQUEST);
      if !report && !reject && !request then Fail(book, Error)
      else
        var key := KeyForMessage(m, report || reject);
        if key.None? then Fail(book, Threw)
        else if key.value !in book then Fail(book, Error)
        else if reject then Outcome(book[key.value := Rollback(book[key.value])], Ok, [])
        else if report && IsReplaced(m) then ReplaceAt(book, key.value, m)
        else UpdateAt(book, key.value, m)
  }

  /** The book, and the orders in the sequence in which they came in, after some messages. */
  datatype History = History(book: Book, births: seq<Birth>)

  function After(ms: seq<Fix>): History {
    if ms == [] then History(map[], [])
    else
      var h := After(ms[..|ms| - 1]);
      var r := Process(h.book, ms[|ms| - 1]);
      History(r.book, h.births + r.births)
  }
}
