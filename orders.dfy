/** The order files the two order routes share in shape
    (data/orders_food.json and data/orders_book.json): a list of customer
    records, each a name and the order lines placed under it. A new order is
    merged into the first record with the customer's name, or starts a new
    record at the end. */
module Orders {
  import opened Common

  /** One line of `order_details`; prices and amounts are whole pence. */
  datatype OrderLine =
    | FoodLine(orderNumber: string, name: string, foodItem: string, description: string, quantity: int, price: int)
    | BookLine(orderNumber: string, name: string, bookTitle: string, quantity: int, price: int)
  {
    /** What the line adds to `total_amount`: `price * qty`. */
    function Amount(): int
    {
      price * quantity
    }
  }

  /** A customer record; `orders` is None when the record has no "orders" key. */
  datatype CustomerRecord = CustomerRecord(name: string, orders: Option<seq<OrderLine>>)

  /** The order file as the route finds it. */
  datatype OrdersFile = Missing | Corrupt | Stored(records: seq<CustomerRecord>)

  /** Reading the file: a missing file and one that is not valid JSON both
      read as no records at all (and the next write replaces them). */
  function ReadOrders(f: OrdersFile): (r: seq<CustomerRecord>)
    ensures f.Stored? ==> r == f.records
    ensures !f.Stored? ==> r == []
  {
    if f.Stored? then f.records else []
  }

  /** A file that is missing or is not valid JSON is replaced by one holding
      only the new customer's record: earlier content is lost. */
  lemma UnreadableFileStartsOver(f: OrdersFile, name: string, lines: seq<OrderLine>)
    requires !f.Stored?
    ensures Merge(ReadOrders(f), name, lines) == [CustomerRecord(name, Some(lines))]
  {
    assert FindCustomer([], name) == None;
  }

  /** `total_amount` after the loop: the sum of the line amounts. */
  function LinesTotal(lines: seq<OrderLine>): int
  {
    if |lines| == 0 then 0 else LinesTotal(lines[..|lines| - 1]) + lines[|lines| - 1].Amount()
  }

  /** The total of two runs of lines is the sum of their totals. */
  lemma {:induction false} LinesTotalAppend(a: seq<OrderLine>, b: seq<OrderLine>)
    ensures LinesTotal(a + b) == LinesTotal(a) + LinesTotal(b)
    decreases |b|
  {
    if |b| > 0 {
      assert (a + b)[..|a + b| - 1] == a + b[..|b| - 1];
      LinesTotalAppend(a, b[..|b| - 1]);
    } else {
      assert a + b == a;
    }
  }

  /** The lines of a record; a record without "orders" has none. */
  function LinesOf(rec: CustomerRecord): seq<OrderLine>
  {
    if rec.orders.Some? then rec.orders.value else []
  }

  /** `next((order for order in orders if order["name"] == name), None)`. */
  function FindCustomer(records: seq<CustomerRecord>, name: string): Option<nat>
  {
    FirstIndex(records, (rec: CustomerRecord) => rec.name == name)
  }

  /** The lines filed under `name`: those of the first record with that name. */
  function CustomerLines(records: seq<CustomerRecord>, name: string): seq<OrderLine>
  {
    match FindCustomer(records, name)
    case Some(i) => LinesOf(records[i])
    case None => []
  }

  /** The merge: the first record with the name gets the new lines appended
      (an "orders" list is created first if it is missing); with no such
      record a new one is appended at the end. */
  function Merge(records: seq<CustomerRecord>, name: string, lines: seq<OrderLine>): (r: seq<CustomerRecord>)
    ensures |r| == if FindCustomer(records, name).Some? then |records| else |records| + 1
    ensures forall j :: 0 <= j < |records| ==> r[j].name == records[j].name
    ensures forall j :: 0 <= j < |records| && FindCustomer(records, name) != Some(j) ==> r[j] == records[j]
    ensures FindCustomer(records, name).None? ==> r[|records|] == CustomerRecord(name, Some(lines))
  {
    match FindCustomer(records, name)
    case Some(i) => records[i := CustomerRecord(records[i].name, Some(LinesOf(records[i]) + lines))]
    case None => records + [CustomerRecord(name, Some(lines))]
  }

  /** After the merge the customer's lines are the old ones followed by the
      new order's, in order. */
  lemma MergeExtends(records: seq<CustomerRecord>, name: string, lines: seq<OrderLine>)
    ensures CustomerLines(Merge(records, name, lines), name) == CustomerLines(records, name) + lines
  {
    var p := (rec: CustomerRecord) => rec.name == name;
    var r := Merge(records, name, lines);
    match FindCustomer(records, name)
    case Some(i) =>
      FirstIndexAgrees(records, r, p, p);
    case None =>
      FirstIndexAppend(records, CustomerRecord(name, Some(lines)), p);
  }

  /** No other customer's lines change. */
  lemma MergeKeepsOthers(records: seq<CustomerRecord>, name: string, lines: seq<OrderLine>, other: string)
    requires other != name
    ensures CustomerLines(Merge(records, name, lines), other) == CustomerLines(records, other)
  {
    var q := (rec: CustomerRecord) => rec.name == other;
    var r := Merge(records, name, lines);
    match FindCustomer(records, name)
    case Some(i) =>
      FirstIndexAgrees(records, r, q, q);
      var k := FindCustomer(records, other);
      if k.Some? {
        assert k.value != i;
        assert r[k.value] == records[k.value];
      }
    case None =>
      FirstIndexAppend(records, CustomerRecord(name, Some(lines)), q);
  }

  /** Names are never duplicated by a merge: a file whose records have
      distinct names keeps that property. */
  predicate DistinctNames(records: seq<CustomerRecord>)
  {
    forall j, k :: 0 <= j < k < |records| ==> records[j].name != records[k].name
  }

  lemma MergeKeepsNamesDistinct(records: seq<CustomerRecord>, name: string, lines: seq<OrderLine>)
    requires DistinctNames(records)
    ensures DistinctNames(Merge(records, name, lines))
    ensures name in set rec | rec in Merge(records, name, lines) :: rec.name
  {
    var r := Merge(records, name, lines);
    match FindCustomer(records, name)
    case Some(i) =>
      assert r[i] in r;
    case None =>
      assert r[|records|] in r;
  }

  /** The lines and total an order produces before anything is written. */
  datatype Draft = Draft(lines: seq<OrderLine>, total: int)

  /** `int(qty)` for each submitted quantity; None where `int` raises. */
  type Quantities = seq<Option<int>>

  /** `if email_confirmation and email`: whether a confirmation mail goes out. */
  predicate EmailRequested(confirm: bool, email: Option<string>)
  {
    confirm && email.Some? && email.value != ""
  }

  /** What the confirmation page shows, and whether a mail was sent. */
  datatype Confirmation = Confirmation(details: seq<OrderLine>, orderType: string, totalAmount: int, emailSent: bool)

  /** The order file itself: each order route reads it, merges and writes
      the whole list back. */
  class OrderLog {
    var file: OrdersFile

    constructor (file: OrdersFile)
      ensures this.file == file
    {
      this.file := file;
    }

    /** Read, merge `lines` under `name`, write back. */
    method Record(name: string, lines: seq<OrderLine>)
      modifies this
      ensures file == Stored(Merge(ReadOrders(old(file)), name, lines))
    {
      var orders := ReadOrders(file);
      file := Stored(Merge(orders, name, lines));
    }
  }
}
