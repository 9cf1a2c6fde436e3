/** The book routes (app/routes_book.py): adding a book and placing a book
    order. Unlike the food routes, neither add-book route has an
    authentication dependency: anyone can add a book (`AddBookIsOpen`). The
    model reproduces this rather than fixing it. */
module BookRoutes {
  import opened Common
  import opened Crypto
  import opened Auth
  import opened Catalog
  import opened Orders
  import FoodRoutes

  /** The book a requested title refers to: the first book with that title. */
  function BookMatch(menu: seq<Book>, title: string): Option<nat>
  {
    FirstIndex(menu, (b: Book) => b.title == title)
  }

  /** One order line: the price of the first book with the requested title,
      0 when no book has it. Book lines carry no description. */
  function BookLineFor(menu: seq<Book>, orderNumber: string, name: string, title: string, qty: int): OrderLine
  {
    match BookMatch(menu, title)
    case Some(i) => BookLine(orderNumber, name, title, qty, menu[i].price)
    case None => BookLine(orderNumber, name, title, qty, 0)
  }

  /** The first book with the requested title prices the line. */
  lemma FirstBookWins(menu: seq<Book>, orderNumber: string, name: string, title: string, qty: int, i: nat)
    requires i < |menu| && menu[i].title == title
    requires forall j :: 0 <= j < i ==> menu[j].title != title
    ensures BookLineFor(menu, orderNumber, name, title, qty) == BookLine(orderNumber, name, title, qty, menu[i].price)
    ensures BookLineFor(menu, orderNumber, name, title, qty).Amount() == menu[i].price * qty
  {
    var m := BookMatch(menu, title);
    assert m.Some?;
  }

  /** A title that is not on the menu is still ordered, at price 0. */
  lemma UnknownBookIsFree(menu: seq<Book>, orderNumber: string, name: string, title: string, qty: int)
    requires forall b :: b in menu ==> b.title != title
    ensures BookLineFor(menu, orderNumber, name, title, qty) == BookLine(orderNumber, name, title, qty, 0)
  {
  }

  /** The order as `zip(book_title, quantity)` builds it: the pairs run to
      the shorter list; the first quantity that is not an integer raises
      ValueError; otherwise one line per pair and their total. */
  function BookOrder(menu: seq<Book>, orderNumber: string, name: string, titles: seq<string>, quantities: Quantities)
    : (r: Result<Draft>)
    ensures r.Err? <==> exists j :: 0 <= j < Min(|titles|, |quantities|) && quantities[j].None?
    ensures r.Err? ==> r.error == Crash("ValueError")
    ensures r.Ok? ==> |r.value.lines| == Min(|titles|, |quantities|)
    ensures r.Ok? ==> forall j :: 0 <= j < |r.value.lines| ==>
              quantities[j].Some? && r.value.lines[j] == BookLineFor(menu, orderNumber, name, titles[j], quantities[j].value)
    ensures r.Ok? ==> r.value.total == LinesTotal(r.value.lines)
    ensures r.Ok? ==> forall j :: 0 <= j < |r.value.lines| ==>
              && r.value.lines[j].orderNumber == orderNumber && r.value.lines[j].name == name
              && r.value.lines[j].BookLine? && r.value.lines[j].bookTitle == titles[j] && r.value.lines[j].quantity == quantities[j].value
  {
    var n := Min(|titles|, |quantities|);
    if exists j :: 0 <= j < n && quantities[j].None? then
      Err(Crash("ValueError"))
    else
      var lines := seq(n, j requires 0 <= j < n => BookLineFor(menu, orderNumber, name, titles[j], quantities[j].value));
      Ok(Draft(lines, LinesTotal(lines)))
  }

  /** The loop of `post_order_book`, one pair at a time. */
  method BuildBookOrder(menu: seq<Book>, orderNumber: string, name: string, titles: seq<string>, quantities: Quantities)
    returns (r: Result<Draft>)
    ensures r == BookOrder(menu, orderNumber, name, titles, quantities)
  {
    var n := Min(|titles|, |quantities|);
    var lines: seq<OrderLine> := [];
    var total := 0;
    var i := 0;
    while i < n
      invariant 0 <= i <= n
      invariant forall j :: 0 <= j < i ==> quantities[j].Some?
      invariant |lines| == i
      invariant forall j :: 0 <= j < i ==> lines[j] == BookLineFor(menu, orderNumber, name, titles[j], quantities[j].value)
      invariant total == LinesTotal(lines)
    {
      if quantities[i].None? {
        assert 0 <= i < n && quantities[i].None?;
        return Err(Crash("ValueError"));
      }
      var line := BookLineFor(menu, orderNumber, name, titles[i], quantities[i].value);
      assert (lines + [line])[..i] == lines;
      total := total + line.Amount();
      lines := lines + [line];
      i := i + 1;
    }
    r := Ok(Draft(lines, total));
    ghost var spec := BookOrder(menu, orderNumber, name, titles, quantities);
    assert spec.Ok? && spec.value.lines == lines;
  }

  /** `POST /order_book`: no token needed. A bad quantity fails before the
      file is touched; otherwise the lines are merged under the customer's
      name in the book order file and confirmed with their total. */
  method PostOrderBook(menus: Menus, log: OrderLog, name: string, email: Option<string>, confirm: bool,
                       titles: seq<string>, quantities: Quantities, orderNumber: string)
    returns (r: Result<Confirmation>)
    modifies log
    ensures match BookOrder(menus.books, orderNumber, name, titles, quantities)
      case Err(e) => r == Err(e) && log.file == old(log.file)
      case Ok(d) =>
        && r == Ok(Confirmation(d.lines, "book", d.total, EmailRequested(confirm, email)))
        && log.file == Stored(Merge(ReadOrders(old(log.file)), name, d.lines))
  {
    var draft := BuildBookOrder(menus.books, orderNumber, name, titles, quantities);
    if draft.Err? {
      return Err(draft.error);
    }
    log.Record(name, draft.value.lines);
    r := Ok(Confirmation(draft.value.lines, "book", draft.value.total, EmailRequested(confirm, email)));
  }

  /** `GET /add_book`: the page is served to every request. */
  const AddBookPage: Result<string> := Ok("add_book.html")

  /** `POST /add_book`: no credential is asked for; the book is always
      appended and the home page lists both menus. */
  method PostAddBook(menus: Menus, title: string, yearPublished: string, price: int)
    returns (r: Result<(seq<Food>, seq<Book>)>)
    modifies menus
    ensures menus.books == old(menus.books) + [Book(title, yearPublished, price)]
    ensures menus.food == old(menus.food)
    ensures r == Ok((menus.food, menus.books))
  {
    menus.AddBook(Book(title, yearPublished, price));
    r := Ok((menus.food, menus.books));
  }

  /** The asymmetry between the two add pages: a request with no
      `Authorization` header is refused by add-food, whatever its query, but
      served by add-book. */
  lemma AddBookIsOpen(jose: Jose, cfg: Config, query: Option<string>, now: int)
    ensures FoodRoutes.GetAddFood(jose, cfg, None, query, now) == Err(HttpError(401, "Not authenticated"))
    ensures AddBookPage.Ok?
  {
  }
}
