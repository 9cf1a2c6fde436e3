/** The food routes (app/routes_food.py): adding a dish, which needs a valid
    access token, and placing a food order, which does not. The order route
    prices each requested dish from the menu, writes the order into the food
    order file and answers with a confirmation. */
module FoodRoutes {
  import opened Common
  import opened Crypto
  import opened Auth
  import opened Catalog
  import opened Orders

  const NoDescription: string := "No description available"

  /** The menu entry a requested name refers to: the first dish with that name. */
  function MenuMatch(menu: seq<Food>, item: string): Option<nat>
  {
    FirstIndex(menu, (f: Food) => f.name == item)
  }

  /** One order line: description and price of the first dish with the
      requested name, or the defaults when no dish has it. */
  function FoodLineFor(menu: seq<Food>, orderNumber: string, name: string, item: string, qty: int): OrderLine
  {
    match MenuMatch(menu, item)
    case Some(i) => FoodLine(orderNumber, name, item, menu[i].description, qty, menu[i].price)
    case None => FoodLine(orderNumber, name, item, NoDescription, qty, 0)
  }

  /** The first dish with the requested name decides the line; later dishes
      with the same name are never consulted. */
  lemma FirstDishWins(menu: seq<Food>, orderNumber: string, name: string, item: string, qty: int, i: nat)
    requires i < |menu| && menu[i].name == item
    requires forall j :: 0 <= j < i ==> menu[j].name != item
    ensures FoodLineFor(menu, orderNumber, name, item, qty) ==
      FoodLine(orderNumber, name, item, menu[i].description, qty, menu[i].price)
    ensures FoodLineFor(menu, orderNumber, name, item, qty).Amount() == menu[i].price * qty
  {
    var m := MenuMatch(menu, item);
    assert m.Some?;
  }

  /** A name that is not on the menu is still ordered, free and undescribed. */
  lemma UnknownDishIsFree(menu: seq<Food>, orderNumber: string, name: string, item: string, qty: int)
    requires forall f :: f in menu ==> f.name != item
    ensures FoodLineFor(menu, orderNumber, name, item, qty) == FoodLine(orderNumber, name, item, NoDescription, qty, 0)
    ensures FoodLineFor(menu, orderNumber, name, item, qty).Amount() == 0
  {
  }

  /** The order as `zip(food_item, quantity)` builds it: the pairs run to the
      shorter list; the first quantity that is not an integer raises
      ValueError; otherwise one line per pair and their total. */
  function FoodOrder(menu: seq<Food>, orderNumber: string, name: string, items: seq<string>, quantities: Quantities)
    : (r: Result<Draft>)
    ensures r.Err? <==> exists j :: 0 <= j < Min(|items|, |quantities|) && quantities[j].None?
    ensures r.Err? ==> r.error == Crash("ValueError")
    ensures r.Ok? ==> |r.value.lines| == Min(|items|, |quantities|)
    ensures r.Ok? ==> forall j :: 0 <= j < |r.value.lines| ==>
              quantities[j].Some? && r.value.lines[j] == FoodLineFor(menu, orderNumber, name, items[j], quantities[j].value)
    ensures r.Ok? ==> r.value.total == LinesTotal(r.value.lines)
    ensures r.Ok? ==> forall j :: 0 <= j < |r.value.lines| ==>
              && r.value.lines[j].orderNumber == orderNumber && r.value.lines[j].name == name
              && r.value.lines[j].FoodLine? && r.value.lines[j].foodItem == items[j] && r.value.lines[j].quantity == quantities[j].value
  {
    var n := Min(|items|, |quantities|);
    if exists j :: 0 <= j < n && quantities[j].None? then
      Err(Crash("ValueError"))
    else
      var lines := seq(n, j requires 0 <= j < n => FoodLineFor(menu, orderNumber, name, items[j], quantities[j].value));
      Ok(Draft(lines, LinesTotal(lines)))
  }

  /** The loop of `post_order_food`, one pair at a time. */
  method BuildFoodOrder(menu: seq<Food>, orderNumber: string, name: string, items: seq<string>, quantities: Quantities)
    returns (r: Result<Draft>)
    ensures r == FoodOrder(menu, orderNumber, name, items, quantities)
  {
    var n := Min(|items|, |quantities|);
    var lines: seq<OrderLine> := [];
    var total := 0;
    var i := 0;
    while i < n
      invariant 0 <= i <= n
      invariant forall j :: 0 <= j < i ==> quantities[j].Some?
      invariant |lines| == i
      invariant forall j :: 0 <= j < i ==> lines[j] == FoodLineFor(menu, orderNumber, name, items[j], quantities[j].value)
      invariant total == LinesTotal(lines)
    {
      if quantities[i].None? {
        assert 0 <= i < n && quantities[i].None?;
        return Err(Crash("ValueError"));
      }
      var line := FoodLineFor(menu, orderNumber, name, items[i], quantities[i].value);
      assert (lines + [line])[..i] == lines;
      total := total + line.Amount();
      lines := lines + [line];
      i := i + 1;
    }
    r := Ok(Draft(lines, total));
    ghost var spec := FoodOrder(menu, orderNumber, name, items, quantities);
    assert spec.Ok? && spec.value.lines == lines;
  }

  /** `POST /order_food`: no token needed. A bad quantity fails before the
      file is touched; otherwise the lines are merged under the customer's
      name and confirmed with their total. */
  method PostOrderFood(menus: Menus, log: OrderLog, name: string, email: Option<string>, confirm: bool,
                       items: seq<string>, quantities: Quantities, orderNumber: string)
    returns (r: Result<Confirmation>)
    modifies log
    ensures match FoodOrder(menus.food, orderNumber, name, items, quantities)
      case Err(e) => r == Err(e) && log.file == old(log.file)
      case Ok(d) =>
        && r == Ok(Confirmation(d.lines, "food", d.total, EmailRequested(confirm, email)))
        && log.file == Stored(Merge(ReadOrders(old(log.file)), name, d.lines))
  {
    var draft := BuildFoodOrder(menus.food, orderNumber, name, items, quantities);
    if draft.Err? {
      return Err(draft.error);
    }
    log.Record(name, draft.value.lines);
    r := Ok(Confirmation(draft.value.lines, "food", draft.value.total, EmailRequested(confirm, email)));
  }

  /** `GET /add_food`: the page is served only when the request gets past
      the bearer dependency and `get_current_user` accepts its credential;
      otherwise the 401 of whichever refused it is the answer. */
  function GetAddFood(jose: Jose, cfg: Config, authorization: Option<string>, queryToken: Option<string>, now: int)
    : (r: Result<string>)
    ensures r.Ok? <==> RequestUser(jose, cfg, authorization, queryToken, now).Ok?
    ensures r.Ok? ==> r.value == "add_food.html"
    ensures r.Err? ==> r.error.HttpError? && r.error.status == 401
    ensures authorization.None? ==> r == Err(HttpError(401, "Not authenticated"))
  {
    match RequestUser(jose, cfg, authorization, queryToken, now)
    case Err(e) => Err(e)
    case Ok(_) => Ok("add_food.html")
  }

  /** `POST /add_food`: when the request resolves to a user the dish is
      appended to the food menu and the home page lists both menus;
      otherwise the menus are untouched and the answer is a 401. */
  method PostAddFood(menus: Menus, jose: Jose, cfg: Config, authorization: Option<string>, queryToken: Option<string>,
                     now: int, name: string, description: string, price: int)
    returns (r: Result<(seq<Food>, seq<Book>)>)
    modifies menus
    ensures match RequestUser(jose, cfg, authorization, queryToken, now)
      case Err(e) => r == Err(e) && menus.food == old(menus.food) && menus.books == old(menus.books)
      case Ok(_) =>
        && menus.food == old(menus.food) + [Food(name, description, price)]
        && menus.books == old(menus.books)
        && r == Ok((menus.food, menus.books))
  {
    var user := RequestUser(jose, cfg, authorization, queryToken, now);
    if user.Err? {
      return Err(user.error);
    }
    menus.AddFood(Food(name, description, price));
    r := Ok((menus.food, menus.books));
  }

  /** A token issued by `create_access_token` opens the add-food page until
      it expires when sent as "Bearer " + token, or as the query parameter
      behind a bare "Bearer " header; as the query parameter alone it is
      refused before `get_current_user` runs. */
  lemma IssuedTokenOpensAddFood(jose: Jose, cfg: Config, data: Claims, now: int, t: int, query: Option<string>)
    requires JoseLaws(jose) && PayloadOk(data)
    requires t <= now + 60 * cfg.ttlMinutes
    ensures var token := CreateAccessToken(jose, cfg, data, now);
      && GetAddFood(jose, cfg, Some("Bearer " + token), query, t) == Ok("add_food.html")
      && GetAddFood(jose, cfg, Some("Bearer "), Some(token), t) == Ok("add_food.html")
      && GetAddFood(jose, cfg, None, Some(token), t) == Err(HttpError(401, "Not authenticated"))
  {
    IssuedTokenThroughDependency(jose, cfg, data, now, t, query);
  }
}
