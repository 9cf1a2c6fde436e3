/** The command-line café (app/cli.py). Food and books share one numbered
    listing, food first; a customer builds a basket by typing numbers until
    "done"; staff add and delete items by number. Console lines are given as
    strings, each already read; prices are whole pence. */
module Cli {
  import opened Common
  import opened PyStr
  import opened Catalog

  /** A basket entry: either kind of menu item. */
  datatype Item = FoodItem(food: Food) | BookItem(book: Book)
  {
    function Price(): int
    {
      match this
      case FoodItem(f) => f.price
      case BookItem(b) => b.price
    }
  }

  /** One line of `display_menu_and_books`: the number shown and its item. */
  datatype Entry = Entry(number: nat, item: Item)

  /** The combined listing: food numbered from 1, books continuing after the
      last food number. */
  function Listing(food: seq<Food>, books: seq<Book>): (r: seq<Entry>)
    ensures |r| == |food| + |books|
    ensures forall k :: 0 <= k < |r| ==> r[k].number == k + 1
    ensures forall k :: 0 <= k < |r| ==> (r[k].item.FoodItem? <==> k < |food|)
  {
    seq(|food|, i requires 0 <= i < |food| => Entry(i + 1, FoodItem(food[i])))
    + seq(|books|, j requires 0 <= j < |books| => Entry(|food| + 1 + j, BookItem(books[j])))
  }

  /** The item a number selects: food for 1..|food|, a book for the next
      |books| numbers, nothing otherwise. */
  function Choose(food: seq<Food>, books: seq<Book>, n: nat): Option<Item>
  {
    if 1 <= n <= |food| then Some(FoodItem(food[n - 1]))
    else if |food| < n <= |food| + |books| then Some(BookItem(books[n - |food| - 1]))
    else None
  }

  /** A number selects something exactly when the listing shows it, and
      then it selects the entry shown with that number. */
  lemma ChooseMatchesListing(food: seq<Food>, books: seq<Book>, n: nat)
    ensures Choose(food, books, n).Some? <==> 1 <= n <= |Listing(food, books)|
    ensures Choose(food, books, n).Some? ==>
              Listing(food, books)[n - 1] == Entry(n, Choose(food, books, n).value)
  {
  }

  /** What one input line adds to the basket: the selected item when the
      line is a number in range, nothing for any other line. */
  function Pick(food: seq<Food>, books: seq<Book>, line: string): (r: seq<Item>)
    ensures |r| <= 1
  {
    if IsDigits(line) then
      match Choose(food, books, ParseNat(line))
      case Some(item) => [item]
      case None => []
    else []
  }

  /** Typing back the number shown next to an entry selects that entry, and
      the listing numbers 1, 2, ... in order with no gap. */
  lemma ShownNumberSelectsEntry(food: seq<Food>, books: seq<Book>, k: nat)
    requires k < |Listing(food, books)|
    ensures Listing(food, books)[k].number == k + 1
    ensures Pick(food, books, ShowNat(Listing(food, books)[k].number)) == [Listing(food, books)[k].item]
  {
    var e := Listing(food, books)[k];
    ParseShow(e.number);
    if k >= |food| {
      assert e == Entry(|food| + 1 + (k - |food|), BookItem(books[k - |food|]));
    }
  }

  /** Numbers outside the listing select nothing. */
  lemma OutOfRangeSelectsNothing(food: seq<Food>, books: seq<Book>, line: string)
    requires IsDigits(line)
    requires ParseNat(line) == 0 || ParseNat(line) > |Listing(food, books)|
    ensures Pick(food, books, line) == []
  {
  }

  /** `choice.lower() == 'done'`. */
  predicate IsDone(line: string)
  {
    Lower(line) == "done"
  }

  /** "done" ends the basket in any mix of cases, and nothing else does. */
  lemma IsDoneAnyCase(line: string)
    ensures IsDone(line) <==>
      |line| == 4 && line[0] in "dD" && line[1] in "oO" && line[2] in "nN" && line[3] in "eE"
  {
    if |line| == 4 {
      assert Lower(line) == [LowerChar(line[0]), LowerChar(line[1]), LowerChar(line[2]), LowerChar(line[3])];
    }
  }

  /** The basket after the given lines, in order. */
  function Picks(food: seq<Food>, books: seq<Book>, lines: seq<string>): seq<Item>
  {
    if |lines| == 0 then []
    else Picks(food, books, lines[..|lines| - 1]) + Pick(food, books, lines[|lines| - 1])
  }

  /** Every basket entry is an item of one of the two menus. */
  lemma {:induction false} PicksFromMenus(food: seq<Food>, books: seq<Book>, lines: seq<string>)
    ensures forall x :: x in Picks(food, books, lines) ==>
      (x.FoodItem? && x.food in food) || (x.BookItem? && x.book in books)
    ensures |Picks(food, books, lines)| <= |lines|
  {
    if |lines| > 0 {
      PicksFromMenus(food, books, lines[..|lines| - 1]);
    }
  }

  /** `calculate_total`: the sum of the basket's prices. */
  function Total(basket: seq<Item>): int
  {
    if |basket| == 0 then 0
    else Total(basket[..|basket| - 1]) + basket[|basket| - 1].Price()
  }

  /** The total of two baskets put together is the sum of their totals; with
      `Total([]) == 0` this makes `Total` the sum of the prices. */
  lemma {:induction false} TotalAppend(a: seq<Item>, b: seq<Item>)
    ensures Total(a + b) == Total(a) + Total(b)
    decreases |b|
  {
    if |b| > 0 {
      var b' := b[..|b| - 1];
      assert (a + b)[..|a + b| - 1] == a + b';
      TotalAppend(a, b');
    } else {
      assert a + b == a;
    }
  }

  /** The customer's basket loop: lines are read until one is "done" in any
      letter case; a number in range adds its item, anything else is refused
      and leaves the basket as it was. `total` is `calculate_total(basket)`. */
  method TakeOrder(m: Menus, lines: seq<string>) returns (basket: seq<Item>, total: int)
    ensures basket == Picks(m.food, m.books, BeforeFirst(lines, IsDone))
    ensures total == Total(basket)
  {
    basket := [];
    var i := 0;
    while i < |lines| && !IsDone(lines[i])
      invariant 0 <= i <= |lines|
      invariant forall j :: 0 <= j < i ==> !IsDone(lines[j])
      invariant basket == Picks(m.food, m.books, lines[..i])
    {
      var choice := lines[i];
      if IsDigits(choice) {
        var n := ParseNat(choice);
        if 1 <= n <= |m.food| {
          basket := basket + [FoodItem(m.food[n - 1])];
        } else if |m.food| < n <= |m.food| + |m.books| {
          basket := basket + [BookItem(m.books[n - |m.food| - 1])];
        }
      }
      assert lines[..i + 1][..i] == lines[..i];
      i := i + 1;
    }
    BeforeFirstIs(lines, IsDone, i);
    total := Total(basket);
  }

  /** Index of the food item that `choice` deletes: the input must be all
      digits with 1 <= n <= |food|. */
  function FoodDeletion(food: seq<Food>, choice: string): (r: Option<nat>)
    ensures r.Some? ==> r.value < |food|
  {
    if IsDigits(choice) && 1 <= ParseNat(choice) <= |food| then Some(ParseNat(choice) - 1) else None
  }

  /** Index of the book that `choice` deletes: the input must be all digits
      with |food| < n <= |food| + |books|. */
  function BookDeletion(food: seq<Food>, books: seq<Book>, choice: string): (r: Option<nat>)
    ensures r.Some? ==> r.value < |books|
  {
    if IsDigits(choice) && |food| < ParseNat(choice) <= |food| + |books|
    then Some(ParseNat(choice) - |food| - 1) else None
  }

  /** The deletion prompts use the listing's numbers: typing the number
      shown next to food i deletes food i and no book, and typing the number
      shown next to book j deletes book j and no food. */
  lemma DeleteByShownNumber(food: seq<Food>, books: seq<Book>, k: nat)
    requires k < |Listing(food, books)|
    ensures var typed := ShowNat(Listing(food, books)[k].number);
      && (k < |food| ==> FoodDeletion(food, typed) == Some(k) && BookDeletion(food, books, typed) == None)
      && (k >= |food| ==> BookDeletion(food, books, typed) == Some(k - |food|) && FoodDeletion(food, typed) == None)
  {
    ParseShow(Listing(food, books)[k].number);
    ShownNumberSelectsEntry(food, books, k);
  }

  /** Delete-food (`food_menu.pop(n - 1)` after validation): on a valid
      number exactly that item goes, the rest keep their order; otherwise
      nothing changes. The book menu never changes. */
  method DeleteFoodItem(m: Menus, choice: string) returns (removed: Option<Food>)
    modifies m
    ensures m.books == old(m.books)
    ensures match FoodDeletion(old(m.food), choice)
      case None => removed == None && m.food == old(m.food)
      case Some(i) => removed == Some(old(m.food)[i]) && m.food == RemoveAt(old(m.food), i)
  {
    if IsDigits(choice) && 1 <= ParseNat(choice) <= |m.food| {
      var i := ParseNat(choice) - 1;
      removed := Some(m.food[i]);
      m.food := RemoveAt(m.food, i);
    } else {
      removed := None;
    }
  }

  /** Delete-book (`book_menu.pop(n - |food| - 1)` after validation). */
  method DeleteBookItem(m: Menus, choice: string) returns (removed: Option<Book>)
    modifies m
    ensures m.food == old(m.food)
    ensures match BookDeletion(old(m.food), old(m.books), choice)
      case None => removed == None && m.books == old(m.books)
      case Some(i) => removed == Some(old(m.books)[i]) && m.books == RemoveAt(old(m.books), i)
  {
    if IsDigits(choice) && |m.food| < ParseNat(choice) <= |m.food| + |m.books| {
      var i := ParseNat(choice) - |m.food| - 1;
      removed := Some(m.books[i]);
      m.books := RemoveAt(m.books, i);
    } else {
      removed := None;
    }
  }

  /** One choice at the employee prompt, with the further lines it reads
      already taken in (the price as pence). */
  datatype StaffCommand =
    | ViewMenus
    | AddFoodCmd(food: Food)
    | AddBookCmd(book: Book)
    | DeleteFoodCmd(foodChoice: string)
    | DeleteBookCmd(bookChoice: string)
    | ExitToMain
    | UnknownStaffOption

  predicate IsExit(c: StaffCommand)
  {
    c.ExitToMain?
  }

  datatype MenuState = MenuState(food: seq<Food>, books: seq<Book>)

  /** What one employee choice does to the two menus. */
  function StaffStep(s: MenuState, c: StaffCommand): MenuState
  {
    match c
    case AddFoodCmd(f) => MenuState(s.food + [f], s.books)
    case AddBookCmd(b) => MenuState(s.food, s.books + [b])
    case DeleteFoodCmd(choice) =>
      (match FoodDeletion(s.food, choice)
       case None => s
       case Some(i) => MenuState(RemoveAt(s.food, i), s.books))
    case DeleteBookCmd(choice) =>
      (match BookDeletion(s.food, s.books, choice)
       case None => s
       case Some(i) => MenuState(s.food, RemoveAt(s.books, i)))
    case _ => s
  }

  function StaffRun(s: MenuState, cs: seq<StaffCommand>): MenuState
  {
    if |cs| == 0 then s else StaffStep(StaffRun(s, cs[..|cs| - 1]), cs[|cs| - 1])
  }

  /** The employee loop: choices are carried out in order until "exit to
      main menu". */
  method StaffSession(m: Menus, cs: seq<StaffCommand>)
    modifies m
    ensures MenuState(m.food, m.books) == StaffRun(MenuState(old(m.food), old(m.books)), BeforeFirst(cs, IsExit))
  {
    var i := 0;
    while i < |cs| && !IsExit(cs[i])
      invariant 0 <= i <= |cs|
      invariant forall j :: 0 <= j < i ==> !IsExit(cs[j])
      invariant MenuState(m.food, m.books) == StaffRun(MenuState(old(m.food), old(m.books)), cs[..i])
    {
      match cs[i] {
        case AddFoodCmd(f) => m.AddFood(f);
        case AddBookCmd(b) => m.AddBook(b);
        case DeleteFoodCmd(choice) => var _ := DeleteFoodItem(m, choice);
        case DeleteBookCmd(choice) => var _ := DeleteBookItem(m, choice);
        case _ =>
      }
      assert cs[..i + 1][..i] == cs[..i];
      i := i + 1;
    }
    BeforeFirstIs(cs, IsExit, i);
  }

  /** Adding never reorders or drops anything: the earlier items keep their
      numbers, and the new one gets the next number of its list. */
  lemma AddKeepsNumbering(s: MenuState, c: StaffCommand)
    requires c.AddFoodCmd? || c.AddBookCmd?
    ensures c.AddFoodCmd? ==> StaffStep(s, c).food[..|s.food|] == s.food && StaffStep(s, c).books == s.books
    ensures c.AddBookCmd? ==> StaffStep(s, c).books[..|s.books|] == s.books && StaffStep(s, c).food == s.food
  {
  }

  /** A choice at the top-level prompt, with the lines its flow reads. */
  datatype Visit =
    | CustomerVisit(lines: seq<string>)
    | StaffVisit(commands: seq<StaffCommand>)
    | ExitApp
    | UnknownOption

  predicate IsExitApp(v: Visit)
  {
    v.ExitApp?
  }

  /** Menus after a run of visits, and the basket totals printed on the way. */
  datatype RunState = RunState(menus: MenuState, totals: seq<int>)

  function VisitStep(r: RunState, v: Visit): RunState
  {
    match v
    case CustomerVisit(lines) =>
      RunState(r.menus, r.totals + [Total(Picks(r.menus.food, r.menus.books, BeforeFirst(lines, IsDone)))])
    case StaffVisit(cs) => RunState(StaffRun(r.menus, BeforeFirst(cs, IsExit)), r.totals)
    case _ => r
  }

  function VisitRun(r: RunState, vs: seq<Visit>): RunState
  {
    if |vs| == 0 then r else VisitStep(VisitRun(r, vs[..|vs| - 1]), vs[|vs| - 1])
  }

  /** One top-level choice: a customer visit prints its basket total and
      leaves the menus alone; an employee visit runs its session. */
  method HandleVisit(m: Menus, totals: seq<int>, v: Visit) returns (totals': seq<int>)
    modifies m
    ensures RunState(MenuState(m.food, m.books), totals')
            == VisitStep(RunState(MenuState(old(m.food), old(m.books)), totals), v)
  {
    totals' := totals;
    match v {
      case CustomerVisit(lines) =>
        var _, total := TakeOrder(m, lines);
        totals' := totals + [total];
      case StaffVisit(cs) =>
        StaffSession(m, cs);
      case _ =>
    }
  }

  /** `main`: visits are handled in order until "exit"; a customer visit
      leaves the menus as they are and prints its basket total. */
  method RunCli(m: Menus, vs: seq<Visit>) returns (totals: seq<int>)
    modifies m
    ensures RunState(MenuState(m.food, m.books), totals)
            == VisitRun(RunState(MenuState(old(m.food), old(m.books)), []), BeforeFirst(vs, IsExitApp))
  {
    totals := [];
    ghost var start := RunState(MenuState(m.food, m.books), []);
    ghost var run := BeforeFirst(vs, IsExitApp);
    var i := 0;
    while i < |vs| && !IsExitApp(vs[i])
      invariant i <= |run|
      invariant RunState(MenuState(m.food, m.books), totals) == VisitRun(start, vs[..i])
    {
      totals := HandleVisit(m, totals, vs[i]);
      assert vs[..i + 1][..i] == vs[..i];
      i := i + 1;
    }
    assert vs[..i] == run;
  }
}
