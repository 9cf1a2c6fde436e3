/** The two catalogs (the food menu and the book menu) that the command-line
    tool and the web routes load, change and save. Prices are whole pence. */
module Catalog {

  datatype Food = Food(name: string, description: string, price: int)

  datatype Book = Book(title: string, yearPublished: string, price: int)

  /** The two lists as loaded by `load_data`; the methods change them in place. */
  class Menus {
    var food: seq<Food>
    var books: seq<Book>

    constructor (food: seq<Food>, books: seq<Book>)
      ensures this.food == food && this.books == books
    {
      this.food := food;
      this.books := books;
    }

    /** `food_menu.append(new_food)`: the new item is last, the books are untouched. */
    method AddFood(item: Food)
      modifies this
      ensures food == old(food) + [item] && books == old(books)
    {
      food := food + [item];
    }

    /** `book_menu.append(new_book)`: the new book is last, the food is untouched. */
    method AddBook(item: Book)
      modifies this
      ensures books == old(books) + [item] && food == old(food)
    {
      books := books + [item];
    }
  }
}
