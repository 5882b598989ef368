/**
 * The library solution of the TypeScript refresher: book records, a case-insensitive title
 * search, the available-books filter, the one-line book description and book loans.
 */
module LibraryBooks {
  import opened Wrappers
  import JsString
  import Seqs

  datatype Book = Book(isbn: string, title: string, author: string, publishedYear: int, pages: int,
                       isAvailable: bool, genre: Option<string>)

  /** A library member; the membership date is not modelled. */
  datatype LibraryMember = LibraryMember(memberId: int, name: string, email: string, booksCheckedOut: int)

  /** A loan; dates are day numbers supplied by the caller. */
  datatype BookLoan = BookLoan(book: Book, member: LibraryMember, checkoutDate: int, dueDate: int, returnDate: Option<int>)

  const Library: seq<Book> := [
    Book("978-0-7475-3269-9", "Harry Potter and the Philosopher's Stone", "J.K. Rowling", 1997, 223, true, Some("Fantasy")),
    Book("978-0-06-112008-4", "To Kill a Mockingbird", "Harper Lee", 1960, 324, false, Some("Fiction")),
    Book("978-0-452-28423-4", "1984", "George Orwell", 1949, 328, true, Some("Dystopian")),
    Book("978-0-7432-7356-5", "The Great Gatsby", "F. Scott Fitzgerald", 1925, 180, true, Some("Classic"))
  ]

  /** The titles match once both are lower-cased. */
  predicate TitleMatches(book: Book, searchTitle: string) {
    JsString.Lower(book.title) == JsString.Lower(searchTitle)
  }

  /** `books.find(book => book.title.toLowerCase() === searchTitle.toLowerCase())` */
  function FindBookByTitle(books: seq<Book>, searchTitle: string): (r: Option<Book>)
    ensures r.None? <==> forall i :: 0 <= i < |books| ==> !TitleMatches(books[i], searchTitle)
    ensures r.Some? ==> r.value in books && TitleMatches(r.value, searchTitle)
  {
    if books == [] then None
    else if TitleMatches(books[0], searchTitle) then Some(books[0])
    else FindBookByTitle(books[1..], searchTitle)
  }

  /** The search stops at the first matching book. */
  lemma {:induction false} FindsFirstMatch(books: seq<Book>, searchTitle: string, i: int)
    requires 0 <= i < |books| && TitleMatches(books[i], searchTitle)
    requires forall k :: 0 <= k < i ==> !TitleMatches(books[k], searchTitle)
    ensures FindBookByTitle(books, searchTitle) == Some(books[i])
  {
    if i > 0 {
      assert forall k :: 0 <= k < i - 1 ==> books[1..][k] == books[k + 1];
      FindsFirstMatch(books[1..], searchTitle, i - 1);
    }
  }

  /** `books.filter(book => book.isAvailable)` */
  function GetAvailableBooks(books: seq<Book>): (r: seq<Book>)
    ensures Seqs.IsSubsequence(r, books)
    ensures forall b :: b in r <==> b in books && b.isAvailable
  {
    Seqs.FilterIsSubsequence(books, (b: Book) => b.isAvailable);
    forall b ensures b in Seqs.Filter(books, (x: Book) => x.isAvailable) <==> b in books && b.isAvailable {
      Seqs.FilterMembers(books, (x: Book) => x.isAvailable, b);
    }
    Seqs.Filter(books, (x: Book) => x.isAvailable)
  }

  /** "<title> by <author> (<year>) - <pages> pages" */
  function DisplayBookInfo(book: Book): (r: string)
    ensures var head := book.title + " by " + book.author + " (";
      |r| > |head| && r[..|head|] == head
    ensures var tail := ") - " + JsString.IntToString(book.pages) + " pages";
      |r| > |tail| && r[|r| - |tail|..] == tail
    ensures var head := book.title + " by " + book.author + " (";
      var tail := ") - " + JsString.IntToString(book.pages) + " pages";
      |head| + |tail| <= |r| && r[|head|..|r| - |tail|] == JsString.IntToString(book.publishedYear)
  {
    book.title + " by " + book.author + " (" + JsString.IntToString(book.publishedYear) + ") - "
      + JsString.IntToString(book.pages) + " pages"
  }

  /** `createBookLoan`: the loan carries the given book and member, and no return date yet. */
  function CreateBookLoan(book: Book, member: LibraryMember, daysUntilDue: int, today: int): (r: BookLoan)
    ensures r.book == book && r.member == member
    ensures r.returnDate.None?
    ensures r.dueDate - r.checkoutDate == daysUntilDue
  {
    BookLoan(book, member, today, today + daysUntilDue, None)
  }

  /** A title of another length never matches. */
  lemma LengthsDiffer(book: Book, searchTitle: string)
    requires |book.title| != |searchTitle|
    ensures !TitleMatches(book, searchTitle)
  {
    assert |JsString.Lower(book.title)| != |JsString.Lower(searchTitle)|;
  }

  /** A book that does not match is passed over. */
  lemma SkipsNonMatching(books: seq<Book>, searchTitle: string)
    requires books != [] && !TitleMatches(books[0], searchTitle)
    ensures FindBookByTitle(books, searchTitle) == FindBookByTitle(books[1..], searchTitle)
  {
  }

  lemma OrwellSkipsFirst(search: string)
    requires search == "1984"
    ensures FindBookByTitle(Library, search) == FindBookByTitle(Library[1..], search)
  {
    LengthsDiffer(Library[0], search);
    SkipsNonMatching(Library, search);
  }

  lemma OrwellSkipsSecond(search: string)
    requires search == "1984"
    ensures FindBookByTitle(Library[1..], search) == FindBookByTitle(Library[2..], search)
  {
    var rest := Library[1..];
    LengthsDiffer(rest[0], search);
    SkipsNonMatching(rest, search);
    assert rest[1..] == Library[2..];
  }

  lemma OrwellMatches(search: string)
    requires search == "1984"
    ensures FindBookByTitle(Library[2..], search) == Some(Library[2])
  {
    assert Library[2..][0] == Library[2];
    assert Library[2].title == search;
  }

  /** Searching the library for "1984" finds Orwell's book. */
  lemma SearchFindsOrwell(search: string)
    requires search == "1984"
    ensures FindBookByTitle(Library, search) == Some(Library[2])
    ensures Library[2].author == "George Orwell"
  {
    OrwellSkipsFirst(search);
    OrwellSkipsSecond(search);
    OrwellMatches(search);
  }

  /** Three of the four books are available: all but the one checked out. */
  lemma ThreeAvailable()
    ensures GetAvailableBooks(Library) == [Library[0], Library[2], Library[3]]
  {
  }
}
