/** The library bookkeeping: books with a page counter, readers with a
    dictionary of reading progress, subscriptions with an end date, and the
    dictionary form books and readers are stored in. Times are whole
    microseconds and "now" is a parameter. */
module Library {
  import opened Wrappers

  /** The message of the `ValueError` the name setter raises. */
  const EmptyNameMessage := "Название не может быть пустым"

  /** The `name` setter shared by every library entity: an empty name is
      refused, anything else becomes the new name. */
  function CheckedName(value: string): (r: Result<string, string>)
    ensures r.Success? <==> value != ""
    ensures r.Success? ==> r.value == value
    ensures r.Failure? ==> r.error == EmptyNameMessage
  {
    if value == "" then Failure(EmptyNameMessage) else Success(value)
  }

  /** The field values of a book. */
  datatype BookState = BookState(id: Option<int>, title: string, author: string, totalPages: int, pagesRead: int)

  /** The dictionary of a book. `None` for `bookId` stands for a missing key
      or a `None` value, and `None` for `pagesRead` for a missing key. */
  datatype BookDict = BookDict(bookId: Option<int>, title: string, author: string, totalPages: int, pagesRead: Option<int>)

  /** `Book.from_dict`: the book built from the title, author and page total,
      with the id when there is one and `pages_read` defaulting to 0. */
  function BookFromDict(data: BookDict): (s: BookState)
    ensures s.title == data.title && s.author == data.author && s.totalPages == data.totalPages
    ensures s.id == data.bookId
    ensures data.pagesRead.None? ==> s.pagesRead == 0
  {
    BookState(data.bookId, data.title, data.author, data.totalPages,
              if data.pagesRead.Some? then data.pagesRead.value else 0)
  }

  class Book {
    var name: string
    var entityId: Option<int>
    const author: string
    const totalPages: int
    var pagesRead: int

    /** A new book has no id and no page read. */
    constructor(title: string, author: string, totalPages: int)
      ensures State() == BookState(None, title, author, totalPages, 0)
    {
      name := title;
      entityId := None;
      this.author := author;
      this.totalPages := totalPages;
      pagesRead := 0;
    }

    function State(): BookState
      reads this
    {
      BookState(entityId, name, author, totalPages, pagesRead)
    }

    /** The `name` setter. */
    method SetName(value: string) returns (outcome: Result<string, string>)
      modifies this
      ensures outcome == CheckedName(value)
      ensures name == (if outcome.Success? then value else old(name))
      ensures entityId == old(entityId) && pagesRead == old(pagesRead)
    {
      outcome := CheckedName(value);
      if outcome.Success? {
        name := outcome.value;
      }
    }

    /** `read_pages`: the pages are counted, and true returned, exactly when
        the total is not exceeded; a refused read changes nothing. */
    method ReadPages(pages: int) returns (ok: bool)
      modifies this
      ensures ok <==> old(pagesRead) + pages <= totalPages
      ensures pagesRead == if ok then old(pagesRead) + pages else old(pagesRead)
      ensures name == old(name) && entityId == old(entityId)
      ensures old(pagesRead) <= totalPages ==> pagesRead <= totalPages
      ensures ok && old(pagesRead) + pages == totalPages ==> IsFinished()
    {
      if pagesRead + pages <= totalPages {
        pagesRead := pagesRead + pages;
        return true;
      }
      return false;
    }

    /** `is_finished`. */
    predicate IsFinished()
      reads this
      ensures IsFinished() <==> pagesRead >= totalPages
    {
      pagesRead >= totalPages
    }

    /** `to_dict`: every field, with `pages_read` always present, so reading
        the dictionary back gives the same book. */
    function ToDict(): (d: BookDict)
      reads this
      ensures BookFromDict(d) == State()
    {
      BookDict(entityId, name, author, totalPages, Some(pagesRead))
    }

    /** `Book.from_dict`. */
    static method FromDict(data: BookDict) returns (book: Book)
      ensures fresh(book) && book.State() == BookFromDict(data)
    {
      book := new Book(data.title, data.author, data.totalPages);
      if data.bookId.Some? {
        book.entityId := data.bookId;
      }
      book.pagesRead := if data.pagesRead.Some? then data.pagesRead.value else 0;
    }
  }

  /** A book dictionary read back as a book and written out again keeps its
      stored fields, and `pages_read` is always present afterwards. */
  lemma BookDictRoundTrip(data: BookDict)
    ensures var s := BookFromDict(data);
      BookDict(s.id, s.title, s.author, s.totalPages, Some(s.pagesRead)) ==
      data.(pagesRead := Some(if data.pagesRead.Some? then data.pagesRead.value else 0))
  {
  }

  /** The dictionary of a reader; `None` stands for a `reader_id` of `None`. */
  datatype ReaderDict = ReaderDict(readerId: Option<int>, name: string)

  /** The sum of the progress values of the books, in insertion order. */
  function SumProgress(books: seq<Book>, progress: map<Book, int>): int
    requires forall b :: b in books ==> b in progress
  {
    if |books| == 0 then 0
    else SumProgress(books[..|books| - 1], progress) + progress[books[|books| - 1]]
  }

  /** With no negative value, the sum is not negative and is at least each value. */
  lemma {:induction false} SumProgressBounds(books: seq<Book>, progress: map<Book, int>)
    requires forall b :: b in books ==> b in progress
    ensures (forall b :: b in books ==> progress[b] >= 0) ==>
      SumProgress(books, progress) >= 0 &&
      forall b :: b in books ==> progress[b] <= SumProgress(books, progress)
  {
    if |books| > 0 && forall b :: b in books ==> progress[b] >= 0 {
      var init := books[..|books| - 1];
      assert forall c :: c in init ==> c in books;
      SumProgressBounds(init, progress);
      assert forall c :: c in books ==> c in init || c == books[|books| - 1];
    }
  }

  /** The progress after `read_book` has made sure the book is a key. */
  function Tracked(progress: map<Book, int>, book: Book): map<Book, int>
  {
    progress[book := if book in progress then progress[book] else 0]
  }

  /** No book occurs twice: each book, when it was listed, was not listed
      yet. */
  ghost predicate Distinct(books: seq<Book>)
  {
    |books| == 0 || (Distinct(books[..|books| - 1]) && books[|books| - 1] !in books[..|books| - 1])
  }

  /** Changing one book's value changes the sum by the difference when the
      book is listed, and not at all otherwise. */
  lemma {:induction false} SumProgressUpdate(books: seq<Book>, progress: map<Book, int>, b: Book, v: int)
    requires forall c :: c in books ==> c in progress
    requires Distinct(books)
    ensures SumProgress(books, progress[b := v]) ==
      SumProgress(books, progress) + (if b in books then v - progress[b] else 0)
  {
    if |books| > 0 {
      var init := books[..|books| - 1];
      var last := books[|books| - 1];
      assert forall c :: c in init ==> c in books;
      SumProgressUpdate(init, progress, b, v);
      if last != b {
        assert b in books <==> b in init;
      }
    }
  }

  /** The books among these whose page counter has reached the total: they
      are judged by the book, not by the reader's progress value. */
  function FinishedCount(books: seq<Book>): (c: nat)
    reads books
    ensures c <= |books|
  {
    if |books| == 0 then 0
    else FinishedCount(books[..|books| - 1]) + (if books[|books| - 1].IsFinished() then 1 else 0)
  }

  /** A sequence without repetitions has as many distinct elements as entries. */
  lemma {:induction false} DistinctCardinality(books: seq<Book>)
    requires Distinct(books)
    ensures |set b | b in books| == |books|
  {
    if |books| > 0 {
      var init := books[..|books| - 1];
      var last := books[|books| - 1];
      DistinctCardinality(init);
      assert (set b | b in books) == (set b | b in init) + {last};
    }
  }

  /** Without repetitions, the finished count is the number of distinct
      finished books. */
  lemma {:induction false} FinishedCountIsSetSize(books: seq<Book>)
    requires Distinct(books)
    ensures FinishedCount(books) == |set b | b in books && b.IsFinished()|
  {
    if |books| > 0 {
      var init := books[..|books| - 1];
      var last := books[|books| - 1];
      FinishedCountIsSetSize(init);
      var before := set b | b in init && b.IsFinished();
      var after := set b | b in books && b.IsFinished();
      assert books == init + [last];
      if last.IsFinished() {
        assert after == before + {last} && last !in before;
        assert |after| == |before| + 1;
      } else {
        assert after == before;
      }
    }
  }

  /** `get_reading_statistics`. */
  datatype Statistics = Statistics(totalBooks: nat, finishedBooks: nat, totalPages: int, inProgressBooks: int)

  class Reader {
    var name: string
    const entityId: Option<int>
    /** The keys of `books_in_progress` in insertion order. */
    var books: seq<Book>
    /** `books_in_progress`: pages read through this reader, per book. */
    var progress: map<Book, int>

    ghost predicate Valid()
      reads this
    {
      Distinct(books) && (forall b :: b in progress ==> b in books) && (forall b :: b in books ==> b in progress)
    }

    constructor(name: string, readerId: Option<int> := None)
      ensures Valid() && this.name == name && entityId == readerId
      ensures books == [] && progress == map[]
    {
      this.name := name;
      entityId := readerId;
      books := [];
      progress := map[];
    }

    /** The `name` setter. */
    method SetName(value: string) returns (outcome: Result<string, string>)
      modifies this
      ensures outcome == CheckedName(value)
      ensures name == (if outcome.Success? then value else old(name))
      ensures books == old(books) && progress == old(progress)
    {
      outcome := CheckedName(value);
      if outcome.Success? {
        name := outcome.value;
      }
    }

    /** `get_total_pages_read`: the sum of the progress values. */
    function GetTotalPagesRead(): (total: int)
      requires Valid()
      reads this
      ensures (forall b :: b in progress ==> progress[b] >= 0) ==>
        total >= 0 && forall b :: b in progress ==> progress[b] <= total
    {
      SumProgressBounds(books, progress);
      SumProgress(books, progress)
    }

    /** `read_book`: the book becomes a key (at 0 when new) whatever happens,
        and its value rises by `pages` exactly when the book accepts them;
        no other book's value changes. */
    method ReadBook(book: Book, pages: int) returns (ok: bool)
      requires Valid()
      modifies this, book
      ensures Valid() && name == old(name)
      ensures ok <==> old(book.pagesRead) + pages <= book.totalPages
      ensures book.pagesRead == if ok then old(book.pagesRead) + pages else old(book.pagesRead)
      ensures book.name == old(book.name) && book.entityId == old(book.entityId)
      ensures book in progress
      ensures progress == if ok then Tracked(old(progress), book)[book := Tracked(old(progress), book)[book] + pages]
                          else Tracked(old(progress), book)
      ensures progress[book] == (if book in old(progress) then old(progress)[book] else 0) + (if ok then pages else 0)
      ensures books == if book in old(progress) then old(books) else old(books) + [book]
      ensures GetTotalPagesRead() == old(GetTotalPagesRead()) + (if ok then pages else 0)
    {
      Track(book);
      ok := book.ReadPages(pages);
      if ok {
        Credit(book, pages);
      }
    }

    /** The first half of `read_book`: a book not yet in progress gets the value 0. */
    method Track(book: Book)
      requires Valid()
      modifies this
      ensures Valid() && name == old(name) && book in progress
      ensures progress == Tracked(old(progress), book)
      ensures books == if book in old(progress) then old(books) else old(books) + [book]
      ensures GetTotalPagesRead() == old(GetTotalPagesRead())
    {
      if book !in progress {
        assert forall b :: b in books ==> b != book;
        SumProgressUpdate(books, progress, book, 0);
        progress := progress[book := 0];
        books := books + [book];
        assert books[..|books| - 1] == old(books);
      }
    }

    /** The second half of `read_book`: the accepted pages are added to the book's value. */
    method Credit(book: Book, pages: int)
      requires Valid() && book in progress
      modifies this
      ensures Valid() && name == old(name) && books == old(books)
      ensures progress == old(progress)[book := old(progress)[book] + pages]
      ensures GetTotalPagesRead() == old(GetTotalPagesRead()) + pages
    {
      SumProgressUpdate(books, progress, book, progress[book] + pages);
      progress := progress[book := progress[book] + pages];
    }

    /** `get_reading_statistics`: the number of books (the dictionary's size),
        how many of them are finished, the pages read and the rest. */
    function GetReadingStatistics(): (s: Statistics)
      requires Valid()
      reads this, books
      ensures s.totalBooks == |books| == |progress| && s.finishedBooks <= s.totalBooks
      ensures s.finishedBooks == |set b | b in books && b.IsFinished()|
      ensures s.inProgressBooks == s.totalBooks - s.finishedBooks
      ensures s.totalPages == GetTotalPagesRead()
    {
      DistinctCardinality(books);
      FinishedCountIsSetSize(books);
      assert progress.Keys == set b | b in books;
      var totalBooks := |progress|;
      var finishedBooks := FinishedCount(books);
      Statistics(totalBooks, finishedBooks, GetTotalPagesRead(), totalBooks - finishedBooks)
    }

    /** `to_dict`: the id and the name, which is all `from_dict` reads back. */
    function ToDict(): (d: ReaderDict)
      reads this
      ensures d.readerId == entityId && d.name == name
    {
      ReaderDict(entityId, name)
    }

    /** `Reader.from_dict`: a new reader with that name and id and no books,
        so a reader written out and read back has the same name and id. */
    static method FromDict(data: ReaderDict) returns (reader: Reader)
      ensures fresh(reader) && reader.Valid() && reader.ToDict() == data
      ensures reader.books == [] && reader.progress == map[]
    {
      reader := new Reader(data.name, data.readerId);
    }
  }

  /** `timedelta(days=1)` in microseconds. */
  const MicrosPerDay: int := 86_400_000_000

  /** The default length of a subscription, in days. */
  const DefaultDurationDays: int := 365

  class Subscription {
    var name: string
    const reader: Reader
    var startDate: int
    const durationDays: int

    /** A subscription starting now, named after its reader. */
    constructor(reader: Reader, now: int, durationDays: int := DefaultDurationDays)
      ensures this.reader == reader && startDate == now && this.durationDays == durationDays
      ensures name == "Абонемент " + reader.name
    {
      name := "Абонемент " + reader.name;
      this.reader := reader;
      startDate := now;
      this.durationDays := durationDays;
    }

    /** `end_date`: the start plus the duration in whole days. */
    function EndDate(): (e: int)
      reads this
      ensures (e - startDate) % MicrosPerDay == 0 && (e - startDate) / MicrosPerDay == durationDays
    {
      startDate + durationDays * MicrosPerDay
    }

    /** `is_active`: now is not past the end date. */
    predicate IsActive(now: int)
      reads this
      ensures IsActive(now) <==> now - startDate <= durationDays * MicrosPerDay
    {
      now <= EndDate()
    }

    /** `days_remaining`: the whole days between now and the end date, rounded
        down as `timedelta.days` does, and 0 once the end has passed. */
    function DaysRemaining(now: int): (r: int)
      reads this
      ensures r >= 0
      ensures IsActive(now) ==> r * MicrosPerDay <= EndDate() - now < (r + 1) * MicrosPerDay
      ensures !IsActive(now) ==> r == 0
      ensures r > 0 ==> IsActive(now)
    {
      var remaining := EndDate() - now;
      var days := remaining / MicrosPerDay;
      if days < 0 then 0 else days
    }
  }

  /** Less than a day after it started, a subscription of at least one day is
      active and has at least its duration less one day left. */
  lemma NewSubscriptionIsActive(s: Subscription, now: int)
    requires 0 <= now - s.startDate < MicrosPerDay && s.durationDays >= 1
    ensures s.IsActive(now) && s.DaysRemaining(now) >= s.durationDays - 1
  {
    var r := s.DaysRemaining(now);
    assert r * MicrosPerDay > (s.durationDays - 2) * MicrosPerDay;
  }
}
