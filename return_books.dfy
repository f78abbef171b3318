/** The borrow/return desk (src/pages/ReturnBooks.tsx): pick a member, pick a
    book, borrow or return it, and browse the member's borrow history. */
module ReturnBooks {
  import opened Common
  import opened Types
  import Seqs

  /** The `returnDate` the server reports while a book is still out. */
  const NotReturned: string := "1/1/0001"

  /** What the borrow-records query left in `data`: nothing yet, an array of
      records, or anything that is not an array (an envelope object, say). */
  datatype RecordsResponse = NotFetched | RecordArray(records: seq<BorrowRecord>) | NotAnArray

  /** `Array.isArray(response) ? response : []`. */
  function BorrowedRecords(resp: RecordsResponse): (r: seq<BorrowRecord>)
    ensures resp.RecordArray? ==> r == resp.records
    ensures !resp.RecordArray? ==> r == []
  {
    if resp.RecordArray? then resp.records else []
  }

  function IsAvailable(b: Book): bool
  {
    b.status == Available
  }

  /** `books?.value.filter(book => book.status === AVAILABLE) || []`. */
  function AvailableBooks(books: Option<seq<Book>>): seq<Book>
  {
    if books.Some? then Seqs.Filter(IsAvailable, books.value) else []
  }

  /** Some record names the book. */
  predicate RecordedFor(records: seq<BorrowRecord>, b: Book)
  {
    exists i :: 0 <= i < |records| && records[i].bookId == b.id
  }

  /** `book.status === BORROWED && borrowedBooks.some(b => b.bookId === book.id)`;
      a record's `returnDate` plays no part. */
  function IsBorrowedByMember(records: seq<BorrowRecord>): Book -> bool
  {
    (b: Book) => b.status == Borrowed && RecordedFor(records, b)
  }

  function MemberBorrowedBooks(books: Option<seq<Book>>, records: seq<BorrowRecord>): seq<Book>
  {
    if books.Some? then Seqs.Filter(IsBorrowedByMember(records), books.value) else []
  }

  /** The available list is exactly the AVAILABLE books, in their order, and
      empty while no books are loaded. */
  lemma AvailableBooksSpec(books: Option<seq<Book>>)
    ensures books.None? ==> AvailableBooks(books) == []
    ensures books.Some? ==> Seqs.IsSubsequence(AvailableBooks(books), books.value)
    ensures forall b :: b in AvailableBooks(books) <==> books.Some? && b in books.value && b.status == Available
  {
    if books.Some? {
      Seqs.FilterIsSubsequence(IsAvailable, books.value);
      var r := AvailableBooks(books);
      forall b | b in books.value && b.status == Available ensures b in r {
        var i :| 0 <= i < |books.value| && books.value[i] == b;
      }
    }
  }

  /** A book is listed for return exactly when it is BORROWED and some record
      names it, whatever that record's return date. */
  lemma MemberBorrowedBooksSpec(books: Option<seq<Book>>, records: seq<BorrowRecord>)
    ensures forall b :: b in MemberBorrowedBooks(books, records) <==>
      books.Some? && b in books.value && b.status == Borrowed && RecordedFor(records, b)
    ensures books.Some? ==> Seqs.IsSubsequence(MemberBorrowedBooks(books, records), books.value)
  {
    if books.Some? {
      Seqs.FilterIsSubsequence(IsBorrowedByMember(records), books.value);
      var r := MemberBorrowedBooks(books, records);
      forall b | b in books.value && b.status == Borrowed && RecordedFor(records, b) ensures b in r {
        var i :| 0 <= i < |books.value| && books.value[i] == b;
      }
    }
  }

  /** No book is offered both for borrowing and for return. */
  lemma AvailableAndBorrowedDisjoint(books: Option<seq<Book>>, records: seq<BorrowRecord>)
    ensures forall b :: !(b in AvailableBooks(books) && b in MemberBorrowedBooks(books, records))
  {
    AvailableBooksSpec(books);
    MemberBorrowedBooksSpec(books, records);
  }

  /** A response that is not an array lists no book for return. */
  lemma NonArrayListsNothing(books: Option<seq<Book>>, resp: RecordsResponse)
    requires !resp.RecordArray?
    ensures MemberBorrowedBooks(books, BorrowedRecords(resp)) == []
  {
    if books.Some? {
      Seqs.FilterKeepsNone(IsBorrowedByMember([]), books.value);
    }
  }

  function CreatedAt(r: BorrowRecord): int
  {
    r.createdAt
  }

  /** `[...borrowedBooks].sort((a, b) => b.CreatedAt - a.CreatedAt)`: a sorted
      copy, newest first, of the same records. */
  function HistoryRows(records: seq<BorrowRecord>): (rows: seq<BorrowRecord>)
    ensures multiset(rows) == multiset(records)
    ensures forall i, j :: 0 <= i < j < |rows| ==> rows[i].createdAt >= rows[j].createdAt
  {
    Seqs.SortDesc(CreatedAt, records)
  }

  /** What the history table shows. */
  datatype HistoryView = LoadingRecords | Rows(rows: seq<BorrowRecord>) | NoRecordsMessage(text: string)

  function HistoryPanel(isLoading: bool, records: seq<BorrowRecord>, selectedMemberId: string): (v: HistoryView)
    ensures isLoading <==> v == LoadingRecords
    ensures v.Rows? <==> !isLoading && records != []
    ensures v.Rows? ==> v.rows == HistoryRows(records)
    ensures v.Rows? ==> multiset(v.rows) == multiset(records)
    ensures v.Rows? ==> forall i, j :: 0 <= i < j < |v.rows| ==> v.rows[i].createdAt >= v.rows[j].createdAt
    ensures v.NoRecordsMessage? ==> (v.text == "This member has no borrowed books" <==> selectedMemberId != "")
  {
    if isLoading then LoadingRecords
    else if records != [] then Rows(HistoryRows(records))
    else if selectedMemberId != "" then NoRecordsMessage("This member has no borrowed books")
    else NoRecordsMessage("Select a Member to View all Borrowed Books")
  }

  /** The action button of one history row. */
  datatype RowButton = RowButton(caption: string, disabled: bool)

  function RowButtonFor(rec: BorrowRecord): (b: RowButton)
    ensures b.disabled <==> rec.returnDate != NotReturned
    ensures b.caption == (if b.disabled then "Returned" else "Return")
  {
    if rec.returnDate != NotReturned then RowButton("Returned", true) else RowButton("Return", false)
  }

  /** A borrow or return request as sent to the server. */
  datatype LoanRequest = BorrowRequest(memberId: string, bookId: string)
                       | ReturnRequest(memberId: string, bookId: string)

  /** The desk's own state: the three `useState` fields, plus the requests it has
      issued so far. */
  class BorrowDesk {
    var selectedMemberId: string
    var selectedBookId: string
    var activeTab: string
    var sent: seq<LoanRequest>

    constructor ()
      ensures selectedMemberId == "" && selectedBookId == "" && activeTab == "borrow"
      ensures sent == []
    {
      selectedMemberId, selectedBookId, activeTab := "", "", "borrow";
      sent := [];
    }

    /** The member select's `onValueChange`: a new member drops the book choice. */
    method SelectMember(id: string)
      modifies this
      ensures selectedMemberId == id && selectedBookId == ""
      ensures activeTab == old(activeTab) && sent == old(sent)
    {
      selectedMemberId := id;
      selectedBookId := "";
    }

    /** Either book select's `onValueChange`. */
    method SelectBook(id: string)
      modifies this
      ensures selectedBookId == id
      ensures selectedMemberId == old(selectedMemberId) && activeTab == old(activeTab) && sent == old(sent)
    {
      selectedBookId := id;
    }

    method SelectTab(tab: string)
      modifies this
      ensures activeTab == tab
      ensures selectedMemberId == old(selectedMemberId) && selectedBookId == old(selectedBookId) && sent == old(sent)
    {
      activeTab := tab;
    }

    /** The Borrow button's `disabled`. */
    function BorrowDisabled(isBorrowing: bool): bool
      reads this
    {
      selectedMemberId == "" || selectedBookId == "" || isBorrowing
    }

    /** The Return button's `disabled`: no member is needed. */
    function ReturnDisabled(isReturning: bool): bool
      reads this
    {
      selectedBookId == "" || isReturning
    }

    /** `handleBorrow`: without both a member and a book nothing happens, which
        is exactly when the idle Borrow button is disabled; otherwise the
        request goes out and only a success clears the book. */
    method HandleBorrow(outcome: Outcome)
      modifies this
      ensures old(BorrowDisabled(false)) <==> sent == old(sent)
      ensures var ready := old(selectedMemberId) != "" && old(selectedBookId) != "";
        && sent == (if ready then old(sent) + [BorrowRequest(old(selectedMemberId), old(selectedBookId))] else old(sent))
        && selectedBookId == (if ready && outcome == Success then "" else old(selectedBookId))
      ensures selectedMemberId == old(selectedMemberId) && activeTab == old(activeTab)
    {
      if selectedMemberId == "" || selectedBookId == "" {
        return;
      }
      sent := sent + [BorrowRequest(selectedMemberId, selectedBookId)];
      if outcome == Success {
        selectedBookId := "";
      }
    }

    /** `handleReturn`: only a book is required, as for the idle Return
        button; the member id goes out as it is, possibly empty. */
    method HandleReturn(outcome: Outcome)
      modifies this
      ensures old(ReturnDisabled(false)) <==> sent == old(sent)
      ensures var ready := old(selectedBookId) != "";
        && sent == (if ready then old(sent) + [ReturnRequest(old(selectedMemberId), old(selectedBookId))] else old(sent))
        && selectedBookId == (if ready && outcome == Success then "" else old(selectedBookId))
      ensures selectedMemberId == old(selectedMemberId) && activeTab == old(activeTab)
    {
      if selectedBookId == "" {
        return;
      }
      sent := sent + [ReturnRequest(selectedMemberId, selectedBookId)];
      if outcome == Success {
        selectedBookId := "";
      }
    }

    /** A click on a history row's button; a disabled ("Returned") button
        does not fire. */
    method ClickHistoryRow(rec: BorrowRecord)
      modifies this
      ensures !RowButtonFor(rec).disabled ==> selectedBookId == rec.bookId && activeTab == "return"
      ensures RowButtonFor(rec).disabled ==> selectedBookId == old(selectedBookId) && activeTab == old(activeTab)
      ensures selectedMemberId == old(selectedMemberId) && sent == old(sent)
    {
      if !RowButtonFor(rec).disabled {
        selectedBookId := rec.bookId;
        activeTab := "return";
      }
    }
  }
}
