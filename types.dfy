/** The entities the console exchanges with the library API
    (src/types/Book.ts, src/types/Member.ts, src/types/Response.ts). */
module Types {
  import opened Common

  /** `const enum BookStatus { AVAILABLE, BORROWED, DAMAGED }`. */
  datatype BookStatus = Available | Borrowed | Damaged

  /** The number the enum member compiles to. */
  function StatusCode(s: BookStatus): (n: nat)
    ensures n < 3
  {
    match s
    case Available => 0
    case Borrowed => 1
    case Damaged => 2
  }

  /** `Number(key) as BookStatus` for a numeric key: defined exactly on 0, 1, 2,
      and the inverse of `StatusCode` there. */
  function StatusFromCode(n: int): (r: Option<BookStatus>)
    ensures r.Some? <==> 0 <= n < 3
    ensures r.Some? ==> StatusCode(r.value) == n
  {
    if n == 0 then Some(Available)
    else if n == 1 then Some(Borrowed)
    else if n == 2 then Some(Damaged)
    else None
  }

  /** `mapBookEnum`: the label shown for a status. */
  function MapBookEnum(s: BookStatus): string
  {
    match s
    case Available => "Available"
    case Borrowed => "Borrowed"
    case Damaged => "Damaged"
  }

  /** Decoding a status's code gives the status back, and distinct statuses
      have distinct labels. */
  lemma StatusCodeRoundTrip(s: BookStatus, t: BookStatus)
    ensures StatusFromCode(StatusCode(s)) == Some(s)
    ensures MapBookEnum(s) == MapBookEnum(t) ==> s == t
  {
  }

  /** A book as the API returns it. `genreIds` is read by the dashboard but is
      absent from the declared type, so it may be missing. */
  datatype Book = Book(
    id: string,
    title: string,
    author: string,
    publicationYear: int,
    isbn: string,
    status: BookStatus,
    imageUrl: string,
    genreIds: Option<seq<string>>)

  /** A borrow record as the borrow/return desk reads it: `returnDate` is the
      server's date string ("1/1/0001" while the book is out), `createdAt` the
      creation time as a timestamp. */
  datatype BorrowRecord = BorrowRecord(
    id: string,
    bookId: string,
    memberId: string,
    title: string,
    author: string,
    borrowDate: string,
    dueDate: string,
    returnDate: string,
    createdAt: int)

  /** A member; every field but `id` and `fullName` is optional. */
  datatype Member = Member(
    id: string,
    fullName: string,
    address: Option<string>,
    nic: Option<string>,
    telephone: Option<string>,
    email: Option<string>,
    dob: Option<string>,
    imageUrl: Option<string>,
    noOfBooksBorrowed: Option<int>)

  datatype Genre = Genre(id: string, name: string)

  /** A recommended book, carrying its genres by value. */
  datatype BookRecommendation = BookRecommendation(
    id: string,
    title: string,
    author: string,
    publicationYear: int,
    status: BookStatus,
    imageUrl: string,
    genres: Option<seq<Genre>>)

  /** The `error` of an envelope; only its description is ever read. */
  datatype ApiError = ApiError(description: Option<string>)

  /** `ApiResponse<T>`: the envelope every endpoint answers with. */
  datatype ApiResponse<T> = ApiResponse(
    value: T,
    isSuccess: bool,
    isFailure: bool,
    error: Option<ApiError>)
}
