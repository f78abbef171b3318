/** The book dialog (src/components/ViewBooks/AddBookModal.tsx): the form
    schema, the one-time read of the URL, the prefill from a loaded book, the
    reset on close, and the add-or-update submit. */
module AddBookModal {
  import opened Common
  import opened Types
  import opened Strings
  import opened Routing

  const Placeholder: string := "https://ui.shadcn.com/placeholder.svg"

  /** The four text fields of `bookFormSchema`. */
  datatype BookForm = BookForm(title: string, author: string, isbn: string, publicationYear: string)

  const EmptyForm: BookForm := BookForm("", "", "", "")

  /** One failed `min(1)` check: the field and its message. */
  datatype FieldError = FieldError(field: string, message: string)

  function Required(value: string, field: string, message: string): seq<FieldError>
  {
    if value == "" then [FieldError(field, message)] else []
  }

  /** The position of a field in `bookFormSchema`. */
  function FieldRank(field: string): int
  {
    if field == "title" then 0
    else if field == "author" then 1
    else if field == "isbn" then 2
    else if field == "publicationYear" then 3
    else 4
  }

  /** `bookFormSchema`'s errors, in the schema's field order. */
  function BookFormErrors(f: BookForm): (errs: seq<FieldError>)
    ensures errs == [] <==> f.title != "" && f.author != "" && f.isbn != "" && f.publicationYear != ""
    ensures |errs| <= 4
    ensures FieldError("title", "Title is required") in errs <==> f.title == ""
    ensures FieldError("author", "Author is required") in errs <==> f.author == ""
    ensures FieldError("isbn", "ISBN is required") in errs <==> f.isbn == ""
    ensures FieldError("publicationYear", "Publication year is required") in errs <==> f.publicationYear == ""
    ensures forall i, j :: 0 <= i < j < |errs| ==> FieldRank(errs[i].field) < FieldRank(errs[j].field)
  {
    Required(f.title, "title", "Title is required")
    + Required(f.author, "author", "Author is required")
    + Required(f.isbn, "isbn", "ISBN is required")
    + Required(f.publicationYear, "publicationYear", "Publication year is required")
  }

  /** The `form.reset` on a loaded book: the year becomes its decimal string. */
  function Prefill(b: Book): BookForm
  {
    BookForm(b.title, b.author, b.isbn, IntToDecimal(b.publicationYear))
  }

  /** A loaded book passes the schema exactly when its title, author and isbn
      are non-empty: the year's string is never empty. */
  lemma PrefillValid(b: Book)
    ensures BookFormErrors(Prefill(b)) == [] <==> b.title != "" && b.author != "" && b.isbn != ""
  {
  }

  /** The prefilled year reads back as the book's year. */
  lemma PrefillYearRoundTrip(b: Book)
    requires b.publicationYear >= 0
    ensures IsDigits(Prefill(b).publicationYear)
    ensures DigitsValue(Prefill(b).publicationYear) == b.publicationYear
  {
    DecimalRoundTrip(b.publicationYear);
  }

  /** The body a mutation receives; `id` is absent unless set. */
  datatype BookPayload = BookPayload(title: string, author: string, isbn: string, publicationYear: string, id: Option<string>)

  /** `form.getValues()`: the form's fields and nothing else. */
  function Values(f: BookForm): (p: BookPayload)
    ensures p.id == None
  {
    BookPayload(f.title, f.author, f.isbn, f.publicationYear, None)
  }

  /** The `FormData` built in `onSubmit`, with `id` appended in edit mode. */
  function FormDataFor(f: BookForm, bookId: Option<string>): (fd: seq<(string, string)>)
    ensures bookId.Some? && bookId.value != "" <==> ("id", bookId.GetOr("")) in fd && |fd| == 5
  {
    var base := [("title", f.title), ("author", f.author), ("isbn", f.isbn), ("publishYear", f.publicationYear)];
    if bookId.Some? && bookId.value != "" then base + [("id", bookId.value)] else base
  }

  datatype BookRequest = AddBook(payload: BookPayload) | UpdateBook(payload: BookPayload)

  /** The dialog's own state: `bookId`, `previewUrl`, the `initialUrlChecked`
      ref and the form's values. */
  class BookModal {
    var bookId: Option<string>
    var previewUrl: string
    var initialUrlChecked: bool
    var form: BookForm

    constructor ()
      ensures bookId == None && previewUrl == Placeholder && !initialUrlChecked && form == EmptyForm
    {
      bookId, previewUrl, initialUrlChecked, form := None, Placeholder, false, EmptyForm;
    }

    /** `!!bookId`: an empty id is not edit mode. */
    predicate IsEditMode()
      reads this
    {
      bookId.Some? && bookId.value != ""
    }

    function Title(): (t: string)
      reads this
      ensures t == "Update Book" <==> IsEditMode()
    {
      if IsEditMode() then "Update Book" else "Add Book"
    }

    /** The effect on `location.search`, guarded by `initialUrlChecked`: the
        first call reads the URL and asks the owner to open the dialog for
        edit-book with an id or for add-book; every later call does nothing. */
    method CheckUrl(ps: Params) returns (requestsOpen: bool)
      modifies this
      ensures initialUrlChecked
      ensures previewUrl == old(previewUrl) && form == old(form)
      ensures old(initialUrlChecked) ==> !requestsOpen && bookId == old(bookId)
      ensures !old(initialUrlChecked) ==>
        var modal, id := Get(ps, "modal"), Get(ps, "id");
        if modal == Some("edit-book") && id.Some? && id.value != "" then requestsOpen && bookId == id
        else if modal == Some("add-book") then requestsOpen && bookId == None
        else !requestsOpen && bookId == old(bookId)
    {
      requestsOpen := false;
      if initialUrlChecked {
        return;
      }
      var modal, id := Get(ps, "modal"), Get(ps, "id");
      if modal == Some("edit-book") && id.Some? && id.value != "" {
        bookId := id;
        requestsOpen := true;
      } else if modal == Some("add-book") {
        bookId := None;
        requestsOpen := true;
      }
      initialUrlChecked := true;
    }

    /** The effect on the loaded book: only in edit mode is the form refilled. */
    method OnBookLoaded(data: Option<Book>)
      modifies this
      ensures form == if data.Some? && IsEditMode() then Prefill(data.value) else old(form)
      ensures bookId == old(bookId) && previewUrl == old(previewUrl) && initialUrlChecked == old(initialUrlChecked)
    {
      if data.Some? && IsEditMode() {
        form := Prefill(data.value);
      }
    }

    /** The effect on `open`: closing clears the form, the id and the preview,
        whatever they held; opening changes nothing. */
    method OnOpenChanged(open: bool)
      modifies this
      ensures !open ==> form == EmptyForm && bookId == None && previewUrl == Placeholder
      ensures open ==> form == old(form) && bookId == old(bookId) && previewUrl == old(previewUrl)
      ensures initialUrlChecked == old(initialUrlChecked)
    {
      if !open {
        form := EmptyForm;
        bookId := None;
        previewUrl := Placeholder;
      }
    }

    /** `form.handleSubmit(onSubmit)`: an invalid form sends nothing; a valid
        one is sent as update in edit mode and as add otherwise, always as the
        bare form values, and the dialog asks to close only on success. */
    method Submit(outcome: Outcome) returns (request: Option<BookRequest>, requestsClose: bool)
      ensures BookFormErrors(form) != [] ==> request == None && !requestsClose
      ensures BookFormErrors(form) == [] ==>
        && request.Some?
        && request.value.UpdateBook? == IsEditMode()
        && request.value.payload == Values(form)
        && (requestsClose <==> outcome == Success)
    {
      if BookFormErrors(form) != [] {
        return None, false;
      }
      if IsEditMode() {
        request := Some(UpdateBook(Values(form)));
      } else {
        request := Some(AddBook(Values(form)));
      }
      requestsClose := outcome == Success;
    }
  }

  /** In edit mode the `FormData` carries the id, yet the update that goes out
      carries none: the built `FormData` is never sent. */
  method EditSubmitDropsId(modal: BookModal, outcome: Outcome) returns (request: Option<BookRequest>)
    requires modal.IsEditMode() && BookFormErrors(modal.form) == []
    ensures ("id", modal.bookId.value) in FormDataFor(modal.form, modal.bookId)
    ensures request.Some? && request.value.UpdateBook? && request.value.payload.id == None
  {
    var close;
    request, close := modal.Submit(outcome);
  }
}
