/** The book list (src/components/ViewBooks/ViewBooksView.tsx): a title
    search, and the URL parameters that open and close the book dialog. */
module ViewBooksView {
  import opened Common
  import opened Types
  import opened Strings
  import opened Routing
  import Seqs

  /** `book.title.toLowerCase().includes(searchQuery.toLowerCase())`. */
  function TitleMatches(query: string): Book -> bool
  {
    (b: Book) => Contains(Lower(b.title), Lower(query))
  }

  /** `apiData?.value.filter(...) || []`: nothing while no books are loaded. */
  function FilteredBooks(books: Option<seq<Book>>, query: string): seq<Book>
  {
    if books.Some? then Seqs.Filter(TitleMatches(query), books.value) else []
  }

  /** A book is listed exactly when the query occurs somewhere in its title,
      case aside; the list keeps the input order. */
  lemma FilteredBooksSpec(books: seq<Book>, query: string)
    ensures forall b :: b in FilteredBooks(Some(books), query) <==>
      b in books && exists i :: OccursAt(Lower(b.title), Lower(query), i)
    ensures Seqs.IsSubsequence(FilteredBooks(Some(books), query), books)
  {
    Seqs.FilterIsSubsequence(TitleMatches(query), books);
    forall b ensures b in FilteredBooks(Some(books), query) <==>
      b in books && exists i :: OccursAt(Lower(b.title), Lower(query), i)
    {
      ContainsIffOccurs(Lower(b.title), Lower(query));
      if b in books && TitleMatches(query)(b) {
        var k :| 0 <= k < |books| && books[k] == b;
      }
    }
  }

  /** The empty query keeps every book. */
  lemma EmptyQueryKeepsAll(books: seq<Book>)
    ensures FilteredBooks(Some(books), "") == books
  {
    forall i | 0 <= i < |books| ensures TitleMatches("")(books[i]) {
      assert OccursAt(Lower(books[i].title), Lower(""), 0);
    }
    Seqs.FilterKeepsAll(TitleMatches(""), books);
  }

  /** Searching the results again with the same query changes nothing. */
  lemma SearchIdempotent(books: seq<Book>, query: string)
    ensures FilteredBooks(Some(FilteredBooks(Some(books), query)), query) == FilteredBooks(Some(books), query)
  {
    Seqs.FilterIdempotent(TitleMatches(query), books);
  }

  /** The dialog values this list reacts to. */
  predicate OpensBookDialog(ps: Params)
  {
    Get(ps, "modal") == Some("edit-book") || Get(ps, "modal") == Some("add-book")
  }

  /** The list's `openModal` flag and the router it navigates with. */
  class BooksView {
    var openModal: bool
    const router: Router

    constructor (router: Router)
      ensures this.router == router && !openModal
    {
      this.router := router;
      openModal := false;
    }

    /** The effect on `location.search`: an edit-book or add-book dialog opens a
        closed modal; no URL ever closes it. */
    method SyncFromUrl()
      modifies this
      ensures openModal == (old(openModal) || OpensBookDialog(router.location.params))
    {
      if OpensBookDialog(router.location.params) && !openModal {
        openModal := true;
      }
    }

    /** `handleOpenChange`: closing drops `modal` and `id` and replaces the
        current history entry; opening only sets the flag. */
    method HandleOpenChange(open: bool)
      modifies this, router
      ensures openModal == open
      ensures !open ==> (router.location == Location(old(router.location.pathname), WithoutDialog(old(router.location.params)))
                         && router.history == old(router.history))
      ensures open ==> router.location == old(router.location) && router.history == old(router.history)
    {
      openModal := open;
      if !open {
        var loc := router.location;
        router.Navigate(Location(loc.pathname, WithoutDialog(loc.params)), true);
      }
    }

    /** `handleEdit`: sets `modal=edit-book` and `id`, as a new history entry;
        the flag itself waits for `SyncFromUrl`. */
    method HandleEdit(id: string)
      modifies router
      ensures router.location == Location(old(router.location.pathname), WithDialog(old(router.location.params), "edit-book", id))
      ensures router.history == old(router.history) + [old(router.location)]
    {
      var loc := router.location;
      router.Navigate(Location(loc.pathname, WithDialog(loc.params, "edit-book", id)), false);
    }
  }

  /** Editing a book and then syncing with the URL opens the dialog, with the
      book's id in the URL. */
  method EditThenSync(view: BooksView, id: string)
    modifies view, view.router
    ensures view.openModal
    ensures Get(view.router.location.params, "id") == Some(id)
  {
    view.HandleEdit(id);
    view.SyncFromUrl();
  }

  /** Closing leaves no dialog parameter in the URL, so a following sync keeps
      the dialog closed. */
  method CloseThenSync(view: BooksView)
    modifies view, view.router
    ensures !view.openModal
    ensures Get(view.router.location.params, "modal") == None && Get(view.router.location.params, "id") == None
  {
    view.HandleOpenChange(false);
    view.SyncFromUrl();
  }
}
