/** The two "manage" pages (src/pages/ViewBooks.tsx, src/pages/ViewMembers.tsx):
    each owns an add dialog whose open state mirrors the `modal` parameter. */
module ManagePages {
  import opened Common
  import opened Routing
  import ViewBooksView

  const AddBook: string := "add-book"
  const AddMember: string := "add-member"

  /** The page's `openModal` after the effect on `location.search`. */
  predicate OpenAfterSync(ps: Params, addDialog: string)
  {
    Get(ps, "modal") == Some(addDialog)
  }

  /** Opening: `set("modal", addDialog)`, other parameters kept. */
  function OpenedParams(ps: Params, addDialog: string): (r: Params)
    ensures OpenAfterSync(r, addDialog)
    ensures forall k :: k != "modal" ==> Get(r, k) == Get(ps, k)
  {
    Assigned(ps, "modal", addDialog)
  }

  /** Closing: `delete("modal")` only. */
  function ClosedParams(ps: Params): (r: Params)
    ensures Get(r, "modal") == None
    ensures forall k :: k != "modal" ==> Get(r, k) == Get(ps, k)
  {
    Deleted(ps, "modal")
  }

  /** An edit-book URL closes the page's add dialog but opens the list's
      dialog: the two components read the same parameter differently. */
  lemma EditBookUrlSplitsDialogs(ps: Params)
    requires Get(ps, "modal") == Some("edit-book")
    ensures !OpenAfterSync(ps, AddBook)
    ensures ViewBooksView.OpensBookDialog(ps)
  {
  }

  /** Closing the add dialog keeps an `id` parameter, which the list's close
      would drop. */
  lemma CloseKeepsId(ps: Params, id: string)
    requires Get(ps, "id") == Some(id)
    ensures Get(ClosedParams(ps), "id") == Some(id)
    ensures Get(WithoutDialog(ps), "id") == None
  {
  }

  /** After closing, syncing keeps the dialog closed, whichever page it is. */
  lemma CloseThenSyncStaysClosed(ps: Params, addDialog: string)
    ensures !OpenAfterSync(ClosedParams(ps), addDialog)
  {
  }

  /** The page's open flag and the router; `addDialog` is the page's own
      dialog value. */
  class AddPage {
    var openModal: bool
    const addDialog: string
    const router: Router

    constructor (addDialog: string, router: Router)
      ensures this.addDialog == addDialog && this.router == router && !openModal
    {
      this.addDialog := addDialog;
      this.router := router;
      openModal := false;
    }

    /** `handleOpenChange`: both directions push a new history entry; opening
        sets `modal`, closing deletes only `modal`. */
    method HandleOpenChange(open: bool)
      modifies this, router
      ensures openModal == open
      ensures router.location.pathname == old(router.location.pathname)
      ensures router.location.params ==
        if open then OpenedParams(old(router.location.params), addDialog) else ClosedParams(old(router.location.params))
      ensures router.history == old(router.history) + [old(router.location)]
    {
      openModal := open;
      var loc := router.location;
      if open {
        router.Navigate(Location(loc.pathname, OpenedParams(loc.params, addDialog)), false);
      } else {
        router.Navigate(Location(loc.pathname, ClosedParams(loc.params)), false);
      }
    }

    /** The effect on `location.search`: the flag is set from the URL, in both
        directions. */
    method SyncFromUrl()
      modifies this
      ensures openModal == OpenAfterSync(router.location.params, addDialog)
    {
      openModal := Get(router.location.params, "modal") == Some(addDialog);
    }
  }
}
