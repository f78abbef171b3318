/** The member list (src/components/ViewMembers/ViewMembersView.tsx): the
    URL parameters that open and close the member dialog. */
module ViewMembersView {
  import opened Common
  import opened Routing

  /** `modalParam === "edit-member" && idParam`. */
  predicate OpensMemberDialog(ps: Params)
  {
    Get(ps, "modal") == Some("edit-member") && Get(ps, "id").Some? && Get(ps, "id").value != ""
  }

  /** An edit-member URL still opens the dialog after any unrelated parameter
      is set, and never after the list's own close. */
  lemma OpensMemberDialogStable(ps: Params, k: string, v: string)
    requires OpensMemberDialog(ps) && k != "modal" && k != "id"
    ensures OpensMemberDialog(Assigned(ps, k, v))
    ensures !OpensMemberDialog(WithoutDialog(ps))
  {
  }

  /** The list's `openModal` flag and the router it navigates with. */
  class MembersView {
    var openModal: bool
    const router: Router

    constructor (router: Router)
      ensures this.router == router && !openModal
    {
      this.router := router;
      openModal := false;
    }

    /** The effect on `location.search`: an edit-member URL with an id opens
        the dialog; nothing here closes it. */
    method SyncFromUrl()
      modifies this
      ensures openModal == (old(openModal) || OpensMemberDialog(router.location.params))
    {
      if OpensMemberDialog(router.location.params) {
        openModal := true;
      }
    }

    /** `handleOpenChange`: the flag is set (twice, to the same value);
        closing drops `modal` and `id` and replaces the history entry, opening
        leaves the URL alone. */
    method HandleOpenChange(open: bool)
      modifies this, router
      ensures openModal == open
      ensures !open ==> (router.location == Location(old(router.location.pathname), WithoutDialog(old(router.location.params)))
                         && router.history == old(router.history))
      ensures open ==> router.location == old(router.location) && router.history == old(router.history)
    {
      openModal := open;
      openModal := open;
      if !open {
        var loc := router.location;
        router.Navigate(Location(loc.pathname, WithoutDialog(loc.params)), true);
      }
    }

    /** `handleEdit`: pushes `modal=edit-member` and `id`, then opens. */
    method HandleEdit(id: string)
      modifies this, router
      ensures router.location == Location(old(router.location.pathname), WithDialog(old(router.location.params), "edit-member", id))
      ensures router.history == old(router.history) + [old(router.location)]
      ensures openModal
    {
      var loc := router.location;
      router.Navigate(Location(loc.pathname, WithDialog(loc.params, "edit-member", id)), false);
      HandleOpenChange(true);
    }
  }
}
