# Shelf-Wise console rules, in Dafny

Shelf-Wise/Web is the React admin console of a small library system. This project models the rules inside its pages and dialogs:

- the borrow/return desk and its borrow history;
- the dashboard aggregates: books per status and per genre, top borrowers, totals, and active versus inactive members;
- the book and member lists with their title search and URL-driven dialogs;
- the book and member form schemas, prefill and submit;
- the genre editor;
- the sign-up checks;
- the recommendation page;
- the member table's initials, sort toggle and columns;
- the route gate.

Every mutation the console sends is modelled as an explicit request value plus an `Outcome` parameter (`Success` or `Failure`), standing for the server's answer. `navigate` is a `Router` object holding the current `Location` and a history stack. `navigate(to)` pushes onto that stack and `navigate(to, { replace: true })` overwrites the top entry.

`URLSearchParams` is modelled as an ordered list of name/value pairs, not as a map. A query string may repeat a name, and `get`, `set` and `delete` each treat repeats differently:
- `get` reads the first pair with the name;
- `set` overwrites the first pair and drops the later ones;
- `delete` drops them all.

A map would hide all three. The lemmas show that after `set` a name occurs exactly once, after `delete` not at all, and that every other name's pairs are untouched.

The modules follow the source files:

| module | file |
|---|---|
| `Common`, `Seqs`, `Strings` | shared: `Option`, `Outcome`, JavaScript's `filter`, `map`, stable descending `sort`, `slice`, `trim`, ASCII `toLowerCase`, `includes`, `split(" ")`, integer `toString` |
| `Types` | the API entities |
| `Routing` | query parameters, locations, the router |
| `ReturnBooks` | `src/pages/ReturnBooks.tsx` |
| `Dashboard` | `src/pages/Dashboard.tsx` |
| `ViewBooksView` | `src/components/ViewBooks/ViewBooksView.tsx` |
| `ManagePages` | `src/pages/ViewBooks.tsx` and `src/pages/ViewMembers.tsx` (one class, parameterised by the dialog value) |
| `AddBookModal` | `src/components/ViewBooks/AddBookModal.tsx` |
| `MemberModal` | `src/components/ViewMembers/MemberModal.tsx` |
| `ViewMembersView` | `src/components/ViewMembers/ViewMembersView.tsx` |
| `GenrePage` | `src/pages/Genre.tsx` |
| `Registration` | `src/components/auth/Registration.tsx` |
| `Recommendations` | `src/pages/BookRecommendationPage.tsx` |
| `MemberColumns` | `src/components/ViewMembers/table/columns.tsx` |
| `ProtectedRoute` | `src/ProtectedRoute.tsx` |

The state that components hold in `useState` is a class with `modifies` methods. This covers the desk, the dashboard, the lists, the dialogs, the genre editor and the recommendation page. Each effect (`useEffect`) is a method the owner calls after the dependency changes. Derived values (filters, sorts, schemas, badges, panels) are functions, with lemmas stating what they mean.

Points where the code does something other than its surrounding design suggests are modelled as written:
- The book dialog's update request carries no `id`. The `FormData` built with the id is never sent, and both mutations receive `form.getValues()` (`AddBookModal.EditSubmitDropsId`).
- The member table's "Books Borrowed" column sorts on the key "NIC", which no member has (`MemberColumns.BooksBorrowedColumnSortsOnNothing`).
- A member name without a space makes the initials cell throw (`MemberColumns.InitialsDefinedIffSpace`).
- The return list ignores `returnDate` (`ReturnBooks.MemberBorrowedBooksSpec`).
- The genre editor sends the untrimmed name (`GenrePage.NameSentUntrimmed`).

## Model

| member | source | states |
|---|---|---|
| Types.StatusFromCode | src/pages/Dashboard.tsx:96 | `Number(key)` names a status exactly for 0, 1, 2, and inverts the enum's numbering there |
| Types.StatusCodeRoundTrip | src/types/Book.ts:11-21 | decoding a status's number gives the status back; distinct statuses have distinct `mapBookEnum` labels |
| Strings.BlankIffAllWhitespace | src/pages/Genre.tsx:27 | `trim() === ""` holds exactly when every character is JavaScript whitespace |
| Strings.ContainsIffOccurs | src/components/ViewBooks/ViewBooksView.tsx:83 | `includes` holds exactly when the substring occurs at some index |
| Strings.JoinSplit | src/components/ViewMembers/table/columns.tsx:31 | joining the pieces of `split(" ")` with spaces gives the name back |
| Strings.SplitJoin | src/components/ViewMembers/table/columns.tsx:31 | splitting space-free pieces joined with spaces gives the pieces back |
| Strings.DecimalRoundTrip | src/components/ViewBooks/AddBookModal.tsx:110 | the decimal string of a non-negative year reads back as that year |
| Routing.Get | src/components/ViewBooks/ViewBooksView.tsx:23 | `get` finds a value exactly when some pair carries the name |
| Routing.Deleted | src/components/ViewBooks/ViewBooksView.tsx:49-50 | after `delete` the name is absent, every other name reads as before, and only pairs of the input remain |
| Routing.Assigned | src/components/ViewBooks/ViewBooksView.tsx:60-61 | after `set` the name reads as the new value and every other name reads as before |
| Routing.AssignedLeavesOnePair | src/components/ViewBooks/ViewBooksView.tsx:60-61 | after `set` the name occurs exactly once |
| Routing.DeletedLeavesNone | src/components/ViewBooks/ViewBooksView.tsx:49-50 | after `delete` the name occurs nowhere |
| Routing.DeletedKeepsOthers | src/pages/ViewBooks.tsx:24-25 | `delete` keeps the pairs of every other name exactly, in order |
| Routing.AssignedKeepsOthers | src/pages/ViewBooks.tsx:18-19 | `set` keeps the pairs of every other name exactly, in order |
| Routing.Serialize | src/components/ViewBooks/ViewBooksView.tsx:51 | `toString()` is empty exactly when no pair remains |
| Routing.QuerySuffix | src/components/ViewBooks/ViewBooksView.tsx:52 | the suffix is "" with no pairs, else "?" followed by the serialised pairs |
| Routing.HrefBare | src/components/ViewBooks/ViewBooksView.tsx:51-52 | the navigation target is the bare pathname exactly when no parameter remains, so no dangling "?" |
| Routing.WithoutDialog | src/components/ViewBooks/ViewBooksView.tsx:47-54 | closing removes `modal` and `id` and keeps every other parameter's value |
| Routing.WithDialog | src/components/ViewBooks/ViewBooksView.tsx:58-61 | editing sets `modal` and `id` to the new values and keeps every other parameter's value |
| Routing.DialogParamsOnce | src/components/ViewMembers/ViewMembersView.tsx:56-70 | after the edit both dialog parameters occur once; after the close neither occurs |
| Routing.Router.Navigate | src/components/ViewBooks/ViewBooksView.tsx:52-54 | the location becomes the target; a push records the old location, a replace leaves the history as it was |
| ReturnBooks.BorrowedRecords | src/pages/ReturnBooks.tsx:111 | an array response is used as is; anything else counts as no records |
| ReturnBooks.AvailableBooksSpec | src/pages/ReturnBooks.tsx:123-125 | the available list is exactly the AVAILABLE books, an order-preserving subsequence, and empty without books |
| ReturnBooks.MemberBorrowedBooksSpec | src/pages/ReturnBooks.tsx:129-133 | a book is listed for return exactly when it is BORROWED and some record names it, whatever the record's return date |
| ReturnBooks.AvailableAndBorrowedDisjoint | src/pages/ReturnBooks.tsx:123-133 | no book is offered both for borrowing and for return |
| ReturnBooks.NonArrayListsNothing | src/pages/ReturnBooks.tsx:111-133 | a non-array records response lists no book for return |
| ReturnBooks.HistoryRows | src/pages/ReturnBooks.tsx:265-266 | the history is a permutation of the records ordered by creation time, newest first |
| ReturnBooks.HistoryPanel | src/pages/ReturnBooks.tsx:258-300 | loading wins; rows show exactly when records exist, as the newest-first permutation `HistoryRows`; otherwise the message names the member exactly when one is selected |
| ReturnBooks.RowButtonFor | src/pages/ReturnBooks.tsx:285-287 | a row's button is disabled exactly when `returnDate` is not "1/1/0001", and then reads "Returned" |
| ReturnBooks.BorrowDesk.constructor | src/pages/ReturnBooks.tsx:34-36 | no member, no book, the borrow tab |
| ReturnBooks.BorrowDesk.SelectMember | src/pages/ReturnBooks.tsx:146-149 | choosing a member sets it and clears the book; the tab is unchanged |
| ReturnBooks.BorrowDesk.SelectBook | src/pages/ReturnBooks.tsx:175 | choosing a book sets only the book |
| ReturnBooks.BorrowDesk.SelectTab | src/pages/ReturnBooks.tsx:165 | choosing a tab sets only the tab |
| ReturnBooks.BorrowDesk.HandleBorrow | src/pages/ReturnBooks.tsx:61-79 | nothing is sent exactly when the idle Borrow button is disabled; a success clears only the book, a failure changes nothing |
| ReturnBooks.BorrowDesk.HandleReturn | src/pages/ReturnBooks.tsx:81-99 | only a book is required, exactly as for the idle Return button; the member id goes out even if empty; a success clears only the book |
| ReturnBooks.BorrowDesk.ClickHistoryRow | src/pages/ReturnBooks.tsx:281-285 | an enabled row selects its book and switches to the return tab; a disabled row does nothing |
| Dashboard.StatusCounts.Bumped | src/pages/Dashboard.tsx:91 | `statusCounts[s]++` adds one to that status and leaves the others |
| Dashboard.TallyStatuses | src/pages/Dashboard.tsx:84-92 | the loop's counts equal, per status, the number of books with that status |
| Dashboard.StatusCountsSum | src/pages/Dashboard.tsx:84-92 | the three counts add up to the number of books |
| Dashboard.StatusSeries | src/pages/Dashboard.tsx:94-100 | three entries, labelled Available, Borrowed, Damaged in that order, each carrying its own status's count |
| Dashboard.StatusSeriesTotal | src/pages/Dashboard.tsx:84-100 | the status chart of a book list sums to the number of books |
| Dashboard.UpsertSpec | src/pages/Dashboard.tsx:105 | assigning a key keeps keys unique, adds the key, gives it the genre's name and count 0, and leaves other entries unchanged |
| Dashboard.InitialTalliesSpec | src/pages/Dashboard.tsx:103-106 | each listed genre id appears once, with count 0, under the name of the last genre with that id |
| Dashboard.Bump | src/pages/Dashboard.tsx:113 | one more mention for the entry with that id, every other entry unchanged |
| Dashboard.ListGenres | src/pages/Dashboard.tsx:103-106 | the loop over the genres builds exactly `InitialTallies`, whose shape (one zero entry per id, under its last name) `InitialTalliesSpec` proves |
| Dashboard.CountIds | src/pages/Dashboard.tsx:110-115 | the loop over one book's ids adds to every entry the number of times its id occurs, and skips unknown ids |
| Dashboard.CountGenres | src/pages/Dashboard.tsx:103-117 | the loops leave each listed genre with the number of times the books mention its id; unknown ids and books without ids add nothing |
| Dashboard.GenreSeriesSound | src/pages/Dashboard.tsx:119-122 | every bar has a positive count, the bars are largest first, and each bar is one of the tallies |
| Dashboard.GenreSeriesPermutation | src/pages/Dashboard.tsx:119-122 | the bars are the counted tallies reordered, each once: equal genres give equal bars, none merged or repeated |
| Dashboard.GenreSeriesComplete | src/pages/Dashboard.tsx:119-121 | every genre with a positive count gets a bar |
| Dashboard.RankedStatsSpec | src/pages/Dashboard.tsx:125-133 | the ranked bars are the active members' bars reordered, each member's once, so two members with the same name and count give two bars |
| Dashboard.TopBorrowersSound | src/pages/Dashboard.tsx:125-135 | at most five bars, each positive, largest first, each an active member's |
| Dashboard.TopBorrowersComplete | src/pages/Dashboard.tsx:125-135 | an active member left out was beaten: five bars are shown, none smaller than that member's |
| Dashboard.TotalBorrowed | src/pages/Dashboard.tsx:196-198 | the borrowed total never exceeds the book total and equals the chart's BORROWED count |
| Dashboard.ActiveInactiveSplit | src/pages/Dashboard.tsx:624-636 | active plus inactive never exceeds the member total, and equals it when no count is negative |
| Dashboard.NegativeCountIsNeither | src/pages/Dashboard.tsx:624-636 | a member with any negative count is neither active nor inactive |
| Dashboard.NegativeCountLosesMember | src/pages/Dashboard.tsx:624-636 | one member with a negative count makes active plus inactive fall short of the member total |
| Dashboard.DashboardPage.constructor | src/pages/Dashboard.tsx:66-78 | empty series and `isLoading` set |
| Dashboard.DashboardPage.ProcessData | src/pages/Dashboard.tsx:81-161 | with all three collections present the series are computed and loading ends, so `ShowsSpinner` turns off once the queries settle; otherwise nothing changes and a shown spinner stays |
| ViewBooksView.FilteredBooksSpec | src/components/ViewBooks/ViewBooksView.tsx:82-84 | a book is listed exactly when the lower-cased query occurs in its lower-cased title; the list is an order-preserving subsequence |
| ViewBooksView.EmptyQueryKeepsAll | src/components/ViewBooks/ViewBooksView.tsx:82-84 | the empty query lists every book |
| ViewBooksView.SearchIdempotent | src/components/ViewBooks/ViewBooksView.tsx:82-84 | filtering twice with a query equals filtering once |
| ViewBooksView.BooksView.constructor | src/components/ViewBooks/ViewBooksView.tsx:13 | the dialog starts closed |
| ViewBooksView.BooksView.SyncFromUrl | src/components/ViewBooks/ViewBooksView.tsx:21-32 | edit-book or add-book opens the dialog; no URL closes it |
| ViewBooksView.BooksView.HandleOpenChange | src/components/ViewBooks/ViewBooksView.tsx:43-56 | closing removes `modal` and `id` by a history replace; opening leaves the URL alone |
| ViewBooksView.BooksView.HandleEdit | src/components/ViewBooks/ViewBooksView.tsx:58-66 | edit pushes a location with `modal=edit-book` and the id, other parameters kept |
| ViewBooksView.EditThenSync | src/components/ViewBooks/ViewBooksView.tsx:21-66 | edit followed by the URL effect opens the dialog with the id in the URL |
| ViewBooksView.CloseThenSync | src/components/ViewBooks/ViewBooksView.tsx:21-56 | close followed by the URL effect leaves the dialog closed and no dialog parameter in the URL |
| ManagePages.OpenedParams | src/pages/ViewBooks.tsx:17-22 | opening sets the page's dialog value and keeps the other parameters |
| ManagePages.ClosedParams | src/pages/ViewBooks.tsx:23-29 | closing removes `modal` only; every other parameter, `id` included, reads as before |
| ManagePages.EditBookUrlSplitsDialogs | src/pages/ViewBooks.tsx:33-37 | an edit-book URL closes the page's add dialog while the list opens its own |
| ManagePages.CloseKeepsId | src/pages/ViewMembers.tsx:23-26 | the page's close keeps `id`, which the list's close drops |
| ManagePages.CloseThenSyncStaysClosed | src/pages/ViewMembers.tsx:23-37 | after the page's close the URL effect keeps its dialog closed |
| ManagePages.AddPage.constructor | src/pages/ViewBooks.tsx:9 | the dialog starts closed |
| ManagePages.AddPage.HandleOpenChange | src/pages/ViewBooks.tsx:14-31 | both directions push; opening sets the dialog value, closing removes `modal` only |
| ManagePages.AddPage.SyncFromUrl | src/pages/ViewMembers.tsx:33-37 | the flag becomes exactly "modal is this page's dialog value", opening or closing |
| AddBookModal.BookFormErrors | src/components/ViewBooks/AddBookModal.tsx:35-42 | the form passes exactly when title, author, isbn and year are non-empty; messages come in schema order |
| AddBookModal.PrefillValid | src/components/ViewBooks/AddBookModal.tsx:105-111 | a prefilled form passes exactly when the book's title, author and isbn are non-empty |
| AddBookModal.PrefillYearRoundTrip | src/components/ViewBooks/AddBookModal.tsx:110 | the prefilled year is digits reading back as the book's year |
| AddBookModal.Values | src/components/ViewBooks/AddBookModal.tsx:161-163 | `form.getValues()` carries no id |
| AddBookModal.FormDataFor | src/components/ViewBooks/AddBookModal.tsx:149-160 | the built `FormData` carries the id exactly in edit mode |
| AddBookModal.BookModal.constructor | src/components/ViewBooks/AddBookModal.tsx:54-82 | no id, the placeholder preview, the URL unread, an empty form |
| AddBookModal.BookModal.Title | src/components/ViewBooks/AddBookModal.tsx:179-181 | "Update Book" exactly in edit mode |
| AddBookModal.BookModal.CheckUrl | src/components/ViewBooks/AddBookModal.tsx:85-101 | only the first call reads the URL: edit-book with an id selects it and asks to open, add-book clears it and asks to open, anything else changes nothing |
| AddBookModal.BookModal.OnBookLoaded | src/components/ViewBooks/AddBookModal.tsx:104-117 | a loaded book refills the form only in edit mode |
| AddBookModal.BookModal.OnOpenChanged | src/components/ViewBooks/AddBookModal.tsx:120-131 | closing clears the form, the id and the preview whatever they held |
| AddBookModal.BookModal.Submit | src/components/ViewBooks/AddBookModal.tsx:147-170 | an invalid form sends nothing; update in edit mode, add otherwise, both with the bare values; close only on success |
| AddBookModal.EditSubmitDropsId | src/components/ViewBooks/AddBookModal.tsx:149-163 | in edit mode the `FormData` holds the id but the update sent has none |
| MemberModal.MemberFormErrors | src/components/ViewMembers/MemberModal.tsx:24-32 | the form passes exactly when the five text fields are non-empty and the email passes the email rule |
| MemberModal.ResetFrom | src/components/ViewMembers/MemberModal.tsx:75-82 | before the member loads the name is "HII" and the rest empty; after, the member's fields with "" for missing ones |
| MemberModal.UnloadedResetIsInvalid | src/components/ViewMembers/MemberModal.tsx:75-82 | the form built before the member loads never passes the schema |
| MemberModal.MemberDialog.constructor | src/components/ViewMembers/MemberModal.tsx:46-62 | no member id and an empty form |
| MemberModal.MemberDialog.Heading | src/components/ViewMembers/MemberModal.tsx:107-111 | title and description both read "Edit Member" exactly when a member id is set; in add mode they differ |
| MemberModal.MemberDialog.SyncFromUrl | src/components/ViewMembers/MemberModal.tsx:64-85 | add-member asks to open and changes nothing; edit-member with an id sets it, asks to open and resets the form from the loaded member |
| MemberModal.MemberDialog.Submit | src/components/ViewMembers/MemberModal.tsx:87-97 | an invalid form sends nothing; update with the id when one is set, add otherwise; close only after success |
| ViewMembersView.OpensMemberDialogStable | src/components/ViewMembers/ViewMembersView.tsx:18-26 | an opening URL stays opening when an unrelated parameter is set, and stops after the list's close |
| ViewMembersView.MembersView.constructor | src/components/ViewMembers/ViewMembersView.tsx:12 | the dialog starts closed |
| ViewMembersView.MembersView.SyncFromUrl | src/components/ViewMembers/ViewMembersView.tsx:18-26 | edit-member with an id opens the dialog; nothing closes it |
| ViewMembersView.MembersView.HandleOpenChange | src/components/ViewMembers/ViewMembersView.tsx:50-65 | the flag takes the value; closing removes `modal` and `id` by a replace; opening leaves the URL alone |
| ViewMembersView.MembersView.HandleEdit | src/components/ViewMembers/ViewMembersView.tsx:67-77 | edit pushes `modal=edit-member` and the id, then opens |
| GenrePage.NameTakenSpec | src/pages/Genre.tsx:35 | a name is taken exactly when some genre has exactly that name |
| GenrePage.FindGenre | src/pages/Genre.tsx:49 | `find` returns the first genre with the id, and nothing exactly when none has it |
| GenrePage.GenreRequestFor | src/pages/Genre.tsx:29-38 | editing sends id and name; adding sends the name exactly when no genre has it |
| GenrePage.NameSentUntrimmed | src/pages/Genre.tsx:27-36 | any non-blank name padded with spaces passes the blank check and is sent with its padding, unless a genre has exactly the padded name |
| GenrePage.CaseVariantIsNotDuplicate | src/pages/Genre.tsx:35 | a name equal to an existing genre's only up to case is sent as a new genre whenever no genre has it exactly; "poetry" beside "Poetry" is one such name |
| GenrePage.GenreEditor.constructor | src/pages/Genre.tsx:17-18 | empty name, no edit id |
| GenrePage.GenreEditor.ButtonCaption | src/pages/Genre.tsx:73-80 | the caption names an update exactly when the edit id is a non-empty string |
| GenrePage.GenreEditor.AddOrUpdateGenre | src/pages/Genre.tsx:26-46 | a disabled button's condition sends nothing; a blank name changes nothing; a failure keeps the state; success or a skipped duplicate clears name and edit id |
| GenrePage.GenreEditor.EditGenre | src/pages/Genre.tsx:48-54 | a known id loads its name and becomes the edit id; an unknown id changes nothing |
| GenrePage.EditThenSave | src/pages/Genre.tsx:26-54 | picking a genre and saving sends its id and name and clears the editor |
| Registration.HasCharInSpec | src/components/auth/Registration.tsx:23-24 | the scan finds a character in the range exactly when one exists |
| Registration.ValidatePassword | src/components/auth/Registration.tsx:21-27 | valid exactly when some character is a-z and some is 0-9 |
| Registration.PasswordExamples | src/components/auth/Registration.tsx:21-27 | "a1" passes; upper case does not count; no length rule |
| Registration.PasswordMonotone | src/components/auth/Registration.tsx:21-27 | adding characters around a valid password keeps it valid |
| Registration.InputError | src/components/auth/Registration.tsx:33-48 | the first failing check in order gives the only message; none exactly when all pass |
| Registration.AtSignSuffices | src/components/auth/Registration.tsx:38-41 | example: "@" alone passes the email check (user "u", password "a1"); the general rule is `InputError`'s last clause |
| Registration.FailureMessage | src/components/auth/Registration.tsx:58 | the server's non-empty description, else "Registration failed" |
| Registration.HandleSubmit | src/components/auth/Registration.tsx:29-65 | a failed check shows its message and sends nothing; otherwise success navigates to /login, a failure shows its message, a thrown call shows the generic one |
| Recommendations.RecommendationList | src/pages/BookRecommendationPage.tsx:41-45 | an array is kept, one value becomes a one-element list, nothing becomes empty |
| Recommendations.MemberList | src/pages/BookRecommendationPage.tsx:40 | the members are the response value, or none |
| Recommendations.StatusVariantIsLowerLabel | src/pages/BookRecommendationPage.tsx:158-162 | a card's status variant is the lower-cased `mapBookEnum` label |
| Recommendations.GenreBadges | src/pages/BookRecommendationPage.tsx:184-199 | the first three names, then "+N more" exactly when there are more than three; a placeholder without genres |
| Recommendations.GenreBadgesBounded | src/pages/BookRecommendationPage.tsx:184-195 | at most four badges, four exactly when there are more than three genres |
| Recommendations.PanelFor | src/pages/BookRecommendationPage.tsx:119-145 | prompt without a member, then six skeletons while loading, then the empty message, then the cards |
| Recommendations.SingleRecommendationIsShown | src/pages/BookRecommendationPage.tsx:41-45 | a single recommendation is shown as one card |
| Recommendations.RecommendationPage.constructor | src/pages/BookRecommendationPage.tsx:28 | no member selected |
| Recommendations.RecommendationPage.HandleMemberChange | src/pages/BookRecommendationPage.tsx:49-51 | the member becomes the chosen one |
| Recommendations.RecommendationPage.Refresh | src/pages/BookRecommendationPage.tsx:53-57 | a refetch happens exactly when the button is enabled, i.e. a member is selected |
| MemberColumns.CharAt0 | src/components/ViewMembers/table/columns.tsx:37 | the first character, or "" for the empty string |
| MemberColumns.SplitHasSecondPiece | src/components/ViewMembers/table/columns.tsx:31 | `split(" ")` has a second piece exactly when the name contains a space |
| MemberColumns.InitialsDefinedIffSpace | src/components/ViewMembers/table/columns.tsx:31-38 | the initials are computed exactly for names with a space; otherwise rendering throws |
| MemberColumns.InitialsAfter | src/components/ViewMembers/table/columns.tsx:37 | two words give their first letters, whatever follows |
| MemberColumns.InitialsOfTwoWords | src/components/ViewMembers/table/columns.tsx:37 | words after the second do not change the initials |
| MemberColumns.DoubleSpaceDropsSecondInitial | src/components/ViewMembers/table/columns.tsx:31-37 | a first word followed by a doubled space leaves only that word's initial, whatever follows |
| MemberColumns.DoubleSpaceExample | src/components/ViewMembers/table/columns.tsx:31-37 | example: "Ann  Lee" shows "A" |
| MemberColumns.RequestedDirection | src/components/ViewMembers/table/columns.tsx:22 | descending exactly when currently ascending; never unsorted |
| MemberColumns.ToggleAlternates | src/components/ViewMembers/table/columns.tsx:51 | repeated clicks alternate direction |
| MemberColumns.BooksBorrowedColumnSortsOnNothing | src/components/ViewMembers/table/columns.tsx:61-76 | the "Books Borrowed" column's key reads as absent for every member, while the field its cell shows would have a value exactly when the cell does |
| MemberColumns.RowActions | src/components/ViewMembers/table/columns.tsx:89-100 | Edit and Delete both carry the row's own id |
| ProtectedRoute.Gate | src/ProtectedRoute.tsx:13-27 | redirect to /login exactly when there is no token and no bypass |
| ProtectedRoute.NoPublicPathNoBypass | src/ProtectedRoute.tsx:17 | an empty or absent public path never bypasses the token check |
| ProtectedRoute.EmptyTokenAuthenticates | src/ProtectedRoute.tsx:13 | an empty stored token still authenticates |
| ProtectedRoute.PublicPathRenders | src/ProtectedRoute.tsx:17-19 | without a token, exactly the public path renders |

## Left out

- Percent-encoding in `URLSearchParams` is not modelled. Names and values are taken to need none, and a query string is taken as already parsed into pairs.
- The `Router` history is a plain stack. Browser back/forward and the `location` object's other fields are not modelled.
- The network is not modelled: fetching, caching, refetching and tag invalidation in the RTK Query slices. Each mutation is a request value plus an `Outcome`, and each query result is a parameter. Loading flags are parameters.
- The store, the API slices' endpoint tables, login-form storage writes, `App.tsx` routing, the sidebar and the demo line chart are not part of this model.
- `src/pages/BorrowBook.tsx` is entirely commented out and is not modelled.
- The image preview and upload flow of the book dialog is commented out in the source and is not modelled. The member avatar's `src` is always the text "undefined" (it reads `imageURL`), which is presentation only.
- Floating-point dashboard figures (average books per member, borrowing rate, chart percentages) are left out. So is the commented-out monthly trend.
- `b.CreatedAt` in the history sort is spelt with a capital C, unlike every other field the console reads, and no declared type has it. The model sorts on `BorrowRecord.createdAt`, which takes the server to send that casing; if it sends `createdAt`, every comparison is NaN and the table keeps the order the records came in, which the model does not capture.
- Dates are not modelled. `formatDate` and `toLocaleDateString` are left out. A record's creation time is an integer timestamp (`BorrowRecord.createdAt`) instead of a date string parsed by `new Date`.
- `toLowerCase` is modelled on ASCII letters only. Other characters are kept as they are.
- MemberColumns.CharAt0: a Dafny `char` is a whole code point, while `charAt(0)` returns one UTF-16 code unit, so a name starting with a character outside the Basic Multilingual Plane (an emoji) gets a different initial here than in the browser.
- The member form's email rule belongs to the validation library. It is a parameter `isEmail`.
- `Types.StatusFromCode`: enum values outside 0–2 are not modelled. A book's status is always one of the three.
- Dashboard.Upsert: genre ids are plain string keys. Keys that JavaScript objects order specially (integer-like strings go first in `Object.values`) or inherit from `Object.prototype` are not modelled. The tally keeps insertion order.
- The `|| ""` fallbacks of the book prefill are the identity under the declared types and are dropped. A book's `publicationYear` is always present.
- Stability of the descending sorts is built into `Seqs.InsertDesc`, but no lemma states it. The lemmas state order and permutation (multiset equality) only.
- Recommendations.RecommendationList: the model does not keep a falsy non-array value (0, "") apart from a missing one. Both give the empty list, as in the source.
- Toasts are modelled only on the sign-up form (`Registration.HandleSubmit`); the other pages' toasts, console logging and React re-rendering are not. Each effect is a method called after its dependency changes.
