/** The recommendation page (src/pages/BookRecommendationPage.tsx): the
    normalised list of recommended books, the guarded refresh, the genre
    badges of a card and which panel is shown. */
module Recommendations {
  import opened Common
  import opened Types
  import opened Strings

  /** What `recommendationsResponse?.value` holds: nothing (or a falsy value),
      a single recommendation, or an array of them. */
  datatype RecValue = Missing | One(book: BookRecommendation) | Many(books: seq<BookRecommendation>)

  /** `Array.isArray(v) ? v : v ? [v] : []`. */
  function RecommendationList(v: RecValue): (r: seq<BookRecommendation>)
    ensures v.Many? ==> r == v.books
    ensures v.One? ==> r == [v.book]
    ensures v.Missing? ==> r == []
    ensures r == [] ==> v.Missing? || v == Many([])
  {
    match v
    case Missing => []
    case One(b) => [b]
    case Many(bs) => bs
  }

  /** `membersResponse?.value || []`. */
  function MemberList(value: Option<seq<Member>>): (r: seq<Member>)
    ensures value.Some? ==> r == value.value
    ensures value.None? ==> r == []
  {
    value.GetOr([])
  }

  /** `statusVariant[book.status]`. */
  function StatusVariant(s: BookStatus): string
  {
    match s
    case Available => "available"
    case Borrowed => "borrowed"
    case Damaged => "damaged"
  }

  /** The badge variant is the lower-cased status label. */
  lemma StatusVariantIsLowerLabel(s: BookStatus)
    ensures StatusVariant(s) == Lower(MapBookEnum(s))
  {
  }

  /** The genre row of a card. */
  datatype BadgeRow = NoGenresAvailable | Badges(labels: seq<string>)

  /** `"+" + (n - 3) + " more"`. */
  function MoreLabel(extra: nat): string
  {
    "+" + NatToDecimal(extra) + " more"
  }

  /** At most the first three genre names, then "+N more" with N the rest,
      exactly when there are more than three. */
  function GenreBadges(genres: Option<seq<Genre>>): (row: BadgeRow)
    ensures row.NoGenresAvailable? <==> genres.None? || genres.value == []
    ensures row.Badges? ==>
      var n := |genres.value|;
      var shown := if n <= 3 then n else 3;
      && |row.labels| == shown + (if n > 3 then 1 else 0)
      && (forall i :: 0 <= i < shown ==> row.labels[i] == genres.value[i].name)
      && (n > 3 ==> row.labels[3] == MoreLabel(n - 3))
  {
    if genres.None? || genres.value == [] then NoGenresAvailable
    else
      var gs := genres.value;
      var names := seq(if |gs| <= 3 then |gs| else 3, i requires 0 <= i < |gs| && i < 3 => gs[i].name);
      Badges(names + (if |gs| > 3 then [MoreLabel(|gs| - 3)] else []))
  }

  /** Never more than four badges, and the extra count is never zero. */
  lemma GenreBadgesBounded(genres: seq<Genre>)
    requires genres != []
    ensures |GenreBadges(Some(genres)).labels| <= 4
    ensures |GenreBadges(Some(genres)).labels| == 4 <==> |genres| > 3
  {
  }

  /** The right-hand panel. */
  datatype Panel = SelectPrompt | Skeletons(count: nat) | NoRecommendations | Cards(books: seq<BookRecommendation>)

  /** The nested conditional: no member first, then loading, then empty, then
      the cards. */
  function PanelFor(selectedMemberId: string, isLoading: bool, v: RecValue): (p: Panel)
    ensures p == SelectPrompt <==> selectedMemberId == ""
    ensures p.Skeletons? <==> selectedMemberId != "" && isLoading
    ensures p.Skeletons? ==> p.count == 6
    ensures p == NoRecommendations <==> selectedMemberId != "" && !isLoading && RecommendationList(v) == []
    ensures p.Cards? ==> p.books == RecommendationList(v) && p.books != []
  {
    if selectedMemberId == "" then SelectPrompt
    else if isLoading then Skeletons(6)
    else if RecommendationList(v) == [] then NoRecommendations
    else Cards(RecommendationList(v))
  }

  /** Cards appear for a single recommendation as well as for an array. */
  lemma SingleRecommendationIsShown(member: string, b: BookRecommendation)
    requires member != ""
    ensures PanelFor(member, false, One(b)) == Cards([b])
  {
  }

  /** The page's selected member and the number of refetches it has asked for. */
  class RecommendationPage {
    var selectedMemberId: string
    var refetches: nat

    constructor ()
      ensures selectedMemberId == "" && refetches == 0
    {
      selectedMemberId, refetches := "", 0;
    }

    /** `skip: !selectedMemberId`. */
    predicate QueryActive()
      reads this
    {
      selectedMemberId != ""
    }

    predicate RefreshDisabled()
      reads this
    {
      selectedMemberId == ""
    }

    method HandleMemberChange(value: string)
      modifies this
      ensures selectedMemberId == value && refetches == old(refetches)
    {
      selectedMemberId := value;
    }

    /** `refreshRecommendations`: refetch only with a member selected, which is
        exactly when the button is enabled. */
    method Refresh()
      modifies this
      ensures refetches == old(refetches) + (if old(RefreshDisabled()) then 0 else 1)
      ensures selectedMemberId == old(selectedMemberId)
    {
      if selectedMemberId != "" {
        refetches := refetches + 1;
      }
    }
  }
}
