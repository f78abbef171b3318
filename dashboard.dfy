/** The dashboard's aggregates (src/pages/Dashboard.tsx): books per status,
    books per genre, the top borrowers, the summary totals and the split of
    members into active and inactive borrowers. */
module Dashboard {
  import opened Common
  import opened Types
  import Seqs

  // ---------------------------------------------------------------- statuses

  /** `statusCounts`, keyed by the three statuses. */
  datatype StatusCounts = StatusCounts(available: nat, borrowed: nat, damaged: nat) {
    function Of(s: BookStatus): nat
    {
      match s
      case Available => available
      case Borrowed => borrowed
      case Damaged => damaged
    }

    /** `statusCounts[s]++`. */
    function Bumped(s: BookStatus): (c: StatusCounts)
      ensures c.Of(s) == Of(s) + 1
      ensures forall t :: t != s ==> c.Of(t) == Of(t)
    {
      match s
      case Available => this.(available := available + 1)
      case Borrowed => this.(borrowed := borrowed + 1)
      case Damaged => this.(damaged := damaged + 1)
    }
  }

  function HasStatus(s: BookStatus): Book -> bool
  {
    (b: Book) => b.status == s
  }

  /** How many of the books have the status. */
  function CountWithStatus(books: seq<Book>, s: BookStatus): nat
  {
    |Seqs.Filter(HasStatus(s), books)|
  }

  /** What `statusCounts` should hold for a list of books. */
  function StatusCountsOf(books: seq<Book>): StatusCounts
  {
    StatusCounts(CountWithStatus(books, Available), CountWithStatus(books, Borrowed),
                 CountWithStatus(books, Damaged))
  }

  /** The first `forEach`: every count starts at 0 and each book adds one to
      its own status. */
  method TallyStatuses(books: seq<Book>) returns (counts: StatusCounts)
    ensures counts == StatusCountsOf(books)
  {
    counts := StatusCounts(0, 0, 0);
    for i := 0 to |books|
      invariant counts == StatusCountsOf(books[..i])
    {
      assert books[..i + 1] == books[..i] + [books[i]];
      Seqs.FilterSnoc(HasStatus(Available), books[..i], books[i]);
      Seqs.FilterSnoc(HasStatus(Borrowed), books[..i], books[i]);
      Seqs.FilterSnoc(HasStatus(Damaged), books[..i], books[i]);
      counts := counts.Bumped(books[i].status);
    }
    assert books[..|books|] == books;
  }

  /** Every book is counted under exactly one status. */
  lemma {:induction false} StatusCountsSum(books: seq<Book>)
    ensures StatusCountsOf(books).available + StatusCountsOf(books).borrowed
            + StatusCountsOf(books).damaged == |books|
    decreases |books|
  {
    if books != [] {
      StatusCountsSum(books[1..]);
    }
  }

  /** One slice of the status chart. */
  datatype StatusEntry = StatusEntry(status: string, count: nat)

  /** `Object.entries(statusCounts).map(([status, count]) => ...)`: the numeric
      keys in ascending order, each turned back into its label. */
  function StatusSeries(c: StatusCounts): (r: seq<StatusEntry>)
    ensures |r| == 3
    ensures r[0].status == "Available" && r[1].status == "Borrowed" && r[2].status == "Damaged"
    ensures r[0].count == c.available && r[1].count == c.borrowed && r[2].count == c.damaged
  {
    seq(3, code requires 0 <= code < 3 =>
      var s := StatusFromCode(code).value;
      StatusEntry(MapBookEnum(s), c.Of(s)))
  }

  /** The status chart of a list of books adds up to the number of books. */
  lemma StatusSeriesTotal(books: seq<Book>)
    ensures var r := StatusSeries(StatusCountsOf(books));
      r[0].count + r[1].count + r[2].count == |books|
  {
    StatusCountsSum(books);
  }

  // ------------------------------------------------------------------ genres

  /** One value of `genreMap`, together with the key it is stored under. */
  datatype GenreTally = GenreTally(id: string, name: string, count: nat)

  /** `genreMap[g.id] = { name: g.name, count: 0 }`: an existing key keeps its
      place and takes the new value, a new key goes last. */
  function Upsert(t: seq<GenreTally>, g: Genre): (r: seq<GenreTally>)
    decreases |t|
  {
    if t == [] then [GenreTally(g.id, g.name, 0)]
    else if t[0].id == g.id then [GenreTally(g.id, g.name, 0)] + t[1..]
    else [t[0]] + Upsert(t[1..], g)
  }

  function Ids(t: seq<GenreTally>): set<string>
  {
    set i | 0 <= i < |t| :: t[i].id
  }

  ghost predicate UniqueIds(t: seq<GenreTally>)
  {
    forall i, j :: 0 <= i < j < |t| ==> t[i].id != t[j].id
  }

  /** The name the last genre with this id carries, if any. */
  function LastName(genres: seq<Genre>, id: string): Option<string>
    decreases |genres|
  {
    if genres == [] then None
    else if genres[|genres| - 1].id == id then Some(genres[|genres| - 1].name)
    else LastName(genres[..|genres| - 1], id)
  }

  /** `genreMap` after the second `forEach`, before any book is counted. */
  function InitialTallies(genres: seq<Genre>): (t: seq<GenreTally>)
    decreases |genres|
  {
    if genres == [] then []
    else Upsert(InitialTallies(genres[..|genres| - 1]), genres[|genres| - 1])
  }

  lemma IdsCons(t: seq<GenreTally>)
    requires t != []
    ensures Ids(t) == {t[0].id} + Ids(t[1..])
  {
    forall x | x in Ids(t) ensures x in {t[0].id} + Ids(t[1..]) {
      var i :| 0 <= i < |t| && t[i].id == x;
      if i > 0 { assert t[1..][i - 1].id == x; }
    }
    forall x | x in Ids(t[1..]) ensures x in Ids(t) {
      var i :| 0 <= i < |t[1..]| && t[1..][i].id == x;
      assert t[i + 1].id == x;
    }
  }

  lemma {:induction false} UpsertSpec(t: seq<GenreTally>, g: Genre)
    requires UniqueIds(t)
    ensures UniqueIds(Upsert(t, g))
    ensures Ids(Upsert(t, g)) == Ids(t) + {g.id}
    ensures forall i :: 0 <= i < |Upsert(t, g)| ==>
      var e := Upsert(t, g)[i];
      if e.id == g.id then e.name == g.name && e.count == 0
      else exists j :: 0 <= j < |t| && t[j] == e
    decreases |t|
  {
    var r := Upsert(t, g);
    if t == [] {
      assert r[0].id == g.id;
      IdsCons(r);
    } else if t[0].id != g.id {
      UpsertSpec(t[1..], g);
      assert r[0] == t[0];
      assert r[1..] == Upsert(t[1..], g);
      forall i | 0 <= i < |r| && r[i].id != g.id ensures exists j :: 0 <= j < |t| && t[j] == r[i] {
        if i > 0 {
          assert r[i] == r[1..][i - 1];
          var j :| 0 <= j < |t[1..]| && t[1..][j] == r[i];
          assert t[j + 1] == r[i];
        } else {
          assert t[0] == r[i];
        }
      }
      IdsCons(t);
      IdsCons(r);
      forall i, j | 0 <= i < j < |r| ensures r[i].id != r[j].id {
        if i == 0 {
          assert r[j] == r[1..][j - 1];
          if r[j].id != g.id {
            var k :| 0 <= k < |t[1..]| && t[1..][k] == r[j];
            assert t[k + 1] == r[j];
          }
        } else {
          assert r[i] == r[1..][i - 1] && r[j] == r[1..][j - 1];
        }
      }
    } else {
      assert r[1..] == t[1..];
      forall i | 0 <= i < |r| && r[i].id != g.id ensures exists j :: 0 <= j < |t| && t[j] == r[i] {
        assert t[i] == r[i];
      }
      IdsCons(t);
      IdsCons(r);
    }
  }

  /** Each listed genre appears once, under the name of the last genre with
      its id, with a count of 0. */
  lemma {:induction false} InitialTalliesSpec(genres: seq<Genre>)
    ensures UniqueIds(InitialTallies(genres))
    ensures Ids(InitialTallies(genres)) == set g | g in genres :: g.id
    ensures forall i :: 0 <= i < |InitialTallies(genres)| ==>
      InitialTallies(genres)[i].count == 0 &&
      LastName(genres, InitialTallies(genres)[i].id) == Some(InitialTallies(genres)[i].name)
    decreases |genres|
  {
    if genres != [] {
      var front, g := genres[..|genres| - 1], genres[|genres| - 1];
      InitialTalliesSpec(front);
      UpsertSpec(InitialTallies(front), g);
      assert genres == front + [g];
      assert (set x | x in genres :: x.id) == (set x | x in front :: x.id) + {g.id};
    }
  }

  /** How often the id occurs in a list of genre ids. */
  function CountIn(ids: seq<string>, id: string): nat
    decreases |ids|
  {
    if ids == [] then 0
    else CountIn(ids[..|ids| - 1], id) + (if ids[|ids| - 1] == id then 1 else 0)
  }

  /** How often the books mention the genre id; a book without `genreIds`
      mentions nothing. */
  function Mentions(books: seq<Book>, id: string): nat
    decreases |books|
  {
    if books == [] then 0
    else
      var b := books[|books| - 1];
      Mentions(books[..|books| - 1], id) + (if b.genreIds.Some? then CountIn(b.genreIds.value, id) else 0)
  }

  /** What `genreMap` should hold after the books are counted: the listed
      genres, each with the number of mentions of its id. */
  function GenreTallies(genres: seq<Genre>, books: seq<Book>): (t: seq<GenreTally>)
    ensures |t| == |InitialTallies(genres)|
  {
    var init := InitialTallies(genres);
    seq(|init|, j requires 0 <= j < |init| => init[j].(count := Mentions(books, init[j].id)))
  }

  /** `if (genreMap[genreId])`. */
  predicate IsKnown(t: seq<GenreTally>, id: string)
  {
    exists j :: 0 <= j < |t| && t[j].id == id
  }

  /** `genreMap[genreId].count++`. */
  function Bump(t: seq<GenreTally>, id: string): (r: seq<GenreTally>)
    ensures |r| == |t|
    ensures forall j :: 0 <= j < |t| ==>
      r[j] == if t[j].id == id then t[j].(count := t[j].count + 1) else t[j]
  {
    seq(|t|, j requires 0 <= j < |t| => if t[j].id == id then t[j].(count := t[j].count + 1) else t[j])
  }

  /** The second `forEach`: one entry per listed genre id. */
  method ListGenres(genres: seq<Genre>) returns (init: seq<GenreTally>)
    ensures init == InitialTallies(genres)
  {
    init := [];
    for k := 0 to |genres|
      invariant init == InitialTallies(genres[..k])
    {
      assert genres[..k + 1][..k] == genres[..k];
      init := Upsert(init, genres[k]);
    }
    assert genres[..|genres|] == genres;
  }

  /** The inner `forEach` over one book's genre ids: every entry gains the
      number of times its id occurs, and ids nobody lists are skipped. */
  method CountIds(t: seq<GenreTally>, ids: seq<string>) returns (r: seq<GenreTally>)
    ensures |r| == |t|
    ensures forall j :: 0 <= j < |t| ==> r[j] == t[j].(count := t[j].count + CountIn(ids, t[j].id))
  {
    r := t;
    for k := 0 to |ids|
      invariant |r| == |t|
      invariant forall j :: 0 <= j < |t| ==> r[j] == t[j].(count := t[j].count + CountIn(ids[..k], t[j].id))
    {
      assert ids[..k + 1][..k] == ids[..k];
      if IsKnown(r, ids[k]) {
        r := Bump(r, ids[k]);
      }
    }
    assert ids[..|ids|] == ids;
  }

  /** The second and third `forEach`: list the genres, then count every
      known genre id of every book. */
  method CountGenres(genres: seq<Genre>, books: seq<Book>) returns (tallies: seq<GenreTally>)
    ensures tallies == GenreTallies(genres, books)
  {
    var init := ListGenres(genres);
    InitialTalliesSpec(genres);
    tallies := init;
    for i := 0 to |books|
      invariant |tallies| == |init|
      invariant forall j :: 0 <= j < |init| ==>
        tallies[j] == init[j].(count := Mentions(books[..i], init[j].id))
    {
      assert books[..i + 1][..i] == books[..i];
      var b := books[i];
      forall j | 0 <= j < |init|
        ensures Mentions(books[..i + 1], init[j].id)
          == Mentions(books[..i], init[j].id) + (if b.genreIds.Some? then CountIn(b.genreIds.value, init[j].id) else 0)
      {
      }
      if b.genreIds.Some? {
        tallies := CountIds(tallies, b.genreIds.value);
      }
    }
    assert books[..|books|] == books;
  }

  /** One bar of the genre chart: `{ name, count }`. */
  datatype GenreEntry = GenreEntry(name: string, count: nat)

  function TallyCount(t: GenreTally): int
  {
    t.count
  }

  function IsCounted(t: GenreTally): bool
  {
    t.count > 0
  }

  function ToGenreEntry(t: GenreTally): GenreEntry
  {
    GenreEntry(t.name, t.count)
  }

  /** `Object.values(genreMap).filter(g => g.count > 0).sort((a, b) => b.count - a.count)`. */
  function GenreSeries(t: seq<GenreTally>): seq<GenreEntry>
  {
    Seqs.Map(ToGenreEntry, Seqs.SortDesc(TallyCount, Seqs.Filter(IsCounted, t)))
  }

  /** Every bar has a positive count, the bars are largest first, and each
      bar is one of the tallies. */
  lemma GenreSeriesSound(t: seq<GenreTally>)
    ensures var r := GenreSeries(t);
      && (forall i :: 0 <= i < |r| ==> r[i].count > 0)
      && (forall i, j :: 0 <= i < j < |r| ==> r[i].count >= r[j].count)
      && (forall i :: 0 <= i < |r| ==> exists j :: 0 <= j < |t| && ToGenreEntry(t[j]) == r[i])
  {
    var kept := Seqs.Filter(IsCounted, t);
    var sorted := Seqs.SortDesc(TallyCount, kept);
    var r := GenreSeries(t);
    Seqs.SortDescMembers(TallyCount, kept);
    forall i | 0 <= i < |r| ensures r[i].count > 0 && exists j :: 0 <= j < |t| && ToGenreEntry(t[j]) == r[i] {
      assert sorted[i] in sorted;
      var k :| 0 <= k < |kept| && kept[k] == sorted[i];
      assert IsCounted(kept[k]) && kept[k] in t;
      var j :| 0 <= j < |t| && t[j] == sorted[i];
    }
    forall i, j | 0 <= i < j < |r| ensures r[i].count >= r[j].count {
      assert TallyCount(sorted[i]) >= TallyCount(sorted[j]);
    }
  }

  /** The bars are the counted tallies, each once, reordered: two genres with
      the same name and count give two bars. */
  lemma GenreSeriesPermutation(t: seq<GenreTally>)
    ensures multiset(GenreSeries(t)) == multiset(Seqs.Map(ToGenreEntry, Seqs.Filter(IsCounted, t)))
  {
    var kept := Seqs.Filter(IsCounted, t);
    Seqs.MapPermutation(ToGenreEntry, Seqs.SortDesc(TallyCount, kept), kept);
  }

  /** Every genre that some book mentions gets a bar. */
  lemma GenreSeriesComplete(t: seq<GenreTally>, i: int)
    requires 0 <= i < |t| && t[i].count > 0
    ensures ToGenreEntry(t[i]) in GenreSeries(t)
  {
    var kept := Seqs.Filter(IsCounted, t);
    var sorted := Seqs.SortDesc(TallyCount, kept);
    Seqs.SortDescMembers(TallyCount, kept);
    assert IsCounted(t[i]);
    assert t[i] in kept;
    assert t[i] in sorted;
    var k :| 0 <= k < |sorted| && sorted[k] == t[i];
    assert GenreSeries(t)[k] == ToGenreEntry(t[i]);
  }

  // ----------------------------------------------------------------- members

  /** `member.noOfBooksBorrowed && member.noOfBooksBorrowed > 0`. */
  predicate IsActive(m: Member)
  {
    m.noOfBooksBorrowed.Some? && m.noOfBooksBorrowed.value != 0 && m.noOfBooksBorrowed.value > 0
  }

  /** `!m.noOfBooksBorrowed || m.noOfBooksBorrowed === 0`. */
  predicate IsInactive(m: Member)
  {
    m.noOfBooksBorrowed.None? || m.noOfBooksBorrowed.value == 0
  }

  /** One bar of the top-borrowers chart. */
  datatype BorrowStat = BorrowStat(name: string, count: int)

  /** `{ name: member.fullName, count: member.noOfBooksBorrowed || 0 }`. */
  function ToStat(m: Member): BorrowStat
  {
    BorrowStat(m.fullName,
      if m.noOfBooksBorrowed.Some? && m.noOfBooksBorrowed.value != 0 then m.noOfBooksBorrowed.value else 0)
  }

  function StatCount(s: BorrowStat): int
  {
    s.count
  }

  /** The filter / map / sort / `slice(0, 5)` chain behind `memberStats`. */
  function TopBorrowers(members: seq<Member>): seq<BorrowStat>
  {
    Seqs.Take(RankedStats(members), 5)
  }

  /** The active members' bars, largest first, before the cut to five. */
  function RankedStats(members: seq<Member>): seq<BorrowStat>
  {
    Seqs.SortDesc(StatCount, Seqs.Map(ToStat, Seqs.Filter(IsActive, members)))
  }

  /** The ranked bars are exactly the bars of the active members. */
  lemma RankedStatsSpec(members: seq<Member>)
    ensures forall s :: s in RankedStats(members) <==> exists m :: m in members && IsActive(m) && ToStat(m) == s
    ensures multiset(RankedStats(members)) == multiset(Seqs.Map(ToStat, Seqs.Filter(IsActive, members)))
  {
    var active := Seqs.Filter(IsActive, members);
    var stats := Seqs.Map(ToStat, active);
    Seqs.SortDescMembers(StatCount, stats);
    forall s | s in stats ensures exists m :: m in members && IsActive(m) && ToStat(m) == s {
      var k :| 0 <= k < |stats| && stats[k] == s;
      assert active[k] in members && IsActive(active[k]);
    }
    forall m | m in members && IsActive(m) ensures ToStat(m) in stats {
      var a :| 0 <= a < |active| && active[a] == m;
      assert stats[a] == ToStat(m);
    }
  }

  /** At most five bars, each with a positive count, largest first, each the
      bar of an active member. */
  lemma TopBorrowersSound(members: seq<Member>)
    ensures var r := TopBorrowers(members);
      && |r| <= 5
      && (forall i :: 0 <= i < |r| ==> r[i].count > 0)
      && (forall i, j :: 0 <= i < j < |r| ==> r[i].count >= r[j].count)
      && (forall i :: 0 <= i < |r| ==> exists m :: m in members && IsActive(m) && ToStat(m) == r[i])
  {
    var ranked := RankedStats(members);
    var r := TopBorrowers(members);
    RankedStatsSpec(members);
    forall i | 0 <= i < |r| ensures r[i].count > 0 && exists m :: m in members && IsActive(m) && ToStat(m) == r[i] {
      assert r[i] == ranked[i];
      assert ranked[i] in ranked;
    }
    forall i, j | 0 <= i < j < |r| ensures r[i].count >= r[j].count {
      assert r[i] == ranked[i] && r[j] == ranked[j];
      assert StatCount(ranked[i]) >= StatCount(ranked[j]);
    }
  }

  /** An active member whose bar is missing was beaten: five bars are shown,
      none smaller than the member's. */
  lemma TopBorrowersComplete(members: seq<Member>, m: Member)
    requires m in members && IsActive(m)
    requires ToStat(m) !in TopBorrowers(members)
    ensures |TopBorrowers(members)| == 5
    ensures forall i :: 0 <= i < 5 ==> TopBorrowers(members)[i].count >= ToStat(m).count
  {
    var ranked := RankedStats(members);
    var r := TopBorrowers(members);
    RankedStatsSpec(members);
    assert ToStat(m) in ranked;
    var k :| 0 <= k < |ranked| && ranked[k] == ToStat(m);
    if k < |r| {
      assert false;
    }
    forall i | 0 <= i < 5 ensures r[i].count >= ToStat(m).count {
      assert r[i] == ranked[i];
      assert StatCount(ranked[i]) >= StatCount(ranked[k]);
    }
  }

  // ------------------------------------------------------------------ totals

  /** `booksData?.value?.length || 0`. */
  function TotalBooks(books: Option<seq<Book>>): nat
  {
    if books.Some? then |books.value| else 0
  }

  /** `booksData?.value?.filter(book => book.status === BORROWED)?.length || 0`:
      never more than the number of books, and the status chart's BORROWED slice. */
  function TotalBorrowed(books: Option<seq<Book>>): (n: nat)
    ensures n <= TotalBooks(books)
    ensures books.Some? ==> n == StatusCountsOf(books.value).borrowed
  {
    if books.Some? then |Seqs.Filter(HasStatus(Borrowed), books.value)| else 0
  }

  function ActiveMembers(members: Option<seq<Member>>): nat
  {
    if members.Some? then |Seqs.Filter(IsActive, members.value)| else 0
  }

  function InactiveMembers(members: Option<seq<Member>>): nat
  {
    if members.Some? then |Seqs.Filter(IsInactive, members.value)| else 0
  }

  function TotalMembers(members: Option<seq<Member>>): nat
  {
    if members.Some? then |members.value| else 0
  }

  /** Active and inactive never overlap, and they cover every member when no
      member reports a negative count (`NegativeCountLosesMember` is the
      converse). */
  lemma ActiveInactiveSplit(members: Option<seq<Member>>)
    ensures ActiveMembers(members) + InactiveMembers(members) <= TotalMembers(members)
    ensures (members.Some? ==>
              forall m :: m in members.value ==> m.noOfBooksBorrowed.None? || m.noOfBooksBorrowed.value >= 0)
            ==> ActiveMembers(members) + InactiveMembers(members) == TotalMembers(members)
  {
    if members.Some? {
      var ms := members.value;
      Seqs.DisjointFilterSizes(IsActive, IsInactive, ms);
    }
  }

  /** A member reporting a negative count is counted as neither. */
  lemma NegativeCountIsNeither(m: Member)
    requires m.noOfBooksBorrowed.Some? && m.noOfBooksBorrowed.value < 0
    ensures !IsActive(m) && !IsInactive(m)
  {
  }

  /** One member with a negative count is enough for active and inactive to
      fall short of the total. */
  lemma NegativeCountLosesMember(ms: seq<Member>, k: int)
    requires 0 <= k < |ms| && ms[k].noOfBooksBorrowed.Some? && ms[k].noOfBooksBorrowed.value < 0
    ensures ActiveMembers(Some(ms)) + InactiveMembers(Some(ms)) < TotalMembers(Some(ms))
  {
    Seqs.FilterSizesMiss(IsActive, IsInactive, ms, k);
  }

  // ----------------------------------------------------------------- the page

  /** The dashboard's derived state and the effect that fills it in. */
  class DashboardPage {
    var booksByStatus: seq<StatusEntry>
    var booksByGenre: seq<GenreEntry>
    var memberBorrowStats: seq<BorrowStat>
    var isLoading: bool

    constructor ()
      ensures booksByStatus == [] && booksByGenre == [] && memberBorrowStats == []
      ensures isLoading
    {
      booksByStatus, booksByGenre, memberBorrowStats := [], [], [];
      isLoading := true;
    }

    /** The effect on `[booksData, genresData, membersData]`: nothing happens
        until all three collections are present. */
    method ProcessData(books: Option<seq<Book>>, genres: Option<seq<Genre>>, members: Option<seq<Member>>)
      modifies this
      ensures if books.Some? && genres.Some? && members.Some? then
          && booksByStatus == StatusSeries(StatusCountsOf(books.value))
          && booksByGenre == GenreSeries(GenreTallies(genres.value, books.value))
          && memberBorrowStats == TopBorrowers(members.value)
          && !isLoading
        else
          && booksByStatus == old(booksByStatus) && booksByGenre == old(booksByGenre)
          && memberBorrowStats == old(memberBorrowStats) && isLoading == old(isLoading)
      ensures books.Some? && genres.Some? && members.Some? ==> !ShowsSpinner(false, false, false)
      ensures old(ShowsSpinner(false, false, false)) && !(books.Some? && genres.Some? && members.Some?) ==>
        ShowsSpinner(false, false, false)
    {
      if books.Some? && genres.Some? && members.Some? {
        var counts := TallyStatuses(books.value);
        booksByStatus := StatusSeries(counts);
        var tallies := CountGenres(genres.value, books.value);
        booksByGenre := GenreSeries(tallies);
        memberBorrowStats := TopBorrowers(members.value);
        isLoading := false;
      }
    }

    /** Whether the loading spinner replaces the page. */
    function ShowsSpinner(booksLoading: bool, genresLoading: bool, membersLoading: bool): bool
      reads this
    {
      booksLoading || genresLoading || membersLoading || isLoading
    }
  }
}
