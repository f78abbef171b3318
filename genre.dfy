/** The genre editor (src/pages/Genre.tsx): one text field that adds a genre,
    or renames the genre picked for editing. */
module GenrePage {
  import opened Common
  import opened Types
  import opened Strings

  /** `genres.some(g => g.name === name)`: exact, case-sensitive, untrimmed. */
  predicate NameTaken(genres: seq<Genre>, name: string)
    decreases |genres|
  {
    genres != [] && (genres[0].name == name || NameTaken(genres[1..], name))
  }

  lemma {:induction false} NameTakenSpec(genres: seq<Genre>, name: string)
    ensures NameTaken(genres, name) <==> exists i :: 0 <= i < |genres| && genres[i].name == name
    decreases |genres|
  {
    if genres != [] {
      NameTakenSpec(genres[1..], name);
      if exists i :: 0 <= i < |genres| && genres[i].name == name {
        var i :| 0 <= i < |genres| && genres[i].name == name;
        if i > 0 {
          assert genres[1..][i - 1].name == name;
        }
      }
    }
  }

  /** `genres.find(genre => genre.id === id)`: the first genre with the id. */
  function FindGenre(genres: seq<Genre>, id: string): (r: Option<Genre>)
    ensures r.None? <==> forall i :: 0 <= i < |genres| ==> genres[i].id != id
    ensures r.Some? ==> exists i :: 0 <= i < |genres| && genres[i] == r.value && r.value.id == id
                                   && forall j :: 0 <= j < i ==> genres[j].id != id
    decreases |genres|
  {
    if genres == [] then None
    else if genres[0].id == id then Some(genres[0])
    else
      var r := FindGenre(genres[1..], id);
      assert r.Some? ==> exists i :: 0 <= i < |genres[1..]| && genres[1..][i] == r.value && r.value.id == id
                                     && forall j :: 0 <= j < i ==> genres[1..][j].id != id;
      if r.Some? then
        var i :| 0 <= i < |genres[1..]| && genres[1..][i] == r.value && r.value.id == id
                 && forall j :: 0 <= j < i ==> genres[1..][j].id != id;
        assert genres[i + 1] == r.value;
        assert forall j :: 0 <= j < i + 1 ==> genres[j].id != id by {
          forall j | 0 <= j < i + 1 ensures genres[j].id != id {
            if j > 0 { assert genres[j] == genres[1..][j - 1]; }
          }
        }
        r
      else r
  }

  /** The body sent through the add mutation: with an id when editing. */
  datatype GenreRequest = GenreRequest(id: Option<string>, name: string)

  /** What `addOrUpdateGenre` sends for a non-blank name: in edit mode the id
      and the name; in add mode the name alone, unless a genre already has
      exactly that name. */
  function GenreRequestFor(genres: seq<Genre>, name: string, editId: Option<string>): (r: Option<GenreRequest>)
    ensures editId.Some? ==> r == Some(GenreRequest(editId, name))
    ensures editId.None? ==>
      (r.Some? <==> forall i :: 0 <= i < |genres| ==> genres[i].name != name)
    ensures editId.None? && r.Some? ==> r.value == GenreRequest(None, name)
  {
    NameTakenSpec(genres, name);
    if editId.Some? then Some(GenreRequest(editId, name))
    else if NameTaken(genres, name) then None
    else Some(GenreRequest(None, name))
  }

  /** The name is sent as typed: padding a non-blank name keeps it past the
      blank check, and the padded name goes out unless a genre has exactly
      that padded name. */
  lemma NameSentUntrimmed(genres: seq<Genre>, name: string)
    requires !IsBlank(name)
    requires forall i :: 0 <= i < |genres| ==> genres[i].name != " " + name + " "
    ensures !IsBlank(" " + name + " ")
    ensures GenreRequestFor(genres, " " + name + " ", None) == Some(GenreRequest(None, " " + name + " "))
  {
    var padded := " " + name + " ";
    assert !IsBlank(padded) by {
      BlankIffAllWhitespace(name);
      var k :| 0 <= k < |name| && !IsJsWhitespace(name[k]);
      assert padded[k + 1] == name[k];
      BlankIffAllWhitespace(padded);
    }
  }

  /** The duplicate test is case-sensitive: a name that matches an existing
      genre only up to case is sent as a new genre. */
  lemma CaseVariantIsNotDuplicate(genres: seq<Genre>, i: int, name: string)
    requires 0 <= i < |genres| && Lower(name) == Lower(genres[i].name)
    requires forall j :: 0 <= j < |genres| ==> genres[j].name != name
    ensures GenreRequestFor(genres, name, None) == Some(GenreRequest(None, name))
    ensures GenreRequestFor([Genre("g1", "Poetry")], "poetry", None) == Some(GenreRequest(None, "poetry"))
  {
  }

  /** The page's `genreName` and `editId`, plus the requests it has sent. */
  class GenreEditor {
    var genreName: string
    var editId: Option<string>
    var sent: seq<GenreRequest>

    constructor ()
      ensures genreName == "" && editId == None && sent == []
    {
      genreName, editId, sent := "", None, [];
    }

    /** The button's `disabled`. */
    predicate ButtonDisabled(isAddingGenre: bool)
      reads this
    {
      isAddingGenre || IsBlank(genreName)
    }

    /** The button's caption: `editId ?` tests truthiness, so an empty id reads
        as add mode here. */
    function ButtonCaption(isAddingGenre: bool): (c: string)
      reads this
      ensures c in ["Update", "Add", "Updating...", "Adding..."]
      ensures (c == "Update" || c == "Updating...") <==> editId.Some? && editId.value != ""
    {
      var editing := editId.Some? && editId.value != "";
      if isAddingGenre then (if editing then "Updating..." else "Adding...")
      else if editing then "Update" else "Add"
    }

    /** `addOrUpdateGenre`: a blank name does nothing; otherwise the request
        (if any) goes out, and unless it fails the field and the edit id are
        cleared, a skipped duplicate included. */
    method AddOrUpdateGenre(genres: seq<Genre>, outcome: Outcome)
      modifies this
      ensures old(ButtonDisabled(false)) ==> sent == old(sent)
      ensures IsBlank(old(genreName)) ==>
        genreName == old(genreName) && editId == old(editId) && sent == old(sent)
      ensures !IsBlank(old(genreName)) ==>
        var req := GenreRequestFor(genres, old(genreName), old(editId));
        && sent == old(sent) + (if req.Some? then [req.value] else [])
        && (if req.Some? && outcome == Failure
            then genreName == old(genreName) && editId == old(editId)
            else genreName == "" && editId == None)
    {
      if IsBlank(genreName) {
        return;
      }
      var req := GenreRequestFor(genres, genreName, editId);
      if req.Some? {
        sent := sent + [req.value];
        if outcome == Failure {
          return;
        }
      }
      genreName := "";
      editId := None;
    }

    /** `editGenre`: a known id loads that genre's name and becomes the edit
        id; an unknown id changes nothing. */
    method EditGenre(genres: seq<Genre>, id: string)
      modifies this
      ensures FindGenre(genres, id).Some? ==> genreName == FindGenre(genres, id).value.name && editId == Some(id)
      ensures FindGenre(genres, id).None? ==> genreName == old(genreName) && editId == old(editId)
      ensures sent == old(sent)
    {
      var found := FindGenre(genres, id);
      if found.Some? {
        genreName := found.value.name;
        editId := Some(id);
      }
    }
  }

  /** Picking a genre and saving it unchanged sends a rename to the same name
      under the genre's id. */
  method EditThenSave(page: GenreEditor, genres: seq<Genre>, i: int)
    requires 0 <= i < |genres| && !IsBlank(genres[i].name)
    requires forall j :: 0 <= j < |genres| && j != i ==> genres[j].id != genres[i].id
    modifies page
    ensures page.sent == old(page.sent) + [GenreRequest(Some(genres[i].id), genres[i].name)]
    ensures page.genreName == "" && page.editId == None
  {
    var r := FindGenre(genres, genres[i].id);
    var k :| 0 <= k < |genres| && genres[k] == r.value && r.value.id == genres[i].id
             && forall j :: 0 <= j < k ==> genres[j].id != genres[i].id;
    assert k == i;
    page.EditGenre(genres, genres[i].id);
    page.AddOrUpdateGenre(genres, Success);
  }
}
