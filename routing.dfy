/** The URL state the pages read and write: `URLSearchParams` as an ordered
    list of name/value pairs, the current location, and the router's
    `navigate` with its push and replace modes. */
module Routing {
  import opened Common

  /** The pairs of a query string, in order; a name may repeat. */
  type Params = seq<(string, string)>

  /** `params.get(name)`: the value of the first pair with that name. */
  function Get(ps: Params, name: string): (r: Option<string>)
    ensures r.Some? <==> exists i :: 0 <= i < |ps| && ps[i].0 == name
    decreases |ps|
  {
    if ps == [] then None
    else if ps[0].0 == name then Some(ps[0].1)
    else Get(ps[1..], name)
  }

  /** `params.delete(name)`: drops every pair with that name and keeps the
      others in their order. */
  function Deleted(ps: Params, name: string): (r: Params)
    ensures Get(r, name) == None
    ensures forall k :: k != name ==> Get(r, k) == Get(ps, k)
    ensures |r| <= |ps|
    ensures forall i :: 0 <= i < |r| ==> r[i] in ps && r[i].0 != name
    decreases |ps|
  {
    if ps == [] then []
    else if ps[0].0 == name then Deleted(ps[1..], name)
    else [ps[0]] + Deleted(ps[1..], name)
  }

  /** `params.set(name, value)`: the first pair with that name takes the value
      and the later ones are dropped; with no such pair, one is appended. */
  function Assigned(ps: Params, name: string, value: string): (r: Params)
    ensures Get(r, name) == Some(value)
    ensures forall k :: k != name ==> Get(r, k) == Get(ps, k)
    ensures r != []
    decreases |ps|
  {
    if ps == [] then [(name, value)]
    else if ps[0].0 == name then [(name, value)] + Deleted(ps[1..], name)
    else [ps[0]] + Assigned(ps[1..], name, value)
  }

  /** How many pairs carry the name. */
  function Occurrences(ps: Params, name: string): nat
    decreases |ps|
  {
    if ps == [] then 0 else (if ps[0].0 == name then 1 else 0) + Occurrences(ps[1..], name)
  }

  /** After `set`, the name occurs exactly once. */
  lemma {:induction false} AssignedLeavesOnePair(ps: Params, name: string, value: string)
    ensures Occurrences(Assigned(ps, name, value), name) == 1
    decreases |ps|
  {
    if ps != [] {
      if ps[0].0 == name {
        DeletedLeavesNone(ps[1..], name);
        assert Assigned(ps, name, value)[1..] == Deleted(ps[1..], name);
      } else {
        AssignedLeavesOnePair(ps[1..], name, value);
        assert Assigned(ps, name, value)[1..] == Assigned(ps[1..], name, value);
      }
    }
  }

  lemma {:induction false} DeletedLeavesNone(ps: Params, name: string)
    ensures Occurrences(Deleted(ps, name), name) == 0
    decreases |ps|
  {
    if ps != [] {
      DeletedLeavesNone(ps[1..], name);
      if ps[0].0 != name {
        assert Deleted(ps, name)[1..] == Deleted(ps[1..], name);
      }
    }
  }

  /** Deleting one name keeps the pairs of every other name exactly, in order. */
  lemma {:induction false} DeletedKeepsOthers(ps: Params, name: string, other: string)
    requires other != name
    ensures Only(Deleted(ps, name), other) == Only(ps, other)
    decreases |ps|
  {
    if ps != [] {
      DeletedKeepsOthers(ps[1..], name, other);
      if ps[0].0 != name {
        assert Deleted(ps, name)[1..] == Deleted(ps[1..], name);
      }
    }
  }

  /** The pairs with a given name, in order. */
  function Only(ps: Params, name: string): Params
    decreases |ps|
  {
    if ps == [] then [] else (if ps[0].0 == name then [ps[0]] else []) + Only(ps[1..], name)
  }

  /** One pair as `name=value` (names and values are taken to need no
      percent-encoding). */
  function Pair(e: (string, string)): string
  {
    e.0 + "=" + e.1
  }

  /** `params.toString()`: the pairs joined with `&`; empty exactly when there
      are no pairs. */
  function Serialize(ps: Params): (r: string)
    ensures r == "" <==> ps == []
    decreases |ps|
  {
    if ps == [] then ""
    else if |ps| == 1 then Pair(ps[0])
    else Pair(ps[0]) + "&" + Serialize(ps[1..])
  }

  /** `newSearch ? "?" + newSearch : ""`: no question mark when nothing remains. */
  function QuerySuffix(ps: Params): (r: string)
    ensures r == "" <==> ps == []
    ensures r != "" ==> r[0] == '?' && r[1..] == Serialize(ps)
  {
    var s := Serialize(ps);
    if s != "" then "?" + s else ""
  }

  /** Where the browser is: `location.pathname` and the parsed `location.search`. */
  datatype Location = Location(pathname: string, params: Params)

  /** The string handed to `navigate` for a location. */
  function Href(loc: Location): string
  {
    loc.pathname + QuerySuffix(loc.params)
  }

  /** The href is the bare pathname exactly when no parameter is left: no
      dangling "?" is ever produced. */
  lemma HrefBare(loc: Location)
    ensures Href(loc) == loc.pathname <==> loc.params == []
  {
    if loc.params != [] {
      assert |Href(loc)| > |loc.pathname|;
    }
  }

  /** `delete("modal")` then `delete("id")`: the dialog parameters are gone and
      every other parameter keeps its value. */
  function WithoutDialog(ps: Params): (r: Params)
    ensures Get(r, "modal") == None && Get(r, "id") == None
    ensures forall k :: k != "modal" && k != "id" ==> Get(r, k) == Get(ps, k)
  {
    Deleted(Deleted(ps, "modal"), "id")
  }

  /** `set("modal", dialog)` then `set("id", id)`: both parameters take the new
      values, each occurs once, and every other parameter keeps its value. */
  function WithDialog(ps: Params, dialog: string, id: string): (r: Params)
    ensures Get(r, "modal") == Some(dialog) && Get(r, "id") == Some(id)
    ensures forall k :: k != "modal" && k != "id" ==> Get(r, k) == Get(ps, k)
  {
    Assigned(Assigned(ps, "modal", dialog), "id", id)
  }

  /** Neither dialog parameter repeats after `WithDialog`, and neither remains
      after `WithoutDialog`. */
  lemma DialogParamsOnce(ps: Params, dialog: string, id: string)
    ensures Occurrences(WithDialog(ps, dialog, id), "modal") == 1
    ensures Occurrences(WithDialog(ps, dialog, id), "id") == 1
    ensures Occurrences(WithoutDialog(ps), "modal") == 0
    ensures Occurrences(WithoutDialog(ps), "id") == 0
  {
    var a := Assigned(ps, "modal", dialog);
    AssignedLeavesOnePair(ps, "modal", dialog);
    AssignedLeavesOnePair(a, "id", id);
    AssignedKeepsOthers(a, "id", id, "modal");
    OnlyCounts(Assigned(a, "id", id), "modal");
    OnlyCounts(a, "modal");
    var d := Deleted(ps, "modal");
    DeletedLeavesNone(d, "id");
    DeletedLeavesNone(ps, "modal");
    DeletedKeepsOthers(d, "id", "modal");
    OnlyCounts(Deleted(d, "id"), "modal");
    OnlyCounts(d, "modal");
  }

  /** `Occurrences` is the length of `Only`. */
  lemma {:induction false} OnlyCounts(ps: Params, name: string)
    ensures Occurrences(ps, name) == |Only(ps, name)|
    decreases |ps|
  {
    if ps != [] {
      OnlyCounts(ps[1..], name);
    }
  }

  /** Setting one name keeps the pairs of every other name exactly, in order. */
  lemma {:induction false} AssignedKeepsOthers(ps: Params, name: string, value: string, other: string)
    requires other != name
    ensures Only(Assigned(ps, name, value), other) == Only(ps, other)
    decreases |ps|
  {
    if ps != [] {
      if ps[0].0 == name {
        DeletedKeepsOthers(ps[1..], name, other);
        assert Assigned(ps, name, value)[1..] == Deleted(ps[1..], name);
      } else {
        AssignedKeepsOthers(ps[1..], name, value, other);
        assert Assigned(ps, name, value)[1..] == Assigned(ps[1..], name, value);
      }
    } else {
      assert Only([(name, value)], other) == [] by {
        assert [(name, value)][1..] == [];
      }
    }
  }

  /** The history stack behind `useNavigate`: `navigate(to)` pushes a new entry,
      `navigate(to, { replace: true })` overwrites the current one. */
  class Router {
    var location: Location
    var history: seq<Location>

    constructor (start: Location)
      ensures location == start && history == []
    {
      location := start;
      history := [];
    }

    method Navigate(to: Location, replace: bool)
      modifies this
      ensures location == to
      ensures history == if replace then old(history) else old(history) + [old(location)]
    {
      if !replace {
        history := history + [location];
      }
      location := to;
    }
  }
}
