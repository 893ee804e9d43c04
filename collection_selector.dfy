/**
 * The "add to collection" dialog of a movie: the user's collections, the set
 * of collection ids the movie is in, and a name typed for a new collection.
 * Calls to the collection service are outcomes passed in; each handler is
 * one sequential step.
 */
module CollectionSelector {
  import opened Js
  import opened Types

  /** `checks[i]` says whether collection `i` holds the movie; the selection
      after loading is the ids of the collections that do. */
  function SelectedIds(cols: seq<Collection>, checks: seq<bool>): (r: set<string>)
    requires |checks| == |cols|
    ensures forall id :: id in r <==> exists i :: 0 <= i < |cols| && checks[i] && cols[i].id == id
  {
    if cols == [] then {}
    else
      var rest := SelectedIds(cols[1..], checks[1..]);
      assert forall i :: 0 <= i < |cols| - 1 ==> cols[1..][i] == cols[i + 1] && checks[1..][i] == checks[i + 1];
      if checks[0] then {cols[0].id} + rest else rest
  }

  /** Every selected id belongs to a loaded collection. */
  lemma SelectedIdsAreListed(cols: seq<Collection>, checks: seq<bool>, id: string)
    requires |checks| == |cols|
    requires id in SelectedIds(cols, checks)
    ensures exists c :: c in cols && c.id == id
  {
    var i :| 0 <= i < |cols| && checks[i] && cols[i].id == id;
    assert cols[i] in cols;
  }

  /** The selection after toggling `id`: flipped when the service call
      succeeded, untouched when it threw. */
  function Toggled(sel: set<string>, id: string, succeeded: bool): (r: set<string>)
    ensures succeeded ==> (id in r <==> id !in sel)
    ensures !succeeded ==> r == sel
    ensures forall x :: x != id ==> (x in r <==> x in sel)
  {
    if !succeeded then sel
    else if id in sel then sel - {id} else sel + {id}
  }

  /** Two successful toggles of the same id restore the selection. */
  lemma ToggleTwiceRestores(sel: set<string>, id: string)
    ensures Toggled(Toggled(sel, id, true), id, true) == sel
  {
    var once := Toggled(sel, id, true);
    var twice := Toggled(once, id, true);
    forall x
      ensures x in twice <==> x in sel
    {
      if x == id {
        assert id in once <==> id !in sel;
      }
    }
  }

  /** The insert sent for a new collection. */
  datatype NewCollection = NewCollection(name: string, description: string, isPublic: bool)

  /** The membership call a toggle makes. */
  datatype MembershipCall =
    | RemoveMovie(collectionId: string, movieId: int)
    | AddMovie(collectionId: string, movieId: int)

  class Selector {
    const movieId: int
    var collections: seq<Collection>
    var selected: set<string>
    var newCollectionName: string

    /** A closed dialog for `movieId`. */
    constructor(movieId: int)
      ensures this.movieId == movieId
      ensures collections == [] && selected == {} && newCollectionName == ""
    {
      this.movieId := movieId;
      collections := [];
      selected := {};
      newCollectionName := "";
    }

    /** `loadCollections()` with the listing (None when it threw) and the
        membership checks (None when one of them threw). */
    method LoadCollections(listed: Option<seq<Collection>>, checks: Option<seq<bool>>)
      requires listed.Some? && checks.Some? ==> |checks.value| == |listed.value|
      modifies this`collections, this`selected
      ensures listed.None? ==> collections == old(collections) && selected == old(selected)
      ensures listed.Some? ==> collections == listed.value
      ensures listed.Some? && checks.None? ==> selected == old(selected)
      ensures listed.Some? && checks.Some? ==> selected == SelectedIds(listed.value, checks.value)
    {
      if listed.None? {
        return;
      }
      collections := listed.value;
      if checks.Some? {
        selected := SelectedIds(collections, checks.value);
      }
    }

    /** `handleCreateCollection()` with the service's answer (None when it
        threw). A blank name sends nothing; otherwise the trimmed name is sent
        as a private collection without description, and on success the new
        collection comes first, the name box is emptied and the new
        collection is selected. */
    method HandleCreateCollection(created: Option<Collection>) returns (request: Option<NewCollection>)
      modifies this`collections, this`selected, this`newCollectionName
      ensures Trim(old(newCollectionName)) == "" ==> request.None?
      ensures Trim(old(newCollectionName)) != "" ==> request == Some(NewCollection(Trim(old(newCollectionName)), "", false))
      ensures request.None? || created.None? ==>
        collections == old(collections) && selected == old(selected) && newCollectionName == old(newCollectionName)
      ensures request.Some? && created.Some? ==>
        && collections == [created.value] + old(collections)
        && newCollectionName == ""
        && selected == old(selected) + {created.value.id}
    {
      var name := Trim(newCollectionName);
      if name == "" {
        return None;
      }
      request := Some(NewCollection(name, "", false));
      if created.None? {
        return;
      }
      collections := [created.value] + collections;
      newCollectionName := "";
      selected := selected + {created.value.id};
    }

    /** `handleToggleCollection(id)` with whether the service call succeeded:
        a selected id is removed from the collection, another one added, and
        the selection changes only when the call succeeded. */
    method HandleToggleCollection(id: string, succeeded: bool) returns (call: MembershipCall)
      modifies this`selected
      ensures old(id in selected) ==> call == RemoveMovie(id, movieId)
      ensures old(id !in selected) ==> call == AddMovie(id, movieId)
      ensures selected == Toggled(old(selected), id, succeeded)
    {
      var next := selected;
      if id in next {
        next := next - {id};
        call := RemoveMovie(id, movieId);
      } else {
        next := next + {id};
        call := AddMovie(id, movieId);
      }
      if !succeeded {
        return;
      }
      selected := next;
    }
  }
}
