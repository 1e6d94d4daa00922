/** The older page's in-memory playlist list: loaded once from browser
    storage, changed by create, remove and update, and after every change
    written back and announced to the change listener. */
module LocalPlaylists {
  import opened Basics
  import opened JsValues

  /** A stored playlist: a plain object, key by key. */
  type Record = map<string, Json>

  /** `pl.id` */
  function IdOf(pl: Record): Json
  {
    if "id" in pl then pl["id"] else Undefined
  }

  /** `a === b`: equal primitive values. Distinct parsed arrays or objects
      are distinct references, so they are never strictly equal. */
  predicate StrictEq(a: Json, b: Json)
  {
    a == b && !a.Arr? && !a.Obj?
  }

  /** `{ ...pl, ...fields }`: every key of both, the new fields winning. */
  function Merge(pl: Record, fields: Record): (r: Record)
    ensures r.Keys == pl.Keys + fields.Keys
    ensures forall k :: k in fields ==> r[k] == fields[k]
    ensures forall k :: k in pl && k !in fields ==> r[k] == pl[k]
  {
    pl + fields
  }

  /** The list after `remove(id)`. */
  function Removed(playlists: seq<Record>, id: Json): (r: seq<Record>)
    ensures forall pl :: pl in r <==> pl in playlists && !StrictEq(IdOf(pl), id)
    ensures (forall i :: 0 <= i < |playlists| ==> !StrictEq(IdOf(playlists[i]), id)) ==> r == playlists
  {
    Filter(playlists, pl => !StrictEq(IdOf(pl), id))
  }

  /** `remove` keeps the other playlists in their order, each as often as it
      occurs: removing from a concatenation removes from each part, and a
      single playlist stays exactly when its id differs. */
  lemma RemovedInOrder(a: seq<Record>, b: seq<Record>, pl: Record, id: Json)
    ensures Removed(a + b, id) == Removed(a, id) + Removed(b, id)
    ensures Removed([pl], id) == if StrictEq(IdOf(pl), id) then [] else [pl]
  {
    FilterAppend(a, b, p => !StrictEq(IdOf(p), id));
    assert [pl][1..] == [];
  }

  /** The list after `update(id, fields)`. */
  function Updated(playlists: seq<Record>, id: Json, fields: Record): (r: seq<Record>)
    ensures |r| == |playlists|
    ensures forall i :: 0 <= i < |playlists| && StrictEq(IdOf(playlists[i]), id) ==> r[i] == Merge(playlists[i], fields)
    ensures forall i :: 0 <= i < |playlists| && !StrictEq(IdOf(playlists[i]), id) ==> r[i] == playlists[i]
  {
    Map(playlists, pl => if StrictEq(IdOf(pl), id) then Merge(pl, fields) else pl)
  }

  /** Removing twice is removing once. */
  lemma RemovedIdempotent(playlists: seq<Record>, id: Json)
    ensures Removed(Removed(playlists, id), id) == Removed(playlists, id)
  {
    var r := Removed(playlists, id);
    assert forall i :: 0 <= i < |r| ==> r[i] in r;
  }

  /** An update with an id no playlist has leaves the list as it was. */
  lemma UpdatedAbsent(playlists: seq<Record>, id: Json, fields: Record)
    requires forall i :: 0 <= i < |playlists| ==> !StrictEq(IdOf(playlists[i]), id)
    ensures Updated(playlists, id, fields) == playlists
  {
  }

  /** An update that supplies the id itself keeps the matching playlists matching. */
  lemma UpdatedKeepsId(playlists: seq<Record>, id: Json, fields: Record, i: nat)
    requires i < |playlists| && StrictEq(IdOf(playlists[i]), id)
    requires "id" !in fields || fields["id"] == id
    ensures StrictEq(IdOf(Updated(playlists, id, fields)[i]), id)
  {
  }

  class PlaylistModel {
    var playlists: seq<Record>
    /** Whether a change listener is installed. */
    var listening: bool
    /** The lists passed to the listener, one per notification, in order. */
    var notifications: seq<seq<Record>>
    /** The list last written to storage, if any. */
    var stored: Option<seq<Record>>

    /** Loading: the saved value is used when it is an array, otherwise the list starts empty. */
    constructor (saved: Option<seq<Record>>)
      ensures playlists == (if saved.Some? then saved.value else [])
      ensures !listening && notifications == [] && stored.None?
    {
      playlists := if saved.Some? then saved.value else [];
      listening := false;
      notifications := [];
      stored := None;
    }

    /** The controller installs its listener. */
    method SetOnChange(on: bool)
      modifies this
      ensures listening == on
      ensures playlists == old(playlists) && notifications == old(notifications) && stored == old(stored)
    {
      listening := on;
    }

    method GetAll() returns (r: seq<Record>)
      ensures r == playlists
    {
      r := playlists;
    }

    /** `_commit`: write the list to storage, then tell the listener, if there is one. */
    method Commit()
      modifies this
      ensures playlists == old(playlists) && listening == old(listening)
      ensures stored == Some(playlists)
      ensures notifications == old(notifications) + (if listening then [playlists] else [])
    {
      stored := Some(playlists);
      if listening {
        notifications := notifications + [playlists];
      }
    }

    /** `create`: the object pushed is a placeholder that copies nothing
        from `input`; it is empty. */
    method Create(input: Record) returns (created: Record)
      modifies this
      ensures created == map[]
      ensures playlists == old(playlists) + [created]
      ensures |playlists| == |old(playlists)| + 1
      ensures listening == old(listening) && stored == Some(playlists)
      ensures notifications == old(notifications) + (if listening then [playlists] else [])
    {
      created := map[];
      playlists := playlists + [created];
      Commit();
    }

    method Remove(id: Json)
      modifies this
      ensures playlists == Removed(old(playlists), id)
      ensures listening == old(listening) && stored == Some(playlists)
      ensures notifications == old(notifications) + (if listening then [playlists] else [])
    {
      playlists := Removed(playlists, id);
      Commit();
    }

    method Update(id: Json, fields: Record)
      modifies this
      ensures playlists == Updated(old(playlists), id, fields)
      ensures listening == old(listening) && stored == Some(playlists)
      ensures notifications == old(notifications) + (if listening then [playlists] else [])
    {
      playlists := Updated(playlists, id, fields);
      Commit();
    }
  }
}
