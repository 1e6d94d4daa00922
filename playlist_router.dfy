/** The playlist endpoints: create, read one, update, delete, and the
    idempotent add-song route. Each handler runs its guards in a fixed
    order and answers before any write when one of them fails. */
module PlaylistRouter {
  import opened Basics
  import opened JsValues
  import opened Http
  import opened Schema

  /** The fields a playlist request body may carry. */
  datatype PlaylistBody = PlaylistBody(name: Json, description: Json, genre: Json, songs: Json)

  /** `isValidObjectId(v)`; the identifier check itself is the parameter `isValidId`. */
  predicate ValidRef(v: Json, isValidId: string -> bool)
  {
    v.Str? && isValidId(v.s)
  }

  function SongIdError(s: Json): string
  {
    "invalid song ID: " + ToJsString(s)
  }

  /** One error per malformed song id, in the order of the list. */
  function SongErrors(items: seq<Json>, isValidId: string -> bool): seq<string>
  {
    if |items| == 0 then []
    else
      var s := items[|items| - 1];
      SongErrors(items[..|items| - 1], isValidId) + (if ValidRef(s, isValidId) then [] else [SongIdError(s)])
  }

  /** The field errors of a create request, in the order they are collected. */
  function CreateErrors(body: PlaylistBody, isValidId: string -> bool): seq<string>
  {
    (if !Truthy(body.name) || !body.name.Str? then ["name"] else [])
    + (if Truthy(body.genre) && !ValidRef(body.genre, isValidId) then ["genre"] else [])
    + (if Truthy(body.songs) && !body.songs.Arr? then ["songs must be an array of IDs"]
       else if Truthy(body.songs) then SongErrors(body.songs.items, isValidId)
       else [])
  }

  predicate AllValidRefs(items: seq<Json>, isValidId: string -> bool)
  {
    forall i :: 0 <= i < |items| ==> ValidRef(items[i], isValidId)
  }

  lemma {:induction false} SongErrorsEmpty(items: seq<Json>, isValidId: string -> bool)
    ensures SongErrors(items, isValidId) == [] <==> AllValidRefs(items, isValidId)
  {
    if |items| > 0 {
      SongErrorsEmpty(items[..|items| - 1], isValidId);
      assert items == items[..|items| - 1] + [items[|items| - 1]];
    }
  }

  /** A create request has no field error exactly when the name is a
      non-empty string, a supplied genre is a well-formed id, and supplied
      songs form an array of well-formed ids. */
  lemma CreateErrorsEmpty(body: PlaylistBody, isValidId: string -> bool)
    ensures CreateErrors(body, isValidId) == [] <==>
      && body.name.Str? && body.name.s != ""
      && (Truthy(body.genre) ==> ValidRef(body.genre, isValidId))
      && (Truthy(body.songs) ==> body.songs.Arr? && AllValidRefs(body.songs.items, isValidId))
  {
    if body.songs.Arr? {
      SongErrorsEmpty(body.songs.items, isValidId);
    }
  }

  /** The loop over the submitted song ids. */
  method CollectSongErrors(items: seq<Json>, isValidId: string -> bool) returns (errors: seq<string>)
    ensures errors == SongErrors(items, isValidId)
  {
    errors := [];
    var i := 0;
    while i < |items|
      invariant 0 <= i <= |items|
      invariant errors == SongErrors(items[..i], isValidId)
    {
      assert items[..i + 1][..i] == items[..i];
      if !ValidRef(items[i], isValidId) {
        errors := errors + [SongIdError(items[i])];
      }
      i := i + 1;
    }
    assert items[..|items|] == items;
  }

  /** The validation pass of the create handler: every field is checked and
      every error kept. */
  method CollectCreateErrors(body: PlaylistBody, isValidId: string -> bool) returns (errors: seq<string>)
    ensures errors == CreateErrors(body, isValidId)
  {
    var nameErrors := if !Truthy(body.name) || !body.name.Str? then ["name"] else [];
    var genreErrors := if Truthy(body.genre) && !ValidRef(body.genre, isValidId) then ["genre"] else [];
    var songErrors := [];
    if Truthy(body.songs) && !body.songs.Arr? {
      songErrors := ["songs must be an array of IDs"];
    } else if Truthy(body.songs) {
      songErrors := CollectSongErrors(body.songs.items, isValidId);
    }
    errors := nameErrors + genreErrors + songErrors;
  }

  /** The ids of a list of string values. */
  function IdsOf(items: seq<Json>): (ids: seq<Id>)
    requires forall i :: 0 <= i < |items| ==> items[i].Str?
    ensures |ids| == |items|
    ensures forall i :: 0 <= i < |items| ==> ids[i] == items[i].s
  {
    seq(|items|, i requires 0 <= i < |items| => items[i].s)
  }

  /** The number of distinct songs that a query for `ids` finds. */
  function FoundCount(ids: seq<Id>, songs: map<Id, Song>): nat
  {
    |set id | id in ids && id in songs|
  }

  predicate NoRepeats(ids: seq<Id>)
  {
    forall i, j :: 0 <= i < j < |ids| ==> ids[i] != ids[j]
  }

  /** A list with one more id at the end has no repeats exactly when the
      shorter list has none and does not hold that id. */
  lemma NoRepeatsSnoc(init: seq<Id>, x: Id)
    ensures NoRepeats(init + [x]) <==> NoRepeats(init) && x !in init
  {
    var ids := init + [x];
    if NoRepeats(ids) {
      forall i, j | 0 <= i < j < |init|
        ensures init[i] != init[j]
      {
        assert ids[i] == init[i] && ids[j] == init[j];
      }
    }
    if x in init {
      var k :| 0 <= k < |init| && init[k] == x;
      assert ids[k] == ids[|ids| - 1];
    }
    if NoRepeats(init) && x !in init {
      forall i, j | 0 <= i < j < |ids|
        ensures ids[i] != ids[j]
      {
        if j == |ids| - 1 {
          assert ids[i] == init[i];
        } else {
          assert ids[i] == init[i] && ids[j] == init[j];
        }
      }
    }
  }

  /** The count check passes exactly when every id names a song and no id is
      repeated: a list that repeats a valid id is refused. */
  lemma {:induction false} FoundCountMatches(ids: seq<Id>, songs: map<Id, Song>)
    ensures FoundCount(ids, songs) <= |ids|
    ensures FoundCount(ids, songs) == |ids| <==> NoRepeats(ids) && forall i :: 0 <= i < |ids| ==> ids[i] in songs
  {
    var found := set id | id in ids && id in songs;
    if |ids| == 0 {
      assert found == {};
    } else {
      var init := ids[..|ids| - 1];
      var x := ids[|ids| - 1];
      FoundCountMatches(init, songs);
      var found' := set id | id in init && id in songs;
      assert ids == init + [x];
      NoRepeatsSnoc(init, x);
      if x in songs && x !in init {
        assert found == found' + {x};
      } else {
        assert found == found';
      }
    }
  }

  predicate GenreMissing(body: PlaylistBody, genres: map<Id, Genre>)
  {
    Truthy(body.genre) && body.genre.Str? && body.genre.s !in genres
  }

  predicate SongsMissing(body: PlaylistBody, songs: map<Id, Song>)
  {
    && Truthy(body.songs) && body.songs.Arr?
    && (forall i :: 0 <= i < |body.songs.items| ==> body.songs.items[i].Str?)
    && FoundCount(IdsOf(body.songs.items), songs) != |body.songs.items|
  }

  /** POST /api/playlists. `newId` is the identifier the database assigns. */
  method Create(session: Option<SessionUser>, body: PlaylistBody, isValidId: string -> bool,
                genres: map<Id, Genre>, songs: map<Id, Song>, playlists: map<Id, Playlist>, newId: Id)
    returns (resp: Response<Playlist>, playlists': map<Id, Playlist>)
    requires newId !in playlists
    ensures resp.status != 201 ==> playlists' == playlists
    ensures session.None? ==> resp == Unauthorized()
    ensures session.Some? && CreateErrors(body, isValidId) != [] ==> resp == InvalidFields(CreateErrors(body, isValidId))
    ensures session.Some? && CreateErrors(body, isValidId) == [] && GenreMissing(body, genres) ==>
              resp == Response(404, Text("Genre " + body.genre.s + " not found"))
    ensures session.Some? && CreateErrors(body, isValidId) == [] && !GenreMissing(body, genres) && SongsMissing(body, songs) ==>
              resp == Response(404, Text("One or more songs not found"))
    ensures (session.Some? && CreateErrors(body, isValidId) == [] && !GenreMissing(body, genres) && !SongsMissing(body, songs)
             && CastString(body.description).Err?) ==> resp == Response(400, Text(DatabaseErrorText))
    ensures resp.status == 201 <==>
              session.Some? && CreateErrors(body, isValidId) == [] && !GenreMissing(body, genres)
              && !SongsMissing(body, songs) && CastString(body.description).Ok?
    ensures resp.status == 201 ==>
              && resp.body.Payload?
              && playlists' == playlists[newId := resp.body.value]
              && resp.body.value.createdBy == session.value.id
              && resp.body.value.name == body.name.s
              && Ok(resp.body.value.description) == CastString(body.description)
              && resp.body.value.genre == (if Truthy(body.genre) then Some(body.genre.s) else None)
              && (Truthy(body.songs) ==> body.songs.Arr? && AllValidRefs(body.songs.items, isValidId))
              && resp.body.value.songs == (if Truthy(body.songs) then IdsOf(body.songs.items) else [])
  {
    playlists' := playlists;
    if session.None? {
      return Unauthorized(), playlists';
    }
    var errors := CollectCreateErrors(body, isValidId);
    if |errors| > 0 {
      return InvalidFields(errors), playlists';
    }
    CreateErrorsEmpty(body, isValidId);
    if Truthy(body.genre) && body.genre.s !in genres {
      return Response(404, Text("Genre " + body.genre.s + " not found")), playlists';
    }
    var songIds: seq<Id> := [];
    if Truthy(body.songs) {
      songIds := IdsOf(body.songs.items);
      if FoundCount(songIds, songs) != |body.songs.items| {
        return Response(404, Text("One or more songs not found")), playlists';
      }
    }
    var description := CastString(body.description);
    if description.Err? {
      return Response(400, Text(DatabaseErrorText)), playlists';
    }
    var genre := if Truthy(body.genre) then Some(body.genre.s) else None;
    var p := Playlist(body.name.s, description.value, genre, songIds, session.value.id);
    var saved := SavePlaylist(playlists, newId, p);
    playlists' := saved.value;
    resp := Response(201, Payload(p));
  }

  /** The owner of the playlist stored under `id`, if there is one. */
  function OwnerOf(playlists: map<Id, Playlist>, id: Id): Option<Id>
  {
    if id in playlists then Some(playlists[id].createdBy) else None
  }

  /** GET /api/playlists/:id */
  function GetOne(id: string, isValidId: string -> bool, playlists: map<Id, Playlist>): (resp: Response<Playlist>)
    ensures resp.status == 200 <==> isValidId(id) && id in playlists
    ensures resp.status == 200 ==> resp.body == Payload(playlists[id])
    ensures resp.status != 200 ==> resp == NotFound(id)
  {
    if !isValidId(id) || id !in playlists then NotFound(id) else Response(200, Payload(playlists[id]))
  }

  /** The field errors of an update request: only supplied fields are checked. */
  function UpdateErrors(body: PlaylistBody, isValidId: string -> bool): (errors: seq<string>)
    ensures errors == [] <==>
      && (!body.name.Undefined? ==> body.name.Str?)
      && (!body.genre.Undefined? ==> ValidRef(body.genre, isValidId))
      && (!body.songs.Undefined? ==> body.songs.Arr?)
  {
    (if !body.name.Undefined? && !body.name.Str? then ["name"] else [])
    + (if !body.genre.Undefined? && !ValidRef(body.genre, isValidId) then ["genre"] else [])
    + (if !body.songs.Undefined? && !body.songs.Arr? then ["songs must be an array of IDs"] else [])
  }

  /** Casting every element of a song list to an id. */
  function CastIds(items: seq<Json>, isValidId: string -> bool): (r: Result<seq<Id>>)
    ensures r.Ok? <==> AllValidRefs(items, isValidId)
    ensures r.Ok? ==> r.value == IdsOf(items)
  {
    if |items| == 0 then Ok([])
    else
      var init := CastIds(items[..|items| - 1], isValidId);
      var last := CastObjectId(items[|items| - 1], isValidId);
      if init.Err? then init
      else if last.Err? then Err(last.error)
      else Ok(init.value + [last.value])
  }

  /** The document after `if (x !== undefined) list.x = x` for each field:
      supplied fields overwrite, omitted ones are kept, and the owner is
      never touched. A supplied value that cannot be cast fails the save. */
  function ApplyUpdate(p: Playlist, body: PlaylistBody, isValidId: string -> bool): (r: Result<Playlist>)
    requires UpdateErrors(body, isValidId) == []
    ensures r.Ok? <==> CastString(body.description).Ok? && (body.songs.Arr? ==> AllValidRefs(body.songs.items, isValidId))
    ensures r.Ok? ==>
      && r.value.createdBy == p.createdBy
      && r.value.name == (if body.name.Undefined? then p.name else body.name.s)
      && r.value.description == (if body.description.Undefined? then p.description else CastString(body.description).value)
      && r.value.genre == (if body.genre.Undefined? then p.genre else Some(body.genre.s))
      && r.value.songs == (if body.songs.Undefined? then p.songs else IdsOf(body.songs.items))
  {
    var description := CastString(body.description);
    var songIds := if body.songs.Arr? then CastIds(body.songs.items, isValidId) else Ok(p.songs);
    if description.Err? then Err(description.error)
    else if songIds.Err? then Err(songIds.error)
    else
      Ok(Playlist(
        if body.name.Undefined? then p.name else body.name.s,
        if body.description.Undefined? then p.description else description.value,
        if body.genre.Undefined? then p.genre else Some(body.genre.s),
        songIds.value,
        p.createdBy))
  }

  /** The 401 / 404 / 403 checks shared by update and delete. */
  function Guard(session: Option<SessionUser>, id: string, isValidId: string -> bool, playlists: map<Id, Playlist>): Option<Response<Playlist>>
  {
    OwnedRecordGuard(session, isValidId(id), id, OwnerOf(playlists, id))
  }

  /** PUT /api/playlists/:id */
  method Update(session: Option<SessionUser>, id: string, body: PlaylistBody, isValidId: string -> bool,
                playlists: map<Id, Playlist>)
    returns (resp: Response<Playlist>, playlists': map<Id, Playlist>)
    ensures resp.status != 200 ==> playlists' == playlists
    ensures Guard(session, id, isValidId, playlists).Some? ==>
              resp == Guard(session, id, isValidId, playlists).value
    ensures Guard(session, id, isValidId, playlists).None? && UpdateErrors(body, isValidId) != [] ==>
              resp == InvalidFields(UpdateErrors(body, isValidId))
    ensures resp.status == 200 <==>
              && Guard(session, id, isValidId, playlists).None?
              && UpdateErrors(body, isValidId) == []
              && ApplyUpdate(playlists[id], body, isValidId).Ok?
              && PlaylistValid(ApplyUpdate(playlists[id], body, isValidId).value)
    ensures resp.status == 200 ==>
              && resp.body == Payload(ApplyUpdate(playlists[id], body, isValidId).value)
              && playlists' == playlists[id := resp.body.value]
    ensures Guard(session, id, isValidId, playlists).None? && UpdateErrors(body, isValidId) == [] && resp.status != 200 ==>
              resp == Response(400, Text(DatabaseErrorText))
    ensures resp.status !in {200, 401, 403, 404} ==> resp.status == 400
  {
    playlists' := playlists;
    var guard := Guard(session, id, isValidId, playlists);
    if guard.Some? {
      return guard.value, playlists';
    }
    var errors := UpdateErrors(body, isValidId);
    if |errors| > 0 {
      return InvalidFields(errors), playlists';
    }
    var updated := ApplyUpdate(playlists[id], body, isValidId);
    if updated.Err? {
      return Response(400, Text(DatabaseErrorText)), playlists';
    }
    var saved := SavePlaylist(playlists, id, updated.value);
    if saved.Err? {
      return Response(400, Text(DatabaseErrorText)), playlists';
    }
    playlists' := saved.value;
    resp := Response(200, Payload(updated.value));
  }

  /** DELETE /api/playlists/:id */
  method Delete(session: Option<SessionUser>, id: string, isValidId: string -> bool, playlists: map<Id, Playlist>)
    returns (resp: Response<Playlist>, playlists': map<Id, Playlist>)
    ensures Guard(session, id, isValidId, playlists).Some? ==>
              resp == Guard(session, id, isValidId, playlists).value && playlists' == playlists
    ensures Guard(session, id, isValidId, playlists).None? ==>
              resp == Response(204, NoBody) && playlists' == playlists - {id} && |playlists'| == |playlists| - 1
  {
    var guard := Guard(session, id, isValidId, playlists);
    if guard.Some? {
      return guard.value, playlists;
    }
    playlists' := playlists - {id};
    resp := Response(204, NoBody);
  }

  /** The song list after adding `songId` when it is absent. */
  function WithSong(songs: seq<Id>, songId: Id): (r: seq<Id>)
    ensures songId in r
    ensures songId in songs ==> r == songs
    ensures songId !in songs ==> r == songs + [songId]
  {
    if songId in songs then songs else songs + [songId]
  }

  /** POST /api/playlists/:id/songs/:songId. There is no session check and
      the song id is not looked up. The stored playlists are valid, so the save succeeds. */
  method AddSong(id: string, songId: string, isValidId: string -> bool, playlists: map<Id, Playlist>)
    returns (resp: Response<Playlist>, playlists': map<Id, Playlist>)
    requires forall k :: k in playlists ==> PlaylistValid(playlists[k])
    ensures !isValidId(id) || !isValidId(songId) ==> resp == Response(400, Text("Invalid ID")) && playlists' == playlists
    ensures isValidId(id) && isValidId(songId) && id !in playlists ==>
              resp == Response(404, Text("Playlist not found")) && playlists' == playlists
    ensures isValidId(id) && isValidId(songId) && id in playlists ==>
              && playlists' == playlists[id := playlists[id].(songs := WithSong(playlists[id].songs, songId))]
              && resp == Response(200, Payload(playlists'[id]))
    ensures resp.status == 200 ==> id in playlists' && songId in playlists'[id].songs
    ensures resp.status == 200 && songId in playlists[id].songs ==> playlists' == playlists
  {
    playlists' := playlists;
    if !isValidId(id) || !isValidId(songId) {
      return Response(400, Text("Invalid ID")), playlists';
    }
    if id !in playlists {
      return Response(404, Text("Playlist not found")), playlists';
    }
    var p := playlists[id];
    if songId !in p.songs {
      var saved := SavePlaylist(playlists, id, p.(songs := p.songs + [songId]));
      playlists' := saved.value;
    }
    resp := Response(200, Payload(playlists'[id]));
  }
}
