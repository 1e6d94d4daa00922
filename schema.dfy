/** The stored record shapes of the music catalogue and the checks the
    database layer applies when a record is saved: `required` fields,
    the unique genre name, and the casting of request values to the
    declared field types. */
module Schema {
  import opened Basics
  import opened JsValues

  datatype Genre = Genre(name: string)
  datatype Artist = Artist(name: string)
  /** `artist` and `genre` are optional here so that a document that lacks
      them can be built and then refused at save time, as the database layer does. */
  datatype Song = Song(title: string, artist: Option<Id>, genre: Option<Id>, duration: Option<int>, trackUrl: Option<string>)
  datatype Playlist = Playlist(name: string, description: Option<string>, genre: Option<Id>, songs: seq<Id>, createdBy: Id)
  datatype Post = Post(title: string, content: string, imgUrl: Option<string>, author: Id)

  /** Why a save fails: a schema check, a unique index, a value that cannot
      be cast to its field type, or a failing pre-save hook. */
  datatype DbError = ValidationError | DuplicateKey | CastError | HookError
  datatype Result<T> = Ok(value: T) | Err(error: DbError)

  /** A `required` String path refuses the empty string as well as a missing value. */
  predicate Required(s: string)
  {
    s != ""
  }

  predicate GenreValid(g: Genre) { Required(g.name) }
  predicate ArtistValid(a: Artist) { Required(a.name) }
  predicate SongValid(s: Song) { Required(s.title) && s.artist.Some? && s.genre.Some? }
  predicate PlaylistValid(p: Playlist) { Required(p.name) }
  predicate PostValid(p: Post) { Required(p.title) && Required(p.content) }

  /** The unique index on genre names. */
  predicate UniqueGenreNames(genres: map<Id, Genre>)
  {
    forall a, b :: a in genres && b in genres && genres[a].name == genres[b].name ==> a == b
  }

  /** Saving a genre: validation, then the unique index on `name`. */
  function SaveGenre(genres: map<Id, Genre>, id: Id, g: Genre): (r: Result<map<Id, Genre>>)
    ensures !GenreValid(g) ==> r == Err(ValidationError)
    ensures GenreValid(g) && (exists other :: other in genres && other != id && genres[other].name == g.name) ==> r == Err(DuplicateKey)
    ensures r.Ok? <==> GenreValid(g) && forall other :: other in genres && other != id ==> genres[other].name != g.name
    ensures r.Ok? ==> r.value == genres[id := g]
  {
    if !GenreValid(g) then Err(ValidationError)
    else if exists other :: other in genres && other != id && genres[other].name == g.name then Err(DuplicateKey)
    else Ok(genres[id := g])
  }

  /** The unique index is an invariant of every successful genre save. */
  lemma SaveGenreKeepsNamesUnique(genres: map<Id, Genre>, id: Id, g: Genre)
    requires UniqueGenreNames(genres)
    requires SaveGenre(genres, id, g).Ok?
    ensures UniqueGenreNames(SaveGenre(genres, id, g).value)
  {
    var r := SaveGenre(genres, id, g).value;
    forall a, b | a in r && b in r && r[a].name == r[b].name
      ensures a == b
    {
      if a != id && b != id {
        assert r[a] == genres[a] && r[b] == genres[b];
      }
    }
  }

  /** Artists have no unique index: any valid artist is saved, whatever its name. */
  function SaveArtist(artists: map<Id, Artist>, id: Id, a: Artist): (r: Result<map<Id, Artist>>)
    ensures r.Ok? <==> ArtistValid(a)
    ensures r.Ok? ==> r.value == artists[id := a]
    ensures r.Err? ==> r.error == ValidationError
  {
    if ArtistValid(a) then Ok(artists[id := a]) else Err(ValidationError)
  }

  function SaveSong(songs: map<Id, Song>, id: Id, s: Song): (r: Result<map<Id, Song>>)
    ensures r.Ok? <==> SongValid(s)
    ensures r.Ok? ==> r.value == songs[id := s]
    ensures r.Err? ==> r.error == ValidationError
  {
    if SongValid(s) then Ok(songs[id := s]) else Err(ValidationError)
  }

  function SavePlaylist(playlists: map<Id, Playlist>, id: Id, p: Playlist): (r: Result<map<Id, Playlist>>)
    ensures r.Ok? <==> PlaylistValid(p)
    ensures r.Ok? ==> r.value == playlists[id := p]
    ensures r.Err? ==> r.error == ValidationError
  {
    if PlaylistValid(p) then Ok(playlists[id := p]) else Err(ValidationError)
  }

  function SavePost(posts: map<Id, Post>, id: Id, p: Post): (r: Result<map<Id, Post>>)
    ensures r.Ok? <==> PostValid(p)
    ensures r.Ok? ==> r.value == posts[id := p]
    ensures r.Err? ==> r.error == ValidationError
  {
    if PostValid(p) then Ok(posts[id := p]) else Err(ValidationError)
  }

  /** Casting a request value to an optional String field. `null` and
      `undefined` leave the field unset; numbers and booleans become their
      text; an object with a non-empty string `_id` becomes that id; other
      arrays and objects are refused. */
  function CastString(v: Json): (r: Result<Option<string>>)
    ensures v.Str? ==> r == Ok(Some(v.s))
    ensures (v.Undefined? || v.Null?) ==> r == Ok(None)
    ensures (v.Num? || v.Bool?) ==> r == Ok(Some(ToJsString(v)))
    ensures v.Obj? && Get(v, "_id").Str? && Get(v, "_id").s != "" ==> r == Ok(Some(Get(v, "_id").s))
    ensures v.Obj? && !(Get(v, "_id").Str? && Get(v, "_id").s != "") ==> r == Err(CastError)
    ensures v.Arr? ==> r == Err(CastError)
    ensures r.Err? <==> v.Arr? || (v.Obj? && !(Get(v, "_id").Str? && Get(v, "_id").s != ""))
    ensures r.Err? ==> r.error == CastError
  {
    match v
    case Undefined => Ok(None)
    case Null => Ok(None)
    case Str(s) => Ok(Some(s))
    case Num(_) => Ok(Some(ToJsString(v)))
    case Bool(_) => Ok(Some(ToJsString(v)))
    case Arr(_) => Err(CastError)
    // `value._id && typeof value._id === 'string'`: an empty id is falsy.
    case Obj(_) => if Get(v, "_id").Str? && Get(v, "_id").s != "" then Ok(Some(Get(v, "_id").s)) else Err(CastError)
  }

  /** Casting a request value to an ObjectId reference: only a string the
      identifier check accepts. */
  function CastObjectId(v: Json, isValidId: string -> bool): (r: Result<Id>)
    ensures r.Ok? <==> v.Str? && isValidId(v.s)
    ensures r.Ok? ==> r.value == v.s
    ensures r.Err? ==> r.error == CastError
  {
    if v.Str? && isValidId(v.s) then Ok(v.s) else Err(CastError)
  }
}
