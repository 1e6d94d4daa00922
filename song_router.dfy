/** The song endpoints: the upload route that finds or creates the artist
    and genre by exact name, the plain create route, and delete. */
module SongRouter {
  import opened Basics
  import opened JsValues
  import opened Http
  import opened Schema

  predicate ArtistNamed(artists: map<Id, Artist>, name: string)
  {
    exists k :: k in artists && artists[k].name == name
  }

  predicate GenreNamed(genres: map<Id, Genre>, name: string)
  {
    exists k :: k in genres && genres[k].name == name
  }

  /** The public address under which an uploaded file is served. */
  function TrackUrl(baseUrl: string, filename: string): string
  {
    baseUrl + "/uploads/" + filename
  }

  /** POST /api/songs/upload. `file` is the stored upload's name, if a file
      was sent; `baseUrl` is the request's protocol and host; the three
      fresh ids are those the database would assign. */
  method Upload(title: string, artistName: string, genreName: string, file: Option<string>, baseUrl: string,
                artists: map<Id, Artist>, genres: map<Id, Genre>, songs: map<Id, Song>,
                newArtistId: Id, newGenreId: Id, newSongId: Id)
    returns (resp: Response<Song>, artists': map<Id, Artist>, genres': map<Id, Genre>, songs': map<Id, Song>)
    requires newArtistId !in artists && newGenreId !in genres && newSongId !in songs
    ensures file.None? ==> resp == Response(400, Field("error", DatabaseErrorText))
                            && artists' == artists && genres' == genres && songs' == songs
    ensures file.Some? && !ArtistNamed(artists, artistName) && artistName == "" ==>
              resp == Response(400, Field("error", "Invalid artist data"))
              && artists' == artists && genres' == genres && songs' == songs
    ensures ArtistNamed(artists, artistName) ==> artists' == artists
    ensures (file.Some? && !ArtistNamed(artists, artistName) && artistName != "") ==>
              artists' == artists[newArtistId := Artist(artistName)]
    ensures GenreNamed(genres, genreName) ==> genres' == genres
    ensures genres' == genres || genres' == genres[newGenreId := Genre(genreName)]
    ensures (file.Some? && (ArtistNamed(artists, artistName) || artistName != "")
             && !GenreNamed(genres, genreName) && genreName != "") ==>
              genres' == genres[newGenreId := Genre(genreName)]
    ensures resp.status != 201 ==> songs' == songs && resp.status == 400
    ensures resp.status == 201 <==>
              file.Some? && title != ""
              && (ArtistNamed(artists, artistName) || artistName != "")
              && (GenreNamed(genres, genreName) || genreName != "")
    ensures resp.status == 201 ==>
              && resp.body.Payload?
              && songs' == songs[newSongId := resp.body.value]
              && resp.body.value.title == title
              && resp.body.value.trackUrl == Some(TrackUrl(baseUrl, file.value))
              && resp.body.value.artist.Some? && resp.body.value.artist.value in artists'
              && artists'[resp.body.value.artist.value].name == artistName
              && resp.body.value.genre.Some? && resp.body.value.genre.value in genres'
              && genres'[resp.body.value.genre.value].name == genreName
              && resp.body.value.duration.None?
  {
    artists', genres', songs' := artists, genres, songs;
    if file.None? {
      return Response(400, Field("error", DatabaseErrorText)), artists', genres', songs';
    }
    var filePath := TrackUrl(baseUrl, file.value);

    var artistId: Id;
    if ArtistNamed(artists, artistName) {
      artistId :| artistId in artists && artists[artistId].name == artistName;
    } else {
      var created := SaveArtist(artists, newArtistId, Artist(artistName));
      if created.Err? {
        return Response(400, Field("error", "Invalid artist data")), artists', genres', songs';
      }
      artists' := created.value;
      artistId := newArtistId;
    }

    var genreId: Id;
    if GenreNamed(genres, genreName) {
      genreId :| genreId in genres && genres[genreId].name == genreName;
    } else {
      var created := SaveGenre(genres, newGenreId, Genre(genreName));
      if created.Err? {
        return Response(400, Field("error", DatabaseErrorText)), artists', genres', songs';
      }
      genres' := created.value;
      genreId := newGenreId;
    }

    var song := Song(title, Some(artistId), Some(genreId), None, Some(filePath));
    var saved := SaveSong(songs, newSongId, song);
    if saved.Err? {
      return Response(400, Field("error", DatabaseErrorText)), artists', genres', songs';
    }
    songs' := saved.value;
    resp := Response(201, Payload(song));
  }

  /** Whether the body's `artist` is an object with a truthy `name`, the
      only shape for which a new artist is created. */
  predicate NamedArtistObject(artist: Json)
  {
    artist.Obj? && Truthy(Get(artist, "name"))
  }

  /** POST /api/songs. The document it builds carries no genre, which the
      schema requires, so the save is always refused; an artist created on
      the way stays stored. */
  method CreateSong(title: Json, artist: Json, artists: map<Id, Artist>, songs: map<Id, Song>, newArtistId: Id, newSongId: Id)
    returns (resp: Response<Song>, artists': map<Id, Artist>, songs': map<Id, Song>)
    requires newArtistId !in artists && newSongId !in songs
    ensures songs' == songs
    ensures resp.status == 400
    ensures !Truthy(title) || !title.Str? ==> resp == Response(400, Text("Invalid or missing title")) && artists' == artists
    ensures title.Str? && title.s != "" && !artist.Str? && !NamedArtistObject(artist) ==>
              resp == Response(400, Text("Invalid or missing artist")) && artists' == artists
    ensures title.Str? && title.s != "" && artist.Str? ==>
              resp == Response(400, Field("error", DatabaseErrorText)) && artists' == artists
    ensures artists' != artists ==>
              && title.Str? && title.s != "" && NamedArtistObject(artist)
              && CastString(Get(artist, "name")).Ok? && CastString(Get(artist, "name")).value.Some?
              && artists' == artists[newArtistId := Artist(CastString(Get(artist, "name")).value.value)]
    ensures (title.Str? && title.s != "" && NamedArtistObject(artist) && Get(artist, "name").Str?) ==>
              artists' == artists[newArtistId := Artist(Get(artist, "name").s)]
  {
    artists', songs' := artists, songs;
    if !Truthy(title) || !title.Str? {
      return Response(400, Text("Invalid or missing title")), artists', songs';
    }
    var artistId: Id;
    if artist.Str? {
      artistId := artist.s;
    } else if NamedArtistObject(artist) {
      var name := CastString(Get(artist, "name"));
      if name.Err? || name.value.None? {
        return Response(400, Field("error", DatabaseErrorText)), artists', songs';
      }
      var created := SaveArtist(artists, newArtistId, Artist(name.value.value));
      if created.Err? {
        return Response(400, Field("error", DatabaseErrorText)), artists', songs';
      }
      artists' := created.value;
      artistId := newArtistId;
    } else {
      return Response(400, Text("Invalid or missing artist")), artists', songs';
    }
    var saved := SaveSong(songs, newSongId, Song(title.s, Some(artistId), None, None, None));
    assert saved.Err?;
    resp := Response(400, Field("error", DatabaseErrorText));
  }

  /** DELETE /api/songs/:id. A malformed id makes the lookup itself fail. */
  method DeleteSong(id: string, isValidId: string -> bool, songs: map<Id, Song>)
    returns (resp: Response<Song>, songs': map<Id, Song>)
    ensures !isValidId(id) ==> resp == Response(500, Field("error", DatabaseErrorText)) && songs' == songs
    ensures isValidId(id) && id !in songs ==> resp == Response(404, Field("error", "Song not found")) && songs' == songs
    ensures isValidId(id) && id in songs ==> resp == Response(204, NoBody) && songs' == songs - {id}
  {
    if !isValidId(id) {
      return Response(500, Field("error", DatabaseErrorText)), songs;
    }
    if id !in songs {
      return Response(404, Field("error", "Song not found")), songs;
    }
    songs' := songs - {id};
    resp := Response(204, NoBody);
  }
}
