/** The feed page's transforms over already-fetched data: the genre-name
    index, the search filter, the per-playlist genre → artist → songs
    grouping, and the edit-control gate. */
module Feed {
  import opened Basics
  import opened Strings
  import opened Http
  import opened Grouping

  datatype GenreRec = GenreRec(id: string, name: string)

  /** A song's genre as fetched: a bare id, a populated document (whose id
      may be missing), or nothing. */
  datatype GenreRef = GenreId(id: string) | GenreDoc(docId: Option<string>) | NoGenre

  /** A fetched song; `artistName` is the populated artist's name, absent
      when the song has no artist or the artist no name. */
  datatype ClientSong = ClientSong(id: string, title: string, genre: GenreRef, artistName: Option<string>)

  /** A playlist's song entry: a bare id or a populated song document. */
  datatype SongRef = IdRef(id: string) | DocRef(id: string)

  /** A fetched playlist; `createdBy` is the populated owner's id. */
  datatype FeedPlaylist = FeedPlaylist(id: string, name: string, description: Option<string>, createdBy: Id,
                                       songs: Option<seq<SongRef>>)

  /** `{ ...pl, grouped }` */
  datatype GroupedPlaylist = GroupedPlaylist(playlist: FeedPlaylist, grouped: Groups<ClientSong>)

  // ---------------------------------------------------------------------
  // The genre-name index

  /** Reference definition of the index: one assignment per genre, in order. */
  function GenreIndex(genres: seq<GenreRec>): map<string, string>
  {
    if |genres| == 0 then map[]
    else
      var g := genres[|genres| - 1];
      GenreIndex(genres[..|genres| - 1])[g.id := g.name]
  }

  /** Every fetched genre id is a key, and nothing else. */
  lemma {:induction false} GenreIndexKeys(genres: seq<GenreRec>)
    ensures forall k :: k in GenreIndex(genres) <==> exists i :: 0 <= i < |genres| && genres[i].id == k
  {
    if |genres| > 0 {
      var init := genres[..|genres| - 1];
      GenreIndexKeys(init);
      forall k | k in GenreIndex(genres)
        ensures exists i :: 0 <= i < |genres| && genres[i].id == k
      {
        if k != genres[|genres| - 1].id {
          assert k in GenreIndex(init);
          var i :| 0 <= i < |init| && init[i].id == k;
          assert genres[i].id == k;
        }
      }
      forall k | exists i :: 0 <= i < |genres| && genres[i].id == k
        ensures k in GenreIndex(genres)
      {
        var i :| 0 <= i < |genres| && genres[i].id == k;
        if i < |init| {
          assert init[i].id == k;
        }
      }
    }
  }

  /** A later genre with the same id overwrites an earlier one: the name
      kept is that of the last occurrence. */
  lemma {:induction false} GenreIndexLastWins(genres: seq<GenreRec>, i: nat)
    requires i < |genres|
    requires forall j :: i < j < |genres| ==> genres[j].id != genres[i].id
    ensures genres[i].id in GenreIndex(genres)
    ensures GenreIndex(genres)[genres[i].id] == genres[i].name
  {
    if i < |genres| - 1 {
      GenreIndexLastWins(genres[..|genres| - 1], i);
    }
  }

  /** `genres.reduce((map, g) => { map[g._id] = g.name; return map; }, {})` */
  method GenresById(genres: seq<GenreRec>) returns (m: map<string, string>)
    ensures m == GenreIndex(genres)
  {
    m := map[];
    var i := 0;
    while i < |genres|
      invariant 0 <= i <= |genres|
      invariant m == GenreIndex(genres[..i])
    {
      assert genres[..i + 1][..i] == genres[..i];
      m := m[genres[i].id := genres[i].name];
      i := i + 1;
    }
    assert genres[..|genres|] == genres;
  }

  // ---------------------------------------------------------------------
  // The search filter

  /** The name, or the description (empty when missing), contains the
      search text, all compared lower-cased. */
  predicate Matches(pl: FeedPlaylist, search: string)
  {
    var description := if pl.description.Some? then pl.description.value else "";
    Contains(ToLower(pl.name), ToLower(search)) || Contains(ToLower(description), ToLower(search))
  }

  function FilterPlaylists(playlists: seq<FeedPlaylist>, search: string): (r: seq<FeedPlaylist>)
    ensures forall pl :: pl in r <==> pl in playlists && Matches(pl, search)
    ensures |r| <= |playlists|
  {
    Filter(playlists, pl => Matches(pl, search))
  }

  /** An empty search keeps every playlist, in order. */
  lemma FilterEmptySearch(playlists: seq<FeedPlaylist>)
    ensures FilterPlaylists(playlists, "") == playlists
  {
    forall pl | pl in playlists
      ensures Matches(pl, "")
    {
      assert ToLower("") == "";
    }
  }

  // ---------------------------------------------------------------------
  // Resolving a playlist's songs

  /** `songs.find(s => s._id === id)`: the first fetched song with that id. */
  function Resolve(songs: seq<ClientSong>, id: string): (r: Option<ClientSong>)
    ensures r.None? <==> forall i :: 0 <= i < |songs| ==> songs[i].id != id
    ensures r.Some? ==> exists i :: 0 <= i < |songs| && songs[i] == r.value && r.value.id == id
                                    && forall j :: 0 <= j < i ==> songs[j].id != id
  {
    if |songs| == 0 then None
    else if songs[0].id == id then Some(songs[0])
    else
      var r := Resolve(songs[1..], id);
      assert r.Some? ==> exists i :: 0 <= i < |songs[1..]| && songs[1..][i] == r.value && r.value.id == id
                                    && forall j :: 0 <= j < i ==> songs[1..][j].id != id;
      if r.Some? then
        assert exists i :: 0 < i < |songs| && songs[i] == r.value && r.value.id == id
                           && forall j :: 0 <= j < i ==> songs[j].id != id by {
          var i :| 0 <= i < |songs[1..]| && songs[1..][i] == r.value && r.value.id == id
                   && forall j :: 0 <= j < i ==> songs[1..][j].id != id;
          assert songs[i + 1] == r.value;
          assert forall j :: 0 < j < i + 1 ==> songs[j].id != id by {
            forall j | 0 < j < i + 1 ensures songs[j].id != id {
              assert songs[j] == songs[1..][j - 1];
            }
          }
        }
        r
      else r
  }

  /** The property key a song's genre is looked up under; a missing id
      becomes the key "undefined". */
  function GenreKey(g: GenreRef): string
  {
    match g
    case GenreId(id) => id
    case GenreDoc(docId) => if docId.Some? then docId.value else "undefined"
    case NoGenre => "undefined"
  }

  /** The genre tab a song is filed under: its genre's name, or
      "Unknown Genre" when that is missing or empty. */
  function GenreName(index: map<string, string>, s: ClientSong): (name: string)
    ensures name != ""
    ensures GenreKey(s.genre) in index && index[GenreKey(s.genre)] != "" ==> name == index[GenreKey(s.genre)]
    ensures !(GenreKey(s.genre) in index && index[GenreKey(s.genre)] != "") ==> name == "Unknown Genre"
  {
    var key := GenreKey(s.genre);
    if key in index && index[key] != "" then index[key] else "Unknown Genre"
  }

  /** The artist heading a song is filed under: "Unknown Artist" when the name is missing or empty. */
  function ArtistName(s: ClientSong): (name: string)
    ensures name != ""
    ensures s.artistName.Some? && s.artistName.value != "" ==> name == s.artistName.value
    ensures !(s.artistName.Some? && s.artistName.value != "") ==> name == "Unknown Artist"
  {
    if s.artistName.Some? && s.artistName.value != "" then s.artistName.value else "Unknown Artist"
  }

  /** `pl.songs || []` */
  function RefsOf(pl: FeedPlaylist): seq<SongRef>
  {
    if pl.songs.Some? then pl.songs.value else []
  }

  /** How many of the refs name a fetched song. */
  function ResolvedCount(refs: seq<SongRef>, songs: seq<ClientSong>): nat
  {
    if |refs| == 0 then 0
    else ResolvedCount(refs[..|refs| - 1], songs) + (if Resolve(songs, refs[|refs| - 1].id).Some? then 1 else 0)
  }

  /** The entries the grouping files, one per resolvable ref, in order;
      unresolvable refs are skipped. */
  function Entries(refs: seq<SongRef>, songs: seq<ClientSong>, index: map<string, string>): (es: seq<Entry<ClientSong>>)
    ensures |es| == ResolvedCount(refs, songs)
    ensures forall k :: 0 <= k < |es| ==> es[k].outer == GenreName(index, es[k].item) && es[k].inner == ArtistName(es[k].item)
  {
    if |refs| == 0 then []
    else
      var init := Entries(refs[..|refs| - 1], songs, index);
      match Resolve(songs, refs[|refs| - 1].id)
      case None => init
      case Some(s) => init + [Entry(GenreName(index, s), ArtistName(s), s)]
  }

  /** Reference definition of one bucket: the resolved songs, in playlist
      order, whose genre tab is `genre` and whose artist heading is `artist`. */
  function SongsUnder(refs: seq<SongRef>, songs: seq<ClientSong>, index: map<string, string>, genre: string, artist: string): seq<ClientSong>
  {
    if |refs| == 0 then []
    else
      var init := SongsUnder(refs[..|refs| - 1], songs, index, genre, artist);
      var r := Resolve(songs, refs[|refs| - 1].id);
      if r.Some? && GenreName(index, r.value) == genre && ArtistName(r.value) == artist then init + [r.value] else init
  }

  lemma {:induction false} SelectEntries(refs: seq<SongRef>, songs: seq<ClientSong>, index: map<string, string>, genre: string, artist: string)
    ensures Select(Entries(refs, songs, index), genre, artist) == SongsUnder(refs, songs, index, genre, artist)
  {
    if |refs| > 0 {
      var init := refs[..|refs| - 1];
      SelectEntries(init, songs, index, genre, artist);
      var es := Entries(init, songs, index);
      match Resolve(songs, refs[|refs| - 1].id)
      case None =>
      case Some(s) =>
        var e := Entry(GenreName(index, s), ArtistName(s), s);
        assert (es + [e])[..|es|] == es;
    }
  }

  /** The per-playlist grouping loop of the feed. */
  method GroupPlaylist(pl: FeedPlaylist, songs: seq<ClientSong>, index: map<string, string>) returns (grouped: Groups<ClientSong>)
    ensures grouped == GroupAll(Entries(RefsOf(pl), songs, index))
  {
    var refs := RefsOf(pl);
    grouped := [];
    var i := 0;
    while i < |refs|
      invariant 0 <= i <= |refs|
      invariant grouped == GroupAll(Entries(refs[..i], songs, index))
    {
      assert refs[..i + 1][..i] == refs[..i];
      var song := Resolve(songs, refs[i].id);
      if song.Some? {
        var genreName := GenreName(index, song.value);
        var artistName := ArtistName(song.value);
        ghost var es := Entries(refs[..i], songs, index);
        assert (es + [Entry(genreName, artistName, song.value)])[..|es|] == es;
        grouped := Push2(grouped, genreName, artistName, song.value);
      }
      i := i + 1;
    }
    assert refs[..|refs|] == refs;
  }

  /** Each bucket of a grouped playlist holds exactly the resolved songs
      filed under its genre and artist, in playlist order, repeats included. */
  lemma GroupedBucket(pl: FeedPlaylist, songs: seq<ClientSong>, index: map<string, string>, genre: string, artist: string)
    ensures Bucket(GroupAll(Entries(RefsOf(pl), songs, index)), genre, artist) == SongsUnder(RefsOf(pl), songs, index, genre, artist)
  {
    GroupAllBucket(Entries(RefsOf(pl), songs, index), genre, artist);
    SelectEntries(RefsOf(pl), songs, index, genre, artist);
  }

  /** The buckets together hold one song per resolvable ref. */
  lemma GroupedCount(pl: FeedPlaylist, songs: seq<ClientSong>, index: map<string, string>)
    ensures Count(GroupAll(Entries(RefsOf(pl), songs, index))) == ResolvedCount(RefsOf(pl), songs)
  {
    GroupAllCount(Entries(RefsOf(pl), songs, index));
  }

  // ---------------------------------------------------------------------
  // The whole feed and the card's controls

  /** A playlist kept whole, paired with the grouping of its resolvable songs. */
  function GroupedOf(pl: FeedPlaylist, songs: seq<ClientSong>, index: map<string, string>): GroupedPlaylist
  {
    GroupedPlaylist(pl, GroupAll(Entries(RefsOf(pl), songs, index)))
  }

  /** The `filtered.map(...)` loop: one grouping per playlist, in order. */
  method GroupEach(filtered: seq<FeedPlaylist>, songs: seq<ClientSong>, index: map<string, string>)
    returns (feed: seq<GroupedPlaylist>)
    ensures |feed| == |filtered|
    ensures forall i :: 0 <= i < |feed| ==> feed[i] == GroupedOf(filtered[i], songs, index)
  {
    feed := [];
    var i := 0;
    while i < |filtered|
      invariant 0 <= i <= |filtered|
      invariant |feed| == i
      invariant forall j :: 0 <= j < i ==> feed[j] == GroupedOf(filtered[j], songs, index)
    {
      var grouped := GroupPlaylist(filtered[i], songs, index);
      feed := feed + [GroupedPlaylist(filtered[i], grouped)];
      i := i + 1;
    }
  }

  /** The feed: the genre index, the filter, then one grouping per kept playlist. */
  method BuildFeed(playlists: seq<FeedPlaylist>, search: string, songs: seq<ClientSong>, genres: seq<GenreRec>)
    returns (feed: seq<GroupedPlaylist>)
    ensures |feed| == |FilterPlaylists(playlists, search)|
    ensures forall i :: 0 <= i < |feed| ==>
              feed[i] == GroupedOf(FilterPlaylists(playlists, search)[i], songs, GenreIndex(genres))
  {
    var index := GenresById(genres);
    var filtered := FilterPlaylists(playlists, search);
    feed := GroupEach(filtered, songs, index);
  }

  /** Edit and Delete are shown to an admin or to the playlist's owner,
      the same rule the server applies to updates and deletes. */
  function CanEdit(user: SessionUser, pl: FeedPlaylist): (r: bool)
    ensures r <==> MayMutate(user, pl.createdBy)
  {
    user.isAdmin || pl.createdBy == user.id
  }

  /** `genres[0] || ''` over the grouped object's keys. */
  function InitialTab(grouped: Groups<ClientSong>): string
  {
    if |grouped| > 0 && grouped[0].0 != "" then grouped[0].0 else ""
  }

  /** The first tab is the genre of the first resolvable song, and there is
      no tab exactly when no song resolves. */
  lemma InitialTabOfPlaylist(pl: FeedPlaylist, songs: seq<ClientSong>, index: map<string, string>)
    ensures var es := Entries(RefsOf(pl), songs, index);
            && (InitialTab(GroupAll(es)) == "" <==> ResolvedCount(RefsOf(pl), songs) == 0)
            && (|es| > 0 ==> InitialTab(GroupAll(es)) == GenreName(index, es[0].item))
  {
    var es := Entries(RefsOf(pl), songs, index);
    GroupAllKeys(es);
    FirstSeenHead(Outers(es));
    var g := GroupAll(es);
    assert |g| == |Keys(g)|;
    if |es| > 0 {
      assert Keys(g)[0] == g[0].0;
    }
  }
}
