/** The older page's playlist form and list: reading the submitted form,
    parsing the track list, and grouping the list by genre then artist. */
module FormModel {
  import opened Basics
  import opened Strings
  import opened Grouping

  /** The raw values of the form's four fields. */
  datatype RawForm = RawForm(name: string, genre: string, artist: string, tracks: string)

  /** What the submit handler receives. */
  datatype PlaylistInput = PlaylistInput(name: string, genre: string, artist: string, tracks: seq<string>)

  const EmptyForm := RawForm("", "", "", "")

  predicate NonEmpty(t: string) { t != "" }

  /** A track as the form keeps it: non-empty, one line, no whitespace at either end. */
  predicate CleanTrack(t: string)
  {
    t != "" && '\n' !in t && !IsSpace(t[0]) && !IsSpace(t[|t| - 1])
  }

  /** Every non-empty trimmed line is a clean track. */
  lemma TrimmedLines(text: string)
    ensures forall t :: t in Map(Split(text, '\n'), Trim) ==> NonEmpty(t) ==> CleanTrack(t)
  {
    var pieces := Split(text, '\n');
    var lines := Map(pieces, Trim);
    forall t | t in lines && NonEmpty(t)
      ensures CleanTrack(t)
    {
      var i :| 0 <= i < |lines| && lines[i] == t;
      assert '\n' !in pieces[i];
    }
  }

  /** What a filter keeps has every property the kept elements were known to have. */
  lemma FilterKeeps<T(!new)>(xs: seq<T>, p: T -> bool, q: T -> bool)
    requires forall x :: x in xs ==> p(x) ==> q(x)
    ensures forall i :: 0 <= i < |Filter(xs, p)| ==> q(Filter(xs, p)[i])
  {
    var r := Filter(xs, p);
    forall i | 0 <= i < |r|
      ensures q(r[i])
    {
      assert r[i] in r;
    }
  }

  /** The track list: the lines of the text area, each trimmed, blank ones dropped. */
  function ParseTracks(text: string): (tracks: seq<string>)
    ensures forall i :: 0 <= i < |tracks| ==> CleanTrack(tracks[i])
    ensures |tracks| <= |Split(text, '\n')|
  {
    var lines := Map(Split(text, '\n'), Trim);
    TrimmedLines(text);
    FilterKeeps(lines, NonEmpty, CleanTrack);
    Filter(lines, NonEmpty)
  }

  /** A single line gives its trimmed text as the one track, or no track when it is blank. */
  lemma ParseTracksLine(s: string)
    requires '\n' !in s
    ensures ParseTracks(s) == if Trim(s) == "" then [] else [Trim(s)]
  {
    SplitNoSep(s, '\n');
    assert Map([s], Trim) == [Trim(s)];
    assert [Trim(s)][1..] == [];
  }

  /** The tracks of two blocks of lines are those of the first block
      followed by those of the second: the lines are kept in order. */
  lemma ParseTracksAppend(a: string, b: string)
    ensures ParseTracks(a + "\n" + b) == ParseTracks(a) + ParseTracks(b)
  {
    SplitAppend(a, b, '\n');
    MapAppend(Split(a, '\n'), Split(b, '\n'), Trim);
    FilterAppend(Map(Split(a, '\n'), Trim), Map(Split(b, '\n'), Trim), NonEmpty);
  }

  /** Writing the parsed tracks back one per line and parsing again gives
      the same tracks: parsing is a normal form. */
  lemma ParseTracksStable(text: string)
    ensures ParseTracks(Join(ParseTracks(text), "\n")) == ParseTracks(text)
  {
    var xs := ParseTracks(text);
    if |xs| == 0 {
      assert Split("", '\n') == [""];
      assert Map([""], Trim) == [""];
    } else {
      SplitJoin(xs, '\n');
      assert Split(Join(xs, "\n"), '\n') == xs;
      forall i | 0 <= i < |xs|
        ensures Trim(xs[i]) == xs[i]
      {
        TrimOfTrimmed(xs[i]);
      }
      assert Map(xs, Trim) == xs;
    }
  }

  /** The submit listener: the three text fields trimmed, the tracks parsed,
      then the form reset. */
  function SubmitForm(f: RawForm): (r: (PlaylistInput, RawForm))
    ensures r.0.name == Trim(f.name) && r.0.genre == Trim(f.genre) && r.0.artist == Trim(f.artist)
    ensures r.0.tracks == ParseTracks(f.tracks)
    ensures r.1 == EmptyForm
  {
    (PlaylistInput(Trim(f.name), Trim(f.genre), Trim(f.artist), ParseTracks(f.tracks)), EmptyForm)
  }

  /** A stored playlist of the older page. */
  datatype LocalPlaylist = LocalPlaylist(name: string, genre: string, artist: string, tracks: seq<string>)

  datatype Rendered = EmptyMessage(text: string) | Sections(groups: Groups<LocalPlaylist>)

  const NoPlaylistsText := "Inga spellistor skapade än."

  function EntriesOf(playlists: seq<LocalPlaylist>): (es: seq<Entry<LocalPlaylist>>)
    ensures |es| == |playlists|
    ensures forall i :: 0 <= i < |es| ==> es[i] == Entry(playlists[i].genre, playlists[i].artist, playlists[i])
  {
    seq(|playlists|, i requires 0 <= i < |playlists| => Entry(playlists[i].genre, playlists[i].artist, playlists[i]))
  }

  /** `render`: a message for an empty list, otherwise the sections built
      by the grouping loop. */
  method Render(playlists: seq<LocalPlaylist>) returns (out: Rendered)
    ensures |playlists| == 0 ==> out == EmptyMessage(NoPlaylistsText)
    ensures |playlists| > 0 ==> out == Sections(GroupAll(EntriesOf(playlists)))
  {
    if |playlists| == 0 {
      return EmptyMessage(NoPlaylistsText);
    }
    var grouped: Groups<LocalPlaylist> := [];
    var i := 0;
    while i < |playlists|
      invariant 0 <= i <= |playlists|
      invariant grouped == GroupAll(EntriesOf(playlists[..i]))
    {
      ghost var es := EntriesOf(playlists[..i + 1]);
      assert es[..i] == EntriesOf(playlists[..i]);
      grouped := Push2(grouped, playlists[i].genre, playlists[i].artist, playlists[i]);
      i := i + 1;
    }
    assert playlists[..|playlists|] == playlists;
    out := Sections(grouped);
  }

  /** Reference definition: the playlists with this genre and artist, in list order. */
  function Under(playlists: seq<LocalPlaylist>, genre: string, artist: string): seq<LocalPlaylist>
  {
    if |playlists| == 0 then []
    else
      var pl := playlists[|playlists| - 1];
      Under(playlists[..|playlists| - 1], genre, artist) + (if pl.genre == genre && pl.artist == artist then [pl] else [])
  }

  lemma {:induction false} SelectEntriesOf(playlists: seq<LocalPlaylist>, genre: string, artist: string)
    ensures Select(EntriesOf(playlists), genre, artist) == Under(playlists, genre, artist)
  {
    if |playlists| > 0 {
      var init := playlists[..|playlists| - 1];
      SelectEntriesOf(init, genre, artist);
      assert EntriesOf(playlists)[..|playlists| - 1] == EntriesOf(init);
    }
  }

  /** Each playlist is placed exactly once: the sections hold as many cards
      as there are playlists, and the section for a genre and artist lists
      exactly its playlists, in list order. */
  lemma RenderPlacesEachOnce(playlists: seq<LocalPlaylist>, genre: string, artist: string)
    ensures Count(GroupAll(EntriesOf(playlists))) == |playlists|
    ensures Bucket(GroupAll(EntriesOf(playlists)), genre, artist) == Under(playlists, genre, artist)
  {
    GroupAllCount(EntriesOf(playlists));
    GroupAllBucket(EntriesOf(playlists), genre, artist);
    SelectEntriesOf(playlists, genre, artist);
  }
}
