/** What a playlist card shows: the creation date read from the id, the
    owner's controls, the description, the genre badge, and a preview of
    at most four songs followed by a "+N more" count. */
module PlaylistCard {
  import opened Basics
  import opened ObjectIdTime

  datatype CardSong = CardSong(id: string, title: string, artistName: string)
  datatype CardPlaylist = CardPlaylist(id: string, name: string, description: Option<string>, genreName: Option<string>,
                                       songs: Option<seq<CardSong>>)

  /** The rendered content; `more` is the "+N more" count when it is shown. */
  datatype CardView = CardView(created: Option<int>, controls: bool, description: string, badge: Option<string>,
                               preview: seq<CardSong>, more: Option<nat>)

  const PreviewSize := 4

  function View(p: CardPlaylist, canEdit: bool): (v: CardView)
    ensures v.created == CreationMillis(p.id)
    ensures v.controls == canEdit
    ensures p.description.Some? && p.description.value != "" ==> v.description == p.description.value
    ensures !(p.description.Some? && p.description.value != "") ==> v.description == "No description."
    ensures v.badge == p.genreName
    ensures var songs := if p.songs.Some? then p.songs.value else [];
            && (|songs| <= PreviewSize ==> v.preview == songs && v.more.None?)
            && (|songs| > PreviewSize ==> v.preview == songs[..PreviewSize] && v.more == Some(|songs| - PreviewSize))
            && |v.preview| + (if v.more.Some? then v.more.value else 0) == |songs|
  {
    var songs := if p.songs.Some? then p.songs.value else [];
    var shown := if |songs| <= PreviewSize then songs else songs[..PreviewSize];
    CardView(
      CreationMillis(p.id),
      canEdit,
      if p.description.Some? && p.description.value != "" then p.description.value else "No description.",
      p.genreName,
      shown,
      if |songs| > PreviewSize then Some(|songs| - PreviewSize) else None)
  }

  /** A card for a playlist created at second `t` shows `t * 1000` as its creation time. */
  lemma ViewCreationTime(t: nat, rest: seq<Byte>, p: CardPlaylist, canEdit: bool)
    requires t < 0x1_0000_0000 && |rest| == 8
    requires p.id == ToHex(SecondsBytes(t) + rest)
    ensures View(p, canEdit).created == Some(t * 1000)
  {
    CreationMillisRoundTrip(t, rest);
  }
}
