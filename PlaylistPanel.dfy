/** The playlist side panel of `src/components/PlaylistPanel.jsx`: the
    case-insensitive name filter, the payload a dragged playlist carries and
    the message shown when nothing is listed. The playlists themselves are the
    `/me/playlists` reply, an input here. */
module PlaylistPanel {

  import opened Common
  import Strings
  import Sequences
  import Tracks

  /** The `tracks` member of a playlist object: only its `total` is read. */
  datatype TrackTotal = TrackTotal(total: int)

  /** A playlist object as the panel reads it; `name` is always read with
      `toLowerCase()`, so a playlist without one is not representable. */
  datatype Playlist = Playlist(id: Option<string>, name: string, images: Option<seq<Tracks.Image>>,
                               tracks: Option<TrackTotal>, description: Option<string>)

  /** The test of the filter effect: the lower-cased name contains the
      lower-cased filter. */
  predicate Matches(playlist: Playlist, filter: string) {
    Strings.Contains(Strings.LowerAscii(playlist.name), Strings.LowerAscii(filter))
  }

  /** `playlists.filter(p => p.name.toLowerCase().includes(filter.toLowerCase()))` */
  function FilterPlaylists(playlists: seq<Playlist>, filter: string): (r: seq<Playlist>)
    ensures |r| <= |playlists|
    ensures forall i :: 0 <= i < |r| ==> Matches(r[i], filter)
  {
    Sequences.FilterShape(playlists, p => Matches(p, filter));
    Sequences.Filter(playlists, p => Matches(p, filter))
  }

  /** The filtered list keeps the original order, and holds a playlist exactly
      when the playlist is listed and its name matches. */
  lemma FilterPlaylistsFacts(playlists: seq<Playlist>, filter: string)
    ensures Sequences.IsSubsequence(FilterPlaylists(playlists, filter), playlists)
    ensures forall p :: p in FilterPlaylists(playlists, filter) <==> p in playlists && Matches(p, filter)
    ensures |FilterPlaylists(playlists, filter)| <= |playlists|
  {
    Sequences.FilterIsSubsequence(playlists, p => Matches(p, filter));
    Sequences.FilterMembers(playlists, p => Matches(p, filter));
    Sequences.FilterShape(playlists, p => Matches(p, filter));
  }

  /** An empty filter keeps every playlist. */
  lemma EmptyFilterKeepsAll(playlists: seq<Playlist>)
    ensures FilterPlaylists(playlists, "") == playlists
  {
    forall i | 0 <= i < |playlists|
      ensures Matches(playlists[i], "")
    {
      Strings.ContainsEmpty(Strings.LowerAscii(playlists[i].name));
    }
    Sequences.FilterAll(playlists, p => Matches(p, ""));
  }

  /** Lower-casing twice changes nothing more. */
  lemma LowerAsciiIdempotent(s: string)
    ensures Strings.LowerAscii(Strings.LowerAscii(s)) == Strings.LowerAscii(s)
  {
    var once := Strings.LowerAscii(s);
    forall i | 0 <= i < |once|
      ensures Strings.LowerAscii(once)[i] == once[i]
    {
      assert !('A' <= once[i] <= 'Z');
    }
  }

  /** The filter ignores the case of what is typed: a filter and its lower-case
      form list the same playlists. */
  lemma FilterIgnoresCase(playlists: seq<Playlist>, filter: string)
    ensures FilterPlaylists(playlists, filter) == FilterPlaylists(playlists, Strings.LowerAscii(filter))
  {
    LowerAsciiIdempotent(filter);
    Sequences.FilterSameTest(playlists, p => Matches(p, filter), p => Matches(p, Strings.LowerAscii(filter)));
  }

  /** The object `handleDragStart` serialises. `image` is `None` for `null`. */
  datatype PlaylistData = PlaylistData(id: Option<string>, name: string, image: Option<string>,
                                       trackCount: int, description: string)

  /** `playlistData`: the first image's URL or `null`, the track total or 0, the
      description or '', and everything present carried over. */
  function DragPayload(playlist: Playlist): (r: PlaylistData)
    ensures playlist.images.None? || playlist.images.value == [] ==> r.image.None?
    ensures playlist.images.Some? && playlist.images.value != [] ==> r.image == playlist.images.value[0].url
    ensures playlist.tracks.None? ==> r.trackCount == 0
    ensures playlist.tracks.Some? ==> r.trackCount == playlist.tracks.value.total
    ensures playlist.description.None? ==> r.description == ""
    ensures playlist.description.Some? ==> r.description == playlist.description.value
    ensures r.id == playlist.id && r.name == playlist.name
  {
    PlaylistData(
      playlist.id,
      playlist.name,
      if playlist.images.Some? && |playlist.images.value| > 0 then playlist.images.value[0].url else None,
      if playlist.tracks.Some? then playlist.tracks.value.total else 0,
      if playlist.description.Some? && playlist.description.value != "" then playlist.description.value else "")
  }

  const NoneFound := "No playlists found"
  const NoneAvailable := "No playlists available"

  /** The placeholder of the list: shown only when the filtered list is empty,
      naming the filter when one is typed. */
  function EmptyMessage(filtered: seq<Playlist>, filter: string): (m: Option<string>)
    ensures m.Some? <==> filtered == []
    ensures m == Some(NoneFound) <==> filtered == [] && filter != ""
  {
    if |filtered| == 0 then Some(if filter != "" then NoneFound else NoneAvailable) else None
  }

  /** 'No playlists available' shows exactly when there are no playlists and no
      filter; 'No playlists found' exactly when a filter is typed and no
      playlist matches it. */
  lemma EmptyMessageCases(playlists: seq<Playlist>, filter: string)
    ensures EmptyMessage(FilterPlaylists(playlists, filter), filter) == Some(NoneAvailable)
      <==> playlists == [] && filter == ""
    ensures EmptyMessage(FilterPlaylists(playlists, filter), filter) == Some(NoneFound)
      <==> filter != "" && forall p :: p in playlists ==> !Matches(p, filter)
  {
    FilterPlaylistsFacts(playlists, filter);
    if filter == "" {
      EmptyFilterKeepsAll(playlists);
    }
    var filtered := FilterPlaylists(playlists, filter);
    if filtered != [] {
      assert filtered[0] in filtered;
    }
  }
}
