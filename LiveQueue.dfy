/** The live queue strip of `src/components/LiveQueue.jsx`: seven slots built
    from the recently played tracks, the current track and the upcoming ones;
    the memo of audio features; the search box state; and the payload a
    dragged track carries.

    The player state `getCompleteQueue` returns, the features
    `getAudioFeatures` returns and the search reply are inputs. */
module LiveQueue {

  import opened Common
  import Strings
  import Sequences
  import Tracks

  /** The number of slots the strip shows. */
  const SlotCount := 7

  /** A slot's class: played before, playing now, or still to come. */
  datatype SlotKind = Recent | Current | Upcoming

  /** `[...reversedRecent, current, ...upcoming]`, before padding. */
  function Unpadded(reversedRecent: seq<Tracks.Track>, current: Option<Tracks.Track>, upcoming: seq<Tracks.Track>)
    : seq<Option<Tracks.Track>>
  {
    seq(|reversedRecent|, i requires 0 <= i < |reversedRecent| => Some(reversedRecent[i]))
    + [current]
    + seq(|upcoming|, i requires 0 <= i < |upcoming| => Some(upcoming[i]))
  }

  /** `while (allTracks.length < 7) allTracks.push(null)` */
  method PadSlots(tracks: seq<Option<Tracks.Track>>) returns (padded: seq<Option<Tracks.Track>>)
    ensures |padded| == if |tracks| < SlotCount then SlotCount else |tracks|
    ensures padded[..|tracks|] == tracks
    ensures forall i :: |tracks| <= i < |padded| ==> padded[i].None?
  {
    padded := tracks;
    while |padded| < SlotCount
      invariant |tracks| <= |padded| <= (if |tracks| < SlotCount then SlotCount else |tracks|)
      invariant padded[..|tracks|] == tracks
      invariant forall i :: |tracks| <= i < |padded| ==> padded[i].None?
      decreases SlotCount - |padded|
    {
      padded := padded + [None];
    }
  }

  /** The seven slots shown: the padded list cut by `slice(0, 7)`. */
  function Window(reversedRecent: seq<Tracks.Track>, current: Option<Tracks.Track>, upcoming: seq<Tracks.Track>)
    : (w: seq<Option<Tracks.Track>>)
    ensures |w| == SlotCount
    ensures forall i :: 0 <= i < |reversedRecent| && i < SlotCount ==> w[i] == Some(reversedRecent[i])
  {
    var all := Unpadded(reversedRecent, current, upcoming);
    (all + seq(if |all| < SlotCount then SlotCount - |all| else 0, _ => None))[..SlotCount]
  }

  /** The class of slot `index`: `recent` below the recent count, `current` at
      it when a track is playing, `upcoming` otherwise. */
  function Kind(index: nat, recentCount: nat, current: Option<Tracks.Track>): (k: SlotKind)
    ensures k == Recent <==> index < recentCount
    ensures k == Current <==> index == recentCount && current.Some?
  {
    if index < recentCount then Recent
    else if index == recentCount && current.Some? then Current
    else Upcoming
  }

  /** Exactly seven slots: first the recent tracks from the oldest to the
      newest, then the current track (or an empty slot), then the upcoming
      tracks, then empty slots; each slot's class says which part it shows. */
  lemma WindowLayout(recent: seq<Tracks.Track>, current: Option<Tracks.Track>, upcoming: seq<Tracks.Track>)
    ensures |Window(Sequences.Reversed(recent), current, upcoming)| == SlotCount
    ensures forall i :: 0 <= i < SlotCount ==>
      var slot := Window(Sequences.Reversed(recent), current, upcoming)[i];
      && (Kind(i, |recent|, current) == Recent <==> i < |recent|)
      && (i < |recent| ==> slot == Some(recent[|recent| - 1 - i]))
      && (Kind(i, |recent|, current) == Current <==> i == |recent| && slot.Some?)
      && (i == |recent| ==> slot == current)
      && (|recent| < i < |recent| + 1 + |upcoming| ==> slot == Some(upcoming[i - |recent| - 1]))
      && (i >= |recent| + 1 + |upcoming| ==> slot.None?)
  {
    var rev := Sequences.Reversed(recent);
    var all := Unpadded(rev, current, upcoming);
    var padded := all + seq(if |all| < SlotCount then SlotCount - |all| else 0, _ => None);
    forall i | 0 <= i < SlotCount && i < |all|
      ensures padded[i] == all[i]
    {
    }
  }

  // ---------------------------------------------------------------------------
  // The audio-features memo

  /** What `getAudioFeatures` resolves to, kept as it arrives. */
  datatype Features = Features(json: string)

  /** One call of `getTrackAudioFeatures`: the value returned (`None` is `null`)
      and the cache afterwards. */
  datatype Lookup = Lookup(value: Option<Features>, cache: map<Option<string>, Features>)

  /** `getTrackAudioFeatures(trackId)`, the fetch answering `fetched` when it
      is made. A hit answers from the cache whatever the network would say; a
      miss stores and returns what was fetched; a failure returns `null` and
      stores nothing; no entry is ever changed or dropped. */
  function FeaturesLookup(cache: map<Option<string>, Features>, trackId: Option<string>, fetched: Result<Features>): (r: Lookup)
    ensures trackId in cache ==> r == Lookup(Some(cache[trackId]), cache)
    ensures trackId !in cache && fetched.Ok? ==> r.value == Some(fetched.value) && r.cache == cache[trackId := fetched.value]
    ensures trackId !in cache && fetched.Err? ==> r == Lookup(None, cache)
    ensures forall k :: k in cache ==> k in r.cache && r.cache[k] == cache[k]
  {
    if trackId in cache then Lookup(Some(cache[trackId]), cache)
    else
      match fetched
      case Ok(features) => Lookup(Some(features), cache[trackId := features])
      case Err(_) => Lookup(None, cache)
  }

  /** Memoisation: once a lookup returns a value, every later lookup of the same
      id returns that value without fetching; after a failure the next lookup
      fetches again. */
  lemma LookupMemoises(cache: map<Option<string>, Features>, trackId: Option<string>,
                       first: Result<Features>, second: Result<Features>)
    ensures var one := FeaturesLookup(cache, trackId, first);
      var two := FeaturesLookup(one.cache, trackId, second);
      && (one.value.Some? ==> two == Lookup(one.value, one.cache))
      && (one.value.None? ==> two == FeaturesLookup(cache, trackId, second))
  {
  }

  // ---------------------------------------------------------------------------
  // The drag payload

  /** The object `handleDragStart` and `handleTouchStart` build. */
  datatype TrackData = TrackData(id: Option<string>, uri: Option<string>, name: Option<string>,
                                 artists: string, image: string, audioFeatures: Option<Features>, kind: string)

  const UnknownArtist := "Unknown Artist"

  /** `track.album?.images?.[0]?.url`, `None` where the chain stops. */
  function FirstImageUrl(track: Tracks.Track): Option<string> {
    if track.album.Some? && track.album.value.images.Some? && |track.album.value.images.value| > 0
    then track.album.value.images.value[0].url
    else None
  }

  /** `trackData`: the artist line or 'Unknown Artist' when it is missing or
      empty, the first image or '', and the type 'song'. */
  function DragPayload(track: Tracks.Track, audioFeatures: Option<Features>): (r: TrackData)
    ensures r.artists != "" && r.kind == "song"
    ensures r.id == track.id && r.uri == track.uri && r.name == track.name && r.audioFeatures == audioFeatures
    ensures r.image != "" ==> FirstImageUrl(track) == Some(r.image)
  {
    var names := if track.artists.Some? then Tracks.ArtistNames(track.artists.value) else "";
    var url := FirstImageUrl(track);
    TrackData(track.id, track.uri, track.name,
              if names != "" then names else UnknownArtist,
              if url.Some? && url.value != "" then url.value else "",
              audioFeatures, "song")
  }

  /** The artist line falls back to 'Unknown Artist' exactly when the track has
      no artist list, an empty one, or one artist without a name; the image to
      '' when there is no first image URL; the type is always 'song'. */
  lemma DragPayloadDefaults(track: Tracks.Track, audioFeatures: Option<Features>)
    ensures var artists := track.artists;
      var fallback := artists.None? || |artists.value| == 0
        || (|artists.value| == 1 && Tracks.JoinText(artists.value[0].name) == "");
      && (fallback ==> DragPayload(track, audioFeatures).artists == UnknownArtist)
      && (!fallback ==> DragPayload(track, audioFeatures).artists == Tracks.ArtistNames(artists.value))
    ensures FirstImageUrl(track).None? ==> DragPayload(track, audioFeatures).image == ""
    ensures FirstImageUrl(track).Some? ==> DragPayload(track, audioFeatures).image == FirstImageUrl(track).value
    ensures DragPayload(track, audioFeatures).kind == "song"
    ensures DragPayload(track, audioFeatures).id == track.id && DragPayload(track, audioFeatures).uri == track.uri
  {
    if track.artists.Some? {
      Tracks.ArtistNamesEmpty(track.artists.value);
    }
  }

  // ---------------------------------------------------------------------------
  // The component

  class LiveQueueView {
    /** `queueData.recent`, the array `.reverse()` works on. */
    var recent: array<Tracks.Track>
    var current: Option<Tracks.Track>
    var upcoming: seq<Tracks.Track>
    /** `audioFeaturesCache.current` */
    var cache: map<Option<string>, Features>
    var searchQuery: string
    var searchResults: seq<Tracks.Track>
    var searching: bool
    var showSearchResults: bool

    constructor(recent: array<Tracks.Track>, current: Option<Tracks.Track>, upcoming: seq<Tracks.Track>)
      ensures this.recent == recent && this.current == current && this.upcoming == upcoming
      ensures cache == map[] && searchQuery == "" && searchResults == [] && !searching && !showSearchResults
    {
      this.recent := recent;
      this.current := current;
      this.upcoming := upcoming;
      cache := map[];
      searchQuery := "";
      searchResults := [];
      searching := false;
      showSearchResults := false;
    }

    /** The slot list of one render, as written: `queueData.recent.reverse()`
        reverses the stored array itself before the slots are read. */
    method RenderSlots() returns (slots: seq<Option<Tracks.Track>>, kinds: seq<SlotKind>)
      modifies recent
      ensures recent[..] == Sequences.Reversed(old(recent[..]))
      ensures slots == Window(recent[..], current, upcoming)
      ensures |kinds| == |slots| && forall i :: 0 <= i < |kinds| ==> kinds[i] == Kind(i, recent.Length, current)
    {
      Sequences.ReverseInPlace(recent);
      var all := Unpadded(recent[..], current, upcoming);
      var padded := PadSlots(all);
      assert padded == all + seq(if |all| < SlotCount then SlotCount - |all| else 0, _ => None);
      slots := padded[..SlotCount];
      var recentCount, playing := recent.Length, current;
      kinds := seq(|slots|, i requires 0 <= i < |slots| => Kind(i, recentCount, playing));
    }

    /** The slot list of one render reading a reversed copy, leaving the stored
        array alone. */
    method RenderSlotsFromCopy() returns (slots: seq<Option<Tracks.Track>>, kinds: seq<SlotKind>)
      ensures slots == Window(Sequences.Reversed(recent[..]), current, upcoming)
      ensures |kinds| == |slots| && forall i :: 0 <= i < |kinds| ==> kinds[i] == Kind(i, recent.Length, current)
    {
      var all := Unpadded(Sequences.Reversed(recent[..]), current, upcoming);
      var padded := PadSlots(all);
      assert padded == all + seq(if |all| < SlotCount then SlotCount - |all| else 0, _ => None);
      slots := padded[..SlotCount];
      var recentCount, playing := recent.Length, current;
      kinds := seq(|slots|, i requires 0 <= i < |slots| => Kind(i, recentCount, playing));
    }

    /** `getTrackAudioFeatures(trackId)` */
    method GetTrackAudioFeatures(trackId: Option<string>, fetched: Result<Features>) returns (r: Option<Features>)
      modifies this
      ensures r == FeaturesLookup(old(cache), trackId, fetched).value
      ensures cache == FeaturesLookup(old(cache), trackId, fetched).cache
      ensures recent == old(recent) && current == old(current) && upcoming == old(upcoming)
      ensures searchQuery == old(searchQuery) && searchResults == old(searchResults)
      ensures searching == old(searching) && showSearchResults == old(showSearchResults)
    {
      if trackId in cache {
        return Some(cache[trackId]);
      }
      if fetched.Err? {
        return None;
      }
      cache := cache[trackId := fetched.value];
      r := Some(fetched.value);
    }

    /** `handleDragStart`: looks the features up, then builds the payload. */
    method DragStart(track: Tracks.Track, fetched: Result<Features>) returns (payload: TrackData)
      modifies this
      ensures payload == DragPayload(track, FeaturesLookup(old(cache), track.id, fetched).value)
      ensures cache == FeaturesLookup(old(cache), track.id, fetched).cache
      ensures recent == old(recent) && current == old(current) && upcoming == old(upcoming)
      ensures searchQuery == old(searchQuery) && searchResults == old(searchResults)
      ensures searching == old(searching) && showSearchResults == old(showSearchResults)
    {
      var features := GetTrackAudioFeatures(track.id, fetched);
      payload := DragPayload(track, features);
    }

    /** `searchTracks(query)`: a blank query hides and empties the results
        without a request; otherwise the request's items are shown, and a
        failed request empties them. `requested` says whether it was sent. */
    method SearchTracks(query: string, reply: Result<seq<Tracks.Track>>) returns (requested: bool)
      modifies this
      ensures requested <==> !Strings.IsBlank(query)
      ensures !requested ==> searchResults == [] && !showSearchResults
      ensures requested && reply.Ok? ==> searchResults == reply.value && showSearchResults
      ensures requested && reply.Err? ==> searchResults == [] && showSearchResults == old(showSearchResults)
      ensures !requested ==> searching == old(searching)
      ensures requested ==> !searching
      ensures searchQuery == old(searchQuery) && cache == old(cache)
      ensures recent == old(recent) && current == old(current) && upcoming == old(upcoming)
    {
      var blank := Strings.IsBlank(query);
      if blank {
        searchResults := [];
        showSearchResults := false;
        return false;
      }
      searching := true;
      if reply.Ok? {
        searchResults := reply.value;
        showSearchResults := true;
      } else {
        searchResults := [];
      }
      searching := false;
      requested := true;
    }

    /** `handleSearchInput(value)`: records what was typed; the search itself runs
        later, as `SearchTracks(value, …)`. */
    method HandleSearchInput(value: string)
      modifies this
      ensures searchQuery == value
      ensures searchResults == old(searchResults) && searching == old(searching)
      ensures showSearchResults == old(showSearchResults) && cache == old(cache)
      ensures recent == old(recent) && current == old(current) && upcoming == old(upcoming)
    {
      searchQuery := value;
    }

    /** `clearSearch()` */
    method ClearSearch()
      modifies this
      ensures searchQuery == "" && searchResults == [] && !showSearchResults
      ensures searching == old(searching) && cache == old(cache)
      ensures recent == old(recent) && current == old(current) && upcoming == old(upcoming)
    {
      searchQuery := "";
      searchResults := [];
      showSearchResults := false;
    }
  }

  /** As written, two renders of the same player state disagree: the second
      shows the recent tracks newest first, because the first render reversed
      the stored array. */
  lemma SecondRenderFlips(recent: seq<Tracks.Track>, current: Option<Tracks.Track>, upcoming: seq<Tracks.Track>)
    requires |recent| >= 2 && recent[0] != recent[|recent| - 1]
    ensures Window(Sequences.Reversed(recent), current, upcoming)[0] == Some(recent[|recent| - 1])
    ensures Window(Sequences.Reversed(Sequences.Reversed(recent)), current, upcoming)[0] == Some(recent[0])
    ensures Window(Sequences.Reversed(recent), current, upcoming)
         != Window(Sequences.Reversed(Sequences.Reversed(recent)), current, upcoming)
  {
    Sequences.ReversedTwice(recent);
    WindowFirst(Sequences.Reversed(recent), current, upcoming);
    WindowFirst(recent, current, upcoming);
  }

  /** The first slot shows the first element of the list it is given; a helper
      of `SecondRenderFlips`, which compares the first slot of two renders. */
  lemma WindowFirst(tracks: seq<Tracks.Track>, current: Option<Tracks.Track>, upcoming: seq<Tracks.Track>)
    requires |tracks| >= 1
    ensures Window(tracks, current, upcoming)[0] == Some(tracks[0])
  {
    var all := Unpadded(tracks, current, upcoming);
    assert all[0] == Some(tracks[0]);
  }

  /** Read from a copy, every render shows the recent tracks oldest first and
      newest last, however often it runs. */
  lemma CopyRenderStable(recent: seq<Tracks.Track>, current: Option<Tracks.Track>, upcoming: seq<Tracks.Track>)
    requires |recent| >= 1
    ensures forall i :: 0 <= i < |recent| && i < SlotCount ==>
      Window(Sequences.Reversed(recent), current, upcoming)[i] == Some(recent[|recent| - 1 - i])
    ensures |recent| < SlotCount ==>
      Window(Sequences.Reversed(recent), current, upcoming)[|recent| - 1] == Some(recent[0])
  {
    WindowLayout(recent, current, upcoming);
  }
}
