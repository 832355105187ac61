/** The queue editor of `src/components/QueueBuilder.jsx`: a list of entries
    with pairwise distinct ids that tracks are added to, removed from, moved
    within and cleared, and the share-link statistics kept beside it. Each
    handler's `setQueue`/`setUrlStats` is an assignment to a field. */
module QueueBuilder {

  import opened Common
  import Strings
  import Sequences
  import Tracks
  import QueueEncoding

  /** One queue entry, the object `addToQueue` builds. */
  datatype Entry = Entry(id: Option<string>, uri: Option<string>, name: Option<string>,
                         artists: string, image: Option<string>)

  /** The entry `addToQueue` builds for `track`; reading `artists`, `album` or
      `album.images` of a track without them throws. */
  function NewEntry(track: Tracks.Track): (r: Result<Entry>)
    ensures r.Err? <==> track.artists.None? || track.album.None? || track.album.value.images.None?
    ensures r.Err? ==> r.error == MissingProperty
    ensures r.Ok? ==> r.value.id == track.id && r.value.uri == track.uri && r.value.name == track.name
  {
    if track.artists.None? || track.album.None? || track.album.value.images.None? then Err(MissingProperty)
    else
      var images := track.album.value.images.value;
      Ok(Entry(track.id, track.uri, track.name, Tracks.ArtistNames(track.artists.value),
               if |images| > 0 then images[0].url else None))
  }

  /** `queue.find(t => t.id === id)` finds something. */
  predicate HasId(queue: seq<Entry>, id: Option<string>) {
    exists i :: 0 <= i < |queue| && queue[i].id == id
  }

  /** No two entries share an id. */
  predicate DistinctIds(queue: seq<Entry>) {
    forall i, j :: 0 <= i < j < |queue| ==> queue[i].id != queue[j].id
  }

  /** The queue after `addToQueue(track)`: unchanged when an entry already has
      the track's id, one new entry at the end otherwise. */
  function Added(queue: seq<Entry>, track: Tracks.Track): (r: Result<seq<Entry>>)
    ensures r.Err? ==> !HasId(queue, track.id)
    ensures r.Ok? ==> queue <= r.value && |r.value| <= |queue| + 1
  {
    if HasId(queue, track.id) then Ok(queue)
    else
      match NewEntry(track)
      case Err(e) => Err(e)
      case Ok(entry) => Ok(queue + [entry])
  }

  /** A track whose id is already queued changes nothing; otherwise exactly one
      entry with the track's id and uri is appended and the earlier entries stay. */
  lemma AddedShape(queue: seq<Entry>, track: Tracks.Track)
    ensures HasId(queue, track.id) ==> Added(queue, track) == Ok(queue)
    ensures !HasId(queue, track.id) && Added(queue, track).Ok? ==>
      var q := Added(queue, track).value;
      |q| == |queue| + 1 && q[..|queue|] == queue
      && q[|queue|].id == track.id && q[|queue|].uri == track.uri && q[|queue|].name == track.name
    ensures Added(queue, track).Err? <==> !HasId(queue, track.id) && NewEntry(track).Err?
  {
    if !HasId(queue, track.id) && Added(queue, track).Ok? {
      assert (queue + [NewEntry(track).value])[..|queue|] == queue;
    }
  }

  /** Adding keeps the ids distinct, and afterwards the track's id is queued. */
  lemma AddedKeepsDistinct(queue: seq<Entry>, track: Tracks.Track)
    requires DistinctIds(queue)
    requires Added(queue, track).Ok?
    ensures DistinctIds(Added(queue, track).value)
    ensures HasId(Added(queue, track).value, track.id)
  {
    var q := Added(queue, track).value;
    if !HasId(queue, track.id) {
      assert q[|queue|].id == track.id;
      forall i, j | 0 <= i < j < |q| ensures q[i].id != q[j].id {
        if j == |queue| {
          assert q[i] == queue[i];
        } else {
          assert q[i] == queue[i] && q[j] == queue[j];
        }
      }
    }
  }

  /** `queue.filter(t => t.id !== trackId)` */
  function Removed(queue: seq<Entry>, trackId: Option<string>): (r: seq<Entry>)
    ensures |r| <= |queue|
    ensures forall i :: 0 <= i < |r| ==> r[i].id != trackId
  {
    Sequences.FilterShape(queue, (e: Entry) => e.id != trackId);
    Sequences.Filter(queue, (e: Entry) => e.id != trackId)
  }

  /** Removing drops every entry with the id and keeps the others, in their
      original order; the ids stay distinct. */
  lemma RemovedShape(queue: seq<Entry>, trackId: Option<string>)
    ensures !HasId(Removed(queue, trackId), trackId)
    ensures forall e :: e in Removed(queue, trackId) <==> e in queue && e.id != trackId
    ensures Sequences.IsSubsequence(Removed(queue, trackId), queue)
    ensures DistinctIds(queue) ==> DistinctIds(Removed(queue, trackId))
  {
    var keep := (e: Entry) => e.id != trackId;
    Sequences.FilterMembers(queue, keep);
    Sequences.FilterShape(queue, keep);
    Sequences.FilterIsSubsequence(queue, keep);
    if DistinctIds(queue) {
      FilterKeepsDistinct(queue, keep);
    }
  }

  lemma {:induction false} FilterKeepsDistinct(queue: seq<Entry>, keep: Entry -> bool)
    requires DistinctIds(queue)
    ensures DistinctIds(Sequences.Filter(queue, keep))
    decreases |queue|
  {
    if queue != [] {
      var rest := Sequences.Filter(queue[1..], keep);
      FilterKeepsDistinct(queue[1..], keep);
      if keep(queue[0]) {
        Sequences.FilterMembers(queue[1..], keep);
        var q := [queue[0]] + rest;
        forall j | 1 <= j < |q| ensures q[0].id != q[j].id {
          assert q[j] in queue[1..];
        }
      }
    }
  }

  /** `Array.prototype.splice`'s reading of a start index: counted from the end
      when negative, clamped to `0..len`. */
  function SpliceIndex(i: int, len: nat): (r: nat)
    ensures r <= len
    ensures 0 <= i <= len ==> r == i
    ensures -(len as int) <= i < 0 ==> r == len + i
  {
    if i < 0 then (if len + i < 0 then 0 else len + i) else if i > len then len else i
  }

  /** The queue after `moveTrack(fromIndex, toIndex)`: the entry at `fromIndex`
      is cut out, then inserted at `toIndex` of what remains. */
  function Moved(queue: seq<Entry>, fromIndex: int, toIndex: int): (r: seq<Entry>)
    requires SpliceIndex(fromIndex, |queue|) < |queue|
    ensures |r| == |queue|
    ensures r[SpliceIndex(toIndex, |queue| - 1)] == queue[SpliceIndex(fromIndex, |queue|)]
  {
    var f := SpliceIndex(fromIndex, |queue|);
    var rest := queue[..f] + queue[f + 1..];
    var t := SpliceIndex(toIndex, |rest|);
    rest[..t] + [queue[f]] + rest[t..]
  }

  /** Where entry `i` of the moved queue came from. */
  function MovedSource(n: nat, f: nat, t: nat, i: nat): nat
    requires f < n && t < n && i < n
  {
    var k := if i < t then i else if i == t then n else i - 1;
    if k == n then f else if k < f then k else k + 1
  }

  lemma MovedAt(queue: seq<Entry>, fromIndex: int, toIndex: int, i: nat)
    requires SpliceIndex(fromIndex, |queue|) < |queue|
    requires i < |queue|
    ensures var f := SpliceIndex(fromIndex, |queue|);
      var t := SpliceIndex(toIndex, |queue| - 1);
      MovedSource(|queue|, f, t, i) < |queue| && Moved(queue, fromIndex, toIndex)[i] == queue[MovedSource(|queue|, f, t, i)]
  {
  }

  /** Two positions never come from the same place. */
  lemma MovedSourceInjective(n: nat, f: nat, t: nat, i: nat, j: nat)
    requires f < n && t < n && i < n && j < n && i != j
    ensures MovedSource(n, f, t, i) != MovedSource(n, f, t, j)
  {
  }

  /** Moving keeps the length and the entries, puts the moved entry at the
      target index, and keeps the ids distinct. */
  lemma MovedShape(queue: seq<Entry>, fromIndex: int, toIndex: int)
    requires SpliceIndex(fromIndex, |queue|) < |queue|
    ensures |Moved(queue, fromIndex, toIndex)| == |queue|
    ensures multiset(Moved(queue, fromIndex, toIndex)) == multiset(queue)
    ensures Moved(queue, fromIndex, toIndex)[SpliceIndex(toIndex, |queue| - 1)] == queue[SpliceIndex(fromIndex, |queue|)]
    ensures DistinctIds(queue) ==> DistinctIds(Moved(queue, fromIndex, toIndex))
  {
    MovedMultiset(queue, fromIndex, toIndex);
    if DistinctIds(queue) {
      MovedDistinct(queue, fromIndex, toIndex);
    }
  }

  lemma MovedMultiset(queue: seq<Entry>, fromIndex: int, toIndex: int)
    requires SpliceIndex(fromIndex, |queue|) < |queue|
    ensures multiset(Moved(queue, fromIndex, toIndex)) == multiset(queue)
  {
    var f := SpliceIndex(fromIndex, |queue|);
    var rest := queue[..f] + queue[f + 1..];
    var t := SpliceIndex(toIndex, |rest|);
    assert rest[..t] + rest[t..] == rest;
    assert multiset(rest[..t] + [queue[f]] + rest[t..]) == multiset(rest) + multiset{queue[f]};
    assert queue == queue[..f] + [queue[f]] + queue[f + 1..];
    assert multiset(queue) == multiset(rest) + multiset{queue[f]};
  }

  lemma MovedDistinct(queue: seq<Entry>, fromIndex: int, toIndex: int)
    requires SpliceIndex(fromIndex, |queue|) < |queue|
    requires DistinctIds(queue)
    ensures DistinctIds(Moved(queue, fromIndex, toIndex))
  {
    var f := SpliceIndex(fromIndex, |queue|);
    var t := SpliceIndex(toIndex, |queue| - 1);
    var moved := Moved(queue, fromIndex, toIndex);
    forall i, j | 0 <= i < j < |moved| ensures moved[i].id != moved[j].id {
      MovedAt(queue, fromIndex, toIndex, i);
      MovedAt(queue, fromIndex, toIndex, j);
      MovedSourceInjective(|queue|, f, t, i, j);
    }
  }

  /** The tracks `calculateUrlLength` and `generateShareUrl` are handed. */
  function Refs(queue: seq<Entry>): seq<QueueEncoding.TrackRef> {
    seq(|queue|, i requires 0 <= i < |queue| => QueueEncoding.Record(queue[i].uri, queue[i].id))
  }

  class QueueEditor {
    var queue: seq<Entry>
    var urlStats: Option<QueueEncoding.UrlStats>
    var shareUrl: string
    var showShare: bool
    /** `window.location.origin` and `window.location.pathname`. */
    const origin: string
    const pathname: string

    /** The ids in the queue are pairwise distinct. */
    predicate Valid()
      reads this
    {
      DistinctIds(queue)
    }

    constructor(origin: string, pathname: string)
      ensures Valid()
      ensures queue == [] && urlStats == None && shareUrl == "" && !showShare
      ensures this.origin == origin && this.pathname == pathname
    {
      queue := [];
      urlStats := None;
      shareUrl := "";
      showShare := false;
      this.origin := origin;
      this.pathname := pathname;
    }

    /** The statistics `calculateUrlLength` gives for `q`. */
    function Stats(q: seq<Entry>): Result<QueueEncoding.UrlStats>
      reads this
    {
      QueueEncoding.CalculateUrlLength(Refs(q), origin, pathname)
    }

    /** `updateUrlStats(tracks)`: stores the statistics, or throws what
        `calculateUrlLength` throws and keeps the old ones. */
    method UpdateUrlStats(tracks: seq<Entry>) returns (r: Result<()>)
      modifies this
      ensures Stats(tracks).Ok? ==> urlStats == Some(Stats(tracks).value) && r == Ok(())
      ensures Stats(tracks).Err? ==> urlStats == old(urlStats) && r == Err(Stats(tracks).error)
      ensures queue == old(queue) && shareUrl == old(shareUrl) && showShare == old(showShare)
    {
      var stats := QueueEncoding.CalculateUrlLength(Refs(tracks), origin, pathname);
      if stats.Err? {
        return Err(stats.error);
      }
      urlStats := Some(stats.value);
      r := Ok(());
    }

    /** `addToQueue(track)`: `Ok(false)` when the id is already queued. The new
        queue is set before the statistics, so a throw from them leaves the new
        queue and the old statistics. */
    method AddToQueue(track: Tracks.Track) returns (r: Result<bool>)
      requires Valid()
      modifies this
      ensures Valid()
      ensures HasId(old(queue), track.id) ==> r == Ok(false) && queue == old(queue) && urlStats == old(urlStats)
      ensures Added(old(queue), track).Err? ==> r == Err(MissingProperty) && queue == old(queue) && urlStats == old(urlStats)
      ensures !HasId(old(queue), track.id) && Added(old(queue), track).Ok? ==>
        && queue == Added(old(queue), track).value
        && (Stats(queue).Ok? ==> r == Ok(true) && urlStats == Some(Stats(queue).value))
        && (Stats(queue).Err? ==> r == Err(Stats(queue).error) && urlStats == old(urlStats))
      ensures shareUrl == old(shareUrl) && showShare == old(showShare)
    {
      if HasId(queue, track.id) {
        return Ok(false);
      }
      var entry := NewEntry(track);
      if entry.Err? {
        return Err(entry.error);
      }
      AddedKeepsDistinct(queue, track);
      var newQueue := queue + [entry.value];
      queue := newQueue;
      var updated := UpdateUrlStats(newQueue);
      if updated.Err? {
        return Err(updated.error);
      }
      r := Ok(true);
    }

    /** `removeFromQueue(trackId)` */
    method RemoveFromQueue(trackId: Option<string>) returns (r: Result<()>)
      requires Valid()
      modifies this
      ensures Valid()
      ensures queue == Removed(old(queue), trackId)
      ensures Stats(queue).Ok? ==> r == Ok(()) && urlStats == Some(Stats(queue).value)
      ensures Stats(queue).Err? ==> r == Err(Stats(queue).error) && urlStats == old(urlStats)
      ensures shareUrl == old(shareUrl) && showShare == old(showShare)
    {
      RemovedShape(queue, trackId);
      var newQueue := Removed(queue, trackId);
      queue := newQueue;
      r := UpdateUrlStats(newQueue);
    }

    /** `moveTrack(fromIndex, toIndex)`: the statistics are not recomputed. */
    method MoveTrack(fromIndex: int, toIndex: int)
      requires Valid()
      requires SpliceIndex(fromIndex, |queue|) < |queue|
      modifies this
      ensures Valid()
      ensures queue == Moved(old(queue), fromIndex, toIndex)
      ensures urlStats == old(urlStats) && shareUrl == old(shareUrl) && showShare == old(showShare)
    {
      MovedShape(queue, fromIndex, toIndex);
      var newQueue := queue;
      var f := SpliceIndex(fromIndex, |newQueue|);
      var removed := newQueue[f];
      newQueue := newQueue[..f] + newQueue[f + 1..];
      var t := SpliceIndex(toIndex, |newQueue|);
      newQueue := newQueue[..t] + [removed] + newQueue[t..];
      queue := newQueue;
    }

    /** The Clear All button. */
    method ClearAll()
      modifies this
      ensures Valid()
      ensures queue == [] && urlStats == None
      ensures shareUrl == old(shareUrl) && showShare == old(showShare)
    {
      queue := [];
      urlStats := None;
    }

    /** `generateShare()`: opens the share dialog on the link for the queue. */
    method GenerateShare() returns (r: Result<()>)
      modifies this
      ensures var url := QueueEncoding.GenerateShareUrl(Refs(old(queue)), origin, pathname);
        && (url.Ok? ==> r == Ok(()) && shareUrl == url.value && showShare)
        && (url.Err? ==> r == Err(url.error) && shareUrl == old(shareUrl) && showShare == old(showShare))
      ensures queue == old(queue) && urlStats == old(urlStats)
    {
      var url := QueueEncoding.GenerateShareUrl(Refs(queue), origin, pathname);
      if url.Err? {
        return Err(url.error);
      }
      shareUrl := url.value;
      showShare := true;
      r := Ok(());
    }
  }

  /** Adding, removing and moving in any order keep the ids distinct. */
  lemma EditsKeepDistinct(queue: seq<Entry>, track: Tracks.Track, trackId: Option<string>, fromIndex: int, toIndex: int)
    requires DistinctIds(queue)
    ensures Added(queue, track).Ok? ==> DistinctIds(Added(queue, track).value)
    ensures DistinctIds(Removed(queue, trackId))
    ensures SpliceIndex(fromIndex, |queue|) < |queue| ==> DistinctIds(Moved(queue, fromIndex, toIndex))
  {
    if Added(queue, track).Ok? {
      AddedKeepsDistinct(queue, track);
    }
    RemovedShape(queue, trackId);
    if SpliceIndex(fromIndex, |queue|) < |queue| {
      MovedShape(queue, fromIndex, toIndex);
    }
  }
}
