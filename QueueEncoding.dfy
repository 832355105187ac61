/** The share-link codec: a queue of tracks becomes the comma-joined track ids,
    base 64 encoded in the URL-safe alphabet without padding, and is read back
    from the `#share?q=` fragment of a link. The page location is a parameter. */
module QueueEncoding {

  import opened Common
  import Strings
  import Base64

  const TrackPrefix := "spotify:track:"
  const ShareMarker := "share?q="
  const InvalidQueueData := "Invalid queue data"

  /** Links this long or longer are flagged as possibly too long. */
  const UrlLengthLimit := 2000

  /** What `encodeQueue` accepts: a URI or id as a string, or a track object
      whose `uri` (when non-empty) or else `id` is used. */
  datatype TrackRef = Text(s: string) | Record(uri: Option<string>, id: Option<string>)

  /** `extractTrackId`: the third `:`-separated field of a `spotify:track:` URI,
      any other string unchanged. */
  function ExtractTrackId(uri: string): (id: string)
    ensures !Strings.StartsWith(uri, TrackPrefix) ==> id == uri
    ensures Strings.StartsWith(uri, TrackPrefix) ==> ':' !in id
  {
    if Strings.StartsWith(uri, TrackPrefix) then
      PrefixedSplitOf(uri);
      Strings.Split(uri, ':')[2]
    else uri
  }

  /** A URI with the prefix splits into `spotify`, `track` and the pieces after it. */
  lemma PrefixedSplitOf(uri: string)
    requires Strings.StartsWith(uri, TrackPrefix)
    ensures Strings.Split(uri, ':') == ["spotify", "track"] + Strings.Split(uri[|TrackPrefix|..], ':')
  {
    assert uri == TrackPrefix + uri[|TrackPrefix|..];
    PrefixedSplit(uri[|TrackPrefix|..]);
  }

  /** The id of a URI is the text after the prefix up to the next `:` or the end;
      anything without the prefix is its own id. */
  lemma ExtractTrackIdShape(uri: string)
    ensures !Strings.StartsWith(uri, TrackPrefix) ==> ExtractTrackId(uri) == uri
    ensures Strings.StartsWith(uri, TrackPrefix) ==>
      var rest := uri[|TrackPrefix|..];
      var id := ExtractTrackId(uri);
      Strings.StartsWith(rest, id) && ':' !in id && (|id| == |rest| || rest[|id|] == ':')
  {
    if Strings.StartsWith(uri, TrackPrefix) {
      PrefixedSplitOf(uri);
      Strings.SplitFirst(uri[|TrackPrefix|..], ':');
    }
  }

  /** How `split(':')` sees a `spotify:track:` URI. */
  lemma PrefixedSplit(rest: string)
    ensures Strings.Split(TrackPrefix + rest, ':') == ["spotify", "track"] + Strings.Split(rest, ':')
  {
    assert TrackPrefix + rest == "spotify" + [':'] + ("track" + [':'] + rest);
    Strings.SplitAfter("track", ':', rest);
    Strings.SplitAfter("spotify", ':', "track" + [':'] + rest);
  }

  /** `buildTrackUri`: adds the prefix unless it is already there. */
  function BuildTrackUri(trackId: string): (uri: string)
    ensures Strings.StartsWith(uri, TrackPrefix)
  {
    if Strings.StartsWith(trackId, TrackPrefix) then trackId else TrackPrefix + trackId
  }

  /** Building a URI twice changes nothing. */
  lemma BuildTrackUriIdempotent(trackId: string)
    ensures BuildTrackUri(BuildTrackUri(trackId)) == BuildTrackUri(trackId)
  {
  }

  /** A URI with a `:`-free id survives extraction and rebuilding. */
  lemma BuildExtractUri(id: string)
    requires ':' !in id
    ensures ExtractTrackId(TrackPrefix + id) == id
    ensures BuildTrackUri(ExtractTrackId(TrackPrefix + id)) == TrackPrefix + id
  {
    var uri := TrackPrefix + id;
    assert uri[..|TrackPrefix|] == TrackPrefix;
    assert uri[|TrackPrefix|..] == id;
    PrefixedSplitOf(uri);
    Strings.SplitNone(id, ':');
  }

  /** A `:`-free id survives building and extraction. */
  lemma ExtractBuildId(id: string)
    requires ':' !in id
    ensures ExtractTrackId(BuildTrackUri(id)) == id
  {
    BuildExtractUri(id);
  }

  /** `typeof track === 'string' ? track : (track.uri || track.id)`;
      `None` when the object has neither. */
  function TrackKey(t: TrackRef): Option<string> {
    match t
    case Text(s) => Some(s)
    case Record(uri, id) => if uri.Some? && uri.value != "" then uri else id
  }

  /** The ids `encodeQueue` joins; `None` when some track has no key, where
      `extractTrackId(undefined)` throws. */
  function TrackIds(tracks: seq<TrackRef>): (r: Option<seq<string>>)
    ensures r.Some? <==> forall i :: 0 <= i < |tracks| ==> TrackKey(tracks[i]).Some?
    ensures r.Some? ==>
      && |r.value| == |tracks|
      && forall i :: 0 <= i < |tracks| ==> r.value[i] == ExtractTrackId(TrackKey(tracks[i]).value)
  {
    if forall i :: 0 <= i < |tracks| ==> TrackKey(tracks[i]).Some? then
      Some(seq(|tracks|, i requires 0 <= i < |tracks| => ExtractTrackId(TrackKey(tracks[i]).value)))
    else None
  }

  /** `encodeQueue`: ids joined with `,`, through `btoa`, then made URL-safe. */
  function EncodeQueue(tracks: seq<TrackRef>): (r: Result<string>)
    ensures r.Ok? ==> forall i :: 0 <= i < |r.value| ==> Base64.IsUrlSafeChar(r.value[i])
    ensures r.Ok? <==> TrackIds(tracks).Some? && Base64.IsLatin1(Strings.Join(TrackIds(tracks).value, ","))
    ensures r.Err? ==> r.error == (if TrackIds(tracks).None? then MissingProperty else InvalidCharacter)
  {
    match TrackIds(tracks)
    case None => Err(MissingProperty)
    case Some(ids) =>
      var joined := Strings.Join(ids, ",");
      match Base64.Btoa(joined)
      case None => Err(InvalidCharacter)
      case Some(b64) =>
        Base64.UrlSafeAlphabet(Base64.Latin1Bytes(joined));
        Ok(Base64.UrlSafeNoPad(b64))
  }

  /** `.filter(id => id.length > 0)` */
  function NonEmpty(parts: seq<string>): (r: seq<string>)
    ensures forall i :: 0 <= i < |r| ==> r[i] != ""
    decreases |parts|
  {
    if parts == [] then []
    else if parts[0] == "" then NonEmpty(parts[1..])
    else [parts[0]] + NonEmpty(parts[1..])
  }

  /** `decodeQueue`: back to the standard alphabet, padded to a multiple of four,
      through `atob`, split on `,`, empty pieces dropped, each piece made a URI.
      Any failure surfaces as `Invalid queue data`. */
  function DecodeQueue(encoded: string): (r: Result<seq<string>>)
    ensures r.Err? <==> Base64.Atob(Base64.RestoreStandard(encoded)).None?
    ensures r.Err? ==> r.error == Thrown(InvalidQueueData)
    ensures r.Ok? ==> forall i :: 0 <= i < |r.value| ==> Strings.StartsWith(r.value[i], TrackPrefix)
  {
    match Base64.Atob(Base64.RestoreStandard(encoded))
    case None => Err(Thrown(InvalidQueueData))
    case Some(idsString) =>
      var ids := NonEmpty(Strings.Split(idsString, ','));
      Ok(seq(|ids|, i requires 0 <= i < |ids| => BuildTrackUri(ids[i])))
  }

  /** An id a share link can carry: non-empty, comma-free, Latin-1. */
  predicate Shareable(id: string) {
    id != "" && ',' !in id && Base64.IsLatin1(id)
  }

  /** The URI each track decodes to. */
  function SharedUri(t: TrackRef): string
    requires TrackKey(t).Some?
  {
    BuildTrackUri(ExtractTrackId(TrackKey(t).value))
  }

  lemma {:induction false} JoinLatin1(parts: seq<string>)
    requires forall i :: 0 <= i < |parts| ==> Base64.IsLatin1(parts[i])
    ensures Base64.IsLatin1(Strings.Join(parts, ","))
    decreases |parts|
  {
    if |parts| > 1 {
      JoinLatin1(parts[1..]);
    }
  }

  lemma {:induction false} NonEmptyKeepsNonEmpty(parts: seq<string>)
    requires forall i :: 0 <= i < |parts| ==> parts[i] != ""
    ensures NonEmpty(parts) == parts
    decreases |parts|
  {
    if parts != [] {
      NonEmptyKeepsNonEmpty(parts[1..]);
      assert [parts[0]] + parts[1..] == parts;
    }
  }

  /** The ids come back out of the decoded text in order. */
  lemma IdsRecovered(ids: seq<string>)
    requires forall i :: 0 <= i < |ids| ==> ids[i] != "" && ',' !in ids[i]
    ensures NonEmpty(Strings.Split(Strings.Join(ids, ","), ',')) == ids
  {
    if ids == [] {
      assert Strings.Split("", ',') == [""];
    } else {
      Strings.SplitJoin(ids, ',');
      NonEmptyKeepsNonEmpty(ids);
    }
  }

  /** The text `encodeQueue` produces for joined ids decodes to their URIs. */
  lemma DecodeJoinedIds(ids: seq<string>)
    requires forall i :: 0 <= i < |ids| ==> Shareable(ids[i])
    ensures Base64.Btoa(Strings.Join(ids, ",")).Some?
    ensures DecodeQueue(Base64.UrlSafeNoPad(Base64.Btoa(Strings.Join(ids, ",")).value))
      == Ok(seq(|ids|, i requires 0 <= i < |ids| => BuildTrackUri(ids[i])))
  {
    var joined := Strings.Join(ids, ",");
    JoinLatin1(ids);
    Base64.UrlSafeBtoaRoundTrip(joined);
    IdsRecovered(ids);
  }

  /** Round trip: a queue of shareable ids decodes to their URIs, in order. */
  lemma DecodeEncodeQueue(tracks: seq<TrackRef>)
    requires forall i :: 0 <= i < |tracks| ==>
      TrackKey(tracks[i]).Some? && Shareable(ExtractTrackId(TrackKey(tracks[i]).value))
    ensures EncodeQueue(tracks).Ok?
    ensures DecodeQueue(EncodeQueue(tracks).value)
      == Ok(seq(|tracks|, i requires 0 <= i < |tracks| => SharedUri(tracks[i])))
  {
    var ids := TrackIds(tracks).value;
    DecodeJoinedIds(ids);
    var uris := seq(|ids|, i requires 0 <= i < |ids| => BuildTrackUri(ids[i]));
    assert uris == seq(|tracks|, i requires 0 <= i < |tracks| => SharedUri(tracks[i]));
  }

  /** `window.location.origin + window.location.pathname.replace(/\/$/, '')` */
  function BaseUrl(origin: string, pathname: string): (r: string)
    ensures r == origin + pathname || (r + "/" == origin + pathname)
  {
    origin + (if |pathname| > 0 && pathname[|pathname| - 1] == '/' then pathname[..|pathname| - 1] else pathname)
  }

  /** `generateShareUrl`: the base URL, then `#share?q=` and the encoded queue. */
  function GenerateShareUrl(tracks: seq<TrackRef>, origin: string, pathname: string): (r: Result<string>)
    ensures r.Ok? <==> EncodeQueue(tracks).Ok?
    ensures r.Err? ==> r.error == EncodeQueue(tracks).error
    ensures r.Ok? ==> r.value == BaseUrl(origin, pathname) + "#" + ShareMarker + EncodeQueue(tracks).value
  {
    match EncodeQueue(tracks)
    case Err(e) => Err(e)
    case Ok(encoded) => Ok(BaseUrl(origin, pathname) + "#" + ShareMarker + encoded)
  }

  /** `new URL(url).hash` for the URLs this module builds: from the first `#` on,
      or empty when there is none. */
  function Fragment(url: string): (r: string)
    decreases |url|
  {
    if url == [] then "" else if url[0] == '#' then url else Fragment(url[1..])
  }

  /** `parseShareUrl`, given the parsed link's `hash`; `None` for `hash` stands for
      a URL the `URL` constructor rejects. Every failure is swallowed into `null`. */
  function ParseShareUrl(hash: Option<string>): (r: Option<seq<string>>)
    ensures hash.None? ==> r.None?
    ensures hash.Some? && !Strings.Contains(hash.value, ShareMarker) ==> r.None?
    ensures hash.Some? && Strings.Contains(hash.value, ShareMarker) ==>
      r == (match DecodeQueue(Strings.SecondPiece(hash.value, ShareMarker))
            case Ok(uris) => Some(uris)
            case Err(_) => None)
  {
    match hash
    case None => None
    case Some(h) =>
      if !Strings.Contains(h, ShareMarker) then None
      else
        match DecodeQueue(Strings.SecondPiece(h, ShareMarker))
        case Err(_) => None
        case Ok(uris) => Some(uris)
  }

  /** `getQueueFromUrl`, given `window.location.hash`: `null` without a marker or
      with nothing after it; a decoding failure is thrown, not swallowed. */
  function GetQueueFromUrl(hash: string): (r: Result<Option<seq<string>>>)
    ensures !Strings.Contains(hash, ShareMarker) ==> r == Ok(None)
    ensures r.Err? ==> r.error == Thrown(InvalidQueueData)
    ensures Strings.Contains(hash, ShareMarker) && Strings.SecondPiece(hash, ShareMarker) == "" ==> r == Ok(None)
    ensures Strings.Contains(hash, ShareMarker) && Strings.SecondPiece(hash, ShareMarker) != "" ==>
      r == (match DecodeQueue(Strings.SecondPiece(hash, ShareMarker))
            case Ok(uris) => Ok(Some(uris))
            case Err(e) => Err(e))
  {
    if !Strings.Contains(hash, ShareMarker) then Ok(None)
    else
      var encoded := Strings.SecondPiece(hash, ShareMarker);
      if encoded == "" then Ok(None)
      else
        match DecodeQueue(encoded)
        case Err(e) => Err(e)
        case Ok(uris) => Ok(Some(uris))
  }

  /** The object `calculateUrlLength` returns. */
  datatype UrlStats = UrlStats(encodedLength: nat, totalUrlLength: nat, isWithinLimit: bool, trackCount: nat)

  /** `calculateUrlLength`: the sizes of the encoded queue and of the share link. */
  function CalculateUrlLength(tracks: seq<TrackRef>, origin: string, pathname: string): (r: Result<UrlStats>)
    ensures r.Ok? <==> GenerateShareUrl(tracks, origin, pathname).Ok?
    ensures r.Ok? ==>
      && r.value.totalUrlLength == |GenerateShareUrl(tracks, origin, pathname).value|
      && r.value.encodedLength == |EncodeQueue(tracks).value|
      && (r.value.isWithinLimit <==> r.value.totalUrlLength < UrlLengthLimit)
      && r.value.trackCount == |tracks|
  {
    match EncodeQueue(tracks)
    case Err(e) => Err(e)
    case Ok(encoded) =>
      var url := BaseUrl(origin, pathname) + "#" + ShareMarker + encoded;
      Ok(UrlStats(|encoded|, |url|, |url| < UrlLengthLimit, |tracks|))
  }

  /** An encoded queue holds no `share?q=`, so the marker is found only where the
      link puts it. */
  lemma MarkerNotInEncoding(encoded: string)
    requires forall i :: 0 <= i < |encoded| ==> Base64.IsUrlSafeChar(encoded[i])
    ensures !Strings.Contains(encoded, ShareMarker)
  {
    forall i | 0 <= i < |encoded| ensures encoded[i] != '?' {
      assert Base64.IsUrlSafeChar(encoded[i]);
    }
    NoQuestionMarkNoMarker(encoded);
  }

  lemma {:induction false} NoQuestionMarkNoMarker(s: string)
    requires '?' !in s
    ensures !Strings.Contains(s, ShareMarker)
    decreases |s|
  {
    if |s| >= |ShareMarker| {
      assert s[..|ShareMarker|][5] == s[5] != '?';
    }
    if |s| > 0 {
      NoQuestionMarkNoMarker(s[1..]);
    }
  }

  /** In a share fragment the marker starts right after the `#`. */
  lemma MarkerAfterHash(encoded: string)
    ensures Strings.IndexOf("#" + ShareMarker + encoded, ShareMarker) == Some(1)
  {
    var h := "#" + ShareMarker + encoded;
    assert h[..|ShareMarker|][0] == '#';
    assert h[1..] == ShareMarker + encoded;
    assert h[1..][..|ShareMarker|] == ShareMarker;
    assert Strings.IndexOf(h[1..], ShareMarker) == Some(0);
  }

  /** The fragment of a share link carries the encoded queue right after the marker. */
  lemma SecondPieceOfShareFragment(encoded: string)
    requires forall i :: 0 <= i < |encoded| ==> Base64.IsUrlSafeChar(encoded[i])
    ensures Strings.Contains("#" + ShareMarker + encoded, ShareMarker)
    ensures Strings.SecondPiece("#" + ShareMarker + encoded, ShareMarker) == encoded
  {
    var h := "#" + ShareMarker + encoded;
    MarkerAfterHash(encoded);
    assert h[1 + |ShareMarker|..] == encoded;
    MarkerNotInEncoding(encoded);
  }

  /** A share fragment parses to whatever its payload decodes to. */
  lemma ParseShareFragment(encoded: string)
    requires forall i :: 0 <= i < |encoded| ==> Base64.IsUrlSafeChar(encoded[i])
    requires DecodeQueue(encoded).Ok?
    ensures ParseShareUrl(Some("#" + ShareMarker + encoded)) == Some(DecodeQueue(encoded).value)
  {
    SecondPieceOfShareFragment(encoded);
  }

  /** A link built by `generateShareUrl` parses back to the shared URIs, as long
      as the page's own address holds no `#`. */
  lemma ParseGeneratedShareUrl(tracks: seq<TrackRef>, origin: string, pathname: string)
    requires '#' !in BaseUrl(origin, pathname)
    requires forall i :: 0 <= i < |tracks| ==>
      TrackKey(tracks[i]).Some? && Shareable(ExtractTrackId(TrackKey(tracks[i]).value))
    ensures GenerateShareUrl(tracks, origin, pathname).Ok?
    ensures ParseShareUrl(Some(Fragment(GenerateShareUrl(tracks, origin, pathname).value)))
      == Some(seq(|tracks|, i requires 0 <= i < |tracks| => SharedUri(tracks[i])))
  {
    DecodeEncodeQueue(tracks);
    GeneratedFragment(tracks, origin, pathname);
    ParseShareFragment(EncodeQueue(tracks).value);
  }

  /** The hash of a generated link is `#share?q=` and the encoded queue. */
  lemma GeneratedFragment(tracks: seq<TrackRef>, origin: string, pathname: string)
    requires '#' !in BaseUrl(origin, pathname)
    requires EncodeQueue(tracks).Ok?
    ensures GenerateShareUrl(tracks, origin, pathname).Ok?
    ensures Fragment(GenerateShareUrl(tracks, origin, pathname).value) == "#" + ShareMarker + EncodeQueue(tracks).value
  {
    var base := BaseUrl(origin, pathname);
    var hash := "#" + ShareMarker + EncodeQueue(tracks).value;
    ConcatRegroup(base, "#", ShareMarker, EncodeQueue(tracks).value);
    FragmentAfter(base, hash);
  }

  /** Concatenation regrouped, kept apart so the string constants stay folded. */
  lemma ConcatRegroup(a: string, b: string, c: string, d: string)
    ensures a + b + c + d == a + (b + c + d)
  {
  }

  lemma {:induction false} FragmentAfter(prefix: string, hash: string)
    requires '#' !in prefix && |hash| > 0 && hash[0] == '#'
    ensures Fragment(prefix + hash) == hash
    decreases |prefix|
  {
    if prefix == [] {
      assert prefix + hash == hash;
    } else {
      assert (prefix + hash)[1..] == prefix[1..] + hash;
      FragmentAfter(prefix[1..], hash);
    }
  }

  /** An empty payload decodes to an empty queue. */
  lemma DecodeEmpty()
    ensures DecodeQueue("") == Ok([])
  {
    assert Base64.RestoreStandard("") == "";
    assert Base64.RemoveWhitespace("") == "";
    assert Base64.Atob("") == Some("");
    assert Strings.Split("", ',') == [""];
    assert NonEmpty([""]) == [];
    assert |DecodeQueue("").value| == 0;
  }

  /** An empty payload: `parseShareUrl` yields an empty list, `getQueueFromUrl` `null`. */
  /** The page reads a generated link of a non-empty queue back as the shared
      URIs, in order, as long as the page's own address holds no `#`. */
  lemma ReadGeneratedShareUrl(tracks: seq<TrackRef>, origin: string, pathname: string)
    requires '#' !in BaseUrl(origin, pathname)
    requires |tracks| > 0
    requires forall i :: 0 <= i < |tracks| ==>
      TrackKey(tracks[i]).Some? && Shareable(ExtractTrackId(TrackKey(tracks[i]).value))
    ensures GenerateShareUrl(tracks, origin, pathname).Ok?
    ensures GetQueueFromUrl(Fragment(GenerateShareUrl(tracks, origin, pathname).value))
      == Ok(Some(seq(|tracks|, i requires 0 <= i < |tracks| => SharedUri(tracks[i]))))
  {
    DecodeEncodeQueue(tracks);
    var encoded := EncodeQueue(tracks).value;
    // An empty payload would decode to no track at all.
    DecodeEmpty();
    assert encoded != "";
    GeneratedFragment(tracks, origin, pathname);
    SecondPieceOfShareFragment(encoded);
  }

  lemma EmptyPayload()
    ensures ParseShareUrl(Some("#" + ShareMarker)) == Some([])
    ensures GetQueueFromUrl("#" + ShareMarker) == Ok(None)
  {
    DecodeEmpty();
    assert "#" + ShareMarker + "" == "#" + ShareMarker;
    ParseShareFragment("");
    SecondPieceOfShareFragment("");
  }
}
