/** The search page of `src/components/Search.jsx`: the `m:ss` duration label,
    the guard that keeps a blank query from being sent, the album year, and the
    guard on playing an artist's top tracks. Replies of the Web API are inputs. */
module Search {

  import opened Common
  import Strings
  import Decimal
  import Tracks

  // ---------------------------------------------------------------------------
  // The duration label

  const MillisPerMinute := 60000
  const MillisPerSecond := 1000

  /** The seconds field of `formatDuration`: `((ms % 60000) / 1000).toFixed(0)`.
      `toFixed(0)` picks the nearest integer and the larger on a tie; every
      `k / 1000` with a half is exact in binary, so this is integer rounding
      half up of the milliseconds left over after the whole minutes. */
  function SecondsField(ms: nat): (s: nat)
    ensures s <= 60
  {
    (ms % MillisPerMinute + 500) / MillisPerSecond
  }

  /** The seconds field is the remainder after whole minutes, rounded half up:
      it lies within half a second of that remainder. */
  lemma SecondsFieldRounds(ms: nat)
    ensures SecondsField(ms) * MillisPerSecond - 500 <= ms % MillisPerMinute < SecondsField(ms) * MillisPerSecond + 500
  {
  }

  /** `m:ss` from a minute count and a seconds count under 100. */
  function Clock(minutes: nat, seconds: nat): string {
    Decimal.NatToString(minutes) + ":" + Strings.PadStart(Decimal.NatToString(seconds), 2, '0')
  }

  /** The shape of an `m:ss` label: at least one minute digit, then `:` and two
      characters. */
  predicate ClockShaped(text: string) {
    |text| >= 4 && text[|text| - 3] == ':'
  }

  /** Under 100 seconds the label ends in `:` and two characters. */
  lemma ClockShape(minutes: nat, seconds: nat)
    requires seconds < 100
    ensures ClockShaped(Clock(minutes, seconds))
  {
    var m := Decimal.NatToString(minutes);
    var sec := Strings.PadStart(Decimal.NatToString(seconds), 2, '0');
    SmallNumberDigits(seconds);
    assert |sec| == 2;
    var text := m + ":" + sec;
    assert |text| == |m| + 3;
    assert text[|m|] == ':';
  }

  /** `formatDuration(ms)`, as written: whole minutes, then the rounded seconds
      of the remainder padded to two digits. The rounding is never carried into
      the minutes. */
  function FormatDuration(ms: nat): (text: string)
    ensures ClockShaped(text)
  {
    var minutes: nat, seconds: nat := ms / MillisPerMinute, SecondsField(ms);
    ClockShape(minutes, seconds);
    Clock(minutes, seconds)
  }

  /** A number under 100 has at most two digits. */
  lemma SmallNumberDigits(n: nat)
    requires n < 100
    ensures |Decimal.NatToString(n)| <= 2
  {
    if n >= 10 {
      assert Decimal.NatToString(n) == Decimal.NatToString(n / 10) + [Decimal.DigitChar(n % 10)];
    }
  }

  /** A clock label splits at its one ':' into the minutes and a two-digit
      seconds field, which read back as the numbers it was built from. */
  lemma {:induction false} ClockReadBack(minutes: nat, seconds: nat)
    requires seconds < 100
    ensures var parts := Strings.Split(Clock(minutes, seconds), ':');
      && |parts| == 2
      && parts[0] == Decimal.NatToString(minutes)
      && Decimal.AllDigits(parts[0]) && Decimal.DigitsValue(parts[0]) == minutes
      && |parts[1]| == 2
      && Decimal.AllDigits(parts[1]) && Decimal.DigitsValue(parts[1]) == seconds
  {
    var m := Decimal.NatToString(minutes);
    var d := Decimal.NatToString(seconds);
    var sec := Strings.PadStart(d, 2, '0');
    SmallNumberDigits(seconds);
    assert Decimal.AllDigits(sec);
    assert ':' !in m;
    assert ':' !in sec;
    assert Clock(minutes, seconds) == m + [':'] + sec;
    Strings.SplitAfter(m, ':', sec);
    Strings.SplitNone(sec, ':');
    Decimal.NatToStringValue(minutes);
    Decimal.NatToStringValue(seconds);
    if |d| == 1 {
      assert sec == ['0'] + d;
      Decimal.LeadingZeroValue(d);
    } else {
      assert sec == d;
    }
  }

  /** The label names the whole minutes and the rounded seconds of the rest, the
      seconds always as two digits. */
  lemma FormatDurationReadBack(ms: nat)
    ensures var parts := Strings.Split(FormatDuration(ms), ':');
      && |parts| == 2
      && Decimal.AllDigits(parts[0]) && Decimal.DigitsValue(parts[0]) == ms / MillisPerMinute
      && |parts[1]| == 2
      && Decimal.AllDigits(parts[1]) && Decimal.DigitsValue(parts[1]) == SecondsField(ms)
  {
    ClockReadBack(ms / MillisPerMinute, SecondsField(ms));
  }

  /** The seconds field reads "60" exactly when the remainder is at least
      59.5 seconds: the minute is then shown as `m:60`, not carried. */
  lemma SixtySecondsShown(ms: nat)
    ensures |Strings.Split(FormatDuration(ms), ':')| == 2
    ensures Strings.Split(FormatDuration(ms), ':')[1] == "60" <==> ms % MillisPerMinute >= 59500
  {
    FormatDurationReadBack(ms);
    var seconds := Strings.Split(FormatDuration(ms), ':')[1];
    SixtyText();
    if ms % MillisPerMinute >= 59500 {
      TwoDigitSixty(seconds);
    }
  }

  /** The only two-digit string that reads as 60 is "60". */
  lemma TwoDigitSixty(s: string)
    requires |s| == 2 && Decimal.AllDigits(s) && Decimal.DigitsValue(s) == 60
    ensures s == "60"
  {
    assert s[..1][..0] == [];
    assert Decimal.DigitsValue(s) == Decimal.DigitValue(s[0]) * 10 + Decimal.DigitValue(s[1]);
  }

  /** "60" is how 60 is written, and how it reads back. */
  lemma SixtyText()
    ensures Decimal.NatToString(60) == "60"
    ensures Strings.PadStart("60", 2, '0') == "60"
    ensures Decimal.AllDigits("60") && Decimal.DigitsValue("60") == 60
  {
    assert Decimal.NatToString(60) == Decimal.NatToString(6) + [Decimal.DigitChar(0)];
    assert "60"[..1] == "6";
    assert Decimal.DigitsValue("6") == 6 by {
      assert "6"[..0] == "";
    }
  }

  /** The smallest input that shows the uncarried minute. */
  lemma UncarriedMinute()
    ensures FormatDuration(59500) == "0:60"
    ensures FormatDuration(119999) == "1:60"
  {
    assert Decimal.NatToString(60) == Decimal.NatToString(6) + [Decimal.DigitChar(0)];
  }

  /** The label the rounding evidently means: the duration rounded half up to
      whole seconds, then split into minutes and seconds. */
  function FormatDurationCarried(ms: nat): (text: string)
    ensures ClockShaped(text)
  {
    var total: nat := (ms + 500) / MillisPerSecond;
    var minutes: nat, seconds: nat := total / 60, total % 60;
    ClockShape(minutes, seconds);
    Clock(minutes, seconds)
  }

  /** The carried label never shows 60 seconds, and its minutes and seconds
      make up the duration rounded half up to the second. */
  lemma CarriedReadBack(ms: nat)
    ensures var parts := Strings.Split(FormatDurationCarried(ms), ':');
      && |parts| == 2 && |parts[1]| == 2
      && Decimal.AllDigits(parts[0]) && Decimal.AllDigits(parts[1])
      && Decimal.DigitsValue(parts[1]) < 60
      && var total := Decimal.DigitsValue(parts[0]) * 60 + Decimal.DigitsValue(parts[1]);
         total * MillisPerSecond - 500 <= ms < total * MillisPerSecond + 500
  {
    var total := (ms + 500) / MillisPerSecond;
    ClockReadBack(total / 60, total % 60);
  }

  /** The two labels agree whenever the rounding does not reach a full minute. */
  lemma CarriedAgreesBelowHalf(ms: nat)
    requires ms % MillisPerMinute < 59500
    ensures FormatDurationCarried(ms) == FormatDuration(ms)
  {
    var total := (ms + 500) / MillisPerSecond;
    assert total / 60 == ms / MillisPerMinute && total % 60 == SecondsField(ms) by {
      var q, r := ms / MillisPerMinute, ms % MillisPerMinute;
      assert ms == q * MillisPerMinute + r;
      assert (r + 500) / MillisPerSecond < 60;
      assert ms + 500 == q * 60 * MillisPerSecond + (r + 500);
      assert total == q * 60 + (r + 500) / MillisPerSecond;
    }
  }

  // ---------------------------------------------------------------------------
  // The search form

  datatype ArtistHit = ArtistHit(id: Option<string>)
  datatype AlbumHit = AlbumHit(uri: Option<string>, releaseDate: string)

  /** The three lists `setResults` stores. */
  datatype SearchResults = SearchResults(tracks: seq<Tracks.Track>, artists: seq<ArtistHit>, albums: seq<AlbumHit>)

  /** The `/search` reply: its `ok` flag and the lists of its body. */
  datatype SearchReply = SearchReply(ok: bool, body: SearchResults)

  /** The page state `handleSearch` writes. */
  datatype SearchView = SearchView(results: SearchResults, loading: bool, error: Option<Failure>)

  datatype SearchOutcome = SearchOutcome(view: SearchView, requested: bool)

  const SearchFailed := "Search failed"

  /** `handleSearch` for the current `query`, the request answering `reply`.
      A blank query returns at once; otherwise the reply's lists replace the
      results, or its failure is shown and the results stay; loading ends. */
  function HandleSearch(view: SearchView, query: string, reply: Result<SearchReply>): (r: SearchOutcome)
    ensures r.requested <==> !Strings.IsBlank(query)
    ensures !r.requested ==> r.view == view
    ensures r.requested ==> !r.view.loading
    ensures r.requested && reply.Ok? && reply.value.ok ==> r.view.results == reply.value.body && r.view.error.None?
    ensures r.requested && reply.Ok? && !reply.value.ok ==>
      r.view.results == view.results && r.view.error == Some(Thrown(SearchFailed))
    ensures r.requested && reply.Err? ==> r.view.results == view.results && r.view.error == Some(reply.error)
  {
    if Strings.IsBlank(query) then SearchOutcome(view, false)
    else
      match reply
      case Err(f) => SearchOutcome(SearchView(view.results, false, Some(f)), true)
      case Ok(response) =>
        if response.ok then SearchOutcome(SearchView(response.body, false, None), true)
        else SearchOutcome(SearchView(view.results, false, Some(Thrown(SearchFailed))), true)
  }

  /** A query of spaces, tabs or line breaks alone sends nothing and changes
      nothing; any other character in it sends the request. */
  lemma WhitespaceQueryIgnored(view: SearchView, query: string, reply: Result<SearchReply>)
    ensures (forall i :: 0 <= i < |query| ==> Strings.IsJsWhitespace(query[i]))
      <==> HandleSearch(view, query, reply) == SearchOutcome(view, false)
  {
    Strings.BlankIffAllWhitespace(query);
  }

  // ---------------------------------------------------------------------------
  // The album year and the artist's top tracks

  /** `album.release_date.split('-')[0]`: the text before the first '-'. */
  function ReleaseYear(releaseDate: string): (year: string)
    ensures '-' !in year
    ensures Strings.StartsWith(releaseDate, year)
    ensures |year| == |releaseDate| || releaseDate[|year|] == '-'
  {
    Strings.SplitFirst(releaseDate, '-');
    Strings.Split(releaseDate, '-')[0]
  }

  /** The year of `year-rest` is `year`, whatever the rest holds. */
  lemma ReleaseYearOf(year: string, rest: string)
    requires '-' !in year
    ensures ReleaseYear(year + "-" + rest) == year
  {
    Strings.SplitAfter(year, '-', rest);
  }

  /** The `/artists/{id}/top-tracks` reply: its `ok` flag and `tracks`. */
  datatype TopTracksReply = TopTracksReply(ok: bool, tracks: seq<Tracks.Track>)

  /** `playArtistTopTracks`: the `uris` of the play request it sends, or `None`
      when it sends none. A failed lookup is swallowed. */
  function PlayArtistTopTracks(reply: Result<TopTracksReply>): (uris: Option<seq<Option<string>>>)
    ensures uris.Some? <==> reply.Ok? && reply.value.ok && |reply.value.tracks| > 0
    ensures uris.Some? ==>
      (|uris.value| == |reply.value.tracks|
       && forall i :: 0 <= i < |uris.value| ==> uris.value[i] == reply.value.tracks[i].uri)
  {
    match reply
    case Err(_) => None
    case Ok(response) =>
      if !response.ok || |response.tracks| == 0 then None
      else Some(seq(|response.tracks|, i requires 0 <= i < |response.tracks| => response.tracks[i].uri))
  }
}
