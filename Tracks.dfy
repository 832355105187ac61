/** The Spotify Web API track object, as far as the components read it, and the
    artist line they build from it. A member the JSON may lack is an `Option`. */
module Tracks {

  import opened Common
  import Strings

  datatype Image = Image(url: Option<string>)
  datatype Album = Album(images: Option<seq<Image>>)
  datatype Artist = Artist(name: Option<string>)
  datatype Track = Track(id: Option<string>, uri: Option<string>, name: Option<string>,
                         artists: Option<seq<Artist>>, album: Option<Album>)

  /** An array element as `join` writes it: `undefined` becomes empty. */
  function JoinText(v: Option<string>): string {
    if v.Some? then v.value else ""
  }

  /** `artists.map(a => a.name).join(', ')` */
  function ArtistNames(artists: seq<Artist>): string {
    Strings.Join(seq(|artists|, i requires 0 <= i < |artists| => JoinText(artists[i].name)), ", ")
  }

  /** The artist line is empty exactly when there is no artist, or a single one
      without a name: two or more always leave a separator. */
  lemma ArtistNamesEmpty(artists: seq<Artist>)
    ensures ArtistNames(artists) == "" <==> |artists| == 0 || (|artists| == 1 && JoinText(artists[0].name) == "")
  {
    var names := seq(|artists|, i requires 0 <= i < |artists| => JoinText(artists[i].name));
    if |names| > 1 {
      assert |Strings.Join(names, ", ")| >= 2;
    }
  }
}
