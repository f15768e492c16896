/** The outbound links attached to every recommended song and artist. */
module Links {
  import opened Wrappers

  const TrackBase: string := "https://open.spotify.com/track/"
  const ArtistBase: string := "https://open.spotify.com/artist/"
  const AnchorOpen: string := "<a target=\"_blank\" href="
  const SongLabel: string := "Listen on Spotify"
  const ArtistLabel: string := "View on Spotify"

  function Anchor(href: string, caption: string): string
  {
    AnchorOpen + href + ">" + caption + "</a>"
  }

  /** `make_song_url_clickable`: a "Listen on Spotify" anchor whose target
      reads back as the link. */
  function MakeSongUrlClickable(link: string): (a: string)
    ensures Href(a, SongLabel) == Some(link)
  {
    HrefOfAnchor(link, SongLabel);
    Anchor(link, SongLabel)
  }

  /** `make_artist_url_clickable`: a "View on Spotify" anchor whose target
      reads back as the link. */
  function MakeArtistUrlClickable(link: string): (a: string)
    ensures Href(a, ArtistLabel) == Some(link)
  {
    HrefOfAnchor(link, ArtistLabel);
    Anchor(link, ArtistLabel)
  }

  /** The "Listen on Spotify" cell of a song result. */
  function SongLink(id: string): string
  {
    MakeSongUrlClickable(TrackBase + id)
  }

  /** The "View on Spotify" cell of an artist result. */
  function ArtistLink(id: string): string
  {
    MakeArtistUrlClickable(ArtistBase + id)
  }

  /** Reads the target back out of an anchor with the given caption. */
  function Href(a: string, caption: string): (r: Option<string>)
    ensures r.Some? ==> a == Anchor(r.value, caption)
  {
    var tail := ">" + caption + "</a>";
    if |a| >= |AnchorOpen| + |tail| && a[..|AnchorOpen|] == AnchorOpen && a[|a| - |tail|..] == tail
    then
      var h := a[|AnchorOpen|..|a| - |tail|];
      assert a == AnchorOpen + h + tail;
      Some(h)
    else None
  }

  /** Reads the id back out of a URL with the given base. */
  function IdOf(url: string, base: string): (r: Option<string>)
    ensures r.Some? ==> url == base + r.value
  {
    if |url| >= |base| && url[..|base|] == base then
      assert url == base + url[|base|..];
      Some(url[|base|..])
    else None
  }

  lemma HrefOfAnchor(href: string, caption: string)
    ensures Href(Anchor(href, caption), caption) == Some(href)
  {
    var a := Anchor(href, caption);
    var tail := ">" + caption + "</a>";
    assert a == AnchorOpen + href + tail;
    assert a[..|AnchorOpen|] == AnchorOpen;
    assert a[|a| - |tail|..] == tail;
    assert a[|AnchorOpen|..|a| - |tail|] == href;
  }

  lemma IdOfUrl(id: string, base: string)
    ensures IdOf(base + id, base) == Some(id)
  {
    var url := base + id;
    assert url[..|base|] == base;
    assert url[|base|..] == id;
  }

  /** A song's link is a track URL wrapped in a "Listen on Spotify" anchor,
      and the id can be read back from it. */
  lemma SongLinkRoundTrip(id: string)
    ensures Href(SongLink(id), SongLabel) == Some(TrackBase + id)
    ensures IdOf(TrackBase + id, TrackBase) == Some(id)
  {
    HrefOfAnchor(TrackBase + id, SongLabel);
    IdOfUrl(id, TrackBase);
  }

  /** An artist's link is an artist URL wrapped in a "View on Spotify"
      anchor, and the id can be read back from it. */
  lemma ArtistLinkRoundTrip(id: string)
    ensures Href(ArtistLink(id), ArtistLabel) == Some(ArtistBase + id)
    ensures IdOf(ArtistBase + id, ArtistBase) == Some(id)
  {
    HrefOfAnchor(ArtistBase + id, ArtistLabel);
    IdOfUrl(id, ArtistBase);
  }

  /** Distinct ids give distinct links. */
  lemma SongLinkInjective(a: string, b: string)
    requires SongLink(a) == SongLink(b)
    ensures a == b
  {
    SongLinkRoundTrip(a);
    SongLinkRoundTrip(b);
  }

  lemma ArtistLinkInjective(a: string, b: string)
    requires ArtistLink(a) == ArtistLink(b)
    ensures a == b
  {
    ArtistLinkRoundTrip(a);
    ArtistLinkRoundTrip(b);
  }
}
