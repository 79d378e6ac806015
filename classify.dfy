/** Source classification (downloader.py, `is_*_url` and `is_playlist`): plain
    substring tests on the network location, path and query of a URL. */
module Classify {
  import opened Text

  /** The three components of `urllib.parse.urlparse(url)` that the classifiers
      read. */
  datatype Url = Url(netloc: string, path: string, query: string)

  /** The host strings each platform is recognised by. */
  const SoundCloudHost := "soundcloud.com"
  const SpotifyHost := "spotify.com"
  const InstagramHost := "instagram.com"

  predicate IsYouTubeUrl(u: Url) {
    Contains(u.netloc, "youtube.com") || Contains(u.netloc, "youtu.be")
  }

  predicate IsSoundCloudUrl(u: Url) {
    Contains(u.netloc, SoundCloudHost)
  }

  predicate IsSpotifyUrl(u: Url) {
    Contains(u.netloc, SpotifyHost)
  }

  predicate IsInstagramUrl(u: Url) {
    Contains(u.netloc, InstagramHost)
  }

  /** Playlist detection: the host is tested first (YouTube, then SoundCloud,
      then Spotify) and decides which marker is looked for. */
  predicate IsPlaylist(u: Url)
    ensures IsYouTubeUrl(u) ==> (IsPlaylist(u) <==> Contains(u.query, "list="))
    ensures !IsYouTubeUrl(u) && IsSoundCloudUrl(u) ==>
              (IsPlaylist(u) <==> Contains(u.path, "/sets/"))
    ensures !IsYouTubeUrl(u) && !IsSoundCloudUrl(u) && IsSpotifyUrl(u) ==>
              (IsPlaylist(u) <==> Contains(u.path, "/playlist/") || Contains(u.path, "/album/"))
    ensures !IsYouTubeUrl(u) && !IsSoundCloudUrl(u) && !IsSpotifyUrl(u) ==> !IsPlaylist(u)
  {
    if IsYouTubeUrl(u) then Contains(u.query, "list=")
    else if IsSoundCloudUrl(u) then Contains(u.path, "/sets/")
    else if IsSpotifyUrl(u) then Contains(u.path, "/playlist/") || Contains(u.path, "/album/")
    else false
  }

  /** The host test is a plain substring test: any network location that has a
      host string somewhere inside it is classified, whatever surrounds it. */
  lemma {:induction false} HostAnywhere(prefix: string, host: string, suffix: string)
    ensures Contains(prefix + host + suffix, host)
  {
    var s := prefix + host + suffix;
    assert s[|prefix|..|prefix| + |host|] == host;
    assert OccursAt(s, host, |prefix|);
  }

  /** An Instagram URL (or any URL of an unknown host) is never a playlist. */
  lemma InstagramNeverPlaylist(u: Url)
    requires !IsYouTubeUrl(u) && !IsSoundCloudUrl(u) && !IsSpotifyUrl(u)
    ensures !IsPlaylist(u)
  {
  }

  /** For a YouTube host the verdict depends on the query alone, for the other
      two hosts on the path alone. */
  lemma PlaylistMarkerLocation(u: Url, v: Url)
    requires u.netloc == v.netloc
    requires IsYouTubeUrl(u) ==> u.query == v.query
    requires !IsYouTubeUrl(u) ==> u.path == v.path
    ensures IsPlaylist(u) == IsPlaylist(v)
  {
  }

  /** A YouTube watch URL carrying a `list=` parameter is a playlist, even when
      it also names a single video. */
  lemma {:induction false} YouTubeListParameter(netlocPrefix: string, path: string, before: string, after: string)
    ensures IsPlaylist(Url(netlocPrefix + "youtube.com", path, before + "list=" + after))
  {
    HostAnywhere(netlocPrefix, "youtube.com", "");
    assert netlocPrefix + "youtube.com" + "" == netlocPrefix + "youtube.com";
    HostAnywhere(before, "list=", after);
  }
}
