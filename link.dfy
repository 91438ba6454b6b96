/** The labels of a bookmark tile: the shortened title, the host label and the
    icon source. */
module LinkLabels {

  import opened Strings
  import Favicon

  datatype ViewMode = Grid | List

  /** Titles longer than this are shortened: 7 characters in the grid, 20 in
      the list. */
  function Limit(mode: ViewMode): nat
  {
    match mode
    case Grid => 7
    case List => 20
  }

  /** The title shown: unchanged when it fits the limit, else its first
      `limit` characters followed by "...". */
  function Truncate(title: string, limit: nat): (r: string)
    ensures |title| <= limit ==> r == title
    ensures |title| > limit ==> |r| == limit + 3 && r[limit..] == "..."
    ensures var n := if |title| <= limit then |title| else limit;
      |r| <= limit + 3 && r[..n] == title[..n]
  {
    if |title| > limit then title[..limit] + "..." else title
  }

  /** The title label of a tile in the given view. */
  function TitleLabel(title: string, mode: ViewMode): (r: string)
    ensures mode == Grid && |title| <= 7 ==> r == title
    ensures mode == Grid && |title| > 7 ==> |r| == 10 && r == title[..7] + "..."
    ensures mode == List && |title| <= 20 ==> r == title
    ensures mode == List && |title| > 20 ==> |r| == 23 && r == title[..20] + "..."
  {
    Truncate(title, Limit(mode))
  }

  /** Shortening a shortened title changes nothing more. */
  lemma TruncateIdempotent(title: string, limit: nat)
    ensures Truncate(Truncate(title, limit), limit) == Truncate(title, limit)
  {
    if |title| > limit {
      var once := Truncate(title, limit);
      assert once[..limit] == title[..limit];
    }
  }

  /** The host label: the hostname with its first `www.` removed. */
  function HostLabel(hostname: string): (r: string)
    ensures !Contains(hostname, "www.") ==> r == hostname
    ensures Contains(hostname, "www.") ==> |r| == |hostname| - 4
    ensures Contains(hostname, "www.") ==>
      exists i :: OccursAt(hostname, "www.", i) && (forall j :: 0 <= j < i ==> !OccursAt(hostname, "www.", j))
                  && r == hostname[..i] + hostname[i + 4..]
  {
    ReplaceFirst(hostname, "www.", "")
  }

  /** For a hostname without `/` the tile's host label is the favicon cache
      key of that hostname. */
  lemma HostLabelIsCacheKey(hostname: string)
    requires '/' !in hostname
    ensures Favicon.CacheKey(hostname) == HostLabel(hostname)
  {
    Favicon.KeyOfSlashFreeHost(hostname);
  }

  /** The 128-pixel favicon service the tile asks with the bookmark's full url,
      unlike the 64-pixel `Favicon.FaviconService`, which takes a cache key. */
  const FallbackService := "https://www.google.com/s2/favicons?domain="
  const FallbackSize := "&sz=128"

  /** The favicon service URL used when nothing was downloaded. */
  function FallbackIcon(url: string): (r: string)
    ensures StartsWith(r, FallbackService)
    ensures |r| == |FallbackService| + |url| + |FallbackSize|
    ensures r[|FallbackService|..|FallbackService| + |url|] == url
    ensures r[|FallbackService| + |url|..] == FallbackSize
  {
    FallbackService + url + FallbackSize
  }

  /** The icon source: the downloaded data URL when there is one, otherwise the
      service URL for the bookmark's url. */
  function IconSrc(faviconUrl: string, url: string): (r: string)
    ensures faviconUrl != "" ==> r == faviconUrl
    ensures faviconUrl == "" ==> r == FallbackIcon(url)
    ensures r != ""
  {
    if faviconUrl != "" then faviconUrl else FallbackIcon(url)
  }
}
