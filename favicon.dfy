/** Favicon lookup: the cache key derived from a bookmark's hostname, the
    favicon service URL, and the hit/miss rule over the local key-value store. */
module Favicon {

  import opened Wrappers
  import opened Strings

  // ---------------------------------------------------------------------------
  // Cache key

  /** A character of the regular-expression class `\w`. */
  predicate IsWordChar(c: char)
  {
    'a' <= c <= 'z' || 'A' <= c <= 'Z' || '0' <= c <= '9' || c == '_'
  }

  predicate AllWord(s: string)
  {
    forall i :: 0 <= i < |s| ==> IsWordChar(s[i])
  }

  /** Length of the longest run of `\w` characters at the start of `s`. */
  function WordRun(s: string): (k: nat)
    ensures k <= |s| && AllWord(s[..k])
    ensures k < |s| ==> !IsWordChar(s[k])
  {
    if s == [] || !IsWordChar(s[0]) then 0
    else
      var k := 1 + WordRun(s[1..]);
      assert s[..k] == [s[0]] + s[1..][..k - 1];
      k
  }

  /** `s` starts with one or more `\w` characters, then `://`, and `n` is the
      number of those characters. */
  predicate SchemeAt(s: string, n: int)
  {
    0 < n && n + 3 <= |s| && AllWord(s[..n]) && s[n..n + 3] == "://"
  }

  /** `s.replace(/(^\w+:|^)\/\//, '')`: a leading `word://`, or else a
      leading `//`, is removed; nothing else is. */
  function StripScheme(s: string): (r: string)
    ensures forall n :: SchemeAt(s, n) ==> r == s[n + 3..]
    ensures StartsWith(s, "//") ==> r == s[2..]
    ensures r == s || (StartsWith(s, "//") && r == s[2..])
                   || exists n :: SchemeAt(s, n) && r == s[n + 3..]
  {
    var k := WordRun(s);
    assert forall n :: SchemeAt(s, n) ==> n == k by {
      forall n | SchemeAt(s, n) ensures n == k {
        SchemeAtIsWordRun(s, n);
      }
    }
    if SchemeAt(s, k) then s[k + 3..]
    else if StartsWith(s, "//") then s[2..]
    else s
  }

  /** A scheme prefix, when there is one, has exactly the length of the
      leading word run. */
  lemma {:induction false} SchemeAtIsWordRun(s: string, n: int)
    requires SchemeAt(s, n)
    ensures n == WordRun(s)
    decreases n
  {
    assert IsWordChar(s[0]) by { assert s[..n][0] == s[0]; }
    if n == 1 {
      assert s[1..][0] == s[1] == s[1..4][0] == ':';
    } else {
      assert s[1..][..n - 1] == s[..n][1..];
      assert s[1..][n - 1..n + 2] == s[n..n + 3];
      SchemeAtIsWordRun(s[1..], n - 1);
    }
  }

  /** `s.split('/')[0]`: everything before the first `/`. */
  function BeforeSlash(s: string): (r: string)
    ensures StartsWith(s, r)
    ensures '/' !in r
    ensures r == s || (|r| < |s| && s[|r|] == '/')
  {
    match IndexOf(s, "/")
    case None =>
      assert forall i :: 0 <= i < |s| ==> s[i] != '/' by {
        forall i | 0 <= i < |s| ensures s[i] != '/' {
          assert !OccursAt(s, "/", i);
          assert s[i..i + 1] == [s[i]];
        }
      }
      s
    case Some(i) =>
      assert forall j :: 0 <= j < i ==> s[j] != '/' by {
        forall j | 0 <= j < i ensures s[j] != '/' {
          assert !OccursAt(s, "/", j);
          assert s[j..j + 1] == [s[j]];
        }
      }
      assert s[i..i + 1] == "/";
      s[..i]
  }

  /** The key `getFaviconFromCache` derives from a url's hostname: the first
      `www.` removed, then a leading scheme, then everything from the first `/`. */
  function CacheKey(hostname: string): (r: string)
    ensures '/' !in r
    ensures StartsWith(StripScheme(ReplaceFirst(hostname, "www.", "")), r)
  {
    BeforeSlash(StripScheme(ReplaceFirst(hostname, "www.", "")))
  }

  /** A string without `/` has no scheme to strip and nothing to cut. */
  lemma SlashFreeUnchanged(s: string)
    requires '/' !in s
    ensures BeforeSlash(StripScheme(s)) == s
  {
    if |s| >= 2 {
      assert s[..2][0] == s[0] && s[0] in s;
    }
    forall n ensures !SchemeAt(s, n) {
      if 0 < n && n + 3 <= |s| {
        assert s[n..n + 3][1] == s[n + 1] && s[n + 1] in s;
      }
    }
  }

  /** For a hostname without `/` (every real hostname) the key is the hostname
      with its first `www.` removed. */
  lemma KeyOfSlashFreeHost(hostname: string)
    requires '/' !in hostname
    ensures CacheKey(hostname) == ReplaceFirst(hostname, "www.", "")
  {
    var dropped := ReplaceFirst(hostname, "www.", "");
    assert '/' !in dropped by {
      if Contains(hostname, "www.") {
        var i :| OccursAt(hostname, "www.", i) && dropped == hostname[..i] + hostname[i + 4..];
        assert forall c :: c in dropped ==> c in hostname;
      }
    }
    SlashFreeUnchanged(dropped);
  }

  // ---------------------------------------------------------------------------
  // Favicon service

  const FaviconService := "https://www.google.com/s2/favicons?sz=64&domain="

  /** `getFavicon`. */
  function GetFavicon(domain: string): (r: string)
    ensures StartsWith(r, FaviconService) && r[|FaviconService|..] == domain
  {
    FaviconService + domain
  }

  /** `getFavicon2`, the builder chosen for Chinese-language browsers. */
  function GetFavicon2(domain: string): (r: string)
    ensures StartsWith(r, FaviconService) && r[|FaviconService|..] == domain
  {
    FaviconService + domain
  }

  /** The URL fetched for a domain: the builder depends on whether the browser
      language contains "zh", but both give the same URL. */
  function FaviconUrl(language: string, domain: string): (r: string)
    ensures r == FaviconService + domain
  {
    var isFromChina := Contains(Lower(language), "zh");
    if isFromChina then GetFavicon2(domain) else GetFavicon(domain)
  }

  // ---------------------------------------------------------------------------
  // Cache

  /** A stored value counts only when truthy; an empty string stands for
      every falsy stored value. */
  predicate IsHit(store: map<string, string>, key: string)
  {
    key in store && store[key] != ""
  }

  datatype Decision = Cached(value: string) | Fetch(url: string)

  /** What `getFaviconFromCache` does for a hostname: hand over the stored
      value under its key, or fetch the favicon of that key. */
  function Decide(store: map<string, string>, hostname: string, language: string): (r: Decision)
    ensures r.Cached? <==> IsHit(store, CacheKey(hostname))
    ensures r.Cached? ==> r.value == store[CacheKey(hostname)] && r.value != ""
    ensures r.Fetch? ==> r.url == FaviconService + CacheKey(hostname)
  {
    var key := CacheKey(hostname);
    if key in store && store[key] != "" then Cached(store[key]) else Fetch(FaviconUrl(language, key))
  }

  /** After a miss whose fetch produced `data`, the same hostname is a hit
      with that data, and no other key's decision changed. */
  lemma MissThenHit(store: map<string, string>, hostname: string, language: string,
                    data: string, other: string)
    requires Decide(store, hostname, language).Fetch? && data != ""
    requires CacheKey(other) != CacheKey(hostname)
    ensures Decide(store[CacheKey(hostname) := data], hostname, language) == Cached(data)
    ensures Decide(store[CacheKey(hostname) := data], other, language) == Decide(store, other, language)
  {
  }

  /** The extension's local storage as far as favicons go. */
  class FaviconCache {
    var store: map<string, string>

    constructor (initial: map<string, string>)
      ensures store == initial
    {
      store := initial;
    }

    /** `getFaviconFromCache(url, callback)` for a url with hostname
        `hostname`. `fetched` is what the download of the favicon gives, None
        when it fails. Returns what the callback receives (None: it is not
        called) and the URL fetched (None: no fetch). */
    method GetFaviconFromCache(hostname: string, language: string, fetched: Option<string>)
      returns (delivered: Option<string>, fetchedUrl: Option<string>)
      modifies this
      ensures var key := CacheKey(hostname);
        match Decide(old(store), hostname, language)
        case Cached(v) =>
          delivered == Some(v) && fetchedUrl == None && store == old(store)
        case Fetch(u) =>
          && fetchedUrl == Some(u)
          && delivered == fetched
          && store == (if fetched.Some? then old(store)[key := fetched.value] else old(store))
    {
      var urlWithoutWWW := ReplaceFirst(hostname, "www.", "");
      var urlWithoutProtocol := StripScheme(urlWithoutWWW);
      var processedUrl := BeforeSlash(urlWithoutProtocol);
      if processedUrl in store && store[processedUrl] != "" {
        delivered, fetchedUrl := Some(store[processedUrl]), None;
      } else {
        fetchedUrl := Some(FaviconUrl(language, processedUrl));
        delivered := fetched;
        if fetched.Some? {
          store := store[processedUrl := fetched.value];
        }
      }
    }
  }
}
