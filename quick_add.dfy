// The "add again" button: a track URL is shortened into the button's custom
// id ("qa:" + compressed) and restored from it when the button is pressed
// (src/utils/music/quickAddButton.ts).
//
// The WHATWG URL parser is not modelled: `compressUrl` receives the parts
// the parser would have produced (hostname, pathname, search), or None when
// `new URL(url)` throws.

module QuickAdd {
  import opened Wrappers
  import opened Text

  /** What `new URL(url)` exposes to the compressor. */
  datatype UrlParts = UrlParts(hostname: string, pathname: string, search: string)

  /** The longest custom-id payload kept for an unrecognised URL ("qa:" + 94 < 100). */
  const MaxPlainLength: nat := 94

  const ButtonPrefix := "qa:"
  const YouTubeTag := "yt:"
  const SpotifyTag := "sp:"
  const SoundCloudTag := "sc:"

  /** `s.slice(1)`: everything after the first character, "" for "". */
  function DropFirst(s: string): (r: string)
    ensures |s| > 0 ==> r == s[1..]
    ensures |s| == 0 ==> r == ""
  {
    if |s| == 0 then "" else s[1..]
  }

  predicate IsYouTubeHost(host: string) {
    Contains(host, "youtube.com") || Contains(host, "youtu.be")
  }

  predicate IsSpotifyHost(host: string) {
    Contains(host, "spotify.com")
  }

  predicate IsSoundCloudHost(host: string) {
    Contains(host, "soundcloud.com")
  }

  /** A host none of the three services claims (the checks run in this order). */
  predicate IsPlainHost(host: string) {
    !IsYouTubeHost(host) && !IsSpotifyHost(host) && !IsSoundCloudHost(host)
  }

  /** The fallback for unrecognised or unparsable URLs: the first 94 characters. */
  function Shorten(url: string): (r: string)
    ensures |r| <= MaxPlainLength
    ensures StartsWith(url, r)
    ensures |url| <= MaxPlainLength <==> r == url
  {
    if |url| > MaxPlainLength then url[..MaxPlainLength] else url
  }

  /** `compressUrl`: drop the host of a known service behind a two-letter tag. */
  function Compress(url: string, parsed: Option<UrlParts>): string {
    match parsed
    case None => Shorten(url)
    case Some(p) =>
      if IsYouTubeHost(p.hostname) then
        if p.hostname == "youtu.be" then YouTubeTag + ("/watch?v=" + DropFirst(p.pathname) + p.search)
        else YouTubeTag + (p.pathname + p.search)
      else if IsSpotifyHost(p.hostname) then SpotifyTag + (DropFirst(p.pathname) + p.search)
      else if IsSoundCloudHost(p.hostname) then SoundCloudTag + (p.pathname + p.search)
      else Shorten(url)
  }

  /** The string begins with one of the service tags `decompressUrl` recognises. */
  predicate HasServiceTag(s: string) {
    StartsWith(s, YouTubeTag) || StartsWith(s, SpotifyTag) || StartsWith(s, SoundCloudTag)
  }

  /** `decompressUrl`: put the host back in front of a tagged string; anything else is kept. */
  function Decompress(compressed: string): (r: string)
    ensures !HasServiceTag(compressed) <==> r == compressed
    ensures HasServiceTag(compressed) ==> StartsWith(r, "https://")
  {
    if StartsWith(compressed, YouTubeTag) then "https://www.youtube.com" + compressed[3..]
    else if StartsWith(compressed, SpotifyTag) then "https://open.spotify.com/" + compressed[3..]
    else if StartsWith(compressed, SoundCloudTag) then "https://soundcloud.com" + compressed[3..]
    else compressed
  }

  /** The custom id `createQuickAddButton` gives the button. */
  function ButtonId(compressed: string): (r: string)
    ensures StartsWith(r, ButtonPrefix) && r[|ButtonPrefix|..] == compressed
  {
    ButtonPrefix + compressed
  }

  /** `customId.replace('qa:', '')`: the first "qa:" anywhere in the id is removed. */
  function CompressedOf(customId: string): string {
    ReplaceFirst(customId, ButtonPrefix, "")
  }

  /** The URL the handler goes on with; None is the "URL not found" reply. */
  function HandlerUrl(customId: string): Option<string> {
    var url := Decompress(CompressedOf(customId));
    if url == "" then None else Some(url)
  }

  /** The handler reads back exactly what the button was given. */
  lemma ButtonIdRoundTrip(compressed: string)
    ensures CompressedOf(ButtonId(compressed)) == compressed
  {
    var id := ButtonId(compressed);
    assert OccursAt(id, ButtonPrefix, 0) by {
      assert id[..|ButtonPrefix|] == ButtonPrefix;
    }
    assert IndexOf(id, ButtonPrefix) == Some(0);
    assert id[|ButtonPrefix|..] == compressed;
  }

  /** A tagged string starts with its tag, and what follows the tag is the rest. */
  lemma Tagged(tag: string, rest: string)
    requires |tag| == 3
    ensures StartsWith(tag + rest, tag) && (tag + rest)[3..] == rest
  {
    assert (tag + rest)[..3] == tag;
  }

  /** Any host containing "youtube.com" comes back on www.youtube.com with path and query intact. */
  lemma YouTubeRoundTrip(url: string, p: UrlParts)
    requires Contains(p.hostname, "youtube.com") && p.hostname != "youtu.be"
    ensures Decompress(Compress(url, Some(p))) == "https://www.youtube.com" + (p.pathname + p.search)
  {
    Tagged(YouTubeTag, p.pathname + p.search);
  }

  /** A youtu.be short link comes back as the equivalent watch URL. */
  lemma ShortLinkRoundTrip(url: string, p: UrlParts)
    requires p.hostname == "youtu.be"
    ensures Decompress(Compress(url, Some(p)))
         == "https://www.youtube.com" + ("/watch?v=" + DropFirst(p.pathname) + p.search)
  {
    ContainsAt(p.hostname, "youtu.be", 0);
    Tagged(YouTubeTag, "/watch?v=" + DropFirst(p.pathname) + p.search);
  }

  /** A Spotify URL (whose path starts with '/') comes back on open.spotify.com. */
  lemma SpotifyRoundTrip(url: string, p: UrlParts)
    requires !IsYouTubeHost(p.hostname) && IsSpotifyHost(p.hostname)
    requires StartsWith(p.pathname, "/")
    ensures Decompress(Compress(url, Some(p))) == "https://open.spotify.com" + (p.pathname + p.search)
  {
    DecompressSpotify(DropFirst(p.pathname) + p.search);
    assert p.pathname == "/" + DropFirst(p.pathname) by {
      assert p.pathname[..1] == "/";
    }
    SlashMoves("https://open.spotify.com", DropFirst(p.pathname), p.search);
  }

  lemma DecompressSpotify(rest: string)
    ensures Decompress(SpotifyTag + rest) == "https://open.spotify.com/" + rest
  {
    Tagged(SpotifyTag, rest);
    assert (SpotifyTag + rest)[1] == 'p';
  }

  lemma SlashMoves(host: string, x: string, y: string)
    ensures (host + "/") + (x + y) == host + (("/" + x) + y)
  {
  }

  /** A SoundCloud URL comes back on soundcloud.com with path and query intact. */
  lemma SoundCloudRoundTrip(url: string, p: UrlParts)
    requires !IsYouTubeHost(p.hostname) && !IsSpotifyHost(p.hostname) && IsSoundCloudHost(p.hostname)
    ensures Decompress(Compress(url, Some(p))) == "https://soundcloud.com" + (p.pathname + p.search)
  {
    DecompressSoundCloud(p.pathname + p.search);
  }

  lemma DecompressSoundCloud(rest: string)
    ensures Decompress(SoundCloudTag + rest) == "https://soundcloud.com" + rest
  {
    Tagged(SoundCloudTag, rest);
    assert (SoundCloudTag + rest)[1] == 'c';
  }

  /**
   * Any other URL survives the button exactly when it fits in 94 characters
   * and does not itself begin with one of the service tags.
   */
  lemma PlainRoundTrip(url: string, parsed: Option<UrlParts>)
    requires parsed.None? || IsPlainHost(parsed.value.hostname)
    ensures Decompress(Compress(url, parsed)) == url
        <==> |url| <= MaxPlainLength && !HasServiceTag(url)
  {
    var c := Compress(url, parsed);
    assert c == Shorten(url);
    if |url| > MaxPlainLength {
      assert c == url[..MaxPlainLength];
      if HasServiceTag(c) {
        assert StartsWith(Decompress(c), "https://");
        assert url[0] == c[0];
        assert Decompress(c)[0] == 'h';
      }
    } else if HasServiceTag(url) {
      assert StartsWith(Decompress(c), "https://");
      assert Decompress(c)[0] == 'h';
    }
  }

  /**
   * The "URL not found" reply is given only for an empty URL: a parsable URL
   * is never empty, and the tagged forms always decompress to an https URL.
   */
  lemma MissingUrlOnlyWhenEmpty(url: string, parsed: Option<UrlParts>)
    requires parsed.Some? ==> url != ""
    ensures HandlerUrl(ButtonId(Compress(url, parsed))).None? <==> url == ""
  {
    var c := Compress(url, parsed);
    ButtonIdRoundTrip(c);
    if url != "" {
      if HasServiceTag(c) {
        assert StartsWith(Decompress(c), "https://");
      } else {
        assert Decompress(c) == c;
        assert c != "" by {
          if parsed.Some? && !IsPlainHost(parsed.value.hostname) {
            assert |c| >= 3;
          } else {
            assert c == Shorten(url);
            assert StartsWith(url, c);
            assert url[0] == url[0];
          }
        }
      }
    }
  }

  /** An unrecognised URL always yields a custom id within Discord's 100-character limit. */
  lemma PlainButtonIdFits(url: string, parsed: Option<UrlParts>)
    requires parsed.None? || IsPlainHost(parsed.value.hostname)
    ensures |ButtonId(Compress(url, parsed))| <= 97
  {
  }

  /** An unparsable string that happens to begin with "yt:" is turned into a YouTube URL. */
  lemma TaggedTextIsRewritten()
    ensures Decompress(Compress("yt:abc", None)) == "https://www.youtube.comabc"
  {
    assert StartsWith("yt:abc", YouTubeTag) by { assert "yt:abc"[..3] == YouTubeTag; }
    assert "yt:abc"[3..] == "abc";
  }
}
