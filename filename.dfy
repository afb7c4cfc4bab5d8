// `generate_website_filename`: the short lower-case name of a task's website
// used for the auto-generated results file, and the part of `urlparse` it
// relies on.
module WebsiteFilename {

  import opened Text
  import opened Wrappers

  /** The fields of a parsed URL that the filename uses. */
  datatype UrlParts = UrlParts(scheme: string, netloc: string, path: string)

  predicate IsAsciiLetter(c: char) {
    'a' <= c <= 'z' || 'A' <= c <= 'Z'
  }

  /** The characters a URL scheme may contain. */
  predicate IsSchemeChar(c: char) {
    IsAsciiLetter(c) || IsDigit(c) || c == '+' || c == '-' || c == '.'
  }

  /**
   * Whether `url` starts with a scheme: there is a `:`, and the text before
   * the first one is a scheme.
   */
  predicate HasScheme(url: string) {
    |BeforeFirst(url, ':')| < |url| && IsScheme(BeforeFirst(url, ':'))
  }

  /**
   * The split of what follows the scheme: `//` opens the network location,
   * which runs to the first `/`, `?` or `#`; the path runs to the first `?`
   * or `#`. A network location with an unmatched `[` or `]` raises
   * `ValueError`, which is `None` here.
   */
  function SplitAfterScheme(scheme: string, rest: string): (r: Option<UrlParts>)
    ensures r.Some? ==> r.value.scheme == scheme
    ensures r.Some? ==> forall c :: c in r.value.netloc ==> c !in {'/', '?', '#'}
    ensures r.Some? ==> '?' !in r.value.path && '#' !in r.value.path
    ensures r.None? ==> ('[' in rest) || (']' in rest)
  {
    if StartsWith(rest, "//") then
      var netloc := PrefixUntil(rest[2..], {'/', '?', '#'});
      if ('[' in netloc) != (']' in netloc) then
        assert forall c :: c in netloc ==> c in rest by {
          forall c | c in netloc ensures c in rest {
            var k :| 0 <= k < |netloc| && netloc[k] == c;
            assert rest[2..][k] == c;
            assert rest[2 + k] == c;
          }
        }
        None
      else Some(UrlParts(scheme, netloc, PrefixUntil(rest[2 + |netloc|..], {'?', '#'})))
    else
      Some(UrlParts(scheme, "", PrefixUntil(rest, {'?', '#'})))
  }

  /**
   * Python's `urlsplit` (3.9 and later), reduced to what the filename needs:
   * the lower-cased scheme when there is one, then the split of the rest.
   */
  function UrlSplit(url: string): (r: Option<UrlParts>)
    ensures r.Some? ==> forall c :: c in r.value.netloc ==> c !in {'/', '?', '#'}
    ensures r.Some? ==> '?' !in r.value.path && '#' !in r.value.path
    ensures r.None? ==> ('[' in url) || (']' in url)
  {
    if HasScheme(url) then
      var scheme := BeforeFirst(url, ':');
      var colon := |scheme|;
      var rest := url[colon + 1..];
      assert forall c :: c in rest ==> c in url by {
        forall c | c in rest ensures c in url {
          var k :| 0 <= k < |rest| && rest[k] == c;
          assert url[colon + 1 + k] == c;
        }
      }
      SplitAfterScheme(Lower(scheme), rest)
    else
      SplitAfterScheme("", url)
  }

  /** Drops one leading `www.`. */
  function StripWww(domain: string): string {
    if StartsWith(domain, "www.") then domain[4..] else domain
  }

  /**
   * The name taken from a domain: the lower-cased text of the domain, less a
   * leading `www.`, up to its first dot.
   */
  function DomainName(domain: string): (r: string)
    ensures '.' !in r && IsLower(r)
    ensures |r| <= |StripWww(domain)|
    ensures r == Lower(StripWww(domain)[..|r|])
    ensures |r| < |StripWww(domain)| ==> StripWww(domain)[|r|] == '.'
  {
    var name := BeforeFirst(StripWww(domain), '.');
    LowerIsLower(name);
    Lower(name)
  }

  /** The website with every `https://`, `http://` and `www.` removed, in that order. */
  function CleanWebsite(website: string): string {
    RemoveAll(RemoveAll(RemoveAll(website, "https://"), "http://"), "www.")
  }

  /**
   * The `except` branch: the cleaned website up to its first dot, then up to
   * its first slash, lower-cased. So the name is the lower-cased text of the
   * cleaned website up to its first `.` or `/`.
   */
  function FallbackName(website: string): (r: string)
    ensures '.' !in r && '/' !in r && IsLower(r)
    ensures |r| <= |CleanWebsite(website)|
    ensures r == Lower(CleanWebsite(website)[..|r|])
    ensures |r| < |CleanWebsite(website)| ==> CleanWebsite(website)[|r|] in {'.', '/'}
  {
    var clean := CleanWebsite(website);
    var upToDot := BeforeFirst(clean, '.');
    var name := BeforeFirst(upToDot, '/');
    assert clean[..|name|] == name by {
      assert clean[..|upToDot|][..|name|] == clean[..|name|];
    }
    assert '.' !in name by {
      forall k | 0 <= k < |name|
        ensures name[k] != '.'
      {
        assert name[k] == upToDot[k];
      }
    }
    assert |name| < |clean| ==> clean[|name|] in {'.', '/'} by {
      if |name| < |upToDot| {
        assert clean[|name|] == upToDot[|name|];
      }
    }
    LowerIsLower(name);
    Lower(name)
  }

  /**
   * The name of a non-empty website: that of the parsed URL's network
   * location, or of its path when there is none, falling back to
   * `FallbackName` when parsing fails.
   */
  function ParsedName(website: string): (r: string)
    ensures '.' !in r && IsLower(r)
  {
    match UrlSplit(website)
    case Some(parts) => DomainName(if parts.netloc != "" then parts.netloc else parts.path)
    case None => FallbackName(website)
  }

  /**
   * `generate_website_filename`: "unknown" for an empty website, otherwise
   * its parsed name, which is lower-case and has no dot, so in particular a
   * leading `www.` never survives into it.
   */
  function GenerateWebsiteFilename(website: string): (r: string)
    ensures website == "" ==> r == "unknown"
    ensures website != "" ==> '.' !in r && IsLower(r) && !StartsWith(r, "www.")
  {
    if website == "" then "unknown"
    else
      var r := ParsedName(website);
      MissingCharNotPrefix(r, "www.", 3);
      r
  }

  /** A URL scheme: a letter, then letters, digits, `+`, `-` or `.`. */
  predicate IsScheme(scheme: string) {
    |scheme| > 0 && IsAsciiLetter(scheme[0]) && forall k :: 0 <= k < |scheme| ==> IsSchemeChar(scheme[k])
  }

  /** A host (with an optional port) that ends at the next `/`, `?` or `#` and holds no bracket. */
  predicate IsHost(host: string) {
    host != "" && forall c :: c in host ==> c !in {'/', '?', '#', '[', ']'}
  }

  /** The first `:` of `scheme://...` ends the scheme. */
  lemma SchemeFound(scheme: string, after: string)
    requires IsScheme(scheme)
    ensures UrlSplit(scheme + "://" + after) == SplitAfterScheme(Lower(scheme), "//" + after)
  {
    var url := scheme + "://" + after;
    SchemeEndsAtColon(scheme, after);
    assert url[|scheme| + 1..] == "//" + after;
  }

  lemma SchemeEndsAtColon(scheme: string, after: string)
    requires IsScheme(scheme)
    ensures BeforeFirst(scheme + "://" + after, ':') == scheme
  {
    var url := scheme + "://" + after;
    assert url[..|scheme|] == scheme && url[|scheme|] == ':';
    assert forall c :: c in scheme ==> c != ':';
    PrefixUntilIs(url, {':'}, scheme);
  }

  /** After the scheme, `//host/...` gives the host as network location and the rest as path. */
  lemma SplitHost(scheme: string, host: string, tail: string)
    requires IsHost(host)
    requires tail == [] || tail[0] == '/'
    ensures SplitAfterScheme(scheme, "//" + (host + tail)) == Some(UrlParts(scheme, host, PrefixUntil(tail, {'?', '#'})))
  {
    var rest := "//" + (host + tail);
    assert rest[..2] == "//";
    assert rest[2..] == host + tail;
    assert (host + tail)[..|host|] == host;
    PrefixUntilIs(rest[2..], {'/', '?', '#'}, host);
    assert rest[2 + |host|..] == tail;
  }

  /** `scheme://host/...` splits into the lower-cased scheme, the host as network location, and the path. */
  lemma UrlSplitWithScheme(scheme: string, host: string, tail: string)
    requires IsScheme(scheme) && IsHost(host)
    requires tail == [] || tail[0] == '/'
    ensures UrlSplit(scheme + "://" + host + tail) == Some(UrlParts(Lower(scheme), host, PrefixUntil(tail, {'?', '#'})))
  {
    assert scheme + "://" + host + tail == scheme + "://" + (host + tail);
    SchemeFound(scheme, host + tail);
    SplitHost(Lower(scheme), host, tail);
  }

  /** With a scheme, the name is taken from the host. */
  lemma WebsiteFilenameWithScheme(scheme: string, host: string, tail: string)
    requires IsScheme(scheme) && IsHost(host)
    requires tail == [] || tail[0] == '/'
    ensures GenerateWebsiteFilename(scheme + "://" + host + tail) == DomainName(host)
  {
    UrlSplitWithScheme(scheme, host, tail);
  }

  /**
   * Without a `:` (so without a scheme) and without a leading `//`, the
   * whole website is a path, and the name is taken from it up to any `?` or
   * `#`.
   */
  lemma WebsiteFilenameWithoutScheme(website: string)
    requires website != "" && ':' !in website && !StartsWith(website, "//")
    ensures GenerateWebsiteFilename(website) == DomainName(PrefixUntil(website, {'?', '#'}))
  {
    assert |BeforeFirst(website, ':')| == |website|;
  }

  /** The first sample task's website is filed under `amazon`. */
  lemma AmazonWebsiteName()
    ensures GenerateWebsiteFilename("https://www.amazon.com") == "amazon"
  {
    AmazonUrlParts();
    assert "https://www.amazon.com" == "https" + "://" + "www.amazon.com" + "";
    WebsiteFilenameWithScheme("https", "www.amazon.com", "");
    AmazonDomainName();
  }

  lemma AmazonUrlParts()
    ensures IsScheme("https") && IsHost("www.amazon.com")
  {
    var host := "www.amazon.com";
    forall c | c in host ensures c !in {'/', '?', '#', '[', ']'} {
      var k :| 0 <= k < |host| && host[k] == c;
    }
  }

  lemma AmazonDomainName()
    ensures DomainName("www.amazon.com") == "amazon"
  {
    AmazonStripWww();
    PrefixUntilIs("amazon.com", {'.'}, "amazon");
    AmazonLower();
  }

  lemma AmazonStripWww()
    ensures StripWww("www.amazon.com") == "amazon.com"
  {
    assert "www.amazon.com"[..4] == "www.";
  }

  lemma AmazonLower()
    ensures Lower("amazon") == "amazon"
  {
    assert forall k :: 0 <= k < |"amazon"| ==> !IsUpperAscii("amazon"[k]);
  }

  /** The results file named after a website: `./results/mind2web_<name>_results.json`. */
  function AutoOutputFile(website: string): (path: string)
    ensures StartsWith(path, "./results/mind2web_") && EndsWith(path, "_results.json")
    ensures OccursAt(path, GenerateWebsiteFilename(website), |"./results/mind2web_"|)
    ensures |path| == |"./results/mind2web_"| + |GenerateWebsiteFilename(website)| + |"_results.json"|
  {
    var path := "./results/mind2web_" + GenerateWebsiteFilename(website) + "_results.json";
    assert OccursAt(path, GenerateWebsiteFilename(website), |"./results/mind2web_"|);
    path
  }
}
