/**
 The video URL form (client/src/components/YouTubeInput.tsx): the URL
 validator, the submit guard, the inline validation message and the button's
 disabled rule.
 */
module YouTubeInput {
  import opened Wrappers
  import opened JsText

  predicate StartsWith(s: string, prefix: string) {
    |prefix| <= |s| && s[..|prefix|] == prefix
  }

  /*
   The validator's regular expression, read as a language one group at a
   time. It is anchored at the start only. First comes an optional scheme,
   `http://` or `https://`. Then comes an optional `www.`. Then the host,
   one of `youtube.com` and `youtu.be`. Then a slash, and one character other
   than a line terminator. Anything may follow. An optional group may be
   skipped or taken.
   */

  /** The given host, a slash, and one character other than a line terminator. */
  predicate PathAfter(s: string, host: string) {
    |s| > |host| + 1 && s[..|host| + 1] == host + "/" && !IsLineTerminator(s[|host| + 1])
  }

  predicate HostThenPath(s: string) {
    PathAfter(s, "youtube.com") || PathAfter(s, "youtu.be")
  }

  /** The optional `www.` group, skipped or taken, before a host. */
  predicate SubdomainThenHost(s: string) {
    HostThenPath(s) || (StartsWith(s, "www.") && HostThenPath(s[4..]))
  }

  /** The reference language: the optional scheme group skipped, taken as `http://`, or taken as `https://`. */
  predicate RegexAccepts(url: string) {
    || SubdomainThenHost(url)
    || (StartsWith(url, "http://") && SubdomainThenHost(url[7..]))
    || (StartsWith(url, "https://") && SubdomainThenHost(url[8..]))
  }

  /** Drops an `http://` or `https://` prefix, if any. */
  function DropScheme(url: string): string {
    if StartsWith(url, "https://") then url[8..]
    else if StartsWith(url, "http://") then url[7..]
    else url
  }

  /** Drops a `www.` prefix, if any. */
  function DropSubdomain(s: string): string {
    if StartsWith(s, "www.") then s[4..] else s
  }

  /** `isValidYouTubeUrl`: a single left-to-right pass that never backtracks. */
  function IsValidYouTubeUrl(url: string): (valid: bool)
    ensures valid <==> RegexAccepts(url)
  {
    SchemeIsForced(url);
    SubdomainIsForced(DropScheme(url));
    HostThenPath(DropSubdomain(DropScheme(url)))
  }

  /** Every host starts with `y`. */
  lemma HostStartsWithY(s: string)
    requires HostThenPath(s)
    ensures |s| > 0 && s[0] == 'y'
  {
    if PathAfter(s, "youtube.com") {
      assert s[0] == s[..12][0];
    } else {
      assert s[0] == s[..9][0];
    }
  }

  /** Skipping `www.` cannot succeed where taking it is possible. */
  lemma SubdomainIsForced(s: string)
    ensures SubdomainThenHost(s) <==> HostThenPath(DropSubdomain(s))
  {
    if StartsWith(s, "www.") && HostThenPath(s) {
      assert s[0] == s[..4][0];
      HostStartsWithY(s);
    }
  }

  /** After a scheme comes `w` (of `www.`) or `y` (of a host). */
  lemma SubdomainStartsWithWOrY(s: string)
    requires SubdomainThenHost(s)
    ensures |s| > 0 && (s[0] == 'w' || s[0] == 'y')
  {
    if HostThenPath(s) {
      HostStartsWithY(s);
    } else {
      assert s[0] == s[..4][0];
    }
  }

  /** Skipping the scheme cannot succeed where taking it is possible, and only one scheme can be taken. */
  lemma SchemeIsForced(url: string)
    ensures RegexAccepts(url) <==> SubdomainThenHost(DropScheme(url))
  {
    if StartsWith(url, "http://") || StartsWith(url, "https://") {
      assert url[0] == url[..7][0];
      if SubdomainThenHost(url) {
        SubdomainStartsWithWOrY(url);
      }
      if StartsWith(url, "http://") && |url| >= 8 {
        assert url[..8][4] == url[..7][4];
      }
    }
  }

  /** The scan accepts when the prefix tests strip to a host path. */
  lemma ScanAccepts(url: string, rest: string)
    requires DropSubdomain(DropScheme(url)) == rest
    requires HostThenPath(rest)
    ensures IsValidYouTubeUrl(url)
  {
  }

  /** The scan rejects when the prefix tests leave something that starts with no host path. */
  lemma ScanRejects(url: string, rest: string)
    requires DropSubdomain(DropScheme(url)) == rest
    requires !HostThenPath(rest)
    ensures !IsValidYouTubeUrl(url)
  {
  }

  /** A string that starts with neither `h` nor `w` keeps everything through both prefix tests. */
  lemma NoPrefixToDrop(url: string)
    requires |url| > 0 && url[0] != 'h' && url[0] != 'w'
    ensures DropSubdomain(DropScheme(url)) == url
  {
    assert !StartsWith(url, "https://") by { if |url| >= 8 { assert url[..8][0] == url[0]; } }
    assert !StartsWith(url, "http://") by { if |url| >= 7 { assert url[..7][0] == url[0]; } }
    assert !StartsWith(url, "www.") by { if |url| >= 4 { assert url[..4][0] == url[0]; } }
  }

  /** A string that does not start with `y` has no host path. */
  lemma NoHostPath(s: string)
    requires |s| > 0 && s[0] != 'y'
    ensures !HostThenPath(s)
  {
    if |s| > 12 { assert s[..12][0] == s[0]; }
    if |s| > 9 { assert s[..9][0] == s[0]; }
  }

  /** `prefix + rest` starts with `prefix`, and dropping it leaves `rest`. */
  lemma DropPrefix(prefix: string, rest: string)
    ensures StartsWith(prefix + rest, prefix)
    ensures (prefix + rest)[|prefix|..] == rest
  {
    assert (prefix + rest)[..|prefix|] == prefix;
  }

  /** Every full watch URL with scheme and `www.` is accepted, whatever path follows the slash. */
  lemma AcceptsWatchUrl(path: string)
    requires path != [] && !IsLineTerminator(path[0])
    ensures IsValidYouTubeUrl("https://" + ("www." + ("youtube.com/" + path)))
  {
    var hostPath := "youtube.com/" + path;
    var w := "www." + hostPath;
    var u := "https://" + w;
    DropPrefix("https://", w);
    DropPrefix("www.", hostPath);
    DropPrefix("youtube.com/", path);
    assert "youtube.com" + "/" == "youtube.com/";
    ScanAccepts(u, hostPath);
  }

  /** A short link with neither scheme nor `www.` is accepted, whatever path follows the slash. */
  lemma AcceptsShortLink(path: string)
    requires path != [] && !IsLineTerminator(path[0])
    ensures IsValidYouTubeUrl("youtu.be/" + path)
  {
    var u := "youtu.be/" + path;
    NoPrefixToDrop(u);
    DropPrefix("youtu.be/", path);
    assert "youtu.be" + "/" == "youtu.be/";
    ScanAccepts(u, u);
  }

  /**
   A URL that starts with none of `h` (a scheme), `w` (the subdomain) or `y`
   (a host) is refused: other schemes and other subdomains, for instance.
   */
  lemma RejectsOtherStart(url: string)
    requires |url| > 0 && url[0] != 'h' && url[0] != 'w' && url[0] != 'y'
    ensures !IsValidYouTubeUrl(url)
  {
    NoPrefixToDrop(url);
    NoHostPath(url);
    ScanRejects(url, url);
  }

  /** Whatever scheme and subdomain were taken, a host must follow: anything not starting with `y` is refused. */
  lemma RejectsWithoutHost(url: string)
    requires var rest := DropSubdomain(DropScheme(url)); rest == [] || rest[0] != 'y'
    ensures !IsValidYouTubeUrl(url)
  {
    var rest := DropSubdomain(DropScheme(url));
    if rest != [] {
      NoHostPath(rest);
    }
    ScanRejects(url, rest);
  }

  /**
   A host and its slash must be followed by one character other than a line
   terminator: a bare host with its slash, or one followed by a line break, is
   refused.
   */
  lemma RejectsWithoutPathCharacter(url: string, host: string)
    requires host == "youtube.com" || host == "youtu.be"
    requires var rest := DropSubdomain(DropScheme(url));
      StartsWith(rest, host + "/") && (|rest| == |host| + 1 || IsLineTerminator(rest[|host| + 1]))
    ensures !IsValidYouTubeUrl(url)
  {
    var rest := DropSubdomain(DropScheme(url));
    assert rest[5] == (host + "/")[5] by {
      assert rest[..|host| + 1][5] == rest[5];
    }
    if host == "youtube.com" {
      assert !PathAfter(rest, "youtu.be") by {
        if |rest| > 9 { assert rest[..9][5] == rest[5]; }
      }
    } else {
      assert !PathAfter(rest, "youtube.com") by {
        if |rest| > 12 { assert rest[..12][5] == rest[5]; }
      }
    }
    ScanRejects(url, rest);
  }

  /** `handleSubmit`: the URL handed to `onSubmit`, if any. */
  function HandleSubmit(url: string): (submitted: Option<string>)
    ensures submitted.Some? <==> Trim(url) != [] && RegexAccepts(Trim(url))
    ensures submitted.Some? ==> submitted.value == Trim(url)
  {
    var t := Trim(url);
    if t != [] && IsValidYouTubeUrl(t) then Some(t) else None
  }

  /** `isValid`: blank input counts as valid, so it never shows the error line. */
  function IsValid(url: string): (valid: bool)
    ensures Trim(url) == [] ==> valid
    ensures Trim(url) != [] ==> (valid <==> RegexAccepts(Trim(url)))
  {
    Trim(url) == [] || IsValidYouTubeUrl(Trim(url))
  }

  /** The "Please enter a valid YouTube URL" line. */
  function ShowsValidationError(url: string): (shown: bool)
    ensures shown ==> Trim(url) != [] && !RegexAccepts(Trim(url))
    ensures Trim(url) != [] && !RegexAccepts(Trim(url)) ==> shown
  {
    !IsValid(url)
  }

  /** The submit button's `disabled` flag: an enabled button always submits. */
  function ButtonDisabled(url: string, isLoading: bool): (disabled: bool)
    ensures !disabled ==> HandleSubmit(url).Some?
    ensures disabled <==> isLoading || HandleSubmit(url).None?
  {
    Trim(url) == [] || !IsValid(url) || isLoading
  }

  /** Whitespace around the URL changes neither the verdict nor what is submitted. */
  lemma PaddingIsIgnored(a: string, url: string, b: string, isLoading: bool)
    requires AllWhitespace(a) && AllWhitespace(b)
    ensures IsValid(a + url + b) == IsValid(url)
    ensures HandleSubmit(a + url + b) == HandleSubmit(url)
    ensures ButtonDisabled(a + url + b, isLoading) == ButtonDisabled(url, isLoading)
  {
    TrimIgnoresPadding(a, url, b);
  }
}
