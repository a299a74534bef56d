/** The anchored URL pattern of the request form,
      ^(https?:\/\/)([\w.-]+)([\w.,@?^=%&:;#~+\/-]*)?$
    written as character classes over ASCII, the language the pattern denotes
    (a ghost predicate over split points), and a hand-written deterministic
    matcher that is proved to accept exactly that language. */
module UrlPattern {

  /** `\w` of a JavaScript regular expression without the `u` flag:
      the ASCII letters, the ASCII digits and the underscore. */
  predicate IsWordChar(c: char) {
    ('a' <= c <= 'z') || ('A' <= c <= 'Z') || ('0' <= c <= '9') || c == '_'
  }

  /** The host class `[\w.-]`. */
  predicate IsHostChar(c: char) {
    IsWordChar(c) || c == '.' || c == '-'
  }

  /** The path class `[\w.,@?^=%&:;#~+\/-]`; `^` not in first position and
      `-` in last position are literal characters. */
  predicate IsPathChar(c: char) {
    IsWordChar(c) || c in ".,@?^=%&:;#~+/-"
  }

  predicate AllHostChars(t: string) {
    forall k :: 0 <= k < |t| ==> IsHostChar(t[k])
  }

  predicate AllPathChars(t: string) {
    forall k :: 0 <= k < |t| ==> IsPathChar(t[k])
  }

  /** The first group `(https?:\/\/)`: the scheme is lower case only. */
  predicate IsScheme(t: string) {
    t == "http://" || t == "https://"
  }

  /** `s` is the scheme `s[..i]`, then the host `s[i..j]` (one or more host
      characters), then the path `s[j..]` (zero or more path characters).
      The optional group `(...*)?` accepts the same strings as `...*`. */
  ghost predicate SplitsAt(s: string, i: nat, j: nat)
    requires i <= j <= |s|
  {
    IsScheme(s[..i]) && i < j && AllHostChars(s[i..j]) && AllPathChars(s[j..])
  }

  /** The strings the anchored pattern accepts: those with some split into
      scheme, host and path, whatever split a backtracking engine tries first. */
  ghost predicate InUrlLanguage(s: string) {
    exists i: nat, j: nat :: i <= j <= |s| && SplitsAt(s, i, j)
  }

  /** The length of the scheme that `s` starts with, or 0 when it starts with neither. */
  function SchemeLength(s: string): (n: nat)
    ensures n <= |s|
    ensures n > 0 ==> IsScheme(s[..n])
    ensures forall i :: 0 <= i <= |s| && IsScheme(s[..i]) ==> i == n
  {
    if |s| >= 8 && s[..8] == "https://" then
      SchemesDiffer(s);
      8
    else if |s| >= 7 && s[..7] == "http://" then 7
    else 0
  }

  /** A string that starts with `https://` does not start with `http://`. */
  lemma SchemesDiffer(s: string)
    requires |s| >= 8 && s[..8] == "https://"
    ensures s[..7] != "http://"
  {
    assert s[..8][4] == s[4] == s[..7][4];
  }

  /** The hand-written matcher: a scheme, then one host character, then only
      path characters. */
  predicate TestUrlPattern(s: string) {
    var n := SchemeLength(s);
    0 < n < |s| && IsHostChar(s[n]) && AllPathChars(s[n + 1..])
  }

  /** The host class is contained in the path class. */
  lemma HostCharIsPathChar(c: char)
    requires IsHostChar(c)
    ensures IsPathChar(c)
  {
  }

  /** The pattern decomposes as scheme, one host character, any number of
      path characters: backtracking across the host/path boundary never
      changes the verdict, because every host character is a path character. */
  lemma UrlPatternDecomposition(s: string)
    ensures TestUrlPattern(s) <==> InUrlLanguage(s)
  {
    var n := SchemeLength(s);
    if TestUrlPattern(s) {
      assert s[n..n + 1] == [s[n]];
      assert SplitsAt(s, n, n + 1);
    }
    if InUrlLanguage(s) {
      var i: nat, j: nat :| i <= j <= |s| && SplitsAt(s, i, j);
      assert i == n;
      assert s[i..j][0] == s[i];
      forall k | i + 1 <= k < |s|
        ensures IsPathChar(s[k])
      {
        if k < j {
          assert s[i..j][k - i] == s[k];
          HostCharIsPathChar(s[k]);
        } else {
          assert s[j..][k - j] == s[k];
        }
      }
    }
  }

  /** No empty string matches: the scheme alone is seven characters. */
  lemma EmptyNotInUrlLanguage()
    ensures !InUrlLanguage("")
  {
    UrlPatternDecomposition("");
  }

  /** The scenario URL of the form is accepted, and so is the shortest
      kind of URL: a scheme and a one-character host. */
  lemma AcceptedExamples()
    ensures InUrlLanguage("https://example.com/video1")
    ensures InUrlLanguage("http://a")
  {
    var s := "https://example.com/video1";
    assert s[..8] == "https://" && s[8..20] == "example.com/";
    assert SplitsAt(s, 8, 19);
    var t := "http://a";
    assert t[..7] == "http://";
    assert SplitsAt(t, 7, 8);
  }

  /** A non-empty string whose first character is not a lower-case `h` is
      rejected: it has no scheme. */
  lemma RejectsWithoutLowerH(s: string)
    requires |s| > 0 && s[0] != 'h'
    ensures !InUrlLanguage(s)
  {
    assert |s| >= 7 ==> s[..7][0] == s[0];
    assert |s| >= 8 ==> s[..8][0] == s[0];
    UrlPatternDecomposition(s);
  }

  /** A string without a scheme, an upper-case scheme and another scheme
      are rejected. */
  lemma RejectedExamples()
    ensures !InUrlLanguage("example.com")
    ensures !InUrlLanguage("HTTP://example.com")
    ensures !InUrlLanguage("ftp://bad")
  {
    RejectsWithoutLowerH("example.com");
    RejectsWithoutLowerH("HTTP://example.com");
    RejectsWithoutLowerH("ftp://bad");
  }

  /** A scheme needs a host after it. */
  lemma RejectsBareScheme()
    ensures !InUrlLanguage("http://")
    ensures !InUrlLanguage("https://")
  {
    UrlPatternDecomposition("http://");
    UrlPatternDecomposition("https://");
  }

  /** A string with a space anywhere in it is rejected: a space is in
      neither scheme, nor host class, nor path class. */
  lemma RejectsSpace(s: string, k: nat)
    requires k < |s| && s[k] == ' '
    ensures !InUrlLanguage(s)
  {
    UrlPatternDecomposition(s);
    var n := SchemeLength(s);
    if 0 < n < |s| {
      if k < n {
        assert s[..n][k] == ' ';
      } else if k > n {
        assert s[n + 1..][k - n - 1] == ' ';
      }
    }
  }
}
