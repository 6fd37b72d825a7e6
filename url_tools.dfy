/**
 * The URL helpers of `src/lib/urlTools.ts`: a loose "looks like a URL" test,
 * scheme completion, and the lower-cased host name. The `URL` constructor is
 * a given function that yields the host name or fails.
 */
module UrlTools {
  import opened Common
  import opened JsText

  /** `[a-z0-9-]` under the `i` flag. */
  predicate LabelChar(c: char) {
    'a' <= LowerChar(c) <= 'z' || '0' <= c <= '9' || c == '-'
  }

  /** `[a-z]` under the `i` flag. */
  predicate Letter(c: char) {
    'a' <= LowerChar(c) <= 'z'
  }

  /** `t` is matched by `([a-z0-9-]+\.)+`: labels, each followed by one dot. */
  predicate DottedLabels(t: string) {
    |t| >= 2 && t[0] != '.' && t[|t| - 1] == '.' &&
    (forall i :: 0 <= i < |t| ==> LabelChar(t[i]) || t[i] == '.') &&
    (forall i :: 0 <= i < |t| - 1 ==> !(t[i] == '.' && t[i + 1] == '.'))
  }

  /** `s[..k]` is matched by the optional `(https?:\/\/)?` group, ignoring case. */
  predicate SchemeLength(s: string, k: int) {
    k == 0 ||
    (k == 7 && |s| >= 7 && ToLower(s[..7]) == "http://") ||
    (k == 8 && |s| >= 8 && ToLower(s[..8]) == "https://")
  }

  /**
   * `/^(https?:\/\/)?([a-z0-9-]+\.)+[a-z]{2,}(\S*)$/i.test(s)`. Extra letters
   * of the top-level label are also `\S`, so two letters are enough.
   */
  predicate MatchesUrlPattern(s: string) {
    exists k: int, m: int | 0 <= k <= m <= |s| - 2 ::
      SchemeLength(s, k) && DottedLabels(s[k..m]) && Letter(s[m]) && Letter(s[m + 1]) && NoSpace(s[m + 2..])
  }

  /** `isLikelyUrl(input)` */
  predicate IsLikelyUrl(input: string) {
    if input == [] then false else MatchesUrlPattern(Trim(input))
  }

  /** `/^https?:\/\//i.test(s)` */
  predicate HasScheme(s: string) {
    (|s| >= 7 && ToLower(s[..7]) == "http://") || (|s| >= 8 && ToLower(s[..8]) == "https://")
  }

  /** `normalizeUrl(input)` */
  function NormalizeUrl(input: string): (r: string)
    ensures HasScheme(r) && IsTrimmed(r)
    ensures HasScheme(Trim(input)) ==> r == Trim(input)
    ensures !HasScheme(Trim(input)) ==> r == "https://" + Trim(input)
  {
    var s := Trim(input);
    if HasScheme(s) then s
    else
      HttpsPrefixed(s);
      "https://" + s
  }

  lemma HttpsPrefixed(s: string)
    requires IsTrimmed(s)
    ensures HasScheme("https://" + s) && IsTrimmed("https://" + s)
  {
    var r := "https://" + s;
    assert r[..8] == "https://";
    assert ToLower("https://") == "https://";
    assert !IsSpace(r[0]);
    if s != [] {
      assert r[|r| - 1] == s[|s| - 1];
    }
  }

  /**
   * `getDomain(u)`: `hostOf` is `new URL(...).hostname`, `None` where the
   * constructor throws.
   */
  function GetDomain(u: string, hostOf: string -> Option<string>): (r: Option<string>)
    ensures r.None? <==> hostOf(NormalizeUrl(u)).None?
    ensures r.Some? ==> HasNoUpper(r.value) && r.value == ToLower(hostOf(NormalizeUrl(u)).value)
  {
    match hostOf(NormalizeUrl(u))
    case None => None
    case Some(h) => ToLowerHasNoUpper(h); Some(ToLower(h))
  }

  // ---------------------------------------------------------------- properties

  lemma SchemesHaveNoSpace()
    ensures NoSpace("http://") && NoSpace("https://")
  {
  }

  /** The characters of a matched scheme are not whitespace. */
  lemma SchemeCharNotSpace(s: string, k: int, i: int)
    requires SchemeLength(s, k) && 0 <= i < k
    ensures !IsSpace(s[i])
  {
    SchemesHaveNoSpace();
    LowerCharSpace(s[i]);
    assert ToLower(s[..k])[i] == LowerChar(s[i]);
  }

  lemma PatternCharNotSpace(c: char)
    requires LabelChar(c) || c == '.'
    ensures !IsSpace(c)
  {
    LowerCharSpace(c);
  }

  /** The pieces of a match hold no whitespace. */
  lemma MatchPartsNoSpace(s: string, k: int, m: int)
    requires 0 <= k <= m <= |s| - 2
    requires SchemeLength(s, k) && DottedLabels(s[k..m]) && Letter(s[m]) && Letter(s[m + 1]) && NoSpace(s[m + 2..])
    ensures NoSpace(s)
  {
    forall i | 0 <= i < |s|
      ensures !IsSpace(s[i])
    {
      if i < k {
        SchemeCharNotSpace(s, k, i);
      } else if i < m {
        assert s[k..m][i - k] == s[i];
        PatternCharNotSpace(s[i]);
      } else if i < m + 2 {
        PatternCharNotSpace(s[i]);
      } else {
        assert s[m + 2..][i - m - 2] == s[i];
      }
    }
  }

  /** Whatever passes the test, trimmed, holds no whitespace at all. */
  lemma MatchHasNoSpace(s: string)
    requires MatchesUrlPattern(s)
    ensures NoSpace(s)
  {
    var k: int, m: int :| 0 <= k <= m <= |s| - 2 &&
      SchemeLength(s, k) && DottedLabels(s[k..m]) && Letter(s[m]) && Letter(s[m + 1]) && NoSpace(s[m + 2..]);
    MatchPartsNoSpace(s, k, m);
  }

  /** Empty input is never a URL, and a URL trims to text without whitespace. */
  lemma LikelyUrlShape(input: string)
    ensures input == [] ==> !IsLikelyUrl(input)
    ensures IsLikelyUrl(input) ==> NoSpace(Trim(input))
  {
    if IsLikelyUrl(input) {
      MatchHasNoSpace(Trim(input));
    }
  }

  /** Leading and trailing whitespace does not change the verdict. */
  lemma LikelyUrlIgnoresPadding(pre: string, s: string, post: string)
    requires AllSpace(pre) && AllSpace(post) && s != []
    ensures IsLikelyUrl(pre + s + post) == IsLikelyUrl(s)
  {
    TrimPadded(pre, s, post);
  }

  /**
   * A bare host, one label of `[a-z0-9-]` then a dot and a top-level label of
   * two or more letters, passes.
   */
  lemma BareHostIsUrl(host: string, tld: string)
    requires |host| >= 1 && forall i :: 0 <= i < |host| ==> LabelChar(host[i])
    requires |tld| >= 2 && forall i :: 0 <= i < |tld| ==> Letter(tld[i])
    ensures IsLikelyUrl(host + "." + tld)
  {
    var s := host + "." + tld;
    var m := |host| + 1;
    assert s[0] == host[0] && s[|s| - 1] == tld[|tld| - 1];
    PatternCharNotSpace(host[0]);
    PatternCharNotSpace(tld[|tld| - 1]);
    TrimOfTrimmed(s);
    assert s[0..m] == host + ".";
    HostThenDot(host);
    LettersNoSpace(tld[2..]);
    assert s[m..] == tld && s[m + 2..] == tld[2..];
    assert SchemeLength(s, 0) && DottedLabels(s[0..m]) && Letter(s[m]) && Letter(s[m + 1]);
  }

  lemma HostThenDot(host: string)
    requires |host| >= 1 && forall i :: 0 <= i < |host| ==> LabelChar(host[i])
    ensures DottedLabels(host + ".")
  {
    var t := host + ".";
    assert forall i :: 0 <= i < |host| ==> t[i] == host[i];
  }

  lemma LettersNoSpace(t: string)
    requires forall i :: 0 <= i < |t| ==> Letter(t[i])
    ensures NoSpace(t)
  {
    forall i | 0 <= i < |t|
      ensures !IsSpace(t[i])
    {
      PatternCharNotSpace(t[i]);
    }
  }

  /** `s[i]` is a dot followed by two letters. */
  predicate DotThenLetters(s: string, i: int) {
    0 <= i && i + 2 < |s| && s[i] == '.' && Letter(s[i + 1]) && Letter(s[i + 2])
  }

  lemma MatchHasDot(t: string) returns (i: int)
    requires MatchesUrlPattern(t)
    ensures DotThenLetters(t, i)
  {
    var k: int, m: int :| 0 <= k <= m <= |t| - 2 &&
      SchemeLength(t, k) && DottedLabels(t[k..m]) && Letter(t[m]) && Letter(t[m + 1]) && NoSpace(t[m + 2..]);
    assert t[k..m][m - k - 1] == t[m - 1];
    i := m - 1;
  }

  /**
   * Whatever passes holds a dot followed by two letters: a name without a dot,
   * such as "localhost", is refused.
   */
  lemma UrlHasDot(input: string)
    requires IsLikelyUrl(input)
    ensures exists i :: DotThenLetters(input, i)
  {
    var a, b := TrimIsSlice(input);
    var i := MatchHasDot(Trim(input));
    DotInSlice(input, a, b, i);
  }

  lemma DotInSlice(s: string, a: nat, b: nat, i: int)
    requires a <= b <= |s| && DotThenLetters(s[a..b], i)
    ensures DotThenLetters(s, a + i)
  {
    assert s[a..b][i] == s[a + i] && s[a..b][i + 1] == s[a + i + 1] && s[a..b][i + 2] == s[a + i + 2];
  }

  /** Normalising twice is normalising once. */
  lemma NormalizeIdempotent(input: string)
    ensures NormalizeUrl(NormalizeUrl(input)) == NormalizeUrl(input)
  {
    var r := NormalizeUrl(input);
    TrimOfTrimmed(r);
  }

  /** The host of a URL does not depend on normalising it first. */
  lemma DomainOfNormalized(u: string, hostOf: string -> Option<string>)
    ensures GetDomain(NormalizeUrl(u), hostOf) == GetDomain(u, hostOf)
  {
    NormalizeIdempotent(u);
  }
}
