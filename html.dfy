/**
 * `htmlToText` of `src/lib/html.ts`: a fixed chain of global regex
 * replacements, each modelled as the left-to-right scan the regex engine
 * performs (try a match at the current position; on success emit the
 * replacement and resume after the match, otherwise keep one character).
 */
module Html {
  import opened Common
  import opened JsText

  // ---------------------------------------------------------------- scanning

  /** A case-insensitive match of the lower-case literal `lit` at position `i` of `s`. */
  predicate MatchAt(s: string, i: nat, lit: string) {
    i + |lit| <= |s| && forall k :: 0 <= k < |lit| ==> LowerChar(s[i + k]) == lit[k]
  }

  /** The first position at or after `from` holding `c`. */
  function FirstChar(s: string, c: char, from: nat): (r: Option<nat>)
    ensures r.Some? ==> from <= r.value < |s| && s[r.value] == c && forall j :: from <= j < r.value ==> s[j] != c
    ensures r.None? ==> forall j :: from <= j < |s| ==> s[j] != c
    decreases |s| - from
  {
    if from >= |s| then None
    else if s[from] == c then Some(from)
    else FirstChar(s, c, from + 1)
  }

  /** The first position at or after `from` where `lit` matches, ignoring case. */
  function FirstMatch(s: string, lit: string, from: nat): (r: Option<nat>)
    ensures r.Some? ==> from <= r.value && MatchAt(s, r.value, lit) && forall j :: from <= j < r.value ==> !MatchAt(s, j, lit)
    ensures r.None? ==> forall j :: from <= j ==> !MatchAt(s, j, lit)
    decreases |s| - from
  {
    if from + |lit| > |s| then None
    else if MatchAt(s, from, lit) then Some(from)
    else FirstMatch(s, lit, from + 1)
  }

  // ---------------------------------------------------------------- hidden elements

  /**
   * Where `/<name[^>]*>[\s\S]*?<\/name>/i` matched at the start of `s` ends:
   * the opening tag runs to its first '>', the content to the first closing tag.
   */
  function ElementEnd(s: string, name: string): (r: Option<nat>)
    ensures r.Some? ==> 0 < r.value <= |s|
  {
    if !MatchAt(s, 0, "<" + name) then None
    else
      match FirstChar(s, '>', |name| + 1)
      case None => None
      case Some(g) =>
        match FirstMatch(s, "</" + name + ">", g + 1)
        case None => None
        case Some(c) => Some(c + |name| + 3)
  }

  /** `s.replace(/<name[^>]*>[\s\S]*?<\/name>/gi, " ")` */
  function RemoveElements(s: string, name: string): string
    decreases |s|
  {
    if s == [] then []
    else
      match ElementEnd(s, name)
      case Some(e) => " " + RemoveElements(s[e..], name)
      case None => [s[0]] + RemoveElements(s[1..], name)
  }

  /** The script, style and noscript passes, in that order. */
  function RemoveHidden(s: string): string {
    RemoveElements(RemoveElements(RemoveElements(s, "script"), "style"), "noscript")
  }

  // ---------------------------------------------------------------- block tags

  /** The alternatives of `(p|div|section|article|li|ul|ol|h[1-6]|br|tr|table)`. */
  const BlockNames: seq<string> :=
    ["p", "div", "section", "article", "li", "ul", "ol", "h1", "h2", "h3", "h4", "h5", "h6", "br", "tr", "table"]

  /** The length of the closing block tag at the start of `s`, trying the alternatives in order. */
  function CloseTagIn(s: string, names: seq<string>): (r: Option<nat>)
    ensures r.Some? ==> exists i :: 0 <= i < |names| && r.value == |names[i]| + 3 && MatchAt(s, 0, "</" + names[i] + ">")
    ensures r.None? ==> forall i :: 0 <= i < |names| ==> !MatchAt(s, 0, "</" + names[i] + ">")
  {
    if names == [] then None
    else if MatchAt(s, 0, "</" + names[0] + ">") then Some(|names[0]| + 3)
    else
      var r := CloseTagIn(s, names[1..]);
      assert forall i :: 1 <= i < |names| ==> names[i] == names[1..][i - 1];
      r
  }

  /** `s.replace(/<\/(p|div|...|table)>/gi, "\n")` */
  function BreakBlocks(s: string): string
    decreases |s|
  {
    if s == [] then []
    else
      match CloseTagIn(s, BlockNames)
      case Some(n) => if n <= |s| then "\n" + BreakBlocks(s[n..]) else assert false; []
      case None => [s[0]] + BreakBlocks(s[1..])
  }

  // ---------------------------------------------------------------- other tags

  /** Where `/<[^>]+>/` matched at the start of `s` ends: a '<', at least one other character, the first '>'. */
  function TagEnd(s: string): (r: Option<nat>)
    ensures r.Some? ==> 2 < r.value <= |s|
  {
    if s == [] || s[0] != '<' then None
    else
      match FirstChar(s, '>', 1)
      case Some(g) => if g >= 2 then Some(g + 1) else None
      case None => None
  }

  /** `s.replace(/<[^>]+>/g, " ")` */
  function StripTags(s: string): string
    decreases |s|
  {
    if s == [] then []
    else
      match TagEnd(s)
      case Some(e) => " " + StripTags(s[e..])
      case None => [s[0]] + StripTags(s[1..])
  }

  // ---------------------------------------------------------------- entities and whitespace

  /** The six entity replacements, in the order they are applied. */
  function DecodeEntities(s: string): string {
    var a := ReplaceAll(s, "&nbsp;", " ");
    var b := ReplaceAll(a, "&amp;", "&");
    var c := ReplaceAll(b, "&quot;", "\"");
    var d := ReplaceAll(c, "&#39;", "'");
    var e := ReplaceAll(d, "&lt;", "<");
    ReplaceAll(e, "&gt;", ">")
  }

  /** `htmlToText(html)`: the result is trimmed and its whitespace is single spaces. */
  function HtmlToText(html: string): (r: string)
    ensures IsTrimmed(r) && SpacesCollapsed(r)
  {
    var decoded := DecodeEntities(StripTags(BreakBlocks(RemoveHidden(html))));
    CollapseSpacesShape(decoded);
    SpacesCollapsedTrim(CollapseSpaces(decoded));
    Trim(CollapseSpaces(decoded))
  }

  // ---------------------------------------------------------------- helpers

  lemma FirstCharIs(s: string, c: char, from: nat, at: nat)
    requires from <= at < |s| && s[at] == c
    requires forall j :: from <= j < at ==> s[j] != c
    ensures FirstChar(s, c, from) == Some(at)
  {
  }

  lemma FirstMatchIs(s: string, lit: string, from: nat, at: nat)
    requires from <= at && MatchAt(s, at, lit)
    requires forall j :: from <= j < at ==> !MatchAt(s, j, lit)
    ensures FirstMatch(s, lit, from) == Some(at)
  {
  }

  /** Only '<' and '>' map to themselves among the characters the case mapping touches. */
  lemma LowerFixesMarks(c: char)
    ensures LowerChar(c) == '<' <==> c == '<'
    ensures LowerChar(c) == '>' <==> c == '>'
    ensures LowerChar(c) == '/' <==> c == '/'
  {
  }

  // ---------------------------------------------------------------- properties

  /** A match does not depend on what precedes it. */
  lemma MatchShift(pre: string, t: string, j: nat, lit: string)
    ensures MatchAt(pre + t, |pre| + j, lit) == MatchAt(t, j, lit)
  {
    if |pre| + j + |lit| <= |pre + t| {
      forall k | 0 <= k < |lit|
        ensures (LowerChar((pre + t)[|pre| + j + k]) == lit[k]) == (LowerChar(t[j + k]) == lit[k])
      {
        assert (pre + t)[|pre| + j + k] == t[j + k];
      }
    }
  }

  /** Nor on what follows it. */
  lemma MatchExtend(t: string, rest: string, j: nat, lit: string)
    requires j + |lit| <= |t|
    ensures MatchAt(t + rest, j, lit) == MatchAt(t, j, lit)
  {
    forall k | 0 <= k < |lit|
      ensures (LowerChar((t + rest)[j + k]) == lit[k]) == (LowerChar(t[j + k]) == lit[k])
    {
      assert (t + rest)[j + k] == t[j + k];
    }
  }

  /** A closing tag whose name matches `name` in any letter case. */
  lemma CloseTagMatches(close: string, name: string, rest: string)
    requires ToLower(close) == name
    ensures MatchAt("</" + close + ">" + rest, 0, "</" + name + ">")
  {
    var u := "</" + close + ">" + rest;
    var lit := "</" + name + ">";
    forall k | 0 <= k < |lit|
      ensures LowerChar(u[k]) == lit[k]
    {
      if 2 <= k < |name| + 2 {
        assert u[k] == close[k - 2] && lit[k] == name[k - 2];
        assert ToLower(close)[k - 2] == LowerChar(close[k - 2]);
      }
    }
  }

  /** An opening tag whose name matches `name` is recognised and runs to its '>'. */
  lemma OpenTagEnds(name: string, open: string, attrs: string, pre: string, tail: string)
    requires ToLower(open) == name && '>' !in open && '>' !in attrs
    requires pre == "<" + open + attrs + ">"
    ensures pre != [] && MatchAt(pre + tail, 0, "<" + name) && FirstChar(pre + tail, '>', |name| + 1) == Some(|pre| - 1)
  {
    var s := pre + tail;
    var g := |open| + 1 + |attrs|;
    var lit := "<" + name;
    forall k | 0 <= k < |lit|
      ensures LowerChar(s[k]) == lit[k]
    {
      if k > 0 {
        assert s[k] == open[k - 1] && lit[k] == name[k - 1];
        assert ToLower(open)[k - 1] == LowerChar(open[k - 1]);
      }
    }
    forall j | |name| + 1 <= j < g
      ensures s[j] != '>'
    {
      assert s[j] == attrs[j - |name| - 1];
    }
    FirstCharIs(s, '>', |name| + 1, g);
  }

  /** The closing tag after a body without one is the first match in the text that follows the opening tag. */
  lemma CloseTagFirst(name: string, body: string, close: string, rest: string, u: string)
    requires ToLower(close) == name
    requires forall j :: 0 <= j < |body| ==> !MatchAt(body + "</" + close + ">", j, "</" + name + ">")
    requires u == body + "</" + close + ">" + rest
    ensures MatchAt(u, |body|, "</" + name + ">") && forall j :: 0 <= j < |body| ==> !MatchAt(u, j, "</" + name + ">")
  {
    var lit := "</" + name + ">";
    var t := body + "</" + close + ">";
    assert u == body + ("</" + close + ">" + rest);
    CloseTagMatches(close, name, rest);
    MatchShift(body, "</" + close + ">" + rest, 0, lit);
    assert |t| == |body| + |lit|;
    forall j | 0 <= j < |body|
      ensures !MatchAt(u, j, lit)
    {
      MatchExtend(t, rest, j, lit);
    }
  }

  /** Where such an element starts, the match runs to the end of its closing tag. */
  lemma ElementEndIs(name: string, open: string, attrs: string, body: string, close: string, rest: string,
                     pre: string, u: string)
    requires ToLower(open) == name && ToLower(close) == name && '>' !in open && '>' !in attrs
    requires forall j :: 0 <= j < |body| ==> !MatchAt(body + "</" + close + ">", j, "</" + name + ">")
    requires pre == "<" + open + attrs + ">" && u == body + "</" + close + ">" + rest
    ensures ElementEnd(pre + u, name) == Some(|pre| + |body| + |name| + 3)
  {
    CloseTagAfter(name, body, close, rest, pre, u);
    ElementEndFrom(name, open, attrs, pre, u, |pre| + |body|);
  }

  /** Searched for from the end of the opening tag, the first closing tag is the one after the body. */
  lemma CloseTagAfter(name: string, body: string, close: string, rest: string, pre: string, u: string)
    requires ToLower(close) == name
    requires forall j :: 0 <= j < |body| ==> !MatchAt(body + "</" + close + ">", j, "</" + name + ">")
    requires u == body + "</" + close + ">" + rest
    ensures FirstMatch(pre + u, "</" + name + ">", |pre|) == Some(|pre| + |body|)
  {
    CloseTagFirst(name, body, close, rest, u);
    FirstMatchAfter(pre, u, "</" + name + ">", |body|);
  }

  /** After a recognised opening tag, the element ends with the first closing tag found. */
  lemma ElementEndFrom(name: string, open: string, attrs: string, pre: string, u: string, c: nat)
    requires ToLower(open) == name && '>' !in open && '>' !in attrs
    requires pre == "<" + open + attrs + ">"
    requires FirstMatch(pre + u, "</" + name + ">", |pre|) == Some(c)
    ensures ElementEnd(pre + u, name) == Some(c + |name| + 3)
  {
    OpenTagEnds(name, open, attrs, pre, u);
    ElementEndOf(pre, u, name, c);
  }

  lemma ElementEndOf(pre: string, u: string, name: string, c: nat)
    requires pre != []
    requires MatchAt(pre + u, 0, "<" + name) && FirstChar(pre + u, '>', |name| + 1) == Some(|pre| - 1)
    requires FirstMatch(pre + u, "</" + name + ">", |pre|) == Some(c)
    ensures ElementEnd(pre + u, name) == Some(c + |name| + 3)
  {
  }

  /** A first match in `u` is the first match after `pre` in `pre + u`. */
  lemma FirstMatchAfter(pre: string, u: string, lit: string, k: nat)
    requires MatchAt(u, k, lit) && forall j :: 0 <= j < k ==> !MatchAt(u, j, lit)
    ensures FirstMatch(pre + u, lit, |pre|) == Some(|pre| + k)
  {
    NoMatchShifted(pre, u, lit, k);
    MatchShift(pre, u, k, lit);
    assert MatchAt(pre + u, |pre| + k, lit);
    assert forall j :: |pre| <= j < |pre| + k ==> !MatchAt(pre + u, j, lit);
    FirstMatchIs(pre + u, lit, |pre|, |pre| + k);
  }

  lemma NoMatchShifted(pre: string, u: string, lit: string, k: nat)
    requires forall j :: 0 <= j < k ==> !MatchAt(u, j, lit)
    ensures forall j :: |pre| <= j < |pre| + k ==> !MatchAt(pre + u, j, lit)
  {
    forall j | |pre| <= j < |pre| + k
      ensures !MatchAt(pre + u, j, lit)
    {
      MatchShift(pre, u, j - |pre|, lit);
    }
  }

  /**
   * An element whose tag names match `name` in any letter case is replaced,
   * attributes and content included, by one space, provided the content holds
   * no closing tag.
   */
  lemma ElementRemoved(name: string, open: string, attrs: string, body: string, close: string, rest: string)
    requires ToLower(open) == name && ToLower(close) == name && '>' !in open && '>' !in attrs
    requires forall j :: 0 <= j < |body| ==> !MatchAt(body + "</" + close + ">", j, "</" + name + ">")
    ensures RemoveElements("<" + open + attrs + ">" + body + "</" + close + ">" + rest, name) ==
            " " + RemoveElements(rest, name)
  {
    var pre := "<" + open + attrs + ">";
    var u := body + "</" + close + ">" + rest;
    var s := pre + u;
    assert s == "<" + open + attrs + ">" + body + "</" + close + ">" + rest;
    ElementEndIs(name, open, attrs, body, close, rest, pre, u);
    var e := |pre| + |body| + |name| + 3;
    assert |close| == |name|;
    assert s[e..] == rest;
  }

  lemma MatchCharAt(s: string, lit: string, k: nat)
    requires MatchAt(s, 0, lit) && k < |lit|
    ensures LowerChar(s[k]) == lit[k]
  {
  }

  /** Two closing tags that both match at one place have names of the same length. */
  lemma CloseLengthUnique(s: string, a: string, b: string)
    requires MatchAt(s, 0, "</" + a + ">") && MatchAt(s, 0, "</" + b + ">")
    requires '>' !in a && '>' !in b
    ensures |a| == |b|
  {
    if |a| < |b| {
      MatchCharAt(s, "</" + a + ">", |a| + 2);
      MatchCharAt(s, "</" + b + ">", |a| + 2);
      assert false;
    } else if |b| < |a| {
      MatchCharAt(s, "</" + a + ">", |b| + 2);
      MatchCharAt(s, "</" + b + ">", |b| + 2);
      assert false;
    }
  }

  lemma BlockNamesHaveNoMark()
    ensures forall i :: 0 <= i < |BlockNames| ==> '>' !in BlockNames[i]
  {
  }

  /** A closing block tag, in any letter case, becomes one line break. */
  lemma BlockCloseBreaks(tag: string, rest: string)
    requires ToLower(tag) in BlockNames
    ensures BreakBlocks("</" + tag + ">" + rest) == "\n" + BreakBlocks(rest)
  {
    var s := "</" + tag + ">" + rest;
    var i0 :| 0 <= i0 < |BlockNames| && BlockNames[i0] == ToLower(tag);
    BlockNamesHaveNoMark();
    CloseTagMatches(tag, BlockNames[i0], rest);
    forall j | 0 <= j < |tag|
      ensures tag[j] != '>'
    {
      LowerFixesMarks(tag[j]);
      assert ToLower(tag)[j] == LowerChar(tag[j]);
    }
    match CloseTagIn(s, BlockNames)
    case None =>
    case Some(n) =>
      var i :| 0 <= i < |BlockNames| && n == |BlockNames[i]| + 3 && MatchAt(s, 0, "</" + BlockNames[i] + ">");
      CloseLengthUnique(s, BlockNames[i], BlockNames[i0]);
      assert s[n..] == rest;
  }

  /** Any other tag with something between its brackets becomes one space. */
  lemma TagReplaced(inner: string, rest: string)
    requires inner != [] && '>' !in inner
    ensures StripTags("<" + inner + ">" + rest) == " " + StripTags(rest)
  {
    var s := "<" + inner + ">" + rest;
    forall j | 1 <= j < |inner| + 1
      ensures s[j] != '>'
    {
      assert s[j] == inner[j - 1];
    }
    FirstCharIs(s, '>', 1, |inner| + 1);
    assert s[|inner| + 2..] == rest;
  }

  /** Text without '>' holds no tag and passes unchanged. */
  lemma {:induction false} StripTagsNoClose(s: string)
    requires '>' !in s
    ensures StripTags(s) == s
    decreases |s|
  {
    if s != [] {
      assert '>' !in s[1..];
      StripTagsNoClose(s[1..]);
    }
  }

  /** Text without '<' holds no tag and passes unchanged. */
  lemma {:induction false} StripTagsNoOpen(s: string)
    requires '<' !in s
    ensures StripTags(s) == s
    decreases |s|
  {
    if s != [] {
      assert '<' !in s[1..];
      StripTagsNoOpen(s[1..]);
    }
  }

  /** After stripping, no tag is left anywhere in the text. */
  lemma {:induction false} NoTagLeft(s: string)
    ensures forall i :: 0 <= i < |StripTags(s)| ==> TagEnd(StripTags(s)[i..]).None?
    decreases |s|
  {
    if s != [] {
      var out := StripTags(s);
      match TagEnd(s)
      case Some(e) =>
        NoTagLeft(s[e..]);
        var t := StripTags(s[e..]);
        forall i | 1 <= i < |out|
          ensures TagEnd(out[i..]).None?
        {
          assert out[i..] == t[i - 1..];
        }
        assert out[0] == ' ';
      case None =>
        NoTagLeft(s[1..]);
        var t := StripTags(s[1..]);
        forall i | 1 <= i < |out|
          ensures TagEnd(out[i..]).None?
        {
          assert out[i..] == t[i - 1..];
        }
        if s[0] == '<' {
          assert out[0..] == out;
          match FirstChar(s, '>', 1)
          case Some(g) =>
            assert g == 1 && s[1] == '>';
            assert TagEnd(s[1..]).None?;
            assert out[1] == '>';
            FirstCharIs(out, '>', 1, 1);
          case None =>
            assert '>' !in s[1..];
            StripTagsNoClose(s[1..]);
            assert out == s;
        }
    }
  }

  /** Text without '<' holds no hidden element and passes unchanged. */
  lemma {:induction false} RemoveElementsNoOpen(s: string, name: string)
    requires '<' !in s
    ensures RemoveElements(s, name) == s
    decreases |s|
  {
    if s != [] {
      if MatchAt(s, 0, "<" + name) {
        MatchCharAt(s, "<" + name, 0);
        LowerFixesMarks(s[0]);
        assert false;
      }
      assert '<' !in s[1..];
      RemoveElementsNoOpen(s[1..], name);
    }
  }

  /** Text without '<' holds no closing block tag and passes unchanged. */
  lemma {:induction false} BreakBlocksNoOpen(s: string)
    requires '<' !in s
    ensures BreakBlocks(s) == s
    decreases |s|
  {
    if s != [] {
      match CloseTagIn(s, BlockNames)
      case Some(n) =>
        var i :| 0 <= i < |BlockNames| && MatchAt(s, 0, "</" + BlockNames[i] + ">");
        MatchCharAt(s, "</" + BlockNames[i] + ">", 0);
        LowerFixesMarks(s[0]);
        assert false;
      case None =>
        assert '<' !in s[1..];
        BreakBlocksNoOpen(s[1..]);
    }
  }

  lemma NoAmpNoEntity(s: string, pat: string)
    requires '&' !in s && pat != [] && pat[0] == '&'
    ensures !Contains(s, pat)
  {
    forall i | 0 <= i <= |s| - |pat|
      ensures !IsPrefix(pat, s[i..])
    {
    }
  }

  /** Text without '&' has no entity to decode. */
  lemma DecodeNoAmp(s: string)
    requires '&' !in s
    ensures DecodeEntities(s) == s
  {
    NoAmpNoEntity(s, "&nbsp;");
    ReplaceAllAbsent(s, "&nbsp;", " ");
    NoAmpNoEntity(s, "&amp;");
    ReplaceAllAbsent(s, "&amp;", "&");
    NoAmpNoEntity(s, "&quot;");
    ReplaceAllAbsent(s, "&quot;", "\"");
    NoAmpNoEntity(s, "&#39;");
    ReplaceAllAbsent(s, "&#39;", "'");
    NoAmpNoEntity(s, "&lt;");
    ReplaceAllAbsent(s, "&lt;", "<");
    NoAmpNoEntity(s, "&gt;");
    ReplaceAllAbsent(s, "&gt;", ">");
  }

  /**
   * `&amp;` is decoded before `&lt;`, so a doubly escaped "&amp;lt;" ends up
   * as "<" rather than "&lt;".
   */
  lemma AmpDecodedFirst()
    ensures DecodeEntities("&amp;lt;") == "<"
  {
    var s := "&amp;lt;";
    forall i | 0 <= i <= |s| - 6
      ensures !IsPrefix("&nbsp;", s[i..])
    {
      assert s[i..][1] == s[i + 1] != 'n';
    }
    ReplaceAllAbsent(s, "&nbsp;", " ");
    AmpStep();
    var t := "&lt;";
    assert !Contains(t, "&quot;") && !Contains(t, "&#39;");
    ReplaceAllAbsent(t, "&quot;", "\"");
    ReplaceAllAbsent(t, "&#39;", "'");
    LtStep();
    assert !Contains("<", "&gt;");
    ReplaceAllAbsent("<", "&gt;", ">");
  }

  lemma AmpStep()
    ensures ReplaceAll("&amp;lt;", "&amp;", "&") == "&lt;"
  {
    var s := "&amp;lt;";
    assert IsPrefix("&amp;", s);
    assert s[5..] == "lt;";
    assert !Contains("lt;", "&amp;");
    ReplaceAllAbsent("lt;", "&amp;", "&");
  }

  lemma LtStep()
    ensures ReplaceAll("&lt;", "&lt;", "<") == "<"
  {
    assert IsPrefix("&lt;", "&lt;");
    assert "&lt;"[4..] == [];
  }

  /** Plain text that is already trimmed and single-spaced comes out as it went in. */
  lemma PlainTextKept(s: string)
    requires '<' !in s && '&' !in s && IsTrimmed(s) && SpacesCollapsed(s)
    ensures HtmlToText(s) == s
  {
    RemoveElementsNoOpen(s, "script");
    RemoveElementsNoOpen(s, "style");
    RemoveElementsNoOpen(s, "noscript");
    BreakBlocksNoOpen(s);
    StripTagsNoOpen(s);
    DecodeNoAmp(s);
    CollapseOfCollapsed(s);
    TrimOfTrimmed(s);
  }
}
