/**
 * The JavaScript string semantics the app relies on, stated over `seq<char>`:
 * the `\s` / `trim()` whitespace set, ASCII case mapping, `includes`, literal
 * `replace(/lit/g, ...)`, `split(",")`, `String(n)`, `parseInt(s, 10)`,
 * and `Number(s)` on integer strings.
 */
module JsText {
  import opened Common

  /** WhiteSpace and LineTerminator code points: what `\s` and `trim()` recognise. */
  predicate IsSpace(c: char) {
    if c <= ' ' then c == ' ' || ('\t' <= c <= '\r')
    else '\U{00A0}' <= c && (c in WideSpaces || ('\U{2000}' <= c <= '\U{200A}'))
  }

  /** The whitespace code points from U+00A0 up, outside the range U+2000..U+200A. */
  const WideSpaces: set<char> :=
    {'\U{00A0}', '\U{1680}', '\U{2028}', '\U{2029}', '\U{202F}', '\U{205F}', '\U{3000}', '\U{FEFF}'}

  predicate NoSpace(s: string) {
    forall i :: 0 <= i < |s| ==> !IsSpace(s[i])
  }

  predicate AllSpace(s: string) {
    forall i :: 0 <= i < |s| ==> IsSpace(s[i])
  }

  /** No whitespace at either end. */
  predicate IsTrimmed(s: string) {
    s == [] || (!IsSpace(s[0]) && !IsSpace(s[|s| - 1]))
  }

  /** `s.trimStart()`: the suffix left after dropping the leading whitespace run. */
  function TrimStart(s: string): (r: string)
    ensures |r| <= |s| && r == s[|s| - |r|..]
    ensures r == [] || !IsSpace(r[0])
    ensures AllSpace(s[..|s| - |r|])
  {
    if |s| > 0 && IsSpace(s[0]) then
      var r := TrimStart(s[1..]);
      assert s[..|s| - |r|] == [s[0]] + s[1..][..|s| - 1 - |r|];
      r
    else s
  }

  /** `s.trimEnd()`: the prefix left after dropping the trailing whitespace run. */
  function TrimEnd(s: string): (r: string)
    ensures |r| <= |s| && r == s[..|r|]
    ensures r == [] || !IsSpace(r[|r| - 1])
    ensures AllSpace(s[|r|..])
  {
    if |s| > 0 && IsSpace(s[|s| - 1]) then
      var r := TrimEnd(s[..|s| - 1]);
      assert s[|r|..] == s[..|s| - 1][|r|..] + [s[|s| - 1]];
      r
    else s
  }

  /** `s.trim()` */
  function Trim(s: string): (r: string)
    ensures IsTrimmed(r)
    ensures |r| <= |s|
  {
    TrimEnd(TrimStart(s))
  }

  /** `trim()` returns the slice of `s` between its leading and its trailing whitespace. */
  lemma TrimIsSlice(s: string) returns (a: nat, b: nat)
    ensures a <= b <= |s| && Trim(s) == s[a..b]
    ensures AllSpace(s[..a]) && AllSpace(s[b..])
  {
    var t := TrimStart(s);
    a := |s| - |t|;
    var u := TrimEnd(t);
    b := a + |u|;
    assert u == t[..|u|];
    assert t[|u|..] == s[b..];
  }

  lemma TrimOfTrimmed(s: string)
    requires IsTrimmed(s)
    ensures Trim(s) == s
  {
  }

  lemma TrimIdempotent(s: string)
    ensures Trim(Trim(s)) == Trim(s)
  {
    TrimOfTrimmed(Trim(s));
  }

  /** Trimming is blind to whitespace added at either end. */
  lemma {:induction false} TrimStartPadded(pre: string, s: string)
    requires AllSpace(pre)
    ensures TrimStart(pre + s) == TrimStart(s)
    decreases |pre|
  {
    if pre != [] {
      assert (pre + s)[0] == pre[0];
      assert (pre + s)[1..] == pre[1..] + s;
      TrimStartPadded(pre[1..], s);
    } else {
      assert pre + s == s;
    }
  }

  lemma {:induction false} TrimEndPadded(s: string, post: string)
    requires AllSpace(post)
    ensures TrimEnd(s + post) == TrimEnd(s)
    decreases |post|
  {
    if post != [] {
      var p := post[..|post| - 1];
      assert (s + post)[|s + post| - 1] == post[|post| - 1];
      assert (s + post)[..|s + post| - 1] == s + p;
      TrimEndPadded(s, p);
    } else {
      assert s + post == s;
    }
  }

  lemma TrimStartPreservesEnd(s: string)
    requires s != [] && !IsSpace(s[|s| - 1])
    ensures TrimStart(s) != [] && !IsSpace(TrimStart(s)[|TrimStart(s)| - 1])
  {
    var r := TrimStart(s);
    var k := |s| - |r|;
    NotAllSpace(s);
    assert s[..|s|] == s;
    assert k < |s|;
    assert r[|r| - 1] == s[|s| - 1];
  }

  lemma NotAllSpace(s: string)
    requires s != [] && !IsSpace(s[|s| - 1])
    ensures !AllSpace(s)
  {
  }

  lemma TrimPadded(pre: string, s: string, post: string)
    requires AllSpace(pre) && AllSpace(post)
    ensures Trim(pre + s + post) == Trim(s)
  {
    assert pre + s + post == pre + (s + post);
    TrimStartPadded(pre, s + post);
    var t := TrimStart(s + post);
    var t0 := TrimStart(s);
    // t is t0 followed by post, or a suffix of post when s is all whitespace
    if t0 == [] {
      assert AllSpace(s);
      assert AllSpace(s + post);
      AllSpaceTrimStart(s + post);
      AllSpaceTrimStart(s);
    } else {
      TrimStartAppend(s, post);
      assert t == t0 + post;
      TrimEndPadded(t0, post);
    }
  }

  lemma AllSpaceTrimStart(s: string)
    requires AllSpace(s)
    ensures TrimStart(s) == []
  {
  }

  /** Trimming leaves nothing exactly when the text is all whitespace. */
  lemma TrimEmptyIffBlank(s: string)
    ensures Trim(s) == [] <==> AllSpace(s)
  {
    if Trim(s) == [] {
      var a, b := TrimIsSlice(s);
      forall i | 0 <= i < |s|
        ensures IsSpace(s[i])
      {
        if i < a {
          assert s[..a][i] == s[i];
        } else {
          assert s[b..][i - b] == s[i];
        }
      }
    }
    if AllSpace(s) {
      AllSpaceTrimStart(s);
    }
  }

  lemma {:induction false} TrimStartAppend(s: string, post: string)
    requires TrimStart(s) != []
    ensures TrimStart(s + post) == TrimStart(s) + post
    decreases |s|
  {
    if IsSpace(s[0]) {
      assert (s + post)[1..] == s[1..] + post;
      TrimStartAppend(s[1..], post);
    }
  }

  /** ASCII case mapping, as `toLowerCase()` does it on ASCII letters. */
  function LowerChar(c: char): char {
    if 'A' <= c <= 'Z' then (c as int + 32) as char else c
  }

  function UpperChar(c: char): char {
    if 'a' <= c <= 'z' then (c as int - 32) as char else c
  }

  function ToLower(s: string): (r: string)
    ensures |r| == |s|
    ensures forall i :: 0 <= i < |s| ==> r[i] == LowerChar(s[i])
  {
    seq(|s|, i requires 0 <= i < |s| => LowerChar(s[i]))
  }

  function ToUpper(s: string): (r: string)
    ensures |r| == |s|
    ensures forall i :: 0 <= i < |s| ==> r[i] == UpperChar(s[i])
  {
    seq(|s|, i requires 0 <= i < |s| => UpperChar(s[i]))
  }

  predicate HasNoUpper(s: string) {
    forall i :: 0 <= i < |s| ==> !('A' <= s[i] <= 'Z')
  }

  lemma ToLowerHasNoUpper(s: string)
    ensures HasNoUpper(ToLower(s))
  {
  }

  /** Case mapping neither makes nor removes whitespace. */
  lemma LowerCharSpace(c: char)
    ensures IsSpace(LowerChar(c)) <==> IsSpace(c)
  {
  }

  lemma ToLowerTrimmed(s: string)
    requires IsTrimmed(s)
    ensures IsTrimmed(ToLower(s))
  {
    if s != [] {
      LowerCharSpace(s[0]);
      LowerCharSpace(s[|s| - 1]);
    }
  }

  lemma ToLowerIdempotent(s: string)
    ensures ToLower(ToLower(s)) == ToLower(s)
  {
  }

  predicate IsPrefix(p: string, s: string) {
    |p| <= |s| && s[..|p|] == p
  }

  /** `s.includes(sub)` */
  predicate Contains(s: string, sub: string) {
    exists i :: 0 <= i <= |s| - |sub| && IsPrefix(sub, s[i..])
  }

  lemma ContainsAt(s: string, sub: string, i: nat)
    requires i + |sub| <= |s| && s[i..i + |sub|] == sub
    ensures Contains(s, sub)
  {
    assert IsPrefix(sub, s[i..]);
  }

  lemma ContainsEmpty(s: string)
    ensures Contains(s, "")
  {
    assert IsPrefix("", s[0..]);
  }

  /** `s.replace(/pat/g, rep)` for a literal, non-empty `pat`: leftmost, non-overlapping. */
  function ReplaceAll(s: string, pat: string, rep: string): string
    requires pat != []
    decreases |s|
  {
    if s == [] then []
    else if IsPrefix(pat, s) then rep + ReplaceAll(s[|pat|..], pat, rep)
    else [s[0]] + ReplaceAll(s[1..], pat, rep)
  }

  lemma {:induction false} ReplaceAllAbsent(s: string, pat: string, rep: string)
    requires pat != [] && !Contains(s, pat)
    ensures ReplaceAll(s, pat, rep) == s
    decreases |s|
  {
    if s != [] {
      assert s[0..] == s;
      assert !IsPrefix(pat, s[0..]);
      forall i | 0 <= i <= |s[1..]| - |pat|
        ensures !IsPrefix(pat, s[1..][i..])
      {
        assert s[1..][i..] == s[i + 1..];
      }
      ReplaceAllAbsent(s[1..], pat, rep);
    }
  }

  /** `s.replace(/\s+/g, " ")`: every maximal whitespace run becomes one space. */
  function CollapseSpaces(s: string): string
    decreases |s|
  {
    if s == [] then []
    else if IsSpace(s[0]) then " " + CollapseSpaces(TrimStart(s))
    else [s[0]] + CollapseSpaces(s[1..])
  }

  /** Whitespace only as single spaces, never two in a row. */
  predicate SpacesCollapsed(s: string) {
    (forall i :: 0 <= i < |s| && IsSpace(s[i]) ==> s[i] == ' ') &&
    (forall i :: 0 <= i < |s| - 1 ==> !(IsSpace(s[i]) && IsSpace(s[i + 1])))
  }

  lemma SpacesCollapsedCons(c: char, t: string)
    requires SpacesCollapsed(t)
    requires IsSpace(c) ==> c == ' ' && (t == [] || !IsSpace(t[0]))
    ensures SpacesCollapsed([c] + t)
  {
    var u := [c] + t;
    forall i | 1 <= i < |u|
      ensures u[i] == t[i - 1]
    {
    }
  }

  lemma SpacesCollapsedSlice(s: string, a: nat, b: nat)
    requires SpacesCollapsed(s) && a <= b <= |s|
    ensures SpacesCollapsed(s[a..b])
  {
    var t := s[a..b];
    forall i | 0 <= i < |t|
      ensures t[i] == s[a + i]
    {
    }
  }

  /** The collapse keeps the text's emptiness and whether it starts and ends with whitespace. */
  predicate CollapseKeepsEnds(s: string) {
    var c := CollapseSpaces(s);
    |c| <= |s| && (c == [] <==> s == []) &&
    (s != [] ==> (IsSpace(c[0]) <==> IsSpace(s[0])) && (IsSpace(c[|c| - 1]) <==> IsSpace(s[|s| - 1])))
  }

  lemma {:induction false} CollapseSpacesEnds(s: string)
    ensures |CollapseSpaces(s)| <= |s|
    ensures CollapseSpaces(s) == [] <==> s == []
    ensures s != [] ==> (IsSpace(CollapseSpaces(s)[0]) <==> IsSpace(s[0]))
    ensures s != [] ==> (IsSpace(CollapseSpaces(s)[|CollapseSpaces(s)| - 1]) <==> IsSpace(s[|s| - 1]))
    decreases |s|
  {
    if s != [] {
      if IsSpace(s[0]) {
        CollapseSpacesEnds(TrimStart(s));
        SpaceRunStep(s);
      } else {
        CollapseSpacesEnds(s[1..]);
        OtherCharStep(s);
      }
    }
  }

  /** What a leading whitespace run leaves behind once it is dropped. */
  lemma SpaceRunFacts(s: string)
    requires s != [] && IsSpace(s[0])
    ensures |TrimStart(s)| < |s|
    ensures CollapseSpaces(s) == " " + CollapseSpaces(TrimStart(s))
    ensures TrimStart(s) == [] ==> IsSpace(s[|s| - 1])
    ensures TrimStart(s) != [] ==> TrimStart(s)[|TrimStart(s)| - 1] == s[|s| - 1]
  {
    var t := TrimStart(s);
    var k := |s| - |t|;
    if t == [] {
      assert s[..k][|s| - 1] == s[|s| - 1];
    }
  }

  /** A leading whitespace run collapses to one space before the rest. */
  lemma SpaceRunStep(s: string)
    requires s != [] && IsSpace(s[0]) && CollapseKeepsEnds(TrimStart(s))
    ensures CollapseKeepsEnds(s)
  {
    SpaceRunFacts(s);
    var t := TrimStart(s);
    var ct := CollapseSpaces(t);
    var c := CollapseSpaces(s);
    assert c == " " + ct;
    assert c[0] == ' ';
    if ct != [] {
      assert c[|c| - 1] == ct[|ct| - 1];
    }
  }

  lemma OtherCharStep(s: string)
    requires s != [] && !IsSpace(s[0]) && CollapseKeepsEnds(s[1..])
    ensures CollapseKeepsEnds(s)
  {
    var t := s[1..];
    var ct := CollapseSpaces(t);
    var c := CollapseSpaces(s);
    assert c == [s[0]] + ct;
    if t != [] {
      assert t[|t| - 1] == s[|s| - 1];
      assert c[|c| - 1] == ct[|ct| - 1];
    }
  }

  lemma {:induction false} CollapseSpacesShape(s: string)
    ensures SpacesCollapsed(CollapseSpaces(s))
    decreases |s|
  {
    if s != [] {
      if IsSpace(s[0]) {
        var t := TrimStart(s);
        CollapseSpacesShape(t);
        CollapseSpacesEnds(t);
        SpacesCollapsedCons(' ', CollapseSpaces(t));
      } else {
        CollapseSpacesShape(s[1..]);
        SpacesCollapsedCons(s[0], CollapseSpaces(s[1..]));
      }
    } else {
      assert CollapseSpaces(s) == [];
    }
  }

  /** `s.trim().replace(/\s+/g, " ")` is normalised: trimmed, with single spaces only. */
  lemma CollapseTrimmed(s: string)
    requires IsTrimmed(s)
    ensures IsTrimmed(CollapseSpaces(s)) && SpacesCollapsed(CollapseSpaces(s))
  {
    CollapseSpacesShape(s);
    CollapseSpacesEnds(s);
  }

  /** `s.replace(/\s+/g, " ").trim()` is normalised too. */
  lemma SpacesCollapsedTrim(s: string)
    requires SpacesCollapsed(s)
    ensures SpacesCollapsed(Trim(s)) && IsTrimmed(Trim(s))
  {
    var a, b := TrimIsSlice(s);
    SpacesCollapsedSlice(s, a, b);
  }

  /** Text that is already normalised is left alone by the whitespace collapse. */
  lemma {:induction false} CollapseOfCollapsed(s: string)
    requires SpacesCollapsed(s)
    ensures CollapseSpaces(s) == s
    decreases |s|
  {
    if s != [] {
      var t := s[1..];
      SpacesCollapsedSlice(s, 1, |s|);
      CollapseOfCollapsed(t);
      CollapsedHead(s);
      assert s == [s[0]] + t;
      if IsSpace(s[0]) {
        CollapseSpaceHead(t);
      } else {
        CollapseOtherHead(s[0], t);
      }
    }
  }

  lemma CollapsedHead(s: string)
    requires SpacesCollapsed(s) && s != []
    ensures IsSpace(s[0]) ==> s[0] == ' ' && (s[1..] == [] || !IsSpace(s[1..][0]))
  {
    if |s| > 1 {
      assert s[1..][0] == s[1];
    }
  }

  lemma CollapseSpaceHead(t: string)
    requires t == [] || !IsSpace(t[0])
    ensures CollapseSpaces([' '] + t) == " " + CollapseSpaces(t)
  {
    var s := [' '] + t;
    assert s[1..] == t;
    assert TrimStart(t) == t;
  }

  lemma CollapseOtherHead(c: char, t: string)
    requires !IsSpace(c)
    ensures CollapseSpaces([c] + t) == [c] + CollapseSpaces(t)
  {
    assert ([c] + t)[1..] == t;
  }

  /** `s.split(sep)` for a one-character separator. */
  function Split(s: string, sep: char): (r: seq<string>)
    ensures |r| >= 1
    decreases |s|
  {
    if s == [] then [[]]
    else
      var rest := Split(s[1..], sep);
      if s[0] == sep then [[]] + rest else [[s[0]] + rest[0]] + rest[1..]
  }

  /** `parts.join(sep)` */
  function Join(parts: seq<string>, sep: char): string
    requires |parts| >= 1
  {
    if |parts| == 1 then parts[0] else parts[0] + [sep] + Join(parts[1..], sep)
  }

  /** Splitting loses nothing: joining the pieces back gives the input, and no piece holds the separator. */
  lemma {:induction false} SplitJoin(s: string, sep: char)
    ensures Join(Split(s, sep), sep) == s
    ensures forall k :: 0 <= k < |Split(s, sep)| ==> sep !in Split(s, sep)[k]
    decreases |s|
  {
    if s != [] {
      SplitJoin(s[1..], sep);
      var rest := Split(s[1..], sep);
      if s[0] == sep {
        assert Split(s, sep)[1..] == rest;
      } else {
        var r := Split(s, sep);
        assert r[0] == [s[0]] + rest[0];
        if |rest| == 1 {
          assert Join(r, sep) == r[0];
        } else {
          assert r[1..] == rest[1..];
          assert Join(r, sep) == r[0] + [sep] + Join(rest[1..], sep);
          assert Join(rest, sep) == rest[0] + [sep] + Join(rest[1..], sep);
        }
        forall k | 0 <= k < |r|
          ensures sep !in r[k]
        {
          if k > 0 {
            assert r[k] == rest[k];
          }
        }
      }
    }
  }

  function DigitChar(d: nat): char
    requires d < 10
  {
    "0123456789"[d]
  }

  predicate IsDigit(c: char) { '0' <= c <= '9' }

  function DigitValue(c: char): nat
    requires IsDigit(c)
  {
    c as int - '0' as int
  }

  predicate AllDigits(s: string) {
    forall i :: 0 <= i < |s| ==> IsDigit(s[i])
  }

  /** `String(n)` for a non-negative integer. */
  function NatToString(n: nat): (r: string)
    ensures r != [] && AllDigits(r)
  {
    if n < 10 then [DigitChar(n)] else NatToString(n / 10) + [DigitChar(n % 10)]
  }

  /** `String(n)` for an integer. */
  function IntToString(i: int): string {
    if i < 0 then "-" + NatToString(-i) else NatToString(i)
  }

  /** The value of a run of decimal digits. */
  function DigitsValue(s: string): nat
    requires AllDigits(s)
  {
    if s == [] then 0 else DigitsValue(s[..|s| - 1]) * 10 + DigitValue(s[|s| - 1])
  }

  /** The length of the leading run of decimal digits. */
  function LeadingDigits(s: string): (n: nat)
    ensures n <= |s| && AllDigits(s[..n])
    ensures n < |s| ==> !IsDigit(s[n])
  {
    if s != [] && IsDigit(s[0]) then
      var k := LeadingDigits(s[1..]);
      assert s[..k + 1] == [s[0]] + s[1..][..k];
      k + 1
    else 0
  }

  lemma LeadingDigitsAll(s: string)
    requires AllDigits(s)
    ensures LeadingDigits(s) == |s|
  {
    if s != [] {
      LeadingDigitsAll(s[1..]);
    }
  }

  lemma {:induction false} NatToStringValue(n: nat)
    ensures DigitsValue(NatToString(n)) == n
  {
    if n >= 10 {
      NatToStringValue(n / 10);
      var s := NatToString(n);
      assert s[..|s| - 1] == NatToString(n / 10);
    }
  }

  /** The sign and digits of an integer literal, after the leading whitespace is gone. */
  function SignedDigits(t: string): Option<int> {
    if t != [] && (t[0] == '-' || t[0] == '+') then
      var k := LeadingDigits(t[1..]);
      if k == 0 then None
      else
        var v: int := DigitsValue(t[1..][..k]);
        Some(if t[0] == '-' then -v else v)
    else
      var k := LeadingDigits(t);
      if k == 0 then None else Some(DigitsValue(t[..k]))
  }

  /**
   * `parseInt(s, 10)`: skip leading whitespace, read a sign and the longest run of
   * digits; `None` stands for NaN (no digit at all).
   */
  function ParseInt(s: string): Option<int> {
    SignedDigits(TrimStart(s))
  }

  /**
   * `Number(s)` (unary `+s`) on integer strings: surrounding whitespace is ignored,
   * the empty string is 0, and anything but an optional sign followed only by digits
   * is NaN (`None`).
   */
  function NumberOf(s: string): Option<int> {
    var t := Trim(s);
    if t == [] then Some(0)
    else
      var body := if t[0] == '-' || t[0] == '+' then t[1..] else t;
      if body != [] && AllDigits(body) then SignedDigits(t) else None
  }

  lemma IntToStringShape(i: int)
    ensures var s := IntToString(i);
      s != [] && IsTrimmed(s) && (i < 0 ==> s[0] == '-' && AllDigits(s[1..]) && s[1..] == NatToString(-i))
      && (i >= 0 ==> AllDigits(s) && s == NatToString(i))
  {
    var s := IntToString(i);
    if i < 0 {
      assert s[1..] == NatToString(-i);
      assert s[|s| - 1] == NatToString(-i)[|NatToString(-i)| - 1];
    }
  }

  /** `parseInt(String(i), 10) == i` */
  lemma ParseIntOfIntToString(i: int)
    ensures ParseInt(IntToString(i)) == Some(i)
  {
    if i < 0 {
      ParseIntOfNegative(-i);
      assert IntToString(i) == "-" + NatToString(-i);
    } else {
      var s := NatToString(i);
      ParseIntOfDigits(s);
      NatToStringValue(i);
      assert IntToString(i) == s;
    }
  }

  lemma ParseIntOfNegative(n: nat)
    requires n > 0
    ensures ParseInt("-" + NatToString(n)) == Some(-(n as int))
  {
    var s := "-" + NatToString(n);
    assert s[0] == '-' && s[1..] == NatToString(n);
    assert TrimStart(s) == s;
    SignedDigitsNegative(s, n);
  }

  /** `parseInt` of a run of digits is the run's decimal value. */
  lemma ParseIntOfDigits(s: string)
    requires s != [] && AllDigits(s)
    ensures ParseInt(s) == Some(DigitsValue(s))
  {
    TrimStartOfDigits(s);
    SignedDigitsOfDigits(s);
  }

  lemma TrimStartOfDigits(s: string)
    requires s != [] && AllDigits(s)
    ensures TrimStart(s) == s
  {
    assert IsDigit(s[0]);
  }

  lemma SignedDigitsOfDigits(s: string)
    requires s != [] && AllDigits(s)
    ensures SignedDigits(s) == Some(DigitsValue(s))
  {
    LeadingDigitsAll(s);
    assert s[..|s|] == s;
  }

  lemma DigitsValueOne(c: char)
    requires IsDigit(c)
    ensures DigitsValue([c]) == DigitValue(c)
  {
    assert [c][..0] == [];
  }

  lemma DigitsValueTwo(c: char, d: char)
    requires IsDigit(c) && IsDigit(d)
    ensures DigitsValue([c, d]) == 10 * DigitValue(c) + DigitValue(d)
  {
    assert [c, d][..1] == [c];
    DigitsValueOne(c);
  }

  lemma SignedDigitsNegative(s: string, n: nat)
    requires s != [] && s[0] == '-' && s[1..] == NatToString(n)
    ensures SignedDigits(s) == Some(-(n as int))
  {
    var d := NatToString(n);
    assert AllDigits(d);
    LeadingDigitsAll(d);
    assert s[1..][..|d|] == d;
    NatToStringValue(n);
  }

  /** Trimmed text that starts with neither a sign nor a digit is NaN. */
  lemma NumberOfNonNumeric(s: string)
    requires s != [] && IsTrimmed(s) && !IsDigit(s[0]) && s[0] != '-' && s[0] != '+'
    ensures NumberOf(s) == None
  {
    TrimOfTrimmed(s);
  }

  lemma NumberOfEmpty()
    ensures NumberOf("") == Some(0)
  {
    assert Trim("") == [];
  }

  /** `Number(String(i)) == i` */
  lemma NumberOfIntToString(i: int)
    ensures NumberOf(IntToString(i)) == Some(i)
  {
    var s := IntToString(i);
    IntToStringShape(i);
    TrimOfTrimmed(s);
    ParseIntOfIntToString(i);
    assert TrimStart(s) == s;
  }
}
