/**
 * The two JavaScript string operations the overlay's checker relies on:
 * `String.trim` (strip leading and trailing white space and line terminators, ECMAScript 5
 * section 15.5.4.20) and case-insensitive anchored regular expression tests such as
 * `/^(html:)?input$/i` (ECMAScript 5 section 15.10.2.8: without the Unicode flag,
 * only the ASCII letters of an ASCII pattern fold case).
 */
module JsText {

  /**
   * The WhiteSpace and LineTerminator code points of ECMAScript 5 sections 7.2 and 7.3, with
   * the space separators (category Zs) of Unicode 6.0, which still include U+180E.
   */
  predicate IsTrimmable(c: char) {
    var n := c as int;
    n == 0x09 || n == 0x0A || n == 0x0B || n == 0x0C || n == 0x0D || n == 0x20 ||
    n == 0xA0 || n == 0x1680 || n == 0x180E || (0x2000 <= n <= 0x200A) || n == 0x2028 || n == 0x2029 ||
    n == 0x202F || n == 0x205F || n == 0x3000 || n == 0xFEFF
  }

  predicate AllTrimmable(s: string) {
    forall i :: 0 <= i < |s| ==> IsTrimmable(s[i])
  }

  /** Number of trimmable characters at the front of `s`. */
  function LeadingCount(s: string): (n: nat)
    ensures n <= |s|
    ensures AllTrimmable(s[..n])
    ensures n < |s| ==> !IsTrimmable(s[n])
  {
    if s == [] || !IsTrimmable(s[0]) then 0
    else
      var k := LeadingCount(s[1..]);
      assert s[..k + 1] == [s[0]] + s[1..][..k];
      k + 1
  }

  /** Number of trimmable characters at the back of `s`. */
  function TrailingCount(s: string): (n: nat)
    ensures n <= |s|
    ensures AllTrimmable(s[|s| - n..])
    ensures n < |s| ==> !IsTrimmable(s[|s| - n - 1])
  {
    if s == [] || !IsTrimmable(s[|s| - 1]) then 0
    else
      var init := s[..|s| - 1];
      var k := TrailingCount(init);
      assert s[|s| - (k + 1)..] == init[|init| - k..] + [s[|s| - 1]];
      k + 1
  }

  /**
   * The slice `s[lo..hi]` that `String.trim` keeps: everything outside it is white space,
   * and when it is not empty it starts and ends with a character that is not.
   */
  function TrimBounds(s: string): (b: (nat, nat))
    ensures b.0 <= b.1 <= |s|
    ensures AllTrimmable(s[..b.0]) && AllTrimmable(s[b.1..])
    ensures b.0 < b.1 ==> !IsTrimmable(s[b.0]) && !IsTrimmable(s[b.1 - 1])
  {
    var lead := LeadingCount(s);
    if lead == |s| then
      (lead, lead)
    else
      var trail := TrailingCount(s);
      (lead, |s| - trail)
  }

  /** `String.trim(s)`. */
  function Trim(s: string): (r: string)
    ensures |r| <= |s|
    ensures r == "" <==> AllTrimmable(s)
    ensures r != "" ==> !IsTrimmable(r[0]) && !IsTrimmable(r[|r| - 1])
  {
    var b := TrimBounds(s);
    s[b.0..b.1]
  }

  lemma AllTrimmableConcat(a: string, b: string)
    requires AllTrimmable(a) && AllTrimmable(b)
    ensures AllTrimmable(a + b)
  {
  }

  /** Trimming only removes white space: `s` is the trimmed text with white space around it. */
  lemma TrimKeepsCore(s: string)
    ensures exists pre, post :: s == pre + Trim(s) + post && AllTrimmable(pre) && AllTrimmable(post)
  {
    var b := TrimBounds(s);
    assert s == s[..b.0] + s[b.0..b.1] + s[b.1..];
  }

  /** Trimming twice is trimming once. */
  lemma TrimIdempotent(s: string)
    ensures Trim(Trim(s)) == Trim(s)
  {
  }

  /** Trimming white space from around an already-trimmed text gives that text back. */
  lemma TrimOfPadded(pre: string, core: string, post: string)
    requires AllTrimmable(pre) && AllTrimmable(post)
    requires core != "" && !IsTrimmable(core[0]) && !IsTrimmable(core[|core| - 1])
    ensures Trim(pre + core + post) == core
  {
    var s := pre + core + post;
    var b := TrimBounds(s);
    assert s[|pre|] == core[0];
    assert s[|pre| + |core| - 1] == core[|core| - 1];
    assert s[b.0..b.1] == core;
  }

  /** Extra white space before or after a text does not change what trimming keeps. */
  lemma TrimIgnoresPadding(pre: string, s: string, post: string)
    requires AllTrimmable(pre) && AllTrimmable(post)
    ensures Trim(pre + s + post) == Trim(s)
  {
    if AllTrimmable(s) {
      AllTrimmableConcat(pre, s);
      AllTrimmableConcat(pre + s, post);
    } else {
      var b := TrimBounds(s);
      Regroup(pre, s, post, b.0, b.1);
      TrimOfPadded(pre + s[..b.0], s[b.0..b.1], s[b.1..] + post);
    }
  }

  /** The padded text is the kept slice with white space on both sides. */
  lemma Regroup(pre: string, s: string, post: string, lo: nat, hi: nat)
    requires lo <= hi <= |s|
    requires AllTrimmable(pre) && AllTrimmable(post)
    requires AllTrimmable(s[..lo]) && AllTrimmable(s[hi..])
    ensures pre + s + post == (pre + s[..lo]) + s[lo..hi] + (s[hi..] + post)
    ensures AllTrimmable(pre + s[..lo]) && AllTrimmable(s[hi..] + post)
  {
  }

  /** ASCII case folding, the only folding a non-Unicode `/i` test applies against an ASCII pattern. */
  function AsciiLower(c: char): (d: char)
    ensures 'A' <= c <= 'Z' ==> d as int == c as int + 32
    ensures !('A' <= c <= 'Z') ==> d == c
  {
    if 'A' <= c <= 'Z' then (c as int + 32) as char else c
  }

  /** `s` with every ASCII capital folded to lower case. */
  function LowerAll(s: string): (r: string)
    ensures |r| == |s| && forall i :: 0 <= i < |s| ==> r[i] == AsciiLower(s[i])
  {
    seq(|s|, i requires 0 <= i < |s| => AsciiLower(s[i]))
  }

  /** `s` matches `/^pattern$/i` for a pattern of plain ASCII characters. */
  predicate EqualsIgnoreCase(s: string, pattern: string) {
    |s| == |pattern| && forall i :: 0 <= i < |s| ==> AsciiLower(s[i]) == AsciiLower(pattern[i])
  }

  /** Matching a lower-case pattern ignoring case is the same as the folded text being the pattern. */
  lemma EqualsIgnoreCaseLowered(s: string, pattern: string)
    requires LowerAll(pattern) == pattern
    ensures EqualsIgnoreCase(s, pattern) <==> LowerAll(s) == pattern
  {
    if LowerAll(s) == pattern {
      forall i | 0 <= i < |s| ensures AsciiLower(s[i]) == AsciiLower(pattern[i]) {
        assert LowerAll(pattern)[i] == AsciiLower(pattern[i]);
      }
    }
    if EqualsIgnoreCase(s, pattern) {
      forall i | 0 <= i < |s| ensures LowerAll(s)[i] == pattern[i] {
        assert LowerAll(pattern)[i] == AsciiLower(pattern[i]);
      }
    }
  }

  /** `nodeName.search(/^(html:)?input$/i) != -1`. */
  predicate IsInputNodeName(nodeName: string) {
    EqualsIgnoreCase(nodeName, "input") || EqualsIgnoreCase(nodeName, "html:input")
  }

  /** `type.search(/^text$/i) != -1`. */
  predicate IsTextType(inputType: string) {
    EqualsIgnoreCase(inputType, "text")
  }

  /**
   * What the two anchored case-insensitive tests accept: exactly the names that, folded to
   * lower case, are `input` or `html:input`, and the types that fold to `text`.
   */
  lemma RegexTestsFold(nodeName: string, inputType: string)
    ensures IsInputNodeName(nodeName) <==> LowerAll(nodeName) == "input" || LowerAll(nodeName) == "html:input"
    ensures IsTextType(inputType) <==> LowerAll(inputType) == "text"
  {
    assert LowerAll("input") == "input";
    assert LowerAll("html:input") == "html:input";
    assert LowerAll("text") == "text";
    EqualsIgnoreCaseLowered(nodeName, "input");
    EqualsIgnoreCaseLowered(nodeName, "html:input");
    EqualsIgnoreCaseLowered(inputType, "text");
  }

  /** What the two anchored patterns accept and refuse, on the names the browser reports. */
  lemma NodeNameExamples()
    ensures IsInputNodeName("INPUT") && IsInputNodeName("input") && IsInputNodeName("html:input")
    ensures IsInputNodeName("HTML:Input")
    ensures !IsInputNodeName("TEXTAREA") && !IsInputNodeName("xinput") && !IsInputNodeName("html:")
    ensures IsTextType("text") && IsTextType("TEXT") && !IsTextType("password") && !IsTextType("search")
  {
    RegexTestsFold("INPUT", "TEXT");
    RegexTestsFold("HTML:Input", "text");
    assert LowerAll("INPUT") == "input" && LowerAll("HTML:Input") == "html:input" && LowerAll("TEXT") == "text";
    assert AsciiLower("html:"[0]) != AsciiLower("input"[0]);
  }

  /**
   * The `/i` flag: two names that differ only in the case of ASCII letters get the same
   * verdict from both tests, and so does a name and its lower-case form.
   */
  lemma TestsIgnoreCase(s: string, t: string)
    requires EqualsIgnoreCase(s, t)
    ensures IsInputNodeName(s) == IsInputNodeName(t) && IsTextType(s) == IsTextType(t)
    ensures IsInputNodeName(s) == IsInputNodeName(LowerAll(s)) && IsTextType(s) == IsTextType(LowerAll(s))
  {
    assert LowerAll(s) == LowerAll(t);
    assert LowerAll(LowerAll(s)) == LowerAll(s);
    RegexTestsFold(s, s);
    RegexTestsFold(t, t);
    RegexTestsFold(LowerAll(s), LowerAll(s));
  }
}
