/** The three `escapeHtml` helpers of the site, `stripTags` and `truncate`. */
module Html {
  import opened JsStrings

  // ---------------------------------------------------------------- escaping

  /** What one character becomes under an escaper that always escapes `&`, `<` and `>`, and
      escapes U+00A0 when `nbsp` and `"` when `quot`. */
  function EscapeChar(c: char, nbsp: bool, quot: bool): string {
    if c == '&' then "&amp;"
    else if c == '<' then "&lt;"
    else if c == '>' then "&gt;"
    else if nbsp && c == '\U{00A0}' then "&nbsp;"
    else if quot && c == '"' then "&quot;"
    else [c]
  }

  /** One pass over the string, escaping each character independently. */
  function EscapeWith(s: string, nbsp: bool, quot: bool): string
    decreases |s|
  {
    if s == [] then "" else EscapeChar(s[0], nbsp, quot) + EscapeWith(s[1..], nbsp, quot)
  }

  /** The DOM `escapeHtml` (assign `textContent`, read `innerHTML`): the text-node rule of
      section 13.3 of the HTML Living Standard, which replaces `&`, U+00A0, `<` and `>`
      and leaves `"` alone. */
  function EscapeText(s: string): string {
    EscapeWith(s, true, false)
  }

  /** `s.replace(/c/g, rep)` for a one-character pattern. */
  function ReplaceAll(s: string, c: char, rep: string): string
    decreases |s|
  {
    if s == [] then "" else (if s[0] == c then rep else [s[0]]) + ReplaceAll(s[1..], c, rep)
  }

  /** `escapeHtml` of the public problem list: `&` first, then `<`, then `>`. */
  function EscapeMarkup(s: string): string {
    ReplaceAll(ReplaceAll(ReplaceAll(s, '&', "&amp;"), '<', "&lt;"), '>', "&gt;")
  }

  /** `escapeHtml` of the local admin page: `EscapeMarkup` followed by `"`. */
  function EscapeMarkupQuoted(s: string): string {
    ReplaceAll(EscapeMarkup(s), '"', "&quot;")
  }

  lemma {:induction false} ReplaceAllAppend(a: string, b: string, c: char, rep: string)
    ensures ReplaceAll(a + b, c, rep) == ReplaceAll(a, c, rep) + ReplaceAll(b, c, rep)
    decreases |a|
  {
    if a == [] {
      assert a + b == b;
    } else {
      assert (a + b)[1..] == a[1..] + b;
      ReplaceAllAppend(a[1..], b, c, rep);
    }
  }

  lemma {:induction false} ReplaceAllAbsent(s: string, c: char, rep: string)
    requires c !in s
    ensures ReplaceAll(s, c, rep) == s
    decreases |s|
  {
    if s != [] {
      ReplaceAllAbsent(s[1..], c, rep);
      HeadTail(s);
    }
  }

  lemma ReplaceAllOne(c: char, x: char, rep: string)
    ensures ReplaceAll([c], x, rep) == if c == x then rep else [c]
  {
    assert [c][1..] == [];
  }

  /** On a single character the chain of replacements writes the character's entity. */
  lemma EscapeMarkupOnChar(c: char)
    ensures EscapeMarkup([c]) == EscapeChar(c, false, false)
  {
    if c == '&' {
      EscapeMarkupOnAmp(c);
    } else {
      ReplaceAllOne(c, '&', "&amp;");
      EscapeMarkupAfterAmp(c);
    }
  }

  lemma EscapeMarkupOnAmp(c: char)
    requires c == '&'
    ensures EscapeMarkup([c]) == "&amp;"
  {
    var e := ReplaceAll([c], '&', "&amp;");
    assert e == "&amp;" by { ReplaceAllOne(c, '&', "&amp;"); }
    assert '<' !in e && '>' !in e by { AmpHasNoMarkup(); }
    ReplaceAllAbsent(e, '<', "&lt;");
    ReplaceAllAbsent(e, '>', "&gt;");
  }

  lemma AmpHasNoMarkup()
    ensures '<' !in "&amp;" && '>' !in "&amp;"
  {
  }

  lemma EscapeMarkupAfterAmp(c: char)
    requires c != '&'
    ensures ReplaceAll(ReplaceAll([c], '<', "&lt;"), '>', "&gt;") == EscapeChar(c, false, false)
  {
    ReplaceAllOne(c, '<', "&lt;");
    if c == '<' {
      ReplaceAllAbsent("&lt;", '>', "&gt;");
    } else {
      ReplaceAllOne(c, '>', "&gt;");
    }
  }

  lemma EscapeMarkupQuotedOnChar(c: char)
    ensures EscapeMarkupQuoted([c]) == EscapeChar(c, false, true)
  {
    EscapeMarkupOnChar(c);
    var m := EscapeMarkup([c]);
    if c == '&' || c == '<' || c == '>' {
      assert '"' !in m;
      ReplaceAllAbsent(m, '"', "&quot;");
    } else {
      assert m == [c];
      ReplaceAllOne(c, '"', "&quot;");
    }
  }

  /** The sequence of replacements in `EscapeMarkup` is the one-pass escaper: replacing `&`
      first means no entity written later is escaped again. */
  lemma {:induction false} EscapeMarkupIsOnePass(s: string)
    ensures EscapeMarkup(s) == EscapeWith(s, false, false)
    decreases |s|
  {
    if s != [] {
      var head, tail := [s[0]], s[1..];
      assert s == head + tail;
      var a1 := ReplaceAll(head, '&', "&amp;");
      var a2 := ReplaceAll(tail, '&', "&amp;");
      ReplaceAllAppend(head, tail, '&', "&amp;");
      var b1 := ReplaceAll(a1, '<', "&lt;");
      var b2 := ReplaceAll(a2, '<', "&lt;");
      ReplaceAllAppend(a1, a2, '<', "&lt;");
      ReplaceAllAppend(b1, b2, '>', "&gt;");
      EscapeMarkupIsOnePass(tail);
      EscapeMarkupOnChar(s[0]);
    }
  }

  /** The same for the quoting variant of the local admin page. */
  lemma {:induction false} EscapeMarkupQuotedIsOnePass(s: string)
    ensures EscapeMarkupQuoted(s) == EscapeWith(s, false, true)
    decreases |s|
  {
    if s != [] {
      var head, tail := [s[0]], s[1..];
      assert s == head + tail;
      var a1 := ReplaceAll(head, '&', "&amp;");
      var a2 := ReplaceAll(tail, '&', "&amp;");
      ReplaceAllAppend(head, tail, '&', "&amp;");
      var b1 := ReplaceAll(a1, '<', "&lt;");
      var b2 := ReplaceAll(a2, '<', "&lt;");
      ReplaceAllAppend(a1, a2, '<', "&lt;");
      var c1 := ReplaceAll(b1, '>', "&gt;");
      var c2 := ReplaceAll(b2, '>', "&gt;");
      ReplaceAllAppend(b1, b2, '>', "&gt;");
      ReplaceAllAppend(c1, c2, '"', "&quot;");
      EscapeMarkupQuotedIsOnePass(tail);
      EscapeMarkupQuotedOnChar(s[0]);
    }
  }

  /** Escaped text holds no `<` or `>`, so it cannot open or close an element; with `quot`
      it holds no `"` either, so it cannot end an attribute value. */
  lemma {:induction false} EscapedHasNoMarkup(s: string, nbsp: bool, quot: bool)
    ensures '<' !in EscapeWith(s, nbsp, quot) && '>' !in EscapeWith(s, nbsp, quot)
    ensures quot ==> '"' !in EscapeWith(s, nbsp, quot)
    decreases |s|
  {
    if s != [] {
      assert EscapeWith(s, nbsp, quot) == EscapeChar(s[0], nbsp, quot) + EscapeWith(s[1..], nbsp, quot);
      EscapeCharHasNoMarkup(s[0], nbsp, quot);
      EscapedHasNoMarkup(s[1..], nbsp, quot);
    }
  }

  lemma EscapeCharHasNoMarkup(c: char, nbsp: bool, quot: bool)
    ensures '<' !in EscapeChar(c, nbsp, quot) && '>' !in EscapeChar(c, nbsp, quot)
    ensures quot ==> '"' !in EscapeChar(c, nbsp, quot)
  {
  }

  /** The DOM escaper keeps every `"`: its output is not safe inside a quoted attribute. */
  lemma {:induction false} EscapeTextKeepsQuote(s: string)
    requires '"' in s
    ensures '"' in EscapeText(s)
    decreases |s|
  {
    var rest := EscapeWith(s[1..], true, false);
    assert EscapeText(s) == EscapeChar(s[0], true, false) + rest;
    if s[0] == '"' {
      assert EscapeChar(s[0], true, false) == "\"";
    } else {
      assert '"' in s[1..];
      EscapeTextKeepsQuote(s[1..]);
      assert '"' in rest;
    }
  }

  /** Decoding of the five entities the escapers write. */
  function Unescape(s: string): string
    decreases |s|
  {
    if s == [] then ""
    else if "&amp;" <= s then "&" + Unescape(s[5..])
    else if "&lt;" <= s then "<" + Unescape(s[4..])
    else if "&gt;" <= s then ">" + Unescape(s[4..])
    else if "&nbsp;" <= s then "\U{00A0}" + Unescape(s[6..])
    else if "&quot;" <= s then "\"" + Unescape(s[6..])
    else [s[0]] + Unescape(s[1..])
  }

  lemma UnescapeStep(c: char, nbsp: bool, quot: bool, rest: string)
    ensures Unescape(EscapeChar(c, nbsp, quot) + rest) == [c] + Unescape(rest)
  {
    var e := EscapeChar(c, nbsp, quot);
    var s := e + rest;
    if e == [c] {
      assert s[0] == c && s[1..] == rest;
    } else {
      assert s[|e|..] == rest;
      assert s[0] == '&';
      if c == '&' {
        assert "&amp;" <= s;
      } else if c == '<' {
        assert s[1] == 'l' && "&lt;" <= s;
      } else if c == '>' {
        assert s[1] == 'g' && "&gt;" <= s;
      } else if c == '\U{00A0}' {
        assert s[1] == 'n' && "&nbsp;" <= s;
      } else {
        assert s[1] == 'q' && "&quot;" <= s;
      }
    }
  }

  /** Escaping loses nothing: decoding the entities gives the original text back, for all
      three escapers. */
  lemma {:induction false} UnescapeEscape(s: string, nbsp: bool, quot: bool)
    ensures Unescape(EscapeWith(s, nbsp, quot)) == s
    decreases |s|
  {
    if s != [] {
      UnescapeStep(s[0], nbsp, quot, EscapeWith(s[1..], nbsp, quot));
      UnescapeEscape(s[1..], nbsp, quot);
      HeadTail(s);
    }
  }

  // ---------------------------------------------------------------- attribute values

  /** The text before the first `c` (all of `s` when there is none). */
  function TakeUntil(s: string, c: char): (r: string)
    ensures r <= s && c !in r
    ensures |r| < |s| ==> s[|r|] == c
    decreases |s|
  {
    if s == [] || s[0] == c then "" else [s[0]] + TakeUntil(s[1..], c)
  }

  /** The value an HTML parser reads for an attribute written `value="markup"`: the markup
      up to the first `"`, with its character references decoded. */
  function QuotedAttributeValue(markup: string): string {
    Unescape(TakeUntil(markup, '"'))
  }

  /** Escaped text keeps every `"` where it was, so its cut at the first `"` is the escape
      of the original's cut. */
  lemma {:induction false} TakeUntilEscapeText(s: string)
    ensures TakeUntil(EscapeText(s), '"') == EscapeText(TakeUntil(s, '"'))
    decreases |s|
  {
    if s != [] {
      var e := EscapeChar(s[0], true, false);
      var rest := EscapeWith(s[1..], true, false);
      assert EscapeText(s) == e + rest;
      if s[0] == '"' {
        assert e == "\"";
      } else {
        assert '"' !in e;
        TakeUntilEscapeText(s[1..]);
        TakeUntilPrefix(e, rest, '"');
      }
    }
  }

  lemma {:induction false} TakeUntilPrefix(a: string, b: string, c: char)
    requires c !in a
    ensures TakeUntil(a + b, c) == a + TakeUntil(b, c)
    decreases |a|
  {
    if a != [] {
      assert (a + b)[1..] == a[1..] + b;
      TakeUntilPrefix(a[1..], b, c);
    } else {
      assert a + b == b;
    }
  }

  lemma TakeUntilAbsent(s: string, c: char)
    requires c !in s
    ensures TakeUntil(s, c) == s
  {
    TakeUntilPrefix(s, "", c);
    assert s + "" == s;
  }

  /** A value escaped by the DOM escaper and placed in a quoted attribute reads back cut at
      its first `"`. */
  lemma AttributeOfEscapeText(s: string)
    ensures QuotedAttributeValue(EscapeText(s)) == TakeUntil(s, '"')
  {
    TakeUntilEscapeText(s);
    UnescapeEscape(TakeUntil(s, '"'), true, false);
  }

  /** The DOM escaper with `"` escaped as well. */
  function EscapeAttribute(s: string): string {
    EscapeWith(s, true, true)
  }

  /** A value escaped with `"` escaped as well reads back whole from a quoted attribute. */
  lemma AttributeOfEscapeAttribute(s: string)
    ensures QuotedAttributeValue(EscapeAttribute(s)) == s
  {
    EscapedHasNoMarkup(s, true, true);
    TakeUntilAbsent(EscapeAttribute(s), '"');
    UnescapeEscape(s, true, true);
  }

  // ---------------------------------------------------------------- stripTags

  /** Position of the first `>` in `s`, or `|s|` when there is none. */
  function IndexOfClose(s: string): (k: nat)
    ensures k <= |s|
    ensures forall i :: 0 <= i < k ==> s[i] != '>'
    ensures k < |s| ==> s[k] == '>'
    decreases |s|
  {
    if s == [] then 0 else if s[0] == '>' then 0 else 1 + IndexOfClose(s[1..])
  }

  /** No tag left: every `<` is the last character or is directly followed by `>`. */
  predicate TagFree(s: string) {
    forall i :: 0 <= i < |s| && s[i] == '<' ==> i + 1 == |s| || s[i + 1] == '>'
  }

  /** `s.replace(/<\/?[^>]+(>|$)/g, "")`: from each `<` followed by at least one character
      other than `>`, everything up to and including the next `>` (or to the end of the
      string when there is none) is removed; everything else is kept in order. */
  function StripTags(s: string): (r: string)
    ensures |r| <= |s|
    ensures TagFree(r)
    ensures s != [] && s[0] != '<' ==> r != [] && r[0] == s[0]
    decreases |s|
  {
    if s == [] then ""
    else if s[0] == '<' && |s| >= 2 && s[1] != '>' then
      var k := IndexOfClose(s[1..]);
      if k == |s| - 1 then "" else StripTags(s[k + 2..])
    else
      var rest := StripTags(s[1..]);
      assert s[0] == '<' ==> |s| == 1 || (s[1] == '>' && rest != [] && rest[0] == '>');
      [s[0]] + rest
  }

  /** A string without tags is left alone, so stripping twice is stripping once. */
  lemma {:induction false} StripTagsFixesTagFree(s: string)
    requires TagFree(s)
    ensures StripTags(s) == s
    decreases |s|
  {
    if s != [] {
      assert TagFree(s[1..]) by {
        forall i | 0 <= i < |s[1..]| && s[1..][i] == '<'
          ensures i + 1 == |s[1..]| || s[1..][i + 1] == '>'
        {
          assert s[i + 1] == '<';
        }
      }
      StripTagsFixesTagFree(s[1..]);
      HeadTail(s);
    }
  }

  lemma StripTagsIdempotent(s: string)
    ensures StripTags(StripTags(s)) == StripTags(s)
  {
    StripTagsFixesTagFree(StripTags(s));
  }

  lemma {:induction false} StripTagsKeepsPlainPrefix(a: string, b: string)
    requires '<' !in a
    ensures StripTags(a + b) == a + StripTags(b)
    decreases |a|
  {
    if a == [] {
      assert a + b == b;
    } else {
      assert (a + b)[1..] == a[1..] + b;
      StripTagsKeepsPlainPrefix(a[1..], b);
    }
  }

  /** A complete tag at the start disappears with its brackets. */
  lemma StripTagsAtTag(t: string, b: string)
    requires t != [] && '>' !in t
    ensures StripTags("<" + t + ">" + b) == StripTags(b)
  {
    var s := "<" + t + ">" + b;
    var k := IndexOfClose(s[1..]);
    assert k == |t| by {
      assert s[1..] == t + ">" + b;
      assert forall i :: 0 <= i < |t| ==> s[1..][i] == t[i];
      IndexOfCloseAt(s[1..], |t|);
    }
    assert s[0] == '<' && |s| >= 2 && s[1] != '>' by {
      assert s[1] == t[0];
    }
    assert s[k + 2..] == b;
  }

  /** A complete tag between plain text disappears with its brackets. */
  lemma StripTagsRemovesTag(a: string, t: string, b: string)
    requires '<' !in a
    requires t != [] && '>' !in t
    ensures StripTags(a + "<" + t + ">" + b) == a + StripTags(b)
  {
    var s := "<" + t + ">" + b;
    assert a + "<" + t + ">" + b == a + s;
    StripTagsKeepsPlainPrefix(a, s);
    StripTagsAtTag(t, b);
  }

  lemma IndexOfCloseAt(s: string, k: nat)
    requires k < |s| && s[k] == '>'
    requires forall i :: 0 <= i < k ==> s[i] != '>'
    ensures IndexOfClose(s) == k
  {
  }

  /** A tag that is still open at the end of the string is removed up to the end. */
  lemma StripTagsRemovesUnterminated(a: string, t: string)
    requires '<' !in a
    requires t != [] && t[0] != '>' && '>' !in t
    ensures StripTags(a + "<" + t) == a
  {
    var s := "<" + t;
    assert a + "<" + t == a + s;
    StripTagsKeepsPlainPrefix(a, s);
    StripTagsAtUnterminated(t);
  }

  /** A tag still open at the end of the string, starting it, leaves nothing. */
  lemma StripTagsAtUnterminated(t: string)
    requires t != [] && t[0] != '>' && '>' !in t
    ensures StripTags("<" + t) == ""
  {
    var s := "<" + t;
    assert s[1..] == t;
    assert s[0] == '<' && |s| >= 2 && s[1] != '>';
    assert IndexOfClose(t) == |t|;
  }

  // ---------------------------------------------------------------- truncate

  const Ellipsis: string := "…"

  /** `truncate(s, n)` of the public problem list: `s` when it has at most `n` characters,
      otherwise `s.slice(0, n - 1)` followed by an ellipsis. */
  function Truncate(s: string, n: int): (r: string)
    ensures n >= 1 ==> |r| <= n
    ensures |s| <= n ==> r == s
    ensures |s| > n >= 1 ==> r == s[..n - 1] + Ellipsis
  {
    if s == [] then "" else if |s| > n then Slice(s, 0, n - 1) + Ellipsis else s
  }

  /** The ellipsis `truncate` of the local admin page appends: the UTF-8 bytes of U+2026
      read as Windows-1252, three characters. */
  const MisencodedEllipsis: string := "â€¦"

  /** `truncate` of the local admin page as written, with the misencoded ellipsis. */
  function TruncateMisencoded(s: string, n: int): (r: string)
    ensures |s| <= n ==> r == s
    ensures |s| > n >= 1 ==> r == s[..n - 1] + MisencodedEllipsis
  {
    if s == [] then "" else if |s| > n then Slice(s, 0, n - 1) + MisencodedEllipsis else s
  }

  /** As written, every shortened snippet is two characters longer than the limit. */
  lemma TruncateMisencodedOverflows(s: string, n: int)
    requires |s| > n >= 1
    ensures |TruncateMisencoded(s, n)| == n + 2
    ensures TruncateMisencoded(s, n) != Truncate(s, n)
  {
  }
}
