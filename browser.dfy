/** How the browser reads the value of a form control back from the markup the editors
    write: the parser's newline normalisation, where a textarea's text ends, the decoding of
    character references, and the value sanitization of text and number inputs (HTML Living
    Standard). */
module Browser {
  import opened JsStrings
  import opened Html

  // ---------------------------------------------------------------- line breaks

  /** Newline normalisation of the input stream (section 13.2.3.5 of the HTML Living
      Standard): CR LF and a lone CR both become LF. */
  function NormalizeNewlines(s: string): (r: string)
    ensures '\r' !in r
    decreases |s|
  {
    if s == [] then ""
    else if s[0] == '\r' then
      "\n" + NormalizeNewlines(if |s| > 1 && s[1] == '\n' then s[2..] else s[1..])
    else [s[0]] + NormalizeNewlines(s[1..])
  }

  /** Text without a CR goes through the normalisation unchanged. */
  lemma {:induction false} NormalizeNewlinesKeepsPlain(s: string)
    requires '\r' !in s
    ensures NormalizeNewlines(s) == s
    decreases |s|
  {
    if s != [] {
      NormalizeNewlinesKeepsPlain(s[1..]);
      HeadTail(s);
    }
  }

  /** Normalisation is idempotent. */
  lemma NormalizeNewlinesIdempotent(s: string)
    ensures NormalizeNewlines(NormalizeNewlines(s)) == NormalizeNewlines(s)
  {
    NormalizeNewlinesKeepsPlain(NormalizeNewlines(s));
  }

  /** A prefix without a CR is kept as it is in front of the normalised rest. */
  lemma {:induction false} NormalizeNewlinesPrefix(a: string, b: string)
    requires '\r' !in a
    ensures NormalizeNewlines(a + b) == a + NormalizeNewlines(b)
    decreases |a|
  {
    if a == [] {
      assert a + b == b;
    } else {
      assert (a + b)[0] == a[0] && (a + b)[1..] == a[1..] + b;
      NormalizeNewlinesPrefix(a[1..], b);
      HeadTail(a);
      AppendAssoc([a[0]], a[1..], NormalizeNewlines(b));
    }
  }

  /** Escaping never writes a CR or an LF of its own. */
  lemma EscapeCharLineBreaks(c: char, nbsp: bool, quot: bool)
    ensures '\r' in EscapeChar(c, nbsp, quot) <==> c == '\r'
    ensures '\n' in EscapeChar(c, nbsp, quot) <==> c == '\n'
    ensures c == '\r' || c == '\n' ==> EscapeChar(c, nbsp, quot) == [c]
  {
  }

  /** Escaping and newline normalisation commute: the escapers leave CR and LF alone. */
  lemma {:induction false} NormalizeEscaped(s: string, nbsp: bool, quot: bool)
    ensures NormalizeNewlines(EscapeWith(s, nbsp, quot)) == EscapeWith(NormalizeNewlines(s), nbsp, quot)
    decreases |s|
  {
    if s != [] {
      var rest := if s[0] == '\r' && |s| > 1 && s[1] == '\n' then s[2..] else s[1..];
      if s[0] == '\r' {
        EscapeCharLineBreaks('\r', nbsp, quot);
        var tail := EscapeWith(rest, nbsp, quot);
        if |s| > 1 && s[1] == '\n' {
          EscapeCharLineBreaks('\n', nbsp, quot);
          assert EscapeWith(s[1..], nbsp, quot) == "\n" + tail;
          assert EscapeWith(s, nbsp, quot) == "\r\n" + tail;
          assert ("\r\n" + tail)[2..] == tail;
        } else {
          assert EscapeWith(s, nbsp, quot) == "\r" + tail;
          assert ("\r" + tail)[1..] == tail;
          assert ("\r" + tail)[0] == '\r';
          assert |"\r" + tail| > 1 ==> ("\r" + tail)[1] != '\n' by {
            if |"\r" + tail| > 1 {
              assert s[1..] != [] && s[1] != '\n';
              EscapeCharLineBreaks(s[1], nbsp, quot);
              assert tail == EscapeChar(s[1], nbsp, quot) + EscapeWith(s[2..], nbsp, quot);
              assert EscapeChar(s[1], nbsp, quot) != [] && EscapeChar(s[1], nbsp, quot)[0] != '\n';
            }
          }
        }
        NormalizeEscaped(rest, nbsp, quot);
        assert NormalizeNewlines(s) == "\n" + NormalizeNewlines(rest);
        EscapeCharLineBreaks('\n', nbsp, quot);
        assert EscapeWith("\n" + NormalizeNewlines(rest), nbsp, quot)
            == "\n" + EscapeWith(NormalizeNewlines(rest), nbsp, quot) by {
          assert ("\n" + NormalizeNewlines(rest))[1..] == NormalizeNewlines(rest);
        }
      } else {
        var e := EscapeChar(s[0], nbsp, quot);
        EscapeCharLineBreaks(s[0], nbsp, quot);
        NormalizeNewlinesPrefix(e, EscapeWith(s[1..], nbsp, quot));
        NormalizeEscaped(s[1..], nbsp, quot);
        assert NormalizeNewlines(s) == [s[0]] + NormalizeNewlines(s[1..]);
        assert ([s[0]] + NormalizeNewlines(s[1..]))[1..] == NormalizeNewlines(s[1..]);
      }
    }
  }

  /** The line-break stripping of a text input's value sanitization (section
      4.10.5.1.2 of the HTML Living Standard): every LF and CR is removed. */
  function StripNewlines(s: string): (r: string)
    ensures '\n' !in r && '\r' !in r
    ensures |r| <= |s|
    decreases |s|
  {
    if s == [] then ""
    else (if s[0] == '\n' || s[0] == '\r' then "" else [s[0]]) + StripNewlines(s[1..])
  }

  /** Text without line breaks is kept whole. */
  lemma {:induction false} StripNewlinesKeepsPlain(s: string)
    requires '\n' !in s && '\r' !in s
    ensures StripNewlines(s) == s
    decreases |s|
  {
    if s != [] {
      StripNewlinesKeepsPlain(s[1..]);
      HeadTail(s);
    }
  }

  /** Stripping a string that starts with `c`. */
  lemma StripCons(c: char, t: string)
    ensures StripNewlines([c] + t) == (if c == '\n' || c == '\r' then "" else [c]) + StripNewlines(t)
  {
    assert ([c] + t)[1..] == t;
  }

  /** Cutting a string that starts with a character other than `"`. */
  lemma CutCons(c: char, t: string)
    requires c != '"'
    ensures TakeUntil([c] + t, '"') == [c] + TakeUntil(t, '"')
  {
    assert ([c] + t)[1..] == t;
  }

  /** Stripping after normalising is stripping: both remove every line break. */
  lemma {:induction false} StripNormalizedCut(s: string)
    ensures StripNewlines(TakeUntil(NormalizeNewlines(s), '"')) == StripNewlines(TakeUntil(s, '"'))
    decreases |s|
  {
    if s != [] {
      if s[0] == '\r' {
        var rest := if |s| > 1 && s[1] == '\n' then s[2..] else s[1..];
        var n := NormalizeNewlines(rest);
        assert NormalizeNewlines(s) == "\n" + n;
        CutCons('\n', n);
        StripCons('\n', TakeUntil(n, '"'));
        StripNormalizedCut(rest);
        assert TakeUntil(s, '"') == "\r" + TakeUntil(s[1..], '"') by {
          HeadTail(s);
          CutCons('\r', s[1..]);
        }
        StripCons('\r', TakeUntil(s[1..], '"'));
        if |s| > 1 && s[1] == '\n' {
          assert TakeUntil(s[1..], '"') == "\n" + TakeUntil(s[2..], '"') by {
            assert [s[1]] + s[2..] == s[1..];
            CutCons('\n', s[2..]);
          }
          StripCons('\n', TakeUntil(s[2..], '"'));
        }
      } else if s[0] == '"' {
        assert NormalizeNewlines(s)[0] == '"';
      } else {
        var n := NormalizeNewlines(s[1..]);
        assert NormalizeNewlines(s) == [s[0]] + n;
        CutCons(s[0], n);
        assert TakeUntil(s, '"') == [s[0]] + TakeUntil(s[1..], '"') by {
          HeadTail(s);
          CutCons(s[0], s[1..]);
        }
        StripNormalizedCut(s[1..]);
        StripCons(s[0], TakeUntil(n, '"'));
        StripCons(s[0], TakeUntil(s[1..], '"'));
      }
    }
  }

  // ---------------------------------------------------------------- textareas

  /** A character that ends an end tag's name. */
  predicate EndsTagName(c: char) {
    c == '\t' || c == '\n' || c == '\U{000C}' || c == ' ' || c == '/' || c == '>'
  }

  /** Whether `s` starts with the end tag that closes a textarea's text: `</textarea` in any
      ASCII case, then white space, `/` or `>` (sections 13.2.5.11 to 13.2.5.13 of
      the HTML Living Standard). */
  predicate EndTagAhead(s: string) {
    |s| > 10 && ToLower(s[..10]) == "</textarea" && EndsTagName(s[10])
  }

  /** The text of a textarea: its markup up to the end tag that closes it. */
  function TextareaText(s: string): (r: string)
    ensures r <= s
    decreases |s|
  {
    if s == [] || EndTagAhead(s) then "" else [s[0]] + TextareaText(s[1..])
  }

  /** Markup without a `<` holds no end tag: all of it is the textarea's text. */
  lemma {:induction false} TextareaTextKeepsPlain(s: string)
    requires '<' !in s
    ensures TextareaText(s) == s
    decreases |s|
  {
    if s != [] {
      assert !EndTagAhead(s) by {
        if |s| > 10 {
          assert ToLower(s[..10])[0] == LowerChar(s[0]) != '<';
        }
      }
      TextareaTextKeepsPlain(s[1..]);
      HeadTail(s);
    }
  }

  /** The first LF, dropped when it comes right after a textarea's start tag (section
      13.2.6.4.7 of the HTML Living Standard, the "textarea" start tag). */
  function DropLeadingNewline(s: string): (r: string)
    ensures s != [] && s[0] == '\n' ==> r == s[1..]
    ensures s == [] || s[0] != '\n' ==> r == s
  {
    if s != [] && s[0] == '\n' then s[1..] else s
  }

  /** The value of a textarea written as `<textarea …>markup</textarea>`: the normalised
      markup up to the end tag, its character references decoded, without one leading LF. */
  function TextareaValue(markup: string): string {
    DropLeadingNewline(Unescape(TextareaText(NormalizeNewlines(markup))))
  }

  /** Content escaped with the DOM escaper, `"` escaped or not, comes back from a textarea
      normalised and without its leading LF, and otherwise whole. */
  lemma TextareaValueOfEscaped(c: string, quot: bool)
    ensures TextareaValue(EscapeWith(c, true, quot)) == DropLeadingNewline(NormalizeNewlines(c))
  {
    NormalizeEscaped(c, true, quot);
    var e := EscapeWith(NormalizeNewlines(c), true, quot);
    EscapedHasNoMarkup(NormalizeNewlines(c), true, quot);
    TextareaTextKeepsPlain(e);
    UnescapeEscape(NormalizeNewlines(c), true, quot);
  }

  /** Markup with no `<`, `&` or CR, and no leading LF, is a textarea's value as it is. */
  lemma TextareaValueOfPlain(s: string)
    requires '<' !in s && '&' !in s && '\r' !in s && (s == [] || s[0] != '\n')
    ensures TextareaValue(s) == s
  {
    NormalizeNewlinesKeepsPlain(s);
    TextareaTextKeepsPlain(s);
    UnescapeKeepsPlain(s);
  }

  /** Text without `&` has nothing to decode. */
  lemma {:induction false} UnescapeKeepsPlain(s: string)
    requires '&' !in s
    ensures Unescape(s) == s
    decreases |s|
  {
    if s != [] {
      UnescapeKeepsPlain(s[1..]);
      HeadTail(s);
    }
  }

  /** A leading LF is lost: the text `"\nx"` comes back as `"x"`. */
  lemma TextareaDropsLeadingNewline()
    ensures TextareaValue(EscapeText("\nx")) == "x"
  {
    TextareaValueOfEscaped("\nx", false);
    NormalizeNewlinesKeepsPlain("\nx");
  }

  // ---------------------------------------------------------------- inputs

  /** The value of an `<input>` of type text (the type of an input written without one)
      whose markup has `value="markup"`: the attribute's value with line breaks stripped. */
  function TextInputValue(markup: string): (r: string)
    ensures '\n' !in r && '\r' !in r
  {
    StripNewlines(QuotedAttributeValue(NormalizeNewlines(markup)))
  }

  /** A value escaped with the DOM escaper comes back from a text input cut at its first
      `"` and without line breaks. */
  lemma TextInputValueOfEscapeText(u: string)
    ensures TextInputValue(EscapeText(u)) == StripNewlines(TakeUntil(u, '"'))
  {
    NormalizeEscaped(u, true, false);
    AttributeOfEscapeText(NormalizeNewlines(u));
    StripNormalizedCut(u);
  }

  /** A value escaped for an attribute comes back from a text input whole, line breaks
      aside. */
  lemma TextInputValueOfEscapeAttribute(u: string)
    ensures TextInputValue(EscapeAttribute(u)) == StripNewlines(NormalizeNewlines(u))
  {
    NormalizeEscaped(u, true, true);
    AttributeOfEscapeAttribute(NormalizeNewlines(u));
  }

  /** Markup without `"`, `&` or line breaks is a text input's value as it is. */
  lemma TextInputValueOfPlain(s: string)
    requires '"' !in s && '&' !in s && '\n' !in s && '\r' !in s
    ensures TextInputValue(s) == s
  {
    NormalizeNewlinesKeepsPlain(s);
    TakeUntilAbsent(s, '"');
    UnescapeKeepsPlain(s);
    StripNewlinesKeepsPlain(s);
  }

  /** An ASCII digit. */
  predicate IsDigit(c: char) {
    '0' <= c <= '9'
  }

  /** Only digits. */
  predicate AllDigits(s: string) {
    forall i :: 0 <= i < |s| ==> IsDigit(s[i])
  }

  /** The decimal digits a run of `DigitRun` covers. */
  lemma {:induction false} DigitRunDigits(s: string)
    ensures AllDigits(s[..DigitRun(s, 10)])
    decreases |s|
  {
    if s != [] && DigitValue(s[0]) < 10 {
      DigitRunDigits(s[1..]);
      assert forall i :: 1 <= i < DigitRun(s, 10) ==> s[..DigitRun(s, 10)][i] == s[1..][..DigitRun(s[1..], 10)][i - 1];
    }
  }

  /** The optional exponent of a floating-point number: `e` or `E`, an optional sign, then
      one or more digits. */
  predicate ValidExponent(r: string) {
    r == [] ||
    ((r[0] == 'e' || r[0] == 'E') &&
     var u := if |r| > 1 && (r[1] == '-' || r[1] == '+') then r[2..] else r[1..];
     u != [] && DigitRun(u, 10) == |u|)
  }

  /** A valid floating-point number (section 2.3.4.3 of the HTML Living Standard): an
      optional `-`, digits, an optional `.` followed by one or more digits, at least one
      digit before the exponent, and an optional exponent. */
  predicate ValidFloat(s: string) {
    var t := if s != [] && s[0] == '-' then s[1..] else s;
    var a := DigitRun(t, 10);
    var r := t[a..];
    if r != [] && r[0] == '.' then
      var b := DigitRun(r[1..], 10);
      b >= 1 && ValidExponent(r[1..][b..])
    else a >= 1 && ValidExponent(r)
  }

  /** A character a valid floating-point number can hold. */
  predicate FloatChar(c: char) {
    IsDigit(c) || c == '-' || c == '+' || c == '.' || c == 'e' || c == 'E'
  }

  predicate FloatChars(s: string) {
    forall i :: 0 <= i < |s| ==> FloatChar(s[i])
  }

  lemma FloatCharsJoin(s: string, k: nat)
    requires k <= |s| && FloatChars(s[..k]) && FloatChars(s[k..])
    ensures FloatChars(s)
  {
    forall i | 0 <= i < |s|
      ensures FloatChar(s[i])
    {
      if i < k {
        assert s[..k][i] == s[i];
      } else {
        assert s[k..][i - k] == s[i];
      }
    }
  }

  lemma ExponentChars(r: string)
    requires ValidExponent(r)
    ensures FloatChars(r)
  {
    if r != [] {
      var k := if |r| > 1 && (r[1] == '-' || r[1] == '+') then 2 else 1;
      var u := r[k..];
      DigitRunDigits(u);
      assert u[..DigitRun(u, 10)] == u;
      assert FloatChars(r[..k]);
      FloatCharsJoin(r, k);
    }
  }

  /** A valid floating-point number is made of digits, signs, `.`, `e` and `E` only. */
  lemma ValidFloatChars(s: string)
    requires ValidFloat(s)
    ensures FloatChars(s)
  {
    var k := if s != [] && s[0] == '-' then 1 else 0;
    var t := s[k..];
    var a := DigitRun(t, 10);
    var r := t[a..];
    DigitRunDigits(t);
    if r != [] && r[0] == '.' {
      var d := r[1..];
      var b := DigitRun(d, 10);
      DigitRunDigits(d);
      ExponentChars(d[b..]);
      FloatCharsJoin(d, b);
      assert r[..1] == ".";
      assert r[1..] == d;
      FloatCharsJoin(r, 1);
    } else {
      ExponentChars(r);
    }
    FloatCharsJoin(t, a);
    assert FloatChars(s[..k]);
    assert s[k..] == t;
    FloatCharsJoin(s, k);
  }

  /** The value of an `<input type="number">` whose markup has `value="markup"`: the
      attribute's value when it is a valid floating-point number, "" otherwise (section
      4.10.5.1.12 of the HTML Living Standard). */
  function NumberInputValue(markup: string): (r: string)
    ensures r == "" || ValidFloat(r)
  {
    var v := QuotedAttributeValue(NormalizeNewlines(markup));
    if ValidFloat(v) then v else ""
  }

  /** A valid floating-point number is a number input's value as it is. */
  lemma NumberInputValueOfFloat(s: string)
    requires ValidFloat(s)
    ensures NumberInputValue(s) == s
  {
    assert '\r' !in s && '"' !in s && '&' !in s by {
      ValidFloatChars(s);
    }
    assert NormalizeNewlines(s) == s by {
      NormalizeNewlinesKeepsPlain(s);
    }
    assert QuotedAttributeValue(s) == s by {
      TakeUntilAbsent(s, '"');
      UnescapeKeepsPlain(s);
    }
  }

  /** A value escaped for an attribute comes back from a number input normalised when that
      is a valid floating-point number, and as "" otherwise. */
  lemma NumberInputValueOfEscapeAttribute(p: string)
    ensures var n := NormalizeNewlines(p);
      NumberInputValue(EscapeAttribute(p)) == if ValidFloat(n) then n else ""
  {
    NormalizeEscaped(p, true, true);
    AttributeOfEscapeAttribute(NormalizeNewlines(p));
  }

  /** A value that is not a number is read as "". */
  lemma NumberInputDropsText()
    ensures NumberInputValue("12a") == ""
  {
    NormalizeNewlinesKeepsPlain("12a");
    TakeUntilAbsent("12a", '"');
    UnescapeKeepsPlain("12a");
    assert DigitRun("a", 10) == 0;
    assert DigitRun("2a", 10) == 1;
    assert DigitRun("12a", 10) == 2;
    assert "12a"[2..] == "a";
  }
}
