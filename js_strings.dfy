/** The parts of JavaScript's String and Number built-ins that the site's scripts rely on:
    `trim`, `split`, `join`, `includes`, ASCII `toLowerCase`, `slice`, `String(n)` and `parseInt`.
    Strings are sequences of code points. */
module JsStrings {
  import opened Wrappers

  // ---------------------------------------------------------------- whitespace and trim

  /** The WhiteSpace and LineTerminator code points of ECMAScript: what `trim` removes and
      what `parseInt` skips before the number. */
  predicate IsJsSpace(c: char) {
    || c == '\t' || c == '\n' || c == '\U{000B}' || c == '\U{000C}' || c == '\r' || c == ' '
    || c == '\U{00A0}' || c == '\U{1680}' || ('\U{2000}' <= c <= '\U{200A}')
    || c == '\U{2028}' || c == '\U{2029}' || c == '\U{202F}' || c == '\U{205F}'
    || c == '\U{3000}' || c == '\U{FEFF}'
  }

  predicate AllSpace(s: string) {
    forall i :: 0 <= i < |s| ==> IsJsSpace(s[i])
  }

  /** A string that `trim` leaves as it is. */
  predicate IsTrimmed(s: string) {
    s == [] || (!IsJsSpace(s[0]) && !IsJsSpace(s[|s| - 1]))
  }

  /** Drops leading white space: the result is a suffix, everything dropped was white space,
      and the result does not start with white space. */
  function TrimStart(s: string): (r: string)
    ensures |r| <= |s| && r == s[|s| - |r|..]
    ensures r != [] ==> !IsJsSpace(r[0])
    ensures AllSpace(s[..|s| - |r|])
    decreases |s|
  {
    if s != [] && IsJsSpace(s[0]) then
      var r := TrimStart(s[1..]);
      assert forall i :: 1 <= i < |s| - |r| ==> s[i] == s[1..][..|s| - 1 - |r|][i - 1];
      r
    else s
  }

  /** Drops trailing white space: the result is a prefix, everything dropped was white space,
      and the result does not end with white space. */
  function TrimEnd(s: string): (r: string)
    ensures |r| <= |s| && r == s[..|r|]
    ensures r != [] ==> !IsJsSpace(r[|r| - 1])
    ensures AllSpace(s[|r|..])
    decreases |s|
  {
    if s != [] && IsJsSpace(s[|s| - 1]) then
      var r := TrimEnd(s[..|s| - 1]);
      assert forall i :: |r| <= i < |s| - 1 ==> s[i] == s[..|s| - 1][|r|..][i - |r|];
      r
    else s
  }

  /** `s.trim()`. */
  function Trim(s: string): (r: string)
    ensures IsTrimmed(r)
    ensures |r| <= |s|
  {
    TrimEnd(TrimStart(s))
  }

  /** `trim` removes characters and adds none: a character absent from `s` is absent from
      the result. */
  lemma TrimAddsNothing(s: string, c: char)
    requires c !in s
    ensures c !in Trim(s)
  {
    var a := TrimStart(s);
    assert c !in a;
  }

  lemma {:induction false} TrimStartAllSpace(pad: string, t: string)
    requires AllSpace(pad)
    requires t == [] || !IsJsSpace(t[0])
    ensures TrimStart(pad + t) == t
    decreases |pad|
  {
    if pad != [] {
      assert (pad + t)[1..] == pad[1..] + t;
      TrimStartAllSpace(pad[1..], t);
    } else {
      assert pad + t == t;
    }
  }

  /** White space in front of a trimmed string is all that `trim` removes. */
  lemma TrimPadded(pad: string, t: string)
    requires AllSpace(pad)
    requires IsTrimmed(t)
    ensures Trim(pad + t) == t
  {
    TrimStartAllSpace(pad, t);
  }

  /** `trim` leaves nothing exactly when there was only white space. */
  lemma TrimBlankIffAllSpace(s: string)
    ensures Trim(s) == [] <==> AllSpace(s)
  {
    if AllSpace(s) {
      assert s == s + "";
      TrimAllSpace(s);
    }
    if Trim(s) == [] {
      var a := TrimStart(s);
      assert AllSpace(a[0..]);
      assert a == [] by {
        assert AllSpace(a);
      }
      assert s[..|s|] == s;
    }
  }

  /** `trim` leaves a trimmed string as it is. */
  lemma TrimmedFieldRoundTrip(s: string)
    requires IsTrimmed(s)
    ensures Trim(s) == s
  {
    TrimPadded("", s);
    assert "" + s == s;
  }

  // ---------------------------------------------------------------- includes, toLowerCase

  /** `s.includes(t)`. */
  predicate Contains(s: string, t: string)
    decreases |s|
  {
    t <= s || (s != [] && Contains(s[1..], t))
  }

  lemma {:induction false} ContainsAppendLeft(a: string, b: string, t: string)
    requires Contains(b, t)
    ensures Contains(a + b, t)
    decreases |a|
  {
    if a != [] {
      assert (a + b)[1..] == a[1..] + b;
      ContainsAppendLeft(a[1..], b, t);
    } else {
      assert a + b == b;
    }
  }

  lemma {:induction false} ContainsAppendRight(a: string, b: string, t: string)
    requires Contains(a, t)
    ensures Contains(a + b, t)
    decreases |a|
  {
    if t <= a {
      assert t <= a + b;
    } else {
      assert (a + b)[1..] == a[1..] + b;
      ContainsAppendRight(a[1..], b, t);
    }
  }

  /** A piece of a concatenation keeps every substring it had. */
  lemma ContainsInside(a: string, m: string, b: string, t: string)
    requires Contains(m, t)
    ensures Contains(a + m + b, t)
  {
    ContainsAppendRight(m, b, t);
    ContainsAppendLeft(a, m + b, t);
    assert a + m + b == a + (m + b);
  }

  /** The middle piece of a concatenation is contained in it. */
  lemma ContainsMiddle(a: string, m: string, b: string)
    ensures Contains(a + m + b, m)
  {
    assert m <= m;
    ContainsInside(a, m, b, m);
  }

  /** A suffix `t` of `s` with a prefix `r` of `t`: `r` sits between a prefix and a suffix
      of `s`. */
  lemma PrefixOfSuffix<T>(s: seq<T>, t: seq<T>, r: seq<T>)
    requires |t| <= |s| && t == s[|s| - |t|..] && |r| <= |t| && r == t[..|r|]
    ensures s == s[..|s| - |t|] + r + t[|r|..]
  {
    assert s == s[..|s| - |t|] + t;
    assert t == r + t[|r|..];
  }

  /** Trimming removes a prefix and a suffix. */
  lemma TrimSplits(s: string) returns (front: string, back: string)
    ensures s == front + Trim(s) + back
  {
    var t := TrimStart(s);
    var r := TrimEnd(t);
    PrefixOfSuffix(s, t, r);
    front, back := s[..|s| - |t|], t[|r|..];
  }

  /** Trimming keeps a middle piece: the trimmed string occurs in the original. */
  lemma TrimIsInside(s: string)
    ensures Contains(s, Trim(s))
  {
    var front, back := TrimSplits(s);
    ContainsMiddle(front, Trim(s), back);
  }

  /** A string that does not hold the first character of `t` does not contain `t`. */
  lemma {:induction false} NotContainsFirst(s: string, t: string)
    requires t != [] && t[0] !in s
    ensures !Contains(s, t)
    decreases |s|
  {
    if s != [] {
      assert s[0] != t[0];
      NotContainsFirst(s[1..], t);
    }
  }

  lemma {:induction false} ContainsEmpty(s: string)
    ensures Contains(s, "")
  {
    assert "" <= s;
  }

  function LowerChar(c: char): char {
    if 'A' <= c <= 'Z' then (c as int + 32) as char else c
  }

  /** `s.toLowerCase()` restricted to ASCII letters. */
  function ToLower(s: string): string {
    seq(|s|, i requires 0 <= i < |s| => LowerChar(s[i]))
  }

  // ---------------------------------------------------------------- split and join

  /** `s.split(c)` for a one-character separator: never empty, and no piece holds `c`. */
  function Split(s: string, c: char): (r: seq<string>)
    ensures |r| >= 1
    ensures forall i :: 0 <= i < |r| ==> c !in r[i]
    decreases |s|
  {
    if s == [] then [""]
    else
      var rest := Split(s[1..], c);
      if s[0] == c then [""] + rest
      else
        assert forall i :: 1 <= i < |rest| ==> c !in rest[i];
        [[s[0]] + rest[0]] + rest[1..]
  }

  /** `ts.join(sep)`. */
  function Join(ts: seq<string>, sep: string): string
    decreases |ts|
  {
    if |ts| == 0 then "" else if |ts| == 1 then ts[0] else ts[0] + sep + Join(ts[1..], sep)
  }

  /** Splitting undoes joining with the same separator: `s.split(c).join(c) == s`. */
  lemma {:induction false} JoinSplit(s: string, c: char)
    ensures Join(Split(s, c), [c]) == s
    decreases |s|
  {
    if s != [] {
      var rest := Split(s[1..], c);
      JoinSplit(s[1..], c);
      if s[0] == c {
        assert s == [c] + s[1..];
      } else {
        var r := [[s[0]] + rest[0]] + rest[1..];
        assert r[1..] == rest[1..];
        if |rest| == 1 {
          assert s == [s[0]] + rest[0];
        } else {
          assert rest[1..][1..] == rest[2..];
          assert Join(rest, [c]) == rest[0] + [c] + Join(rest[1..], [c]);
          assert s == [s[0]] + s[1..];
        }
      }
    }
  }

  lemma {:induction false} SplitFree(s: string, c: char)
    requires c !in s
    ensures Split(s, c) == [s]
    decreases |s|
  {
    if s != [] {
      SplitFree(s[1..], c);
      HeadTail(s);
    }
  }

  /** A separator splits the string in two independent halves. */
  lemma {:induction false} SplitAtSeparator(a: string, b: string, c: char)
    ensures Split(a + [c] + b, c) == Split(a, c) + Split(b, c)
    decreases |a|
  {
    if a == [] {
      assert a + [c] + b == [c] + b;
      assert ([c] + b)[1..] == b;
    } else {
      assert (a + [c] + b)[1..] == a[1..] + [c] + b;
      SplitAtSeparator(a[1..], b, c);
    }
  }

  /** Joining pieces without the separator and splitting again gives the pieces back. */
  lemma {:induction false} SplitJoin(ts: seq<string>, c: char)
    requires |ts| >= 1
    requires forall i :: 0 <= i < |ts| ==> c !in ts[i]
    ensures Split(Join(ts, [c]), c) == ts
    decreases |ts|
  {
    if |ts| == 1 {
      SplitFree(ts[0], c);
    } else {
      SplitAtSeparator(ts[0], Join(ts[1..], [c]), c);
      SplitFree(ts[0], c);
      SplitJoin(ts[1..], c);
      HeadTail(ts);
    }
  }

  // ---------------------------------------------------------------- form-field token lists

  /** `.map(t => t.trim()).filter(t => t)` over already-split pieces. */
  function TrimmedNonEmpty(parts: seq<string>): (r: seq<string>)
    ensures |r| <= |parts|
    ensures forall i :: 0 <= i < |r| ==> r[i] != [] && IsTrimmed(r[i])
    decreases |parts|
  {
    if parts == [] then []
    else
      var t := Trim(parts[0]);
      var rest := TrimmedNonEmpty(parts[1..]);
      if t == [] then rest else [t] + rest
  }

  /** A well-formed entry of a separated list: non-empty, trimmed, and free of the separator. */
  predicate IsToken(t: string, c: char) {
    t != [] && IsTrimmed(t) && c !in t
  }

  /** `s.split(c).map(t => t.trim()).filter(Boolean)`: the tag and image-list parser. */
  function Tokens(s: string, c: char): (r: seq<string>)
    ensures forall i :: 0 <= i < |r| ==> IsToken(r[i], c)
  {
    var parts := Split(s, c);
    var r := TrimmedNonEmpty(parts);
    TokensSeparatorFree(parts, c);
    r
  }

  lemma {:induction false} TokensSeparatorFree(parts: seq<string>, c: char)
    requires forall i :: 0 <= i < |parts| ==> c !in parts[i]
    ensures forall i :: 0 <= i < |TrimmedNonEmpty(parts)| ==> c !in TrimmedNonEmpty(parts)[i]
    decreases |parts|
  {
    if parts != [] {
      var rest := TrimmedNonEmpty(parts[1..]);
      assert c !in parts[0];
      assert forall i :: 0 <= i < |rest| ==> c !in rest[i] by {
        assert forall i :: 0 <= i < |parts[1..]| ==> c !in parts[1..][i];
        TokensSeparatorFree(parts[1..], c);
      }
      TokensSeparatorFreeStep(parts, c);
    }
  }

  lemma TokensSeparatorFreeStep(parts: seq<string>, c: char)
    requires parts != [] && c !in parts[0]
    requires forall i :: 0 <= i < |TrimmedNonEmpty(parts[1..])| ==> c !in TrimmedNonEmpty(parts[1..])[i]
    ensures forall i :: 0 <= i < |TrimmedNonEmpty(parts)| ==> c !in TrimmedNonEmpty(parts)[i]
  {
    var t := Trim(parts[0]);
    var rest := TrimmedNonEmpty(parts[1..]);
    if t != [] {
      var r := [t] + rest;
      assert TrimmedNonEmpty(parts) == r;
      assert c !in t by {
        TrimAddsNothing(parts[0], c);
      }
      forall i | 0 <= i < |r|
        ensures c !in r[i]
      {
        if i > 0 {
          assert r[i] == rest[i - 1];
        }
      }
    }
  }

  lemma {:induction false} TrimmedNonEmptyAppend(x: seq<string>, y: seq<string>)
    ensures TrimmedNonEmpty(x + y) == TrimmedNonEmpty(x) + TrimmedNonEmpty(y)
    decreases |x|
  {
    if x == [] {
      assert x + y == y;
    } else {
      assert (x + y)[1..] == x[1..] + y;
      TrimmedNonEmptyAppend(x[1..], y);
    }
  }

  lemma {:induction false} TrimAllSpace(pad: string)
    requires AllSpace(pad)
    ensures Trim(pad) == ""
  {
    TrimStartAllSpace(pad, "");
    assert pad + "" == pad;
  }

  /** The first piece of a padded join splits off at the first separator. */
  lemma TokensOfPaddedJoinStep(lead: string, ts: seq<string>, c: char, pad: string)
    requires |ts| >= 2 && AllSpace(lead) && c !in lead && IsToken(ts[0], c)
    ensures TrimmedNonEmpty(Split(lead + Join(ts, [c] + pad), c))
            == [ts[0]] + TrimmedNonEmpty(Split(pad + Join(ts[1..], [c] + pad), c))
  {
    var rest := Join(ts[1..], [c] + pad);
    var head := lead + ts[0];
    assert lead + Join(ts, [c] + pad) == head + [c] + (pad + rest);
    assert Split(head + [c] + (pad + rest), c) == [head] + Split(pad + rest, c) by {
      SplitAtSeparator(head, pad + rest, c);
      SplitFree(head, c);
    }
    assert TrimmedNonEmpty([head]) == [ts[0]] by {
      TrimPadded(lead, ts[0]);
    }
    TrimmedNonEmptyAppend([head], Split(pad + rest, c));
  }

  lemma HeadTail<T>(s: seq<T>)
    requires s != []
    ensures [s[0]] + s[1..] == s
  {
  }

  lemma AppendAssoc<T>(a: seq<T>, b: seq<T>, c: seq<T>)
    ensures a + (b + c) == (a + b) + c
  {
  }

  lemma InitLast<T>(s: seq<T>)
    requires s != []
    ensures s[..|s| - 1] + [s[|s| - 1]] == s
  {
  }

  /** White space alone parses as no entries. */
  lemma TokensOfPaddedNothing(lead: string, c: char)
    requires AllSpace(lead) && c !in lead
    ensures TrimmedNonEmpty(Split(lead, c)) == []
  {
    SplitFree(lead, c);
    TrimAllSpace(lead);
  }

  /** One entry behind white space parses as itself. */
  lemma TokensOfPaddedSingle(lead: string, t: string, c: char)
    requires AllSpace(lead) && IsToken(t, c) && c !in lead
    ensures TrimmedNonEmpty(Split(lead + t, c)) == [t]
  {
    SplitFree(lead + t, c);
    TrimPadded(lead, t);
  }

  /** A list written out with `join(c + pad)` (pad being white space) parses back to itself,
      when a leading run of white space `lead` is in front. */
  lemma {:induction false} TokensOfPaddedJoin(lead: string, ts: seq<string>, c: char, pad: string)
    requires AllSpace(lead) && c !in lead
    requires AllSpace(pad) && c !in pad
    requires forall i :: 0 <= i < |ts| ==> IsToken(ts[i], c)
    ensures TrimmedNonEmpty(Split(lead + Join(ts, [c] + pad), c)) == ts
    decreases |ts|
  {
    if |ts| == 0 {
      assert lead + Join(ts, [c] + pad) == lead;
      TokensOfPaddedNothing(lead, c);
    } else if |ts| == 1 {
      assert lead + Join(ts, [c] + pad) == lead + ts[0];
      TokensOfPaddedSingle(lead, ts[0], c);
    } else {
      var whole := TrimmedNonEmpty(Split(lead + Join(ts, [c] + pad), c));
      var tail := TrimmedNonEmpty(Split(pad + Join(ts[1..], [c] + pad), c));
      assert whole == [ts[0]] + tail by {
        TokensOfPaddedJoinStep(lead, ts, c, pad);
      }
      assert tail == ts[1..] by {
        assert forall i :: 0 <= i < |ts[1..]| ==> IsToken(ts[1..][i], c);
        TokensOfPaddedJoin(pad, ts[1..], c, pad);
      }
      HeadTail(ts);
    }
  }

  /** The form round trip: a token list shown as `join(c + pad)` and parsed with `Tokens`
      comes back unchanged (tags use ", " and ',', image lists use "\n" and '\n'). */
  lemma TokensOfJoin(ts: seq<string>, c: char, pad: string)
    requires AllSpace(pad) && c !in pad
    requires forall i :: 0 <= i < |ts| ==> IsToken(ts[i], c)
    ensures Tokens(Join(ts, [c] + pad), c) == ts
  {
    TokensOfPaddedJoin("", ts, c, pad);
    assert "" + Join(ts, [c] + pad) == Join(ts, [c] + pad);
  }

  // ---------------------------------------------------------------- numbers

  function DigitChar(d: nat): char
    requires d < 10
  {
    ('0' as int + d) as char
  }

  predicate IsDecimalDigit(c: char) {
    '0' <= c <= '9'
  }

  /** Decimal digits of a natural number, without leading zeros. */
  function NatToString(n: nat): (r: string)
    ensures |r| >= 1
    decreases n
  {
    if n < 10 then [DigitChar(n)] else NatToString(n / 10) + [DigitChar(n % 10)]
  }

  lemma {:induction false} NatToStringDigits(n: nat)
    ensures forall i :: 0 <= i < |NatToString(n)| ==> IsDecimalDigit(NatToString(n)[i])
    decreases n
  {
    if n >= 10 {
      NatToStringDigits(n / 10);
    }
  }

  /** `String(n)` for an integer-valued number. */
  function IntToString(n: int): (r: string)
    ensures |r| >= 1
  {
    if n < 0 then "-" + NatToString(-n) else NatToString(n)
  }

  /** The value of a digit character in any radix up to 36; 36 for anything else. */
  function DigitValue(c: char): nat {
    if '0' <= c <= '9' then c as int - '0' as int
    else if 'a' <= c <= 'z' then c as int - 'a' as int + 10
    else if 'A' <= c <= 'Z' then c as int - 'A' as int + 10
    else 36
  }

  /** Length of the longest prefix of `s` made of radix-`radix` digits. */
  function DigitRun(s: string, radix: nat): (n: nat)
    ensures n <= |s|
    decreases |s|
  {
    if s != [] && DigitValue(s[0]) < radix then 1 + DigitRun(s[1..], radix) else 0
  }

  /** `DigitRun` measures the longest run: every character in it is a digit, and the one
      after it is not. */
  lemma {:induction false} DigitRunIsLongest(s: string, radix: nat)
    ensures forall i :: 0 <= i < DigitRun(s, radix) ==> DigitValue(s[i]) < radix
    ensures DigitRun(s, radix) < |s| ==> DigitValue(s[DigitRun(s, radix)]) >= radix
    decreases |s|
  {
    if s != [] && DigitValue(s[0]) < radix {
      DigitRunIsLongest(s[1..], radix);
      forall i | 1 <= i < DigitRun(s, radix) ensures DigitValue(s[i]) < radix {
        assert s[i] == s[1..][i - 1];
      }
    }
  }

  /** The number a run of digits denotes, most significant digit first. */
  function DigitsValue(ds: string, radix: nat): nat
    decreases |ds|
  {
    if ds == [] then 0 else DigitsValue(ds[..|ds| - 1], radix) * radix + DigitValue(ds[|ds| - 1])
  }

  /** What follows an optional leading sign. */
  function Unsigned(t: string): string {
    if t != [] && (t[0] == '-' || t[0] == '+') then t[1..] else t
  }

  predicate HasHexPrefix(u: string) {
    |u| >= 2 && u[0] == '0' && (u[1] == 'x' || u[1] == 'X')
  }

  /** The longest run of radix-`radix` digits at the start of `ds`, as a number; None when
      the run is empty. */
  function DigitPrefixValue(ds: string, radix: nat): Option<nat> {
    var n := DigitRun(ds, radix);
    if n == 0 then None else Some(DigitsValue(ds[..n], radix))
  }

  /** The digits after the sign: an optional "0x"/"0X" prefix selecting radix 16, then the
      longest run of digits of that radix; None when the run is empty. */
  function ParseUnsigned(u: string): Option<nat> {
    if HasHexPrefix(u) then DigitPrefixValue(u[2..], 16) else DigitPrefixValue(u, 10)
  }

  /** A leading sign, then `ParseUnsigned`: the value of an optionally signed number. */
  function SignedValue(t: string): Option<int> {
    match ParseUnsigned(Unsigned(t))
    case None => None
    case Some(v) => Some(if t != [] && t[0] == '-' then -(v as int) else v)
  }

  /** `parseInt(s)` without a radix argument (section 19.2.5 of ECMA-262): leading white space,
      an optional sign, then `ParseUnsigned`; no digits at all is NaN, written None, and so is
      the empty string (ParseIntBlank extends that to white space). */
  function ParseInt(s: string): (r: Option<int>)
    ensures s == [] ==> r.None?
  {
    SignedValue(TrimStart(s))
  }

  lemma {:induction false} DigitRunOfDigits(s: string)
    requires forall i :: 0 <= i < |s| ==> IsDecimalDigit(s[i])
    ensures DigitRun(s, 10) == |s|
    decreases |s|
  {
    if s != [] {
      DigitRunOfDigits(s[1..]);
    }
  }

  lemma {:induction false} ValueOfNatToString(n: nat)
    ensures DigitsValue(NatToString(n), 10) == n
    decreases n
  {
    if n >= 10 {
      var p := NatToString(n / 10);
      var r := p + [DigitChar(n % 10)];
      assert r[..|r| - 1] == p;
      ValueOfNatToString(n / 10);
    } else {
      assert NatToString(n)[..0] == [];
    }
  }

  lemma ParseUnsignedOfNat(m: nat)
    ensures ParseUnsigned(NatToString(m)) == Some(m)
  {
    var digits := NatToString(m);
    NatToStringDigits(m);
    assert !HasHexPrefix(digits) by {
      if |digits| >= 2 { assert IsDecimalDigit(digits[1]); }
    }
    DigitRunOfDigits(digits);
    ValueOfNatToString(m);
    assert digits[..|digits|] == digits;
  }

  lemma ParseIntUnpadded(s: string)
    requires s == [] || !IsJsSpace(s[0])
    ensures ParseInt(s) == SignedValue(s)
  {
    assert TrimStart(s) == s;
  }

  /** `String(n)` starts with '-' exactly for a negative `n`, and otherwise with a digit. */
  lemma IntToStringStart(n: int)
    ensures IntToString(n)[0] == '-' <==> n < 0
    ensures n >= 0 ==> IsDecimalDigit(IntToString(n)[0])
  {
    if n >= 0 {
      NatToStringDigits(n);
    } else {
      NatToStringDigits(-n);
    }
  }

  lemma DigitIsNotSpace(c: char)
    requires IsDecimalDigit(c) || c == '-'
    ensures !IsJsSpace(c)
  {
  }

  /** A string that starts with neither white space, a sign nor a digit parses as NaN. */
  /** A string of white space only is NaN. */
  lemma ParseIntBlank(s: string)
    requires AllSpace(s)
    ensures ParseInt(s) == None
  {
    assert TrimStart(s) == [];
  }

  lemma ParseIntNoDigits(s: string)
    requires s != [] && !IsJsSpace(s[0]) && s[0] != '-' && s[0] != '+' && DigitValue(s[0]) >= 10
    ensures ParseInt(s) == None
  {
    ParseIntUnpadded(s);
    assert Unsigned(s) == s && !HasHexPrefix(s);
    assert DigitRun(s, 10) == 0;
  }

  lemma SignedValueOfNat(m: nat)
    ensures SignedValue(NatToString(m)) == Some(m)
  {
    var s := NatToString(m);
    NatToStringDigits(m);
    assert ParseUnsigned(Unsigned(s)) == Some(m) by {
      assert IsDecimalDigit(s[0]);
      assert Unsigned(s) == s;
      ParseUnsignedOfNat(m);
    }
    assert s[0] != '-' by {
      assert IsDecimalDigit(s[0]);
    }
  }

  lemma SignedValueOfNegative(m: nat)
    ensures SignedValue("-" + NatToString(m)) == Some(-(m as int))
  {
    var s := "-" + NatToString(m);
    assert ParseUnsigned(Unsigned(s)) == Some(m) by {
      assert s[0] == '-' && s[1..] == NatToString(m);
      ParseUnsignedOfNat(m);
    }
  }

  lemma SignedValueOfIntToString(n: int)
    ensures SignedValue(IntToString(n)) == Some(n)
  {
    var s := IntToString(n);
    if n < 0 {
      assert s == "-" + NatToString(-n);
      SignedValueOfNegative(-n);
    } else {
      assert s == NatToString(n);
      SignedValueOfNat(n);
    }
  }

  /** `parseInt(String(n)) == n`: every integer survives being written out and read back. */
  lemma ParseIntOfIntToString(n: int)
    ensures ParseInt(IntToString(n)) == Some(n)
  {
    var s := IntToString(n);
    assert !IsJsSpace(s[0]) by {
      IntToStringStart(n);
      DigitIsNotSpace(s[0]);
    }
    ParseIntUnpadded(s);
    SignedValueOfIntToString(n);
  }

  /** White space in front of a written-out integer is skipped by `parseInt`. */
  lemma ParseIntOfPadded(pad: string, n: int)
    requires AllSpace(pad)
    ensures ParseInt(pad + IntToString(n)) == Some(n)
  {
    var s := IntToString(n);
    assert !IsJsSpace(s[0]) by {
      IntToStringStart(n);
      DigitIsNotSpace(s[0]);
    }
    assert TrimStart(pad + s) == s by {
      TrimStartAllSpace(pad, s);
    }
    SignedValueOfIntToString(n);
  }

  // ---------------------------------------------------------------- slice

  /** The index `slice` uses for an argument that may be negative (counted from the end). */
  function RelativeIndex(k: int, len: nat): (r: nat)
    ensures r <= len
  {
    if k < 0 then (if len + k < 0 then 0 else len + k) else (if k > len then len else k)
  }

  /** `s.slice(start, end)`. */
  function Slice<T>(s: seq<T>, start: int, end: int): (r: seq<T>)
    ensures |r| <= |s|
    ensures 0 <= start <= end <= |s| ==> r == s[start..end]
  {
    var from := RelativeIndex(start, |s|);
    var to := RelativeIndex(end, |s|);
    if from >= to then [] else s[from..to]
  }
}
