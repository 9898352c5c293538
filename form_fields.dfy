/** Numeric id lists typed into the editors' comma-separated form fields, and how a stored
    list of ids is written back into such a field. */
module FormFields {
  import opened Wrappers
  import opened JsStrings

  /** `.map(t => parseInt(t))`: one parse per piece, NaN kept as None. */
  function ParseEach(ts: seq<string>): (r: seq<Option<int>>)
    ensures |r| == |ts|
    decreases |ts|
  {
    if ts == [] then [] else [ParseInt(ts[0])] + ParseEach(ts[1..])
  }

  /** `.filter(p => !isNaN(p))` after a parse: the numbers, in order, NaN dropped. */
  function Numbers(xs: seq<Option<int>>): (r: seq<int>)
    ensures |r| <= |xs|
    ensures forall i :: 0 <= i < |r| ==> Some(r[i]) in xs
    ensures forall i :: 0 <= i < |xs| && xs[i].Some? ==> xs[i].value in r
    decreases |xs|
  {
    if xs == [] then []
    else match xs[0]
      case None => Numbers(xs[1..])
      case Some(n) => [n] + Numbers(xs[1..])
  }

  /** `parseInt(p.trim())`. */
  function ParsePiece(p: string): Option<int> {
    ParseInt(Trim(p))
  }

  /** `.map(p => parseInt(p.trim()))` over split pieces. */
  function ParseTrimmed(parts: seq<string>): (r: seq<Option<int>>)
    ensures |r| == |parts|
    decreases |parts|
  {
    if parts == [] then [] else [ParsePiece(parts[0])] + ParseTrimmed(parts[1..])
  }

  /** `s.split(",").map(p => parseInt(p.trim())).filter(p => !isNaN(p))`. */
  function IdList(s: string): (r: seq<int>)
    ensures var ps := ParseTrimmed(Split(s, ','));
      (forall i :: 0 <= i < |r| ==> Some(r[i]) in ps)
      && (forall i :: 0 <= i < |ps| && ps[i].Some? ==> ps[i].value in r)
  {
    Numbers(ParseTrimmed(Split(s, ',')))
  }

  /** Ids written out as `String(n)`, one per id. */
  function IdStrings(ns: seq<int>): (r: seq<string>)
    ensures |r| == |ns|
    ensures forall i :: 0 <= i < |ns| ==> r[i] == IntToString(ns[i])
  {
    seq(|ns|, i requires 0 <= i < |ns| => IntToString(ns[i]))
  }

  /** `ns.join(", ")`, the text a stored id list is shown as in a form field. */
  function IdField(ns: seq<int>): string {
    Join(IdStrings(ns), ", ")
  }

  lemma ParseIntEmpty()
    ensures ParseInt("") == None
  {
    assert TrimStart("") == "";
    assert Unsigned("") == "";
    assert DigitRun("", 10) == 0;
  }

  lemma {:induction false} NumbersAppend(xs: seq<Option<int>>, ys: seq<Option<int>>)
    ensures Numbers(xs + ys) == Numbers(xs) + Numbers(ys)
    decreases |xs|
  {
    if xs == [] {
      assert xs + ys == ys;
    } else {
      assert (xs + ys)[1..] == xs[1..] + ys;
      NumbersAppend(xs[1..], ys);
    }
  }

  lemma NumbersCons(x: Option<int>, ys: seq<Option<int>>)
    ensures Numbers([x] + ys) == (if x.Some? then [x.value] else []) + Numbers(ys)
  {
    assert ([x] + ys)[1..] == ys;
  }

  lemma BlankPiece(p: string)
    requires Trim(p) == []
    ensures ParsePiece(p) == None
  {
    ParseIntEmpty();
  }

  lemma TokenPiece(p: string, rest: seq<string>)
    ensures ParseEach([Trim(p)] + rest) == [ParsePiece(p)] + ParseEach(rest)
  {
    assert ([Trim(p)] + rest)[1..] == rest;
  }

  /** Parsing each trimmed piece and dropping NaN gives the same ids as first dropping the
      blank pieces: a blank piece never parses. */
  lemma {:induction false} IdsOfPieces(parts: seq<string>)
    ensures Numbers(ParseTrimmed(parts)) == Numbers(ParseEach(TrimmedNonEmpty(parts)))
    decreases |parts|
  {
    if parts != [] {
      var x := ParsePiece(parts[0]);
      var rest := TrimmedNonEmpty(parts[1..]);
      IdsOfPieces(parts[1..]);
      NumbersCons(x, ParseTrimmed(parts[1..]));
      if Trim(parts[0]) == [] {
        BlankPiece(parts[0]);
        assert TrimmedNonEmpty(parts) == rest;
      } else {
        assert TrimmedNonEmpty(parts) == [Trim(parts[0])] + rest;
        TokenPiece(parts[0], rest);
        NumbersCons(x, ParseEach(rest));
      }
    }
  }

  /** Every id list field is the number tokens of the field, parsed: blank pieces drop out
      either way. */
  lemma IdListOfTokens(s: string)
    ensures IdList(s) == Numbers(ParseEach(Tokens(s, ',')))
  {
    IdsOfPieces(Split(s, ','));
  }

  /** `String(n)` is a well-formed list entry: non-empty, no surrounding white space and no
      comma. */
  lemma IntToStringIsToken(n: int)
    ensures IsToken(IntToString(n), ',')
  {
    var s := IntToString(n);
    var digits := if n < 0 then NatToString(-n) else NatToString(n);
    NatToStringDigits(if n < 0 then -n else n);
    assert IsDecimalDigit(digits[0]) && IsDecimalDigit(digits[|digits| - 1]);
    assert forall i :: 0 <= i < |digits| ==> digits[i] != ',';
    if n < 0 {
      assert s == "-" + digits;
      assert forall i :: 1 <= i < |s| ==> s[i] == digits[i - 1];
    }
  }

  lemma {:induction false} NumbersOfIdStrings(ns: seq<int>)
    ensures Numbers(ParseEach(IdStrings(ns))) == ns
    decreases |ns|
  {
    if ns != [] {
      ParseIntOfIntToString(ns[0]);
      assert IdStrings(ns)[1..] == IdStrings(ns[1..]);
      NumbersCons(Some(ns[0]), ParseEach(IdStrings(ns[1..])));
      NumbersOfIdStrings(ns[1..]);
    }
  }

  /** A stored id list written into its form field and read back is unchanged. */
  lemma IdListOfIdField(ns: seq<int>)
    ensures IdList(IdField(ns)) == ns
  {
    var strs := IdStrings(ns);
    forall i | 0 <= i < |strs|
      ensures IsToken(strs[i], ',')
    {
      IntToStringIsToken(ns[i]);
    }
    CommaSpace();
    TokensOfJoin(strs, ',', " ");
    IdListOfTokens(IdField(ns));
    NumbersOfIdStrings(ns);
  }

  /** Three entries joined by ", " are the entries with ", " between them. */
  lemma JoinOfThree(a: string, b: string, c: string)
    ensures Join([a, b, c], ", ") == a + ", " + b + ", " + c
  {
    var ts := [a, b, c];
    assert ts[1..] == [b, c] && [b, c][1..] == [c];
    assert Join([b, c], ", ") == b + ", " + c;
    assert Join(ts, ", ") == a + ", " + (b + ", " + c);
  }

  /** Three entries joined by ", " parse back as those entries, each parsed on its own. */
  lemma TokensOfThree(a: string, b: string, c: string)
    requires IsToken(a, ',') && IsToken(b, ',') && IsToken(c, ',')
    ensures Tokens(a + ", " + b + ", " + c, ',') == [a, b, c]
    ensures ParseEach([a, b, c]) == [ParseInt(a), ParseInt(b), ParseInt(c)]
  {
    var ts := [a, b, c];
    assert Tokens(Join(ts, ", "), ',') == ts by {
      CommaSpace();
      TokensOfJoin(ts, ',', " ");
    }
    JoinOfThree(a, b, c);
    ParseEachOfThree(a, b, c);
  }

  lemma ParseEachCons(t: string, ts: seq<string>)
    ensures ParseEach([t] + ts) == [ParseInt(t)] + ParseEach(ts)
  {
    assert ([t] + ts)[0] == t && ([t] + ts)[1..] == ts;
  }

  lemma ParseEachOfThree(a: string, b: string, c: string)
    ensures ParseEach([a, b, c]) == [ParseInt(a), ParseInt(b), ParseInt(c)]
  {
    var pa, pb, pc := ParseInt(a), ParseInt(b), ParseInt(c);
    var last := ParseEach([c]);
    assert last == [pc] by {
      ParseEachCons(c, []);
      assert [c] + [] == [c];
    }
    var tail := ParseEach([b, c]);
    assert tail == [pb, pc] by {
      ParseEachCons(b, [c]);
      assert [b] + [c] == [b, c];
    }
    assert ParseEach([a, b, c]) == [pa] + tail by {
      ParseEachCons(a, [b, c]);
      assert [a] + [b, c] == [a, b, c];
    }
    assert [pa] + [pb, pc] == [pa, pb, pc];
  }

  /** `String(n)` of a number is an entry that parses back to it. */
  lemma NumberEntry(n: int, t: string)
    requires t == IntToString(n)
    ensures IsToken(t, ',') && ParseInt(t) == Some(n)
  {
    IntToStringIsToken(n);
    ParseIntOfIntToString(n);
  }

  /** A letter is an entry that parses as NaN. */
  lemma LetterEntry(t: string)
    requires |t| == 1 && 'a' <= t[0] <= 'z'
    ensures IsToken(t, ',') && ParseInt(t) == None
  {
    assert !IsJsSpace(t[0]);
    ParseIntNoDigits(t);
  }

  /** A field typed as two numbers around a letter holds those three entries, which parse
      as the first number, NaN and the second number. */
  lemma TypedRefs(s: string, m: int, x: string, n: int) returns (ts: seq<string>)
    requires s == IntToString(m) + ", " + x + ", " + IntToString(n)
    requires |x| == 1 && 'a' <= x[0] <= 'z'
    ensures Tokens(s, ',') == ts
    ensures ParseEach(ts) == [Some(m), None, Some(n)]
  {
    NumberEntry(m, IntToString(m));
    NumberEntry(n, IntToString(n));
    LetterEntry(x);
    TokensOfThree(IntToString(m), x, IntToString(n));
    ts := [IntToString(m), x, IntToString(n)];
  }

  /** A lesson's problem field typed as `"3, x, 5"` saves the ids 3 and 5, in that order:
      the `x` parses as NaN and is dropped. */
  lemma IdListDropsNaN(s: string)
    requires s == "3, x, 5"
    ensures IdList(s) == [3, 5]
  {
    assert s == IntToString(3) + ", " + "x" + ", " + IntToString(5);
    var ts := TypedRefs(s, 3, "x", 5);
    IdListOfTokens(s);
    NumbersDropMiddle(3, 5);
  }

  lemma NumbersDropMiddle(m: int, n: int)
    ensures Numbers([Some(m), None, Some(n)]) == [m, n]
  {
    NumbersCons(Some(m), [None, Some(n)]);
    NumbersCons(None, [Some(n)]);
    NumbersCons(Some(n), []);
    assert [None, Some(n)] == [None] + [Some(n)];
    assert [Some(m), None, Some(n)] == [Some(m)] + [None, Some(n)];
  }

  /** The ", " separator is the comma followed by white space. */
  lemma CommaSpace()
    ensures [','] + " " == ", " && AllSpace(" ") && ',' !in " "
  {
  }

  /** A tag list written into its form field and read back is unchanged. */
  lemma TagsOfTagField(ts: seq<string>)
    requires forall i :: 0 <= i < |ts| ==> IsToken(ts[i], ',')
    ensures Tokens(Join(ts, ", "), ',') == ts
  {
    CommaSpace();
    TokensOfJoin(ts, ',', " ");
  }

  /** A stored numeric `id` field as the pages read it: absent, the NaN that saving a
      non-numeric id field through `parseInt` leaves, or a number. */
  datatype StoredId = Missing | NaN | Num(n: int)

  /** What an optional stored id becomes: a number, or absent. */
  function OfField(id: Option<int>): StoredId {
    if id.Some? then Num(id.value) else Missing
  }

  /** What saving a `parseInt` result stores: the number, or NaN. */
  function OfParsed(id: Option<int>): (r: StoredId)
    ensures r.Num? <==> id.Some?
    ensures id.Some? ==> r.n == id.value
  {
    if id.Some? then Num(id.value) else NaN
  }

  /** `String(id)` of a stored id, as a `data-` attribute, a card or a search over ids sees
      it: "undefined" when absent and "NaN" for NaN. */
  function IdText(id: StoredId): string {
    match id
    case Missing => "undefined"
    case NaN => "NaN"
    case Num(n) => IntToString(n)
  }

  lemma ParseIntUndefined()
    ensures ParseInt("undefined") == None
  {
    ParseIntNoDigits("undefined");
  }

  /** The text reads back as the number it was written from; an absent id and NaN both
      read back as NaN. */
  lemma ParseIdText(id: StoredId)
    ensures ParseInt(IdText(id)) == (if id.Num? then Some(id.n) else None)
  {
    match id
    case Missing => ParseIntUndefined();
    case NaN => ParseIntNoDigits("NaN");
    case Num(n) => ParseIntOfIntToString(n);
  }

  /** The three kinds of stored id are written differently: a number never reads as either
      word, and the two words differ, "NaN" holding an `a` that "undefined" lacks. */
  lemma IdTextsDiffer(n: int)
    ensures IdText(Num(n)) != IdText(Missing) && IdText(Num(n)) != IdText(NaN)
    ensures Contains(IdText(NaN), "a") && !Contains(IdText(Missing), "a")
  {
    assert IdText(Num(n)) != IdText(Missing) && IdText(Num(n)) != IdText(NaN) by {
      ParseIdText(Num(n));
      ParseIdText(Missing);
      ParseIdText(NaN);
    }
    assert Contains(IdText(NaN), "a") by {
      ContainsMiddle("N", "a", "N");
      assert "N" + "a" + "N" == IdText(NaN);
    }
    assert !Contains(IdText(Missing), "a") by {
      var u := IdText(Missing);
      assert u == "undefined";
      assert 'a' !in u;
      NotContainsFirst(u, "a");
    }
  }
}
