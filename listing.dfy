/** What the list pages share: the list a page loaded and the part of it the filters let
    through, the first-text-block preview, the draft and category filters, the text search
    of the problem lists, and the sequential id counter kept in the `meta` documents. */
module Listing {
  import opened Wrappers
  import opened JsStrings
  import opened JsArrays
  import opened Blocks
  import opened FormFields

  // ---------------------------------------------------------------- loaded and shown lists

  /** A list page: every record it loaded, in load order, and the ones it shows. */
  class ListView<T(==)> {
    var all: seq<T>
    var shown: seq<T>

    constructor()
      ensures all == [] && shown == []
    {
      all := [];
      shown := [];
    }

    /** After a load every record is shown (`filtered = [...all]`). */
    method Load(xs: seq<T>)
      modifies this
      ensures all == xs && shown == xs
    {
      all := xs;
      shown := xs;
    }

    /** `filtered = all.filter(keep)`: the loaded list is kept; the shown list is exactly
        the records that pass, in load order. */
    method Refine(keep: T -> bool)
      modifies this
      ensures all == old(all)
      ensures shown == Filter(all, keep)
      ensures IsSubsequence(shown, all)
      ensures forall x :: x in shown <==> x in all && keep(x)
    {
      shown := Filter(all, keep);
      FilterIsSubsequence(all, keep);
    }
  }

  /** A filter that passes everything shows the whole list, in order. */
  lemma RefineNothing<T>(xs: seq<T>, keep: T -> bool)
    requires forall x :: keep(x)
    ensures Filter(xs, keep) == xs
  {
    FilterKeepsAll(xs, keep);
  }

  // ---------------------------------------------------------------- previews

  /** `blocks.find(b => b.type === "text")`, as the content it holds. */
  function FirstText(bs: seq<Block>): (r: Option<string>)
    ensures r.None? <==> forall i :: 0 <= i < |bs| ==> !bs[i].Text?
    ensures r.Some? ==> exists i :: 0 <= i < |bs| && bs[i] == Text(r.value)
                                   && forall j :: 0 <= j < i ==> !bs[j].Text?
  {
    match FindIndex(bs, (b: Block) => b.Text?)
    case None => None
    case Some(i) => Some(bs[i].content)
  }

  /** Blocks placed in front of a list with a text block do not change which text comes
      first unless one of them is a text block. */
  lemma FirstTextSkips(front: seq<Block>, bs: seq<Block>)
    requires forall i :: 0 <= i < |front| ==> !front[i].Text?
    ensures FirstText(front + bs) == FirstText(bs)
  {
    var all := front + bs;
    match FirstText(bs)
    case None =>
      assert forall i :: 0 <= i < |all| ==> !all[i].Text? by {
        forall i | 0 <= i < |all| ensures !all[i].Text? {
          if i >= |front| { assert all[i] == bs[i - |front|]; }
        }
      }
    case Some(c) =>
      var k :| 0 <= k < |bs| && bs[k] == Text(c) && forall j :: 0 <= j < k ==> !bs[j].Text?;
      assert all[|front| + k] == Text(c);
      var r := FirstText(all);
      assert r.Some?;
      var m :| 0 <= m < |all| && all[m] == Text(r.value) && forall j :: 0 <= j < m ==> !all[j].Text?;
      if m != |front| + k {
        assert false;
      }
    }

  /** `content.length > limit ? content.substring(0, limit) + "..." : content`. */
  function Shorten(c: string, limit: nat): (r: string)
    ensures |c| <= limit ==> r == c
    ensures |c| > limit ==> |r| == limit + 3 && r[..limit] == c[..limit] && r[limit..] == "..."
  {
    if |c| > limit then c[..limit] + "..." else c
  }

  /** Whatever the content, the shortened text is at most three characters over the limit,
      and it starts with as much of the content as fits. */
  lemma ShortenBounds(c: string, limit: nat)
    ensures |Shorten(c, limit)| <= limit + 3
    ensures |c| <= limit ==> Shorten(c, limit) == c
    ensures |c| > limit ==> c[..limit] <= Shorten(c, limit)
  {
    if |c| > limit {
      var r := Shorten(c, limit);
      assert r[..limit] == c[..limit];
    }
  }

  // ---------------------------------------------------------------- filters

  /** The search term of the admin lists and the users page: `value.toLowerCase().trim()`. */
  function SearchTerm(input: string): string {
    Trim(ToLower(input))
  }

  /** The query of the two plain problem lists: `value.trim().toLowerCase()`. */
  function Query(input: string): string {
    ToLower(Trim(input))
  }

  lemma LowerCharSpace(c: char)
    ensures IsJsSpace(LowerChar(c)) <==> IsJsSpace(c)
  {
  }

  lemma {:induction false} TrimStartLower(s: string)
    ensures TrimStart(ToLower(s)) == ToLower(TrimStart(s))
    decreases |s|
  {
    if s != [] {
      var l := ToLower(s);
      LowerCharSpace(s[0]);
      assert l[0] == LowerChar(s[0]);
      if IsJsSpace(s[0]) {
        assert l[1..] == ToLower(s[1..]);
        TrimStartLower(s[1..]);
      }
    }
  }

  lemma {:induction false} TrimEndLower(s: string)
    ensures TrimEnd(ToLower(s)) == ToLower(TrimEnd(s))
    decreases |s|
  {
    if s != [] {
      var l := ToLower(s);
      LowerCharSpace(s[|s| - 1]);
      assert l[|l| - 1] == LowerChar(s[|s| - 1]);
      if IsJsSpace(s[|s| - 1]) {
        assert l[..|l| - 1] == ToLower(s[..|s| - 1]);
        TrimEndLower(s[..|s| - 1]);
      }
    }
  }

  /** Trimming and lowercasing commute, so the two orders the pages use give the same term. */
  lemma QueryIsSearchTerm(input: string)
    ensures Query(input) == SearchTerm(input)
  {
    TrimStartLower(input);
    TrimEndLower(TrimStart(input));
  }

  /** An id written out is its own search term. */
  lemma NumberSearchTerm(n: int)
    ensures SearchTerm(IntToString(n)) == IntToString(n)
  {
    var s := IntToString(n);
    var digits := if n < 0 then NatToString(-n) else NatToString(n);
    NatToStringDigits(if n < 0 then -n else n);
    assert s == if n < 0 then "-" + digits else digits;
    assert forall i :: 0 <= i < |s| ==> LowerChar(s[i]) == s[i] by {
      forall i | 0 <= i < |s| ensures LowerChar(s[i]) == s[i] {
        if n < 0 && i > 0 {
          assert s[i] == digits[i - 1];
        }
      }
    }
    assert ToLower(s) == s;
    IntToStringIsToken(n);
    TrimmedFieldRoundTrip(s);
  }

  /** The draft filter: "published" hides drafts, "draft" hides everything else, any other
      value hides nothing. */
  function DraftVisible(filter: string, draft: bool): (keep: bool)
    ensures filter == "published" ==> (keep <==> !draft)
    ensures filter == "draft" ==> (keep <==> draft)
    ensures filter != "published" && filter != "draft" ==> keep
  {
    !(filter == "published" && draft) && !(filter == "draft" && !draft)
  }

  /** A category or role filter: an empty selection passes everything, any other value
      passes only an exact match. */
  function SelectionMatches(filter: string, value: string): (keep: bool)
    ensures filter == "" ==> keep
    ensures filter != "" ==> (keep <==> value == filter)
  {
    filter == "" || value == filter
  }

  /** `t.toLowerCase().includes(q)` for some tag `t`. */
  predicate SomeContains(ts: seq<string>, q: string) {
    exists i :: 0 <= i < |ts| && Contains(ToLower(ts[i]), q)
  }

  /** The search of the two plain problem lists: the title, the statement or the tags joined
      by spaces, lowercased, contain the query. */
  predicate TextMatches(title: string, statement: string, tags: seq<string>, q: string) {
    Contains(ToLower(title), q) || Contains(ToLower(statement), q) || Contains(ToLower(Join(tags, " ")), q)
  }

  lemma ToLowerAppend(a: string, b: string)
    ensures ToLower(a + b) == ToLower(a) + ToLower(b)
  {
  }

  /** A tag of the joined list is a piece of it. */
  lemma {:induction false} JoinHasPiece(ts: seq<string>, sep: string, i: nat, q: string)
    requires i < |ts| && Contains(ts[i], q)
    ensures Contains(Join(ts, sep), q)
    decreases |ts|
  {
    if |ts| > 1 {
      var rest := Join(ts[1..], sep);
      if i == 0 {
        ContainsAppendRight(ts[0], sep, q);
        ContainsAppendRight(ts[0] + sep, rest, q);
      } else {
        JoinHasPiece(ts[1..], sep, i - 1, q);
        ContainsAppendLeft(ts[0] + sep, rest, q);
      }
    }
  }

  /** Lowercasing a joined list lowercases each piece (the separator has no letters). */
  lemma {:induction false} JoinLower(ts: seq<string>, sep: string)
    requires ToLower(sep) == sep
    ensures ToLower(Join(ts, sep)) == Join(seq(|ts|, k requires 0 <= k < |ts| => ToLower(ts[k])), sep)
    decreases |ts|
  {
    var lowered := seq(|ts|, k requires 0 <= k < |ts| => ToLower(ts[k]));
    if |ts| > 1 {
      var tail := ts[1..];
      JoinLower(tail, sep);
      assert lowered[1..] == seq(|tail|, k requires 0 <= k < |tail| => ToLower(tail[k]));
      ToLowerAppend(ts[0] + sep, Join(tail, sep));
      ToLowerAppend(ts[0], sep);
    }
  }

  /** The search finds a problem by any one of its tags. */
  lemma TextMatchesTag(title: string, statement: string, tags: seq<string>, q: string, i: nat)
    requires i < |tags| && Contains(ToLower(tags[i]), q)
    ensures TextMatches(title, statement, tags, q)
  {
    var lowered := seq(|tags|, k requires 0 <= k < |tags| => ToLower(tags[k]));
    JoinLower(tags, " ");
    JoinHasPiece(lowered, " ", i, q);
  }

  /** An empty query finds every problem. */
  lemma TextMatchesEmpty(title: string, statement: string, tags: seq<string>)
    ensures TextMatches(title, statement, tags, "")
  {
    ContainsEmpty(ToLower(title));
  }

  // ---------------------------------------------------------------- sequential ids

  /** The largest id the counter has handed out; no counter reads as 0. */
  function Ceiling(latest: Option<int>): int {
    if latest.Some? then latest.value else 0
  }

  /** The id of a new document: one past `latestId` when the counter exists and is truthy,
      otherwise 1. */
  function NextId(latest: Option<int>): (r: int)
    ensures r > Ceiling(latest)
    ensures latest.None? || latest.value == 0 ==> r == 1
  {
    if latest.Some? && latest.value != 0 then latest.value + 1 else 1
  }

  /** A collection of documents keyed by numeric id, with its `meta` counter `latestId`. */
  class Collection<D> {
    var docs: map<int, D>
    var latestId: Option<int>

    /** Every document id is at most the counter. */
    predicate Valid()
      reads this
    {
      forall k :: k in docs ==> k <= Ceiling(latestId)
    }

    constructor()
      ensures docs == map[] && latestId == None && Valid()
    {
      docs := map[];
      latestId := None;
    }

    /** `createNewProblem` / `createNewLesson`: the document `make(nextId)` is written under
        the next id, replacing any document already there, then the counter is set to that
        id. The id was free when every stored id was within the counter. */
    method Create(make: int -> D) returns (id: int)
      modifies this
      ensures id == NextId(old(latestId))
      ensures docs == old(docs)[id := make(id)]
      ensures latestId == Some(id)
      ensures old(Valid()) ==> id !in old(docs) && Valid()
    {
      id := NextId(latestId);
      docs := docs[id := make(id)];
      latestId := Some(id);
    }

    /** A `setDoc` with `merge` from an editor: the document under `key` becomes `d`, and the
        counter is left where it is, so a key above it breaks `Valid`. */
    method Put(key: int, d: D)
      modifies this
      ensures docs == old(docs)[key := d] && latestId == old(latestId)
      ensures key > Ceiling(latestId) ==> !Valid()
      ensures key <= Ceiling(latestId) && old(Valid()) ==> Valid()
    {
      docs := docs[key := d];
      assert key in docs;
    }

    /** `Put` that also raises the counter to the key, so `Valid` is kept and a later
        `Create` never lands on the saved document. */
    method PutRaisingCounter(key: int, d: D)
      modifies this
      ensures docs == old(docs)[key := d]
      ensures latestId == if key > Ceiling(old(latestId)) then Some(key) else old(latestId)
      ensures old(Valid()) ==> Valid()
    {
      docs := docs[key := d];
      if key > Ceiling(latestId) {
        latestId := Some(key);
      }
    }

    /** `updateDoc`: fails on a missing document and otherwise replaces it, leaving the
        counter and the set of ids alone, so it keeps `Valid`. */
    method Update(key: int, d: D) returns (ok: bool)
      modifies this
      ensures ok <==> key in old(docs)
      ensures docs == if ok then old(docs)[key := d] else old(docs)
      ensures latestId == old(latestId)
      ensures old(Valid()) ==> Valid()
    {
      ok := key in docs;
      if ok {
        docs := docs[key := d];
      }
    }
  }
}
