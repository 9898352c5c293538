/** The user management page (users.js): the stored user profiles sorted newest first, a
    row per user with a role badge and the action buttons its role allows, the role
    updates those buttons make, and the search and role filters. */
module UsersPage {
  import opened Wrappers
  import opened JsStrings
  import opened JsArrays
  import opened Html
  import opened Listing

  /** A stored profile: its document id `uid`, the `email` (None when absent), the `role`
      ("" when absent: every use compares it with a literal, so absent and empty agree),
      the `approved` flag and `createdAt` as a number (None when absent). */
  datatype User = User(uid: string, email: Option<string>, role: string, approved: Option<bool>, createdAt: Option<int>)

  // ---------------------------------------------------------------- rows

  /** The class and the text of a row's role badge. */
  function RoleBadge(role: string): (b: (string, string))
    ensures b.1 == "Admin" <==> role == "admin"
    ensures b.1 == "User" <==> role == "user"
    ensures b.1 == "Pending" <==> role != "admin" && role != "user"
    ensures b.0 == "role-" + ToLower(b.1)
  {
    if role == "admin" then ("role-admin", "Admin")
    else if role == "user" then ("role-user", "User")
    else ("role-pending", "Pending")
  }

  /** The buttons a row can carry, in the order they are laid out. */
  datatype Action = Approve | MakeAdmin | DemoteAdmin | Delete

  /** The button's `data-action` value. */
  function ActionName(a: Action): string {
    match a
    case Approve => "approve"
    case MakeAdmin => "make-admin"
    case DemoteAdmin => "demote-admin"
    case Delete => "delete"
  }

  /** The `switch` of `handleUserAction`: the action a `data-action` value names, None for
      any other value. */
  function ActionOf(name: string): (r: Option<Action>)
    ensures forall a :: r == Some(a) <==> name == ActionName(a)
  {
    if name == "approve" then Some(Approve)
    else if name == "make-admin" then Some(MakeAdmin)
    else if name == "demote-admin" then Some(DemoteAdmin)
    else if name == "delete" then Some(Delete)
    else None
  }

  function Rank(a: Action): nat {
    match a
    case Approve => 0
    case MakeAdmin => 1
    case DemoteAdmin => 2
    case Delete => 3
  }

  /** `currentUser && currentUser.uid === user.uid`. */
  predicate IsCurrent(current: Option<string>, uid: string) {
    current.Some? && current.value == uid
  }

  /** The buttons of a row: Approve for a pending user, Make Admin for anyone not an admin,
      Make User for an admin other than the signed-in one, Delete for anyone else than the
      signed-in user; each at most once, in layout order. */
  function Actions(role: string, isCurrent: bool): (r: seq<Action>)
    ensures Approve in r <==> role == "pending"
    ensures MakeAdmin in r <==> role != "admin"
    ensures DemoteAdmin in r <==> role == "admin" && !isCurrent
    ensures Delete in r <==> !isCurrent
    ensures forall i, j :: 0 <= i < j < |r| ==> Rank(r[i]) < Rank(r[j])
  {
    (if role == "pending" then [Approve] else [])
    + (if role != "admin" then [MakeAdmin] else [])
    + (if role == "admin" && !isCurrent then [DemoteAdmin] else [])
    + (if !isCurrent then [Delete] else [])
  }

  /** What a row shows: the escaped email (or "Unknown"), the "(You)" marker, the badge and
      the buttons. The joining date is not modelled. */
  datatype Row = Row(email: string, isYou: bool, badge: (string, string), actions: seq<Action>)

  /** `user.email || "Unknown"`. */
  function EmailText(email: Option<string>): string {
    if email.Some? && email.value != "" then email.value else "Unknown"
  }

  /** `createUserRow(user)` for the signed-in user `current`. */
  function RowOf(u: User, current: Option<string>): (r: Row)
    ensures '<' !in r.email && Unescape(r.email) == EmailText(u.email)
    ensures r.isYou <==> IsCurrent(current, u.uid)
    ensures r.badge == RoleBadge(u.role) && r.actions == Actions(u.role, IsCurrent(current, u.uid))
  {
    EscapedHasNoMarkup(EmailText(u.email), true, false);
    UnescapeEscape(EmailText(u.email), true, false);
    Row(EscapeText(EmailText(u.email)), IsCurrent(current, u.uid), RoleBadge(u.role),
        Actions(u.role, IsCurrent(current, u.uid)))
  }

  /** A row without a single button is exactly the signed-in admin's own row. */
  lemma NoButtonsOnlyForSelfAdmin(u: User, current: Option<string>)
    ensures RowOf(u, current).actions == [] <==> u.role == "admin" && IsCurrent(current, u.uid)
  {
    var r := RowOf(u, current).actions;
    if !(u.role == "admin" && IsCurrent(current, u.uid)) {
      assert MakeAdmin in r || Delete in r;
    }
  }

  /** A profile without a role shows as Pending but cannot be approved: only Make Admin (and
      Delete, for another user) is offered. */
  lemma MissingRoleIsPendingWithoutApprove(u: User, current: Option<string>)
    requires u.role == ""
    ensures RowOf(u, current).badge.1 == "Pending"
    ensures Approve !in RowOf(u, current).actions && MakeAdmin in RowOf(u, current).actions
  {
  }

  // ---------------------------------------------------------------- role updates

  /** The fields `updateDoc` writes for an action other than Delete: Approve and Make Admin
      set the role and `approved: true`, Make User sets the role only. */
  function Applied(a: Action, u: User): (r: User)
    requires a != Delete
    ensures r.uid == u.uid && r.email == u.email && r.createdAt == u.createdAt
    ensures r.role == (if a == MakeAdmin then "admin" else "user")
    ensures r.approved == (if a == DemoteAdmin then u.approved else Some(true))
  {
    match a
    case Approve => u.(role := "user", approved := Some(true))
    case MakeAdmin => u.(role := "admin", approved := Some(true))
    case DemoteAdmin => u.(role := "user")
  }

  /** Every update a row offers changes the role it shows. */
  lemma OfferedUpdatesChangeRole(u: User, isCurrent: bool, a: Action)
    requires a in Actions(u.role, isCurrent) && a != Delete
    ensures Applied(a, u).role != u.role
    ensures RoleBadge(Applied(a, u).role) != RoleBadge(u.role)
  {
  }

  /** Make User undoes Make Admin for an approved user, and the demoted admin's row offers
      Make Admin again. */
  lemma DemoteUndoesMakeAdmin(u: User, isCurrent: bool)
    requires u.role == "user" && u.approved == Some(true)
    ensures Applied(DemoteAdmin, Applied(MakeAdmin, u)) == u
    ensures MakeAdmin in Actions(Applied(DemoteAdmin, Applied(MakeAdmin, u)).role, isCurrent)
  {
  }

  /** The profile collection, keyed by uid. */
  class UserStore {
    var docs: map<string, User>

    /** Each profile sits under its own uid. */
    predicate Valid()
      reads this
    {
      forall k :: k in docs ==> docs[k].uid == k
    }

    constructor(initial: map<string, User>)
      requires forall k :: k in initial ==> initial[k].uid == k
      ensures docs == initial && Valid()
    {
      docs := initial;
    }

    /** `updateDoc(doc(db, "Users", uid), …)`, which fails on a missing profile. */
    method Update(a: Action, uid: string) returns (ok: bool)
      requires a != Delete && Valid()
      modifies this
      ensures ok <==> uid in old(docs)
      ensures docs == Performed(old(docs), Some(a), uid, true)
      ensures Valid()
    {
      if uid !in docs {
        return false;
      }
      docs := docs[uid := Applied(a, docs[uid])];
      ok := true;
    }

    /** `deleteDoc(doc(db, "Users", uid))`, which succeeds whether or not the profile exists. */
    method Remove(uid: string)
      requires Valid()
      modifies this
      ensures docs == old(docs) - {uid}
      ensures Valid()
    {
      docs := docs - {uid};
    }
  }

  /** The profiles after an action on `uid`: nothing changes when it is not confirmed or the
      name is unknown, Delete removes the profile, and the other actions update it when it
      exists. */
  function Performed(docs: map<string, User>, a: Option<Action>, uid: string, confirmed: bool): map<string, User> {
    if !confirmed || a.None? then docs
    else if a.value == Delete then docs - {uid}
    else if uid in docs then docs[uid := Applied(a.value, docs[uid])]
    else docs
  }

  /** An action touches only the profile it was clicked on, and keeps each profile under its
      own uid. */
  lemma PerformedTouchesOnlyTarget(docs: map<string, User>, a: Option<Action>, uid: string, confirmed: bool)
    requires forall k :: k in docs ==> docs[k].uid == k
    ensures var after := Performed(docs, a, uid, confirmed);
      (forall k :: k in after ==> after[k].uid == k)
      && (forall k :: k != uid ==> (k in after <==> k in docs))
      && (forall k :: k != uid && k in docs ==> after[k] == docs[k])
  {
  }

  /** `handleUserAction`: runs the named action on `uid` (`confirmed` is the answer to its
      confirmation dialog) and says whether the list is reloaded afterwards: always, except
      when an update hits a missing profile, which is reported and leaves the list. */
  method HandleUserAction(store: UserStore, name: string, uid: string, confirmed: bool) returns (reload: bool)
    requires store.Valid()
    modifies store
    ensures store.Valid()
    ensures store.docs == Performed(old(store.docs), ActionOf(name), uid, confirmed)
    ensures !reload <==> confirmed && ActionOf(name).Some? && ActionOf(name).value != Delete
                         && uid !in old(store.docs)
  {
    var a := ActionOf(name);
    if a.None? || !confirmed {
      return true;
    }
    if a.value == Delete {
      store.Remove(uid);
      return true;
    }
    reload := store.Update(a.value, uid);
  }

  // ---------------------------------------------------------------- newest first

  /** The sort key `x.createdAt || 0`. */
  function Key(u: User): int {
    u.createdAt.GetOr(0)
  }

  predicate NewestFirst(us: seq<User>) {
    forall i, j :: 0 <= i < j < |us| ==> Key(us[i]) >= Key(us[j])
  }

  /** The users with sort key `k`, in the order given. */
  function WithKey(us: seq<User>, k: int): seq<User> {
    Filter(us, (u: User) => Key(u) == k)
  }

  /** `x` placed after every user of `s` at least as new as it. */
  function InsertByKey(x: User, s: seq<User>): (r: seq<User>)
    ensures multiset(r) == multiset(s) + multiset{x}
  {
    if s == [] || Key(s[0]) < Key(x) then [x] + s
    else
      assert s == [s[0]] + s[1..];
      [s[0]] + InsertByKey(x, s[1..])
  }

  lemma {:induction false} InsertKeepsOrder(x: User, s: seq<User>)
    requires NewestFirst(s)
    ensures NewestFirst(InsertByKey(x, s))
    ensures InsertByKey(x, s) != [] && (Key(InsertByKey(x, s)[0]) == Key(x) || (s != [] && InsertByKey(x, s)[0] == s[0]))
    decreases |s|
  {
    if s == [] || Key(s[0]) < Key(x) {
      if s != [] {
        NewestFirstTail(s);
      }
      ConsKeepsOrder(x, s);
    } else {
      var inner := InsertByKey(x, s[1..]);
      assert NewestFirst(inner) by {
        NewestFirstTail(s);
        InsertKeepsOrder(x, s[1..]);
      }
      assert forall i :: 0 <= i < |inner| ==> Key(inner[i]) <= Key(s[0]) by {
        NewestFirstTail(s);
        assert forall i :: 0 <= i < |s[1..]| ==> Key(s[1..][i]) <= Key(s[0]);
        InsertKeysBounded(x, s[1..], Key(s[0]));
      }
      ConsKeepsOrder(s[0], inner);
    }
  }

  /** A user at least as new as everyone in a newest-first list can go in front of it. */
  lemma ConsKeepsOrder(y: User, t: seq<User>)
    requires NewestFirst(t)
    requires forall i :: 0 <= i < |t| ==> Key(t[i]) <= Key(y)
    ensures NewestFirst([y] + t)
  {
    var r := [y] + t;
    forall i, j | 0 <= i < j < |r| ensures Key(r[i]) >= Key(r[j]) {
      assert r[j] == t[j - 1];
      if i > 0 {
        assert r[i] == t[i - 1];
      }
    }
  }

  /** Inserting keeps every key under a bound that holds for the list and the new user. */
  lemma {:induction false} InsertKeysBounded(x: User, s: seq<User>, b: int)
    requires Key(x) <= b
    requires forall i :: 0 <= i < |s| ==> Key(s[i]) <= b
    ensures forall i :: 0 <= i < |InsertByKey(x, s)| ==> Key(InsertByKey(x, s)[i]) <= b
    decreases |s|
  {
    var r := InsertByKey(x, s);
    if s == [] || Key(s[0]) < Key(x) {
      assert r == [x] + s;
      assert forall i :: 0 < i < |r| ==> r[i] == s[i - 1];
    } else {
      var inner := InsertByKey(x, s[1..]);
      assert r == [s[0]] + inner;
      assert forall i :: 0 <= i < |inner| ==> Key(inner[i]) <= b by {
        assert forall i :: 0 <= i < |s[1..]| ==> Key(s[1..][i]) <= b;
        InsertKeysBounded(x, s[1..], b);
      }
      assert forall i :: 0 < i < |r| ==> r[i] == inner[i - 1];
    }
  }

  lemma NewestFirstTail(s: seq<User>)
    requires NewestFirst(s) && s != []
    ensures NewestFirst(s[1..])
    ensures forall i :: 0 <= i < |s| ==> Key(s[i]) <= Key(s[0])
  {
    forall i, j | 0 <= i < j < |s[1..]| ensures Key(s[1..][i]) >= Key(s[1..][j]) {
      assert s[1..][i] == s[i + 1] && s[1..][j] == s[j + 1];
    }
  }

  /** Putting `x` in front of users all strictly older than it keeps ties in order. */
  lemma InsertInFrontIsStable(x: User, s: seq<User>, k: int)
    requires NewestFirst(s) && (s == [] || Key(s[0]) < Key(x))
    ensures WithKey([x] + s, k) == WithKey(s, k) + WithKey([x], k)
  {
    FilterAppend([x], s, (u: User) => Key(u) == k);
    if s != [] && Key(x) == k {
      NewestFirstTail(s);
      FilterKeepsNone(s, (u: User) => Key(u) == k);
    }
  }

  /** Filtering a list splits at its head. */
  lemma WithKeyHead(s: seq<User>, k: int)
    requires s != []
    ensures WithKey(s, k) == WithKey([s[0]], k) + WithKey(s[1..], k)
  {
    assert s == [s[0]] + s[1..];
    FilterAppend([s[0]], s[1..], (u: User) => Key(u) == k);
  }

  /** Insertion keeps ties in order: among users with the same key, `x` comes after those
      already placed. */
  lemma {:induction false} InsertIsStable(x: User, s: seq<User>, k: int)
    requires NewestFirst(s)
    ensures WithKey(InsertByKey(x, s), k) == WithKey(s, k) + WithKey([x], k)
    decreases |s|
  {
    if s == [] || Key(s[0]) < Key(x) {
      InsertInFrontIsStable(x, s, k);
    } else {
      assert WithKey(InsertByKey(x, s[1..]), k) == WithKey(s[1..], k) + WithKey([x], k) by {
        NewestFirstTail(s);
        InsertIsStable(x, s[1..], k);
      }
      InsertBehindHeadIsStable(x, s, k);
    }
  }

  /** Placing `x` behind the head of a list keeps ties in order when placing it in the tail
      does. */
  lemma InsertBehindHeadIsStable(x: User, s: seq<User>, k: int)
    requires s != [] && Key(s[0]) >= Key(x)
    requires WithKey(InsertByKey(x, s[1..]), k) == WithKey(s[1..], k) + WithKey([x], k)
    ensures WithKey(InsertByKey(x, s), k) == WithKey(s, k) + WithKey([x], k)
  {
    var rest := InsertByKey(x, s[1..]);
    var head, tail, added := WithKey([s[0]], k), WithKey(s[1..], k), WithKey([x], k);
    assert WithKey(InsertByKey(x, s), k) == head + WithKey(rest, k) by {
      assert InsertByKey(x, s) == [s[0]] + rest;
      FilterAppend([s[0]], rest, (u: User) => Key(u) == k);
    }
    assert WithKey(s, k) == head + tail by {
      WithKeyHead(s, k);
    }
    AppendAssoc(head, tail, added);
  }

  /** The load sort: newest first, a missing `createdAt` counting as 0, and users with the
      same key left in the order they were loaded (the sort is stable). */
  method SortNewestFirst(xs: seq<User>) returns (r: seq<User>)
    ensures NewestFirst(r)
    ensures multiset(r) == multiset(xs)
    ensures forall k :: WithKey(r, k) == WithKey(xs, k)
  {
    r := [];
    var i := 0;
    while i < |xs|
      invariant 0 <= i <= |xs|
      invariant NewestFirst(r)
      invariant multiset(r) == multiset(xs[..i])
      invariant forall k :: WithKey(r, k) == WithKey(xs[..i], k)
    {
      assert xs[..i + 1] == xs[..i] + [xs[i]];
      forall k ensures WithKey(InsertByKey(xs[i], r), k) == WithKey(xs[..i + 1], k) {
        InsertIsStable(xs[i], r, k);
        FilterAppend(xs[..i], [xs[i]], (u: User) => Key(u) == k);
      }
      InsertKeepsOrder(xs[i], r);
      r := InsertByKey(xs[i], r);
      i := i + 1;
    }
    assert xs[..|xs|] == xs;
  }

  /** A newest-first list holding a user with key `k` starts with a key at least `k`. */
  lemma WithKeyBoundsHead(s: seq<User>, k: int)
    requires NewestFirst(s) && WithKey(s, k) != []
    ensures s != [] && Key(s[0]) >= k
  {
    var w := WithKey(s, k);
    assert w[0] in s && Key(w[0]) == k;
    var j :| 0 <= j < |s| && s[j] == w[0];
    NewestFirstTail(s);
  }

  /** Every user of a list is among those of its key. */
  lemma WithKeyHasUser(s: seq<User>, i: nat)
    requires i < |s|
    ensures WithKey(s, Key(s[i])) != []
  {
    assert s[i] in WithKey(s, Key(s[i]));
  }

  /** The result of the sort is determined: two newest-first lists with the same users of
      each key in the same order are equal. */
  lemma {:induction false} NewestFirstIsUnique(a: seq<User>, b: seq<User>)
    requires NewestFirst(a) && NewestFirst(b)
    requires forall k :: WithKey(a, k) == WithKey(b, k)
    ensures a == b
    decreases |a|
  {
    if a == [] && b != [] {
      WithKeyHasUser(b, 0);
      assert false;
    } else if a != [] && b == [] {
      WithKeyHasUser(a, 0);
      assert false;
    } else if a != [] {
      var ka, kb := Key(a[0]), Key(b[0]);
      WithKeyHasUser(a, 0);
      WithKeyHasUser(b, 0);
      WithKeyBoundsHead(b, ka);
      WithKeyBoundsHead(a, kb);
      assert ka == kb;
      WithKeyHead(a, ka);
      WithKeyHead(b, ka);
      assert a[0] == WithKey(a, ka)[0] == WithKey(b, ka)[0] == b[0];
      forall k ensures WithKey(a[1..], k) == WithKey(b[1..], k) {
        WithKeyHead(a, k);
        WithKeyHead(b, k);
        var h := WithKey([a[0]], k);
        assert h == WithKey([b[0]], k);
        assert h + WithKey(a[1..], k) == h + WithKey(b[1..], k);
        assert WithKey(a[1..], k) == (h + WithKey(a[1..], k))[|h|..];
      }
      NewestFirstTail(a);
      NewestFirstTail(b);
      NewestFirstIsUnique(a[1..], b[1..]);
      assert a == [a[0]] + a[1..] && b == [b[0]] + b[1..];
    }
  }

  // ---------------------------------------------------------------- filters

  /** The `applyFilters` predicate: the lowercased email contains the (lowercased, trimmed)
      search term when there is one, and the role equals the selected one when one is
      selected. */
  predicate Keeps(search: string, roleValue: string, u: User) {
    var term := SearchTerm(search);
    (term == "" || Contains(ToLower(u.email.GetOr("")), term)) && SelectionMatches(roleValue, u.role)
  }

  /** The users `applyFilters` shows: those that pass, in the loaded (sorted) order. */
  function Filtered(all: seq<User>, search: string, roleValue: string): (r: seq<User>)
    ensures IsSubsequence(r, all)
    ensures forall u :: u in r <==> u in all && Keeps(search, roleValue, u)
  {
    FilterIsSubsequence(all, (u: User) => Keeps(search, roleValue, u));
    Filter(all, (u: User) => Keeps(search, roleValue, u))
  }

  /** `loadUsers()`: the loaded profiles sorted newest first, all of them shown. The search
      box and role filter are not re-applied, so after an action the whole list shows. */
  method LoadUsers(page: ListView<User>, loaded: seq<User>)
    modifies page
    ensures NewestFirst(page.all) && multiset(page.all) == multiset(loaded)
    ensures forall k :: WithKey(page.all, k) == WithKey(loaded, k)
    ensures page.shown == page.all
  {
    var sorted := SortNewestFirst(loaded);
    page.Load(sorted);
  }

  /** `applyFilters()` on the page's lists. */
  method ApplyFilters(page: ListView<User>, search: string, roleValue: string)
    modifies page
    ensures page.all == old(page.all)
    ensures page.shown == Filtered(page.all, search, roleValue)
  {
    page.Refine((u: User) => Keeps(search, roleValue, u));
  }

  /** Searching for a user's email, with no role selected, finds the user: the trimmed
      lowercase term lies inside the lowercased email. */
  lemma SearchFindsEmail(all: seq<User>, u: User, e: string)
    requires u in all && u.email == Some(e)
    ensures u in Filtered(all, e, "")
  {
    TrimIsInside(ToLower(e));
    assert Contains(ToLower(u.email.GetOr("")), SearchTerm(e));
    assert Keeps(e, "", u);
  }

  /** The role filter compares the stored role: a profile without a role shows a Pending
      badge, yet the "pending" filter hides it. */
  lemma PendingFilterHidesMissingRole(u: User, search: string, current: Option<string>)
    requires u.role == ""
    ensures RowOf(u, current).badge.1 == "Pending"
    ensures !Keeps(search, "pending", u)
  {
  }
}
