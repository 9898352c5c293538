/** Markup built from a list by rendering each element and joining the fragments with no
    separator: `xs.map(render).join("")`. */
module Fragments {

  /** `xs.map(render).join("")`. */
  function JoinMapped<T>(xs: seq<T>, render: T -> string): string
    decreases |xs|
  {
    if xs == [] then "" else render(xs[0]) + JoinMapped(xs[1..], render)
  }

  /** `xs.map((x, index) => render(x, index)).join("")`, positions counted from `start`. */
  function JoinIndexed<T>(xs: seq<T>, render: (T, nat) -> string, start: nat): string
    decreases |xs|
  {
    if xs == [] then "" else render(xs[0], start) + JoinIndexed(xs[1..], render, start + 1)
  }

  /** The markup of a concatenation is the two markups, in order. */
  lemma {:induction false} JoinMappedAppend<T>(a: seq<T>, b: seq<T>, render: T -> string)
    ensures JoinMapped(a + b, render) == JoinMapped(a, render) + JoinMapped(b, render)
    decreases |a|
  {
    if a == [] {
      assert a + b == b;
    } else {
      assert (a + b)[1..] == a[1..] + b;
      JoinMappedAppend(a[1..], b, render);
    }
  }

  /** An element that renders as "" leaves the markup as if it were not there. */
  lemma JoinMappedSkips<T>(a: seq<T>, x: T, b: seq<T>, render: T -> string)
    requires render(x) == ""
    ensures JoinMapped(a + [x] + b, render) == JoinMapped(a + b, render)
  {
    JoinMappedAppend(a + [x], b, render);
    JoinMappedAppend(a, [x], render);
    JoinMappedAppend(a, b, render);
    assert JoinMapped([x], render) == render(x) + JoinMapped([], render);
  }

  /** Each element's fragment appears whole in the markup. */
  lemma {:induction false} JoinMappedHasFragment<T>(xs: seq<T>, render: T -> string, i: nat)
    requires i < |xs|
    ensures exists pre, post :: JoinMapped(xs, render) == pre + render(xs[i]) + post
    decreases |xs|
  {
    var m := JoinMapped(xs, render);
    if i == 0 {
      assert m == "" + render(xs[0]) + JoinMapped(xs[1..], render);
    } else {
      JoinMappedHasFragment(xs[1..], render, i - 1);
      var pre, post :| JoinMapped(xs[1..], render) == pre + render(xs[1..][i - 1]) + post;
      assert m == (render(xs[0]) + pre) + render(xs[i]) + post;
    }
  }

  /** Indexed markup of a concatenation: the second part is numbered on from where the first
      ends. */
  lemma {:induction false} JoinIndexedAppend<T>(a: seq<T>, b: seq<T>, render: (T, nat) -> string, start: nat)
    ensures JoinIndexed(a + b, render, start)
         == JoinIndexed(a, render, start) + JoinIndexed(b, render, start + |a|)
    decreases |a|
  {
    if a == [] {
      assert a + b == b;
    } else {
      assert (a + b)[1..] == a[1..] + b;
      JoinIndexedAppend(a[1..], b, render, start + 1);
    }
  }
}
