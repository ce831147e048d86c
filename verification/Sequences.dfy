/** Concatenating what a function makes of each element: comprehensions and `extend`
    loops, of which appending is the one law needed. */
module Sequences {

  function Flat<A, B>(f: A -> seq<B>, s: seq<A>): seq<B> {
    if s == [] then [] else Flat(f, s[..|s| - 1]) + f(s[|s| - 1])
  }

  lemma {:induction false} FlatAppend<A, B>(f: A -> seq<B>, a: seq<A>, b: seq<A>)
    ensures Flat(f, a + b) == Flat(f, a) + Flat(f, b)
  {
    if b == [] {
      assert a + b == a;
    } else {
      FlatAppend(f, a, b[..|b| - 1]);
      assert (a + b)[..|a + b| - 1] == a + b[..|b| - 1];
      Associates(Flat(f, a), Flat(f, b[..|b| - 1]), f(b[|b| - 1]));
    }
  }

  lemma FlatOne<A, B>(f: A -> seq<B>, x: A)
    ensures Flat(f, [x]) == f(x)
  {
    assert [x][..|[x]| - 1] == [];
    assert Flat(f, [x]) == [] + f(x);
  }

  /** One step of a loop over `s`. */
  lemma FlatStep<A, B>(f: A -> seq<B>, s: seq<A>, i: nat)
    requires i < |s|
    ensures Flat(f, s[..i + 1]) == Flat(f, s[..i]) + f(s[i])
  {
    assert s[..i + 1][..i] == s[..i];
  }

  lemma {:induction false} FlatMembers<A, B>(f: A -> seq<B>, s: seq<A>, y: B)
    ensures y in Flat(f, s) <==> exists x :: x in s && y in f(x)
  {
    if s != [] {
      var init, last := s[..|s| - 1], s[|s| - 1];
      FlatMembers(f, init, y);
      assert s == init + [last];
    }
  }

  /** Flattening in two passes. */
  lemma {:induction false} FlatCompose<A, B, C>(f: A -> seq<B>, g: B -> seq<C>, h: A -> seq<C>, s: seq<A>)
    requires forall i :: 0 <= i < |s| ==> h(s[i]) == Flat(g, f(s[i]))
    ensures Flat(g, Flat(f, s)) == Flat(h, s)
  {
    if s != [] {
      FlatCompose(f, g, h, s[..|s| - 1]);
      FlatAppend(g, Flat(f, s[..|s| - 1]), f(s[|s| - 1]));
    }
  }

  lemma Associates<T>(a: seq<T>, b: seq<T>, c: seq<T>)
    ensures (a + b) + c == a + (b + c)
  {
  }

  lemma ConsAppend<T>(a: seq<T>, b: seq<T>)
    requires a != []
    ensures a + b != [] && (a + b)[0] == a[0] && (a + b)[1..] == a[1..] + b
  {
  }
}
