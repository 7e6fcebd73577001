/** What a loop that keeps some results of its inputs collects. */
module Collecting {
  import opened Wrappers

  function Collect<A, B>(s: seq<A>, f: A -> Option<B>): seq<B> {
    if s == [] then []
    else
      var last := f(s[|s| - 1]);
      Collect(s[..|s| - 1], f) + if last.Some? then [last.value] else []
  }

  lemma {:induction false} CollectAre<A, B>(s: seq<A>, f: A -> Option<B>, y: B)
    ensures y in Collect(s, f) <==> exists x | x in s :: f(x) == Some(y)
  {
    if s != [] {
      var front, last := s[..|s| - 1], s[|s| - 1];
      CollectAre(front, f, y);
      assert forall x | x in s :: x in front || x == last;
      assert last in s && forall x | x in front :: x in s;
    }
  }

  lemma {:induction false} CollectConcat<A, B>(s: seq<A>, t: seq<A>, f: A -> Option<B>)
    ensures Collect(s + t, f) == Collect(s, f) + Collect(t, f)
  {
    if t == [] {
      assert s + t == s;
    } else {
      var n := |t| - 1;
      assert (s + t)[..|s + t| - 1] == s + t[..n];
      CollectConcat(s, t[..n], f);
    }
  }

  /** A sequence with one element taken out. */
  lemma TakeOut<A>(s: seq<A>, x: A) returns (before: seq<A>, after: seq<A>)
    requires x in s
    ensures s == before + [x] + after
    ensures multiset(before + after) == multiset(s) - multiset{x}
  {
    var k :| 0 <= k < |s| && s[k] == x;
    before, after := s[..k], s[k + 1..];
    assert s == before + [x] + after;
  }

  lemma EmptyBag<A>(s: seq<A>)
    requires multiset(s) == multiset{}
    ensures s == []
  {
    assert |multiset(s)| == |s|;
  }

  /** A reordering of the inputs only reorders what is collected. */
  lemma {:induction false} CollectPermuted<A, B>(s: seq<A>, t: seq<A>, f: A -> Option<B>)
    requires multiset(s) == multiset(t)
    ensures multiset(Collect(s, f)) == multiset(Collect(t, f))
  {
    if s == [] {
      EmptyBag(t);
    } else {
      var front, x := s[..|s| - 1], s[|s| - 1];
      assert s == front + [x];
      assert x in multiset(t);
      var before, after := TakeOut(t, x);
      CollectPermuted(front, before + after, f);
      CollectConcat(before + [x], after, f);
      CollectConcat(before, [x], f);
      CollectConcat(before, after, f);
      CollectConcat(front, [x], f);
    }
  }

  lemma CollectOneMore<A, B>(s: seq<A>, x: A, f: A -> Option<B>)
    ensures Collect(s + [x], f) == Collect(s, f) + if f(x).Some? then [f(x).value] else []
  {
    assert (s + [x])[..|s + [x]| - 1] == s;
  }

  function Then<A, B, C>(f: A -> Option<B>, g: B -> Option<C>): A -> Option<C> {
    (x: A) => if f(x).Some? then g(f(x).value) else None
  }

  /** Collecting from what was collected. */
  lemma {:induction false} CollectTwice<A, B, C>(s: seq<A>, f: A -> Option<B>, g: B -> Option<C>)
    ensures Collect(Collect(s, f), g) == Collect(s, Then(f, g))
  {
    if s != [] {
      var front, x := s[..|s| - 1], s[|s| - 1];
      CollectTwice(front, f, g);
      if f(x).Some? {
        CollectOneMore(Collect(front, f), f(x).value, g);
      } else {
        assert Collect(s, f) == Collect(front, f);
      }
    }
  }

  /** When every input is kept by exactly one of two filters, nothing is lost or duplicated. */
  lemma {:induction false} SplitKeepsAll<A, B>(s: seq<A>, f: A -> Option<B>, g: A -> Option<B>, all: A -> Option<B>)
    requires forall x | x in s :: (f(x) == all(x) && g(x).None?) || (g(x) == all(x) && f(x).None?)
    ensures multiset(Collect(s, f)) + multiset(Collect(s, g)) == multiset(Collect(s, all))
  {
    if s != [] {
      var front, x := s[..|s| - 1], s[|s| - 1];
      assert x in s && forall y | y in front :: y in s;
      SplitKeepsAll(front, f, g, all);
    }
  }
}
