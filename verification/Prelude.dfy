/** An optional value, counting over threads, and what a sequence adds up to. */
module Prelude {

  datatype Option<+T> = None | Some(value: T)

  /** The total weight of all elements of s; with a 0/1 weight this counts threads. */
  ghost function Sum<A(!new)>(s: seq<A>, w: A -> nat): nat {
    if s == [] then 0 else Sum(s[..|s| - 1], w) + w(s[|s| - 1])
  }

  lemma {:induction false} SumUpdate<A(!new)>(s: seq<A>, i: nat, a: A, w: A -> nat)
    requires i < |s|
    ensures Sum(s[i := a], w) + w(s[i]) == Sum(s, w) + w(a)
  {
    var last := |s| - 1;
    if i == last {
      assert s[i := a][..last] == s[..last];
    } else {
      assert s[i := a][..last] == s[..last][i := a];
      SumUpdate(s[..last], i, a, w);
    }
  }

  lemma {:induction false} SumAtLeast<A(!new)>(s: seq<A>, i: nat, w: A -> nat)
    requires i < |s|
    ensures w(s[i]) <= Sum(s, w)
  {
    if i < |s| - 1 {
      SumAtLeast(s[..|s| - 1], i, w);
    }
  }

  lemma {:induction false} SumZero<A(!new)>(s: seq<A>, w: A -> nat)
    requires forall i :: 0 <= i < |s| ==> w(s[i]) == 0
    ensures Sum(s, w) == 0
  {
    if s != [] {
      SumZero(s[..|s| - 1], w);
    }
  }

  lemma Overwritten<A>(s: seq<A>, i: nat, a: A, b: A)
    requires i < |s|
    ensures s[i := a][i := b] == s[i := b]
  {
  }

  /** What the elements of s contribute, one after the other. */
  function Gather<A, B>(s: seq<A>, f: A -> seq<B>): seq<B> {
    if s == [] then [] else Gather(s[..|s| - 1], f) + f(s[|s| - 1])
  }

  function Count<B(==)>(s: seq<B>, v: B): nat {
    multiset(s)[v]
  }

  lemma CountAppend<B(!new)>(a: seq<B>, b: seq<B>, v: B)
    ensures Count(a + b, v) == Count(a, v) + Count(b, v)
  {
  }

  lemma {:induction false} GatherUpdate<A(!new), B(!new)>(s: seq<A>, i: nat, a: A, f: A -> seq<B>, v: B)
    requires i < |s|
    ensures Count(Gather(s[i := a], f), v) + Count(f(s[i]), v) == Count(Gather(s, f), v) + Count(f(a), v)
  {
    hide Count;
    var last := |s| - 1;
    CountAppend(Gather(s[..last], f), f(s[last]), v);
    if i == last {
      assert s[i := a][..last] == s[..last];
      CountAppend(Gather(s[..last], f), f(a), v);
    } else {
      assert s[i := a][..last] == s[..last][i := a];
      GatherUpdate(s[..last], i, a, f, v);
      CountAppend(Gather(s[..last][i := a], f), f(s[last]), v);
    }
  }

  lemma {:induction false} GatherNone<A(!new), B(!new)>(s: seq<A>, f: A -> seq<B>)
    requires forall i :: 0 <= i < |s| ==> f(s[i]) == []
    ensures Gather(s, f) == []
  {
    if s != [] {
      GatherNone(s[..|s| - 1], f);
    }
  }
}
