/** Distinctness, flattening, searching and cutting of sequences. */
module Sequences {
  import opened Outcomes

  ghost predicate Distinct<T>(s: seq<T>) {
    forall i, j :: 0 <= i < j < |s| ==> s[i] != s[j]
  }

  /** The last n elements: s[max(0, |s| - n)..] */
  function LastN<T>(s: seq<T>, n: nat): seq<T> {
    if |s| <= n then s else s[|s| - n..]
  }

  function Repeat<T>(x: T, n: nat): (s: seq<T>)
    ensures |s| == n && forall i :: 0 <= i < n ==> s[i] == x
  {
    if n == 0 then [] else [x] + Repeat(x, n - 1)
  }

  lemma LastNConcat<T>(a: seq<T>, b: seq<T>, n: nat)
    ensures LastN(LastN(a, n) + b, n) == LastN(a + b, n)
  {
  }

  function FlatMap<A, B>(f: A -> seq<B>, s: seq<A>): seq<B> {
    if s == [] then [] else FlatMap(f, s[..|s| - 1]) + f(s[|s| - 1])
  }

  lemma {:induction false} FlatMapPrefix<A, B>(f: A -> seq<B>, s: seq<A>, t: seq<A>)
    ensures FlatMap(f, s) <= FlatMap(f, s + t)
    decreases |t|
  {
    if t == [] {
      assert s + t == s;
    } else {
      FlatMapPrefix(f, s, t[..|t| - 1]);
      assert (s + t)[..|s + t| - 1] == s + t[..|t| - 1];
    }
  }

  lemma {:induction false} FlatMapMembers<A, B>(f: A -> seq<B>, s: seq<A>, y: B)
    ensures y in FlatMap(f, s) <==> exists i :: 0 <= i < |s| && y in f(s[i])
    decreases |s|
  {
    if s != [] {
      FlatMapMembers(f, s[..|s| - 1], y);
      var last := |s| - 1;
      assert forall i :: 0 <= i < last ==> s[..last][i] == s[i];
      if y in f(s[last]) {
        assert y in FlatMap(f, s);
      }
    }
  }

  /** The first element with a property. */
  function Find<T>(s: seq<T>, f: T -> bool): (r: Option<T>)
    ensures r.Some? ==> r.value in s && f(r.value)
    ensures r.None? ==> forall x :: x in s ==> !f(x)
  {
    if s == [] then None else if f(s[0]) then Some(s[0]) else Find(s[1..], f)
  }

  lemma DistinctExtend<T>(s: seq<T>, x: T)
    requires Distinct(s)
    ensures Distinct(s + [x]) <==> x !in s
  {
    if x in s {
      var k :| 0 <= k < |s| && s[k] == x;
      assert (s + [x])[k] == (s + [x])[|s|];
    }
  }

  lemma FindOnly<T>(s: seq<T>, f: T -> bool, x: T)
    requires x in s && f(x)
    requires forall y :: y in s && f(y) ==> y == x
    ensures Find(s, f) == Some(x)
  {
  }

  // ----- First occurrences -----

  /** The elements outside seen, each at its first occurrence only. */
  function Unseen<T(!new)>(s: seq<T>, seen: set<T>): (t: seq<T>)
    ensures forall x :: x in t <==> x in s && x !in seen
  {
    if s == [] then []
    else if s[0] in seen then Unseen(s[1..], seen)
    else [s[0]] + Unseen(s[1..], seen + {s[0]})
  }

  lemma UnseenStep<T(!new)>(x: T, rest: seq<T>, seen: set<T>)
    ensures Unseen([x] + rest, seen) == if x in seen then Unseen(rest, seen) else [x] + Unseen(rest, seen + {x})
  {
  }

  lemma NothingUnseen<T(!new)>(seen: set<T>)
    ensures Unseen([], seen) == []
  {
  }

  ghost function IndexOf<T>(s: seq<T>, x: T): (i: nat)
    requires x in s
    ensures i < |s| && s[i] == x && x !in s[..i]
  {
    if s[0] == x then 0
    else
      var i := IndexOf(s[1..], x);
      assert s[..i + 1] == [s[0]] + s[1..][..i];
      1 + i
  }

  // Every element of t occurs in s, and first occurs there after the one before it.
  ghost predicate InOrderOf<T>(t: seq<T>, s: seq<T>) {
    && (forall i :: 0 <= i < |t| ==> t[i] in s)
    && forall i, j :: 0 <= i < j < |t| ==> IndexOf(s, t[i]) < IndexOf(s, t[j])
  }

  lemma {:induction false} UnseenInOrder<T(!new)>(s: seq<T>, seen: set<T>)
    ensures Distinct(Unseen(s, seen)) && InOrderOf(Unseen(s, seen), s)
  {
    hide Distinct, InOrderOf;
    if s == [] {
      NothingInOrder(s);
    } else if s[0] in seen {
      UnseenInOrder(s[1..], seen);
      LaterInOrder(Unseen(s, seen), s);
    } else {
      UnseenInOrder(s[1..], seen + {s[0]});
      FirstInOrder(Unseen(s[1..], seen + {s[0]}), s);
    }
  }

  lemma NothingInOrder<T>(s: seq<T>)
    ensures Distinct<T>([]) && InOrderOf([], s)
  {
  }

  lemma LaterInOrder<T>(t: seq<T>, s: seq<T>)
    requires s != [] && InOrderOf(t, s[1..]) && s[0] !in t
    ensures InOrderOf(t, s) && forall i :: 0 <= i < |t| ==> 0 < IndexOf(s, t[i])
  {
  }

  lemma FirstInOrder<T>(rest: seq<T>, s: seq<T>)
    requires s != [] && Distinct(rest) && InOrderOf(rest, s[1..]) && s[0] !in rest
    ensures Distinct([s[0]] + rest) && InOrderOf([s[0]] + rest, s)
  {
  }

  lemma {:induction false} UnseenOfDistinct<T(!new)>(s: seq<T>, seen: set<T>)
    requires Distinct(s) && forall x :: x in s ==> x !in seen
    ensures Unseen(s, seen) == s
  {
    if s != [] {
      assert forall x :: x in s[1..] ==> x != s[0];
      UnseenOfDistinct(s[1..], seen + {s[0]});
    }
  }

  // ----- Positions -----

  // Ascending positions below n.
  ghost predicate Increasing(at: seq<nat>, n: nat) {
    && (forall k :: 0 <= k < |at| ==> at[k] < n)
    && forall k, l :: 0 <= k < l < |at| ==> at[k] < at[l]
  }

  function Shifted(at: seq<nat>): (later: seq<nat>)
    ensures |later| == |at| && forall k :: 0 <= k < |at| ==> later[k] == at[k] + 1
    ensures forall i :: 0 < i ==> (i in later <==> i - 1 in at)
    ensures 0 !in later
  {
    if at == [] then [] else [at[0] + 1] + Shifted(at[1..])
  }

  // part is whole at exactly these positions.
  ghost predicate Picks<T>(part: seq<T>, whole: seq<T>, at: seq<nat>) {
    && |at| == |part| && Increasing(at, |whole|)
    && forall k :: 0 <= k < |at| ==> part[k] == whole[at[k]]
  }

  // The positions behind one more element in front, with or without it.
  function Behind(at: seq<nat>, taken: bool): (more: seq<nat>)
    ensures forall i: nat :: i in more <==> if i == 0 then taken else i - 1 in at
  {
    if taken then [0] + Shifted(at) else Shifted(at)
  }

  lemma ShiftedPicks<T>(part: seq<T>, whole: seq<T>, at: seq<nat>, x: T)
    requires Picks(part, whole, at)
    ensures Picks(part, [x] + whole, Shifted(at))
  {
  }

  lemma PicksCons<T>(part: seq<T>, whole: seq<T>, at: seq<nat>, x: T, taken: bool)
    requires Picks(part, whole, at)
    ensures Picks(if taken then [x] + part else part, [x] + whole, Behind(at, taken))
  {
    hide Shifted;
    ShiftedPicks(part, whole, at, x);
    if taken {
      var more, later := [0] + Shifted(at), Shifted(at);
      assert forall k :: 0 < k < |more| ==> more[k] == later[k - 1] && more[k] > 0;
    }
  }

  // ----- Permutations -----

  function Map<A, B>(f: A -> B, s: seq<A>): (t: seq<B>)
    ensures |t| == |s| && forall i :: 0 <= i < |s| ==> t[i] == f(s[i])
  {
    seq(|s|, i requires 0 <= i < |s| => f(s[i]))
  }

  lemma {:induction false} DistinctCounts<T>(s: seq<T>, x: T)
    requires Distinct(s)
    ensures multiset(s)[x] == if x in s then 1 else 0
  {
    if s != [] {
      assert s == [s[0]] + s[1..];
      DistinctCounts(s[1..], x);
    }
  }

  lemma SameMembersPermute<T(!new)>(a: seq<T>, b: seq<T>)
    requires Distinct(a) && Distinct(b) && forall x :: x in a <==> x in b
    ensures multiset(a) == multiset(b)
  {
    forall x ensures multiset(a)[x] == multiset(b)[x] {
      DistinctCounts(a, x);
      DistinctCounts(b, x);
    }
  }

  lemma SamePermutation<T>(a: seq<T>, b: seq<T>)
    requires multiset(a) == multiset(b)
    ensures |a| == |b|
    ensures forall x :: x in a <==> x in b
  {
    assert |multiset(a)| == |multiset(b)|;
    forall x ensures x in a <==> x in b {
      assert x in multiset(a) <==> x in multiset(b);
    }
  }

  lemma TakeOut<T>(s: seq<T>, k: nat)
    requires k < |s|
    ensures multiset(s) == multiset(s[..k] + s[k + 1..]) + multiset{s[k]}
  {
    assert s == s[..k] + [s[k]] + s[k + 1..];
  }

  lemma MapTakeOut<A, B>(f: A -> B, s: seq<A>, k: nat)
    requires k < |s|
    ensures multiset(Map(f, s)) == multiset(Map(f, s[..k] + s[k + 1..])) + multiset{f(s[k])}
  {
    TakeOut(Map(f, s), k);
    assert Map(f, s)[..k] + Map(f, s)[k + 1..] == Map(f, s[..k] + s[k + 1..]);
  }

  lemma Place<T>(s: seq<T>, x: T, members: multiset<T>) returns (k: nat)
    requires x in members && multiset(s) == members
    ensures k < |s| && s[k] == x
  {
    assert x in s;
    k :| k < |s| && s[k] == x;
  }

  lemma SameRest<T>(all: multiset<T>, a: multiset<T>, b: multiset<T>, x: T)
    requires all == a + multiset{x} && all == b + multiset{x}
    ensures a == b
  {
    assert a == all - multiset{x};
    assert b == all - multiset{x};
  }

  lemma SameTail<T>(a: seq<T>, b: seq<T>) returns (k: nat)
    requires a != [] && multiset(a) == multiset(b)
    ensures k < |b| && b[k] == a[0] && multiset(a[1..]) == multiset(b[..k] + b[k + 1..])
  {
    k := Place(b, a[0], multiset(a));
    TakeOut(a, 0);
    assert a[..0] + a[1..] == a[1..];
    TakeOut(b, k);
    SameRest(multiset(a), multiset(a[1..]), multiset(b[..k] + b[k + 1..]), a[0]);
  }

  lemma {:induction false} MapPermutes<A, B>(f: A -> B, a: seq<A>, b: seq<A>)
    requires multiset(a) == multiset(b)
    ensures multiset(Map(f, a)) == multiset(Map(f, b))
    decreases |a|
  {
    hide Map;
    if a == [] {
      assert |multiset(b)| == 0;
    } else {
      var k := SameTail(a, b);
      MapPermutes(f, a[1..], b[..k] + b[k + 1..]);
      MapTakeOut(f, a, 0);
      MapTakeOut(f, b, k);
      assert a[..0] + a[1..] == a[1..];
    }
  }
}
