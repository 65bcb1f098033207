/** The shuffled copies of value groups that container.go hands out. */
module Shuffle {

  function UpTo(n: nat): (s: seq<nat>)
    ensures |s| == n && forall i :: 0 <= i < n ==> s[i] == i
  {
    seq(n, i => i)
  }

  /** What `x` displaces goes to the end. */
  lemma Displaced<T>(s: seq<T>, j: nat, x: T)
    requires j < |s|
    ensures multiset(s[j := x] + [s[j]]) == multiset(s + [x])
  {
    assert multiset(s[j := x]) == multiset(s) - multiset{s[j]} + multiset{x};
    assert s[j] in multiset(s);
  }

  lemma Removed<T>(s: seq<T>, j: nat)
    requires j < |s|
    ensures multiset(s) == multiset(s[..j] + s[j + 1..]) + multiset{s[j]}
  {
    assert s == s[..j] + ([s[j]] + s[j + 1..]);
  }

  /** rand.Perm, with an arbitrary choice for every random number */
  method Perm(n: nat) returns (p: seq<nat>)
    ensures multiset(p) == multiset(UpTo(n))
    ensures |p| == n && forall i :: 0 <= i < n ==> p[i] < n
  {
    p := [];
    for i := 0 to n
      invariant |p| == i && multiset(p) == multiset(UpTo(i))
    {
      var j: nat :| j <= i;
      UpToMore(i);
      if j == i {
        p := p + [i];
      } else {
        Displaced(p, j, i);
        p := p[j := i] + [p[j]];
      }
    }
    forall i | 0 <= i < n ensures p[i] < n {
      assert p[i] in multiset(p);
      assert p[i] in UpTo(n);
    }
  }

  lemma UpToMore(n: nat)
    ensures UpTo(n + 1) == UpTo(n) + [n]
  {}

  function Pick<T>(items: seq<T>, p: seq<nat>): (r: seq<T>)
    requires forall i :: 0 <= i < |p| ==> p[i] < |items|
    ensures |r| == |p| && forall i :: 0 <= i < |p| ==> r[i] == items[p[i]]
  {
    seq(|p|, i requires 0 <= i < |p| => items[p[i]])
  }

  lemma PickPermuted<T>(items: seq<T>, a: seq<nat>, b: seq<nat>)
    requires (forall i :: 0 <= i < |a| ==> a[i] < |items|) && (forall i :: 0 <= i < |b| ==> b[i] < |items|)
    requires multiset(a) == multiset(b)
    ensures multiset(Pick(items, a)) == multiset(Pick(items, b))
    decreases |a|
  {
    if a == [] {
      assert |multiset(b)| == |b|;
    } else {
      var j := Found(a, b);
      var tail, rest := a[1..], b[..j] + b[j + 1..];
      PickPermuted(items, tail, rest);
      PickHead(items, a);
      PickRemoved(items, b, j);
    }
  }

  lemma PickHead<T>(items: seq<T>, p: seq<nat>)
    requires (forall i :: 0 <= i < |p| ==> p[i] < |items|) && p != []
    ensures multiset(Pick(items, p)) == multiset(Pick(items, p[1..])) + multiset{items[p[0]]}
  {
    assert Pick(items, p) == [items[p[0]]] + Pick(items, p[1..]);
  }

  /** The first element of `a` is somewhere in `b`, and the rest is the same. */
  lemma Found<T>(a: seq<T>, b: seq<T>) returns (j: nat)
    requires multiset(a) == multiset(b) && a != []
    ensures j < |b| && b[j] == a[0] && multiset(a[1..]) == multiset(b[..j] + b[j + 1..])
  {
    assert a[0] in multiset(a);
    assert a[0] in multiset(b);
    j :| 0 <= j < |b| && b[j] == a[0];
    Removed(a, 0);
    Removed(b, j);
    assert a[..0] + a[1..] == a[1..];
    Cancel(multiset(a[1..]), multiset(b[..j] + b[j + 1..]), a[0]);
  }

  lemma Cancel<T>(p: multiset<T>, q: multiset<T>, x: T)
    requires p + multiset{x} == q + multiset{x}
    ensures p == q
  {
    assert p == (p + multiset{x}) - multiset{x};
    assert q == (q + multiset{x}) - multiset{x};
  }

  lemma PickRemoved<T>(items: seq<T>, p: seq<nat>, j: nat)
    requires (forall i :: 0 <= i < |p| ==> p[i] < |items|) && j < |p|
    ensures multiset(Pick(items, p)) == multiset(Pick(items, p[..j] + p[j + 1..])) + multiset{items[p[j]]}
  {
    Removed(Pick(items, p), j);
    assert Pick(items, p[..j] + p[j + 1..]) == Pick(items, p)[..j] + Pick(items, p)[j + 1..];
  }

  /** shuffledCopy: every item is there, as often as before. */
  method ShuffledCopy<T>(items: seq<T>) returns (copy: seq<T>)
    ensures multiset(copy) == multiset(items)
  {
    var p := Perm(|items|);
    copy := [];
    for i := 0 to |p|
      invariant copy == Pick(items, p[..i])
    {
      copy := copy + [items[p[i]]];
    }
    assert p[..|p|] == p;
    PickPermuted(items, p, UpTo(|items|));
    assert Pick(items, UpTo(|items|)) == items;
  }
}
