/** Sequences of process indices: the arena positions that the schedulers'
    lists, queues and execution orders hold. */
module IndexSeqs {

  datatype Option<+T> = None | Some(value: T)

  /** No index occurs twice. */
  predicate Distinct(s: seq<nat>) {
    forall a, b :: 0 <= a < b < |s| ==> s[a] != s[b]
  }

  /** Every index refers to a slot of an arena of size n. */
  predicate InRange(s: seq<nat>, n: nat) {
    forall a :: 0 <= a < |s| ==> s[a] < n
  }

  /** The indices 0, 1, ..., n-1 in increasing order: the caller's list as given. */
  function Range(n: nat): (r: seq<nat>)
    ensures |r| == n
    ensures forall a :: 0 <= a < n ==> r[a] == a
  {
    if n == 0 then [] else Range(n - 1) + [n - 1]
  }

  /** s is a reordering of the whole arena 0..n-1, each index exactly once. */
  predicate IsPermutation(s: seq<nat>, n: nat) {
    |s| == n && Distinct(s) && InRange(s, n) && forall i :: 0 <= i < n ==> i in s
  }

  /** The list with the element at position k taken out; the rest keep their order. */
  function RemoveAt(s: seq<nat>, k: nat): (r: seq<nat>)
    requires k < |s|
    ensures |r| == |s| - 1
  {
    s[..k] + s[k + 1..]
  }

  /** Where each element of RemoveAt(s, k) comes from. */
  lemma RemoveAtPositions(s: seq<nat>, k: nat)
    requires k < |s|
    ensures forall a :: 0 <= a < |RemoveAt(s, k)| ==>
      RemoveAt(s, k)[a] == if a < k then s[a] else s[a + 1]
  {
    var r := RemoveAt(s, k);
    forall a | 0 <= a < |r|
      ensures r[a] == if a < k then s[a] else s[a + 1]
    {
      if a < k {
        assert r[a] == s[..k][a];
      } else {
        assert r[a] == s[k + 1..][a - k];
      }
    }
  }

  /** From a list without repeats, RemoveAt takes out exactly s[k]; the list
      stays without repeats and in range. */
  lemma RemoveAtKeepsShape(s: seq<nat>, k: nat, n: nat)
    requires k < |s| && Distinct(s) && InRange(s, n)
    ensures Distinct(RemoveAt(s, k)) && InRange(RemoveAt(s, k), n)
    ensures forall y :: y in RemoveAt(s, k) <==> y in s && y != s[k]
  {
    var r := RemoveAt(s, k);
    RemoveAtPositions(s, k);
    forall y | y in s && y != s[k]
      ensures y in r
    {
      var a :| 0 <= a < |s| && s[a] == y;
      if a < k { assert r[a] == y; } else { assert r[a - 1] == y; }
    }
  }

  /** The position of the first occurrence of x. */
  function IndexOf(s: seq<nat>, x: nat): (k: nat)
    requires x in s
    ensures k < |s| && s[k] == x && x !in s[..k]
  {
    if s[0] == x then 0 else 1 + IndexOf(s[1..], x)
  }

  /** Removal by identity, as `List.remove(Object)` does: the first occurrence
      of x goes, the rest keep their order; nothing changes when x is absent. */
  function Remove(s: seq<nat>, x: nat): seq<nat> {
    if s == [] then []
    else if s[0] == x then s[1..]
    else [s[0]] + Remove(s[1..], x)
  }

  /** In a list without repeats, removing the element found at position k by
      identity is removing position k. */
  lemma {:induction false} RemoveIsRemoveAt(s: seq<nat>, k: nat)
    requires k < |s| && Distinct(s)
    ensures Remove(s, s[k]) == RemoveAt(s, k)
  {
    if k > 0 {
      assert s[0] != s[k];
      RemoveIsRemoveAt(s[1..], k - 1);
      assert s[1..][k - 1] == s[k];
      assert s[1..][..k - 1] == s[1..k] && s[1..][k..] == s[k + 1..];
      assert [s[0]] + s[1..k] == s[..k];
    }
  }

  /** Removing an absent element changes nothing. */
  lemma {:induction false} RemoveAbsent(s: seq<nat>, x: nat)
    requires x !in s
    ensures Remove(s, x) == s
  {
    if s != [] {
      assert s[0] != x;
      RemoveAbsent(s[1..], x);
    }
  }

  /** Removal by identity from a list without repeats takes out exactly x. */
  lemma RemoveKeepsShape(s: seq<nat>, x: nat, n: nat)
    requires Distinct(s) && InRange(s, n)
    ensures Distinct(Remove(s, x)) && InRange(Remove(s, x), n)
    ensures forall y :: y in Remove(s, x) <==> y in s && y != x
  {
    if x in s {
      var k := IndexOf(s, x);
      RemoveIsRemoveAt(s, k);
      RemoveAtKeepsShape(s, k, n);
    } else {
      RemoveAbsent(s, x);
    }
  }

  lemma AppendKeepsShape(s: seq<nat>, x: nat, n: nat)
    requires Distinct(s) && InRange(s, n) && x !in s && x < n
    ensures Distinct(s + [x]) && InRange(s + [x], n)
  {
  }

  /** The indices a list holds, as a set. */
  function Elements(s: seq<nat>): set<nat> {
    set x | x in s
  }

  lemma {:induction false} ElementsCard(s: seq<nat>)
    requires Distinct(s)
    ensures |Elements(s)| == |s|
  {
    if s != [] {
      ElementsCard(s[1..]);
      assert Elements(s) == Elements(s[1..]) + {s[0]};
    }
  }

  lemma {:induction false} SubsetCard(a: set<nat>, b: set<nat>)
    requires a <= b
    ensures |a| <= |b|
    decreases |a|
  {
    if a != {} {
      var x :| x in a;
      SubsetCard(a - {x}, b - {x});
    }
  }

  /** Pigeonhole: a list of distinct indices below n has at most n entries,
      and if it has n, every index below n is among them. */
  lemma Pigeonhole(s: seq<nat>, n: nat)
    requires Distinct(s) && InRange(s, n)
    ensures |s| <= n
    ensures |s| == n ==> forall i :: 0 <= i < n ==> i in s
    ensures |s| < n ==> exists i :: 0 <= i < n && i !in s
  {
    var below := Elements(Range(n));
    ElementsCard(s);
    ElementsCard(Range(n));
    forall x | x in Elements(s)
      ensures x in below
    {
      assert Range(n)[x] == x;
    }
    SubsetCard(Elements(s), below);
    if |s| == n {
      forall i | 0 <= i < n
        ensures i in s
      {
        assert Range(n)[i] == i;
        if i !in s {
          SubsetCard(Elements(s), below - {i});
        }
      }
    }
    if |s| < n && forall i :: 0 <= i < n ==> i in s {
      forall x | x in below
        ensures x in Elements(s)
      {
        assert Range(n)[x] == x;
      }
      SubsetCard(below, Elements(s));
    }
  }

  /** A prefix of a prefix is a prefix. */
  lemma PrefixTrans(a: seq<nat>, b: seq<nat>, c: seq<nat>)
    requires a <= b && b <= c
    ensures a <= c
  {
    assert c[..|a|] == c[..|b|][..|a|];
  }

  /** Largest of two integers. */
  function Max(a: int, b: int): (m: int)
    ensures m >= a && m >= b && (m == a || m == b)
  {
    if a >= b then a else b
  }

  /** Smallest of two integers. */
  function Min(a: int, b: int): (m: int)
    ensures m <= a && m <= b && (m == a || m == b)
  {
    if a <= b then a else b
  }
}
