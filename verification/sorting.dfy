/** The in-place `List.sort` calls at the head of three schedulers. Java's
    list sort is stable, so the result is fully determined: order by the key,
    and among equal keys keep the caller's order. The model sorts arena
    indices, so "the caller's order" is index order. */
module StableSort {
  import opened IndexSeqs
  import opened Processes

  /** The comparators the schedulers sort by. */
  datatype SortKey =
    | PriorityThenArrival           // PriorityScheduler.schedule
    | ArrivalThenBurstThenPriority  // ShortestJobFirstScheduler.schedule
    | ArrivalOnly                   // ShortestRemainingTimeFirstScheduler.schedule

  /** The comparator says p < q. */
  predicate KeyLess(k: SortKey, p: Process, q: Process) {
    match k
    case PriorityThenArrival =>
      p.priority < q.priority || (p.priority == q.priority && p.arrival < q.arrival)
    case ArrivalThenBurstThenPriority =>
      || p.arrival < q.arrival
      || (p.arrival == q.arrival && p.burst < q.burst)
      || (p.arrival == q.arrival && p.burst == q.burst && p.priority < q.priority)
    case ArrivalOnly =>
      p.arrival < q.arrival
  }

  /** The comparator returns 0. */
  predicate KeyTie(k: SortKey, p: Process, q: Process) {
    !KeyLess(k, p, q) && !KeyLess(k, q, p)
  }

  /** In a stable sort index i ends up before index j exactly when its key is
      smaller, or the keys tie and i came first. */
  predicate Before(ps: seq<Process>, k: SortKey, i: nat, j: nat)
    requires i < |ps| && j < |ps|
  {
    KeyLess(k, ps[i], ps[j]) || (KeyTie(k, ps[i], ps[j]) && i < j)
  }

  /** Before is a strict total order on arena indices. */
  lemma BeforeIsStrictTotal(ps: seq<Process>, k: SortKey, i: nat, j: nat, l: nat)
    requires i < |ps| && j < |ps| && l < |ps|
    ensures !Before(ps, k, i, i)
    ensures i != j ==> (Before(ps, k, i, j) <==> !Before(ps, k, j, i))
    ensures Before(ps, k, i, j) && Before(ps, k, j, l) ==> Before(ps, k, i, l)
  {
  }

  predicate SortedBy(ps: seq<Process>, k: SortKey, s: seq<nat>)
    requires InRange(s, |ps|)
  {
    forall a, b :: 0 <= a < b < |s| ==> Before(ps, k, s[a], s[b])
  }

  /** Insert x in front of the first element it precedes. */
  function Insert(ps: seq<Process>, k: SortKey, x: nat, s: seq<nat>): (r: seq<nat>)
    requires x < |ps| && InRange(s, |ps|) && SortedBy(ps, k, s) && x !in s
    ensures |r| == |s| + 1 && InRange(r, |ps|) && SortedBy(ps, k, r)
    ensures multiset(r) == multiset(s) + multiset{x}
  {
    if s == [] then [x]
    else if Before(ps, k, x, s[0]) then
      forall b | 0 <= b < |s|
        ensures Before(ps, k, x, s[b])
      {
        if b > 0 {
          BeforeIsStrictTotal(ps, k, x, s[0], s[b]);
        }
      }
      ConsSorted(ps, k, x, s);
      [x] + s
    else
      BeforeIsStrictTotal(ps, k, x, s[0], s[0]);
      var t := Insert(ps, k, x, s[1..]);
      assert s == [s[0]] + s[1..];
      HeadPrecedesInsert(ps, k, x, s, t);
      ConsSorted(ps, k, s[0], t);
      [s[0]] + t
  }

  /** A head that precedes every element of a sorted tail gives a sorted sequence. */
  lemma ConsSorted(ps: seq<Process>, k: SortKey, h: nat, t: seq<nat>)
    requires h < |ps| && InRange(t, |ps|) && SortedBy(ps, k, t)
    requires forall b :: 0 <= b < |t| ==> Before(ps, k, h, t[b])
    ensures InRange([h] + t, |ps|) && SortedBy(ps, k, [h] + t)
  {
    var r := [h] + t;
    forall a, b | 0 <= a < b < |r|
      ensures Before(ps, k, r[a], r[b])
    {
      assert r[b] == t[b - 1];
      if a > 0 {
        assert r[a] == t[a - 1];
      }
    }
  }

  lemma HeadPrecedesInsert(ps: seq<Process>, k: SortKey, x: nat, s: seq<nat>, t: seq<nat>)
    requires x < |ps| && InRange(s, |ps|) && SortedBy(ps, k, s) && |s| > 0
    requires InRange(t, |ps|) && multiset(t) == multiset(s[1..]) + multiset{x}
    requires Before(ps, k, s[0], x)
    ensures forall b :: 0 <= b < |t| ==> Before(ps, k, s[0], t[b])
  {
    forall b | 0 <= b < |t|
      ensures Before(ps, k, s[0], t[b])
    {
      assert t[b] in multiset(t);
      if t[b] != x {
        assert t[b] in multiset(s[1..]);
        var c :| 0 <= c < |s[1..]| && s[1..][c] == t[b];
        assert Before(ps, k, s[0], s[c + 1]);
      }
    }
  }

  /** Insertion sort of the indices in s. */
  function Sort(ps: seq<Process>, k: SortKey, s: seq<nat>): (r: seq<nat>)
    requires InRange(s, |ps|) && Distinct(s)
    ensures |r| == |s| && InRange(r, |ps|) && SortedBy(ps, k, r)
    ensures multiset(r) == multiset(s)
  {
    if s == [] then []
    else
      assert s == [s[0]] + s[1..];
      var t := Sort(ps, k, s[1..]);
      assert s[0] !in multiset(t);
      Insert(ps, k, s[0], t)
  }

  /** A strictly sorted sequence has no repeated index. */
  lemma SortedIsDistinct(ps: seq<Process>, k: SortKey, s: seq<nat>)
    requires InRange(s, |ps|) && SortedBy(ps, k, s)
    ensures Distinct(s)
  {
    forall a, b | 0 <= a < b < |s|
      ensures s[a] != s[b]
    {
      BeforeIsStrictTotal(ps, k, s[a], s[a], s[a]);
    }
  }

  /** The caller's list after `processes.sort(...)`: a permutation of the
      arena in key order, equal keys in input order. */
  function StableOrder(ps: seq<Process>, k: SortKey): (r: seq<nat>)
    ensures IsPermutation(r, |ps|) && SortedBy(ps, k, r)
  {
    var r := Sort(ps, k, Range(|ps|));
    SortedIsDistinct(ps, k, r);
    forall i | 0 <= i < |ps|
      ensures i in r
    {
      assert Range(|ps|)[i] == i;
      assert i in multiset(Range(|ps|));
    }
    r
  }

  /** There is only one sorted permutation: the stable order is exactly the
      input sorted by key with ties kept in input order. */
  lemma {:induction false} SortedPermutationUnique(ps: seq<Process>, k: SortKey, s: seq<nat>, t: seq<nat>)
    requires InRange(s, |ps|) && InRange(t, |ps|) && SortedBy(ps, k, s) && SortedBy(ps, k, t)
    requires forall x :: x in s <==> x in t
    ensures s == t
    decreases |s| + |t|
  {
    if s != [] { assert s[0] in t; }
    if t != [] { assert t[0] in s; }
    if s != [] && t != [] {
      SortedIsDistinct(ps, k, s);
      SortedIsDistinct(ps, k, t);
      FirstPrecedesRest(ps, k, s);
      FirstPrecedesRest(ps, k, t);
      BeforeIsStrictTotal(ps, k, s[0], t[0], s[0]);
      assert s[0] == t[0];
      forall x
        ensures x in s[1..] <==> x in t[1..]
      {
        if x in s[1..] {
          var a :| 1 <= a < |s| && s[a] == x;
          assert x != s[0];
        }
        if x in t[1..] {
          var b :| 1 <= b < |t| && t[b] == x;
          assert x != t[0];
        }
        assert x in s <==> x == s[0] || x in s[1..];
        assert x in t <==> x == t[0] || x in t[1..];
      }
      SortedPermutationUnique(ps, k, s[1..], t[1..]);
      assert s == [s[0]] + s[1..] && t == [t[0]] + t[1..];
    }
  }

  /** The head of a sorted sequence comes Before every other element of it. */
  lemma FirstPrecedesRest(ps: seq<Process>, k: SortKey, s: seq<nat>)
    requires InRange(s, |ps|) && SortedBy(ps, k, s) && |s| > 0
    ensures forall x :: x in s && x != s[0] ==> Before(ps, k, s[0], x)
  {
  }

  /** Along an order sorted by a key that starts with arrival, arrival never decreases. */
  lemma SortedArrivals(ps: seq<Process>, k: SortKey, s: seq<nat>, a: nat, b: nat)
    requires k != PriorityThenArrival
    requires InRange(s, |ps|) && SortedBy(ps, k, s) && a <= b < |s|
    ensures ps[s[a]].arrival <= ps[s[b]].arrival
  {
    if a < b {
      assert Before(ps, k, s[a], s[b]);
    }
  }

  /** Taking one element out of a sorted sequence leaves it sorted. */
  lemma RemoveAtSorted(ps: seq<Process>, k: SortKey, s: seq<nat>, i: nat)
    requires i < |s| && InRange(s, |ps|) && SortedBy(ps, k, s)
    ensures InRange(RemoveAt(s, i), |ps|) && SortedBy(ps, k, RemoveAt(s, i))
  {
    var r := RemoveAt(s, i);
    RemoveAtPositions(s, i);
    forall a, b | 0 <= a < b < |r|
      ensures Before(ps, k, r[a], r[b])
    {
      var a' := if a < i then a else a + 1;
      var b' := if b < i then b else b + 1;
      assert r[a] == s[a'] && r[b] == s[b'];
    }
  }
}
