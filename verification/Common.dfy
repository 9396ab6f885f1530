/** Result codes and the option type used throughout. */
module Common {
  datatype Option<+T> = None | Some(value: T)

  const LFI_SUCCESS := 0
  const LFI_TIMEOUT := 2
  const LFI_CANCELED := 3
  const LFI_BROKEN_COMM := 4
  const LFI_COMM_NOT_FOUND := 5
  const LFI_PEEK_NO_MSG := 6
  const LFI_ETRUN_RECV := 10
  const LFI_LIBFABRIC_ERROR := 11

  /** The fabric's "try again" code. */
  const FI_EAGAIN := 11

  function Min(a: nat, b: nat): nat {
    if a < b then a else b
  }

  ghost predicate Distinct<T>(s: seq<T>) {
    forall i, j :: 0 <= i < j < |s| ==> s[i] != s[j]
  }

  /** The integers from `lo` up to but not including `hi`. */
  ghost function Range(lo: int, hi: int): (s: set<int>)
    requires lo <= hi
    ensures |s| == hi - lo && forall x :: x in s <==> lo <= x < hi
    decreases hi - lo
  {
    if lo == hi then {} else Range(lo, hi - 1) + {hi - 1}
  }

  lemma SubsetSize<T>(a: set<T>, b: set<T>)
    requires a <= b
    ensures |a| <= |b| && (|a| == |b| ==> a == b)
  {
    assert b == a + (b - a);
  }

  lemma RemoveAt<T>(s: seq<T>, k: nat)
    requires k < |s|
    ensures multiset(s[..k] + s[k + 1..]) == multiset(s) - multiset{s[k]}
  {
    assert s == s[..k] + [s[k]] + s[k + 1..];
  }

  lemma {:induction false} DistinctMultiplicity<T>(s: seq<T>, x: T)
    requires Distinct(s)
    ensures multiset(s)[x] == if x in s then 1 else 0
  {
    if s != [] {
      assert s == [s[0]] + s[1..];
      DistinctMultiplicity(s[1..], x);
    }
  }

  /** `s` without the first occurrence of `x`. */
  function Remove<T(==)>(s: seq<T>, x: T): seq<T> {
    if s == [] then [] else if s[0] == x then s[1..] else [s[0]] + Remove(s[1..], x)
  }

  lemma {:induction false} RemoveKeepsTheRest<T>(s: seq<T>, x: T)
    requires Distinct(s)
    ensures Distinct(Remove(s, x)) && x !in Remove(s, x)
    ensures forall y :: y in Remove(s, x) <==> y in s && y != x
    ensures forall i :: 0 <= i < |Remove(s, x)| ==> Remove(s, x)[i] in s
    ensures if x in s then |Remove(s, x)| == |s| - 1 else Remove(s, x) == s
  {
    if s != [] {
      var rest := s[1..];
      assert s == [s[0]] + rest && s[0] !in rest;
      RemoveKeepsTheRest(rest, x);
    }
  }
}
