/** The growing circular buffer that holds the pending operations of an endpoint. */
module VectorQueues {

  /** The elements of `s` that do not satisfy `drop`, in their order. */
  function Keep<T>(s: seq<T>, drop: T -> bool): (r: seq<T>)
    ensures |r| <= |s|
  {
    if s == [] then []
    else
      var rest := Keep(s[..|s| - 1], drop);
      if drop(s[|s| - 1]) then rest else rest + [s[|s| - 1]]
  }

  lemma {:induction false} KeepMembers<T>(s: seq<T>, drop: T -> bool)
    ensures forall x :: x in Keep(s, drop) <==> x in s && !drop(x)
  {
    if s != [] {
      KeepMembers(s[..|s| - 1], drop);
      assert s == s[..|s| - 1] + [s[|s| - 1]];
    }
  }

  /** Where the i-th kept element stood. */
  lemma {:induction false} KeepOrigin<T>(s: seq<T>, drop: T -> bool, i: nat) returns (k: nat)
    requires i < |Keep(s, drop)|
    ensures k < |s| && Keep(s, drop)[i] == s[k] && !drop(s[k])
  {
    if i < |Keep(s[..|s| - 1], drop)| {
      k := KeepOrigin(s[..|s| - 1], drop, i);
    } else {
      k := |s| - 1;
    }
  }

  lemma {:induction false} KeepConcat<T>(s: seq<T>, t: seq<T>, drop: T -> bool)
    ensures Keep(s + t, drop) == Keep(s, drop) + Keep(t, drop)
  {
    if t == [] {
      assert s + t == s;
    } else {
      KeepConcat(s, t[..|t| - 1], drop);
      assert (s + t)[..|s + t| - 1] == s + t[..|t| - 1];
    }
  }

  /** Two predicates that agree on `s` keep the same elements. */
  lemma {:induction false} KeepCongruent<T>(s: seq<T>, drop: T -> bool, drop': T -> bool)
    requires forall x :: x in s ==> drop(x) == drop'(x)
    ensures Keep(s, drop) == Keep(s, drop')
  {
    if s != [] {
      KeepCongruent(s[..|s| - 1], drop, drop');
    }
  }

  /** Subtracting the modulus once is the remainder for numbers below twice the modulus. */
  lemma WrapIsRemainder(k: nat, n: nat)
    requires k < 2 * n
    ensures k % n == if k < n then k else k - n
  {
    MultipleGrows(n, k / n);
    assert k == n * (k / n) + k % n;
  }

  lemma MultipleGrows(n: nat, q: int)
    ensures q >= 2 ==> n * q >= 2 * n
    ensures q <= 0 ==> n * q <= 0
    ensures q == 1 ==> n * q == n
  {
    if q >= 2 {
      assert n * q == 2 * n + n * (q - 2);
    }
  }

  /** One turn of the compaction loop of erase_if, on the logical contents. */
  lemma CompactionStep<T>(was: seq<T>, now: seq<T>, w: nat, r: nat, drop: T -> bool)
    requires w <= r < |was| == |now|
    requires now[..w] == Keep(was[..r], drop) && now[r..] == was[r..]
    ensures now[r] == was[r]
    ensures drop(was[r]) ==> now[..w] == Keep(was[..r + 1], drop)
    ensures !drop(was[r]) ==> now[w := now[r]][..w + 1] == Keep(was[..r + 1], drop)
    ensures now[r + 1..] == was[r + 1..] == now[w := now[r]][r + 1..]
  {
    assert now[r] == now[r..][0] == was[r];
    assert was[..r + 1][..r] == was[..r];
    assert now[w := now[r]][..w + 1] == now[..w] + [now[r]];
    assert now[r + 1..] == now[r..][1..] && was[r + 1..] == was[r..][1..];
    assert now[w := now[r]][r + 1..] == now[r + 1..];
  }

  class VectorQueue<T(0)> {
    var buffer: array<T>
    var head: nat
    var tail: nat
    var count: nat

    /** The physical position of the logical index `i`. */
    function Slot(i: nat): (p: nat)
      reads this
      requires head < buffer.Length && i <= buffer.Length
    {
      if head + i >= buffer.Length then head + i - buffer.Length else head + i
    }

    /** The comparison and subtraction of the code is the remainder modulo the capacity. */
    lemma SlotIsRemainder(i: nat)
      requires head < buffer.Length && i <= buffer.Length
      ensures Slot(i) == (head + i) % buffer.Length
    {
      WrapIsRemainder(head + i, buffer.Length);
    }

    ghost predicate Valid()
      reads this
    {
      && head < buffer.Length
      && count <= buffer.Length
      && tail == Slot(count)
    }

    /** The queue as a sequence, oldest element first. */
    ghost function Contents(): (s: seq<T>)
      reads this, buffer
      requires Valid()
      ensures |s| == count
      ensures forall i :: 0 <= i < count ==> s[i] == buffer[Slot(i)]
    {
      if head + count <= buffer.Length then buffer[head..head + count]
      else buffer[head..] + buffer[..head + count - buffer.Length]
    }

    constructor (capacity: nat)
      requires 0 < capacity
      ensures Valid() && Contents() == [] && fresh(buffer) && buffer.Length == capacity
    {
      buffer := new T[capacity];
      head, tail, count := 0, 0, 0;
    }

    method Push(v: T)
      requires Valid()
      modifies this, buffer
      ensures Valid() && (buffer == old(buffer) || fresh(buffer))
      ensures Contents() == old(Contents()) + [v]
      ensures buffer.Length == if old(count) == old(buffer.Length) then 2 * old(buffer.Length) else old(buffer.Length)
    {
      if count == buffer.Length {
        Grow();
      }
      Append(v);
    }

    /** The rest of a push: the new element goes to the tail slot of a buffer that is not full. */
    method Append(v: T)
      requires Valid() && count < buffer.Length
      modifies this, buffer
      ensures Valid() && buffer == old(buffer) && Contents() == old(Contents()) + [v]
    {
      ghost var was := Contents();
      buffer[tail] := v;
      tail := if tail + 1 == buffer.Length then 0 else tail + 1;
      count := count + 1;
      assert forall i :: 0 <= i < count ==> Contents()[i] == (was + [v])[i];
    }

    /** The resizing step of a push: the wrapped part moves behind the old end of the buffer. */
    method Grow()
      requires Valid() && count == buffer.Length
      modifies this
      ensures Valid() && fresh(buffer) && buffer.Length == 2 * old(buffer.Length)
      ensures Contents() == old(Contents())
    {
      ghost var was := Contents();
      var oldSize := buffer.Length;
      var bigger := new T[oldSize * 2];
      forall i | 0 <= i < oldSize {
        bigger[i] := buffer[i];
      }
      if tail <= head {
        forall i | 0 <= i < tail {
          bigger[oldSize + i] := buffer[i];
        }
        tail := oldSize + tail;
      }
      buffer := bigger;
      assert forall i :: 0 <= i < count ==> Contents()[i] == was[i];
    }

    method Pop()
      requires Valid()
      modifies this
      ensures Valid() && buffer == old(buffer)
      ensures Contents() == if old(Contents()) == [] then [] else old(Contents())[1..]
    {
      if count > 0 {
        ghost var was := Contents();
        head := if head + 1 == buffer.Length then 0 else head + 1;
        count := count - 1;
        assert forall i :: 0 <= i < count ==> Contents()[i] == was[i + 1];
      }
    }

    method Front() returns (v: T)
      requires Valid()
      ensures Contents() != [] ==> v == Contents()[0]
    {
      v := buffer[head];
    }

    method Empty() returns (b: bool)
      requires Valid()
      ensures b <==> Contents() == []
    {
      b := count == 0;
    }

    /** Dereferencing the iterator that stands at logical index `index`. */
    method At(index: nat) returns (v: T)
      requires Valid() && index < count
      ensures v == Contents()[index]
    {
      var pos := (head + index) % buffer.Length;
      SlotIsRemainder(index);
      v := buffer[pos];
    }

    /** Walking from begin() to end() meets the elements in order. */
    method Iterate() returns (seen: seq<T>)
      requires Valid()
      ensures seen == Contents()
    {
      seen := [];
      var index := 0;
      while index != count
        invariant index <= count && seen == Contents()[..index]
      {
        var v := At(index);
        seen := seen + [v];
        index := index + 1;
      }
    }

    method EraseIf(drop: T -> bool)
      requires Valid()
      modifies this, buffer
      ensures Valid() && buffer == old(buffer)
      ensures Contents() == Keep(old(Contents()), drop)
    {
      ghost var was := Contents();
      if count == 0 {
        return;
      }
      var writeIdx := 0;
      var readIdx := 0;
      while readIdx < count
        invariant writeIdx <= readIdx <= count == old(count)
        invariant buffer == old(buffer) && Valid()
        invariant Contents()[..writeIdx] == Keep(was[..readIdx], drop)
        invariant Contents()[readIdx..] == was[readIdx..]
      {
        writeIdx := Compact(was, writeIdx, readIdx, drop);
        readIdx := readIdx + 1;
      }
      assert was[..count] == was;
      Truncate(writeIdx);
    }

    /** One turn of the compaction loop: the element at `readIdx` is skipped or moved to `writeIdx`. */
    method Compact(ghost was: seq<T>, writeIdx: nat, readIdx: nat, drop: T -> bool) returns (next: nat)
      requires Valid() && writeIdx <= readIdx < count == |was|
      requires Contents()[..writeIdx] == Keep(was[..readIdx], drop) && Contents()[readIdx..] == was[readIdx..]
      modifies buffer
      ensures Valid() && writeIdx <= next <= readIdx + 1
      ensures Contents()[..next] == Keep(was[..readIdx + 1], drop) && Contents()[readIdx + 1..] == was[readIdx + 1..]
    {
      next := writeIdx;
      CompactionStep(was, Contents(), writeIdx, readIdx, drop);
      var currentPos := Slot(readIdx);
      if !drop(buffer[currentPos]) {
        if writeIdx != readIdx {
          CopySlot(writeIdx, readIdx);
        } else {
          assert Contents()[writeIdx := Contents()[readIdx]] == Contents();
        }
        next := writeIdx + 1;
      }
    }

    /** One compaction step: the element at logical index `from` is written over the one at `target`. */
    method CopySlot(target: nat, from: nat)
      requires Valid() && target < count && from < count
      modifies buffer
      ensures Valid() && Contents() == old(Contents())[target := old(Contents())[from]]
    {
      ghost var was := Contents();
      buffer[Slot(target)] := buffer[Slot(from)];
      assert forall k :: 0 <= k < count ==> Contents()[k] == was[target := was[from]][k];
    }

    /** The end of a compaction: the first `n` elements stay, the tail follows them. */
    method Truncate(n: nat)
      requires Valid() && n <= count
      modifies this
      ensures Valid() && buffer == old(buffer) && Contents() == old(Contents())[..n]
    {
      ghost var was := Contents();
      count := n;
      var rawTail := head + count;
      tail := if rawTail >= buffer.Length then rawTail - buffer.Length else rawTail;
      assert forall k :: 0 <= k < n ==> Contents()[k] == was[k];
    }
  }
}
