/** The element-wise operations of a reduction, on the machine integers of the supported types. */
module Reduction {
  import opened Common

  datatype Op = Min | Max | Sum | Prod

  datatype Type = IntType | Int32Type | UInt32Type | Int64Type | UInt64Type

  predicate Signed(t: Type) {
    t.IntType? || t.Int32Type? || t.Int64Type?
  }

  /** `int` has 32 bits. */
  predicate Wide(t: Type) {
    t.Int64Type? || t.UInt64Type?
  }

  predicate InRange(t: Type, v: int) {
    match t
    case Int64Type => -0x8000_0000_0000_0000 <= v < 0x8000_0000_0000_0000
    case UInt64Type => 0 <= v < 0x1_0000_0000_0000_0000
    case UInt32Type => 0 <= v < 0x1_0000_0000
    case _ => -0x8000_0000 <= v < 0x8000_0000
  }

  /** The bounds of the types. */
  lemma RangeOfType(t: Type, v: int)
    ensures t.IntType? || t.Int32Type? ==> (InRange(t, v) <==> -2147483648 <= v <= 2147483647)
    ensures t.UInt32Type? ==> (InRange(t, v) <==> 0 <= v <= 4294967295)
    ensures t.Int64Type? ==> (InRange(t, v) <==> -9223372036854775808 <= v <= 9223372036854775807)
    ensures t.UInt64Type? ==> (InRange(t, v) <==> 0 <= v <= 18446744073709551615)
  {
  }

  /** The value that an unsigned type of the same width keeps of `v`. */
  function Wrap(t: Type, v: int): int {
    if Wide(t) then v % 0x1_0000_0000_0000_0000 else v % 0x1_0000_0000
  }

  /** The operation on the mathematical integers. */
  function Exact(op: Op, a: int, b: int): int {
    match op
    case Min => if b < a then b else a
    case Max => if b > a then b else a
    case Sum => a + b
    case Prod => a * b
  }

  /** The operation of the machine: unsigned results wrap around, and a signed overflow has no result. */
  function Machine(op: Op, t: Type, a: int, b: int): Option<int> {
    var v := Exact(op, a, b);
    if !Signed(t) then Some(Wrap(t, v))
    else if InRange(t, v) then Some(v)
    else None
  }

  function ExactFold(op: Op, first: int, rest: seq<int>): int {
    if rest == [] then first else Exact(op, ExactFold(op, first, rest[..|rest| - 1]), rest[|rest| - 1])
  }

  function MachineFold(op: Op, t: Type, first: int, rest: seq<int>): Option<int> {
    if rest == [] then Some(first)
    else
      match MachineFold(op, t, first, rest[..|rest| - 1])
      case None => None
      case Some(v) => Machine(op, t, v, rest[|rest| - 1])
  }

  lemma WrapKeepsRange(t: Type, v: int)
    ensures !Signed(t) ==> InRange(t, Wrap(t, v))
    ensures !Signed(t) && InRange(t, v) ==> Wrap(t, v) == v
  {
  }

  /** The body of the loop of `operate`. */
  method Combine(op: Op, t: Type, result: int, value: int) returns (r: Option<int>)
    requires InRange(t, result) && InRange(t, value)
    ensures r == Machine(op, t, result, value)
    ensures r.Some? ==> InRange(t, r.value)
  {
    WrapKeepsRange(t, Exact(op, result, value));
    r := Some(result);
    match op {
      case Min =>
        if value < result {
          r := Some(value);
        }
      case Max =>
        if value > result {
          r := Some(value);
        }
      case Sum =>
        r := Store(t, result + value);
      case Prod =>
        r := Store(t, result * value);
    }
  }

  /** What the assignment of `v` to a variable of the type leaves in it. */
  method Store(t: Type, v: int) returns (r: Option<int>)
    ensures r == if !Signed(t) then Some(Wrap(t, v)) else if InRange(t, v) then Some(v) else None
  {
    if Signed(t) {
      r := if InRange(t, v) then Some(v) else None;
    } else {
      r := Some(Wrap(t, v));
    }
  }

  lemma {:induction false} UndefinedStays(op: Op, t: Type, first: int, rest: seq<int>, k: nat)
    requires k <= |rest| && MachineFold(op, t, first, rest[..k]) == None
    ensures MachineFold(op, t, first, rest) == None
    decreases |rest|
  {
    if k == |rest| {
      assert rest[..k] == rest;
    } else {
      assert rest[..|rest| - 1][..k] == rest[..k];
      UndefinedStays(op, t, first, rest[..|rest| - 1], k);
    }
  }

  // ----- what the fold is -----

  /** The sum of the operands. */
  ghost function SumOf(s: seq<int>): int {
    if s == [] then 0 else s[0] + SumOf(s[1..])
  }

  /** The product of the operands. */
  ghost function ProductOf(s: seq<int>): int {
    if s == [] then 1 else s[0] * ProductOf(s[1..])
  }

  lemma {:induction false} SumAndProductSplit(s: seq<int>, x: int)
    ensures SumOf(s + [x]) == SumOf(s) + x && ProductOf(s + [x]) == ProductOf(s) * x
  {
    if s == [] {
      assert [x][1..] == [];
      assert SumOf([x]) == x && ProductOf([x]) == x;
      assert s + [x] == [x];
    } else {
      SumAndProductSplit(s[1..], x);
      assert (s + [x])[0] == s[0] && (s + [x])[1..] == s[1..] + [x];
      assert s[0] * (ProductOf(s[1..]) * x) == s[0] * ProductOf(s[1..]) * x;
    }
  }

  /** The exact minimum is one of the operands and at most each, the exact maximum one of them and at least each. */
  lemma {:induction false} FoldIsExtreme(op: Op, first: int, rest: seq<int>)
    requires op.Min? || op.Max?
    ensures ExactFold(op, first, rest) == first || ExactFold(op, first, rest) in rest
    ensures op.Min? ==> ExactFold(op, first, rest) <= first
    ensures op.Max? ==> ExactFold(op, first, rest) >= first
    ensures forall i :: 0 <= i < |rest| ==>
      (op.Min? ==> ExactFold(op, first, rest) <= rest[i]) && (op.Max? ==> ExactFold(op, first, rest) >= rest[i])
    decreases |rest|
  {
    if rest != [] {
      FoldIsExtreme(op, first, rest[..|rest| - 1]);
      assert rest == rest[..|rest| - 1] + [rest[|rest| - 1]];
    }
  }

  lemma {:induction false} FoldIsSum(first: int, rest: seq<int>)
    ensures ExactFold(Sum, first, rest) == first + SumOf(rest)
    decreases |rest|
  {
    if rest != [] {
      FoldIsSum(first, rest[..|rest| - 1]);
      SumAndProductSplit(rest[..|rest| - 1], rest[|rest| - 1]);
      assert rest == rest[..|rest| - 1] + [rest[|rest| - 1]];
    }
  }

  lemma Regroup(a: int, b: int, c: int)
    ensures a * b * c == a * (b * c)
  {
  }

  lemma {:induction false} FoldIsProduct(first: int, rest: seq<int>)
    ensures ExactFold(Prod, first, rest) == first * ProductOf(rest)
    decreases |rest|
  {
    if rest != [] {
      FoldIsProduct(first, rest[..|rest| - 1]);
      SumAndProductSplit(rest[..|rest| - 1], rest[|rest| - 1]);
      assert rest == rest[..|rest| - 1] + [rest[|rest| - 1]];
      Regroup(first, ProductOf(rest[..|rest| - 1]), rest[|rest| - 1]);
    }
  }

  // ----- the order of the operands -----

  lemma ExactReorders(op: Op, a: int, b: int, c: int)
    ensures Exact(op, Exact(op, a, b), c) == Exact(op, Exact(op, a, c), b)
  {
    if op == Prod {
      assert (a * b) * c == (a * c) * b;
    }
  }

  /** The operand at position `k` may as well come last. */
  lemma {:induction false} ExactPullOut(op: Op, first: int, rest: seq<int>, k: nat)
    requires k < |rest|
    ensures ExactFold(op, first, rest) == Exact(op, ExactFold(op, first, rest[..k] + rest[k + 1..]), rest[k])
    decreases |rest|
  {
    var last := |rest| - 1;
    if k == last {
      assert rest[..k] + rest[k + 1..] == rest[..last];
    } else {
      var front := rest[..last];
      ExactPullOut(op, first, front, k);
      var without := rest[..k] + rest[k + 1..];
      assert without[..|without| - 1] == front[..k] + front[k + 1..];
      ExactReorders(op, ExactFold(op, first, front[..k] + front[k + 1..]), rest[k], rest[last]);
    }
  }

  lemma {:induction false} ExactIgnoresOrder(op: Op, first: int, a: seq<int>, b: seq<int>)
    requires multiset(a) == multiset(b)
    ensures ExactFold(op, first, a) == ExactFold(op, first, b)
    decreases |a|
  {
    if a == [] {
      assert |multiset(b)| == 0;
    } else {
      var last := |a| - 1;
      assert a[last] in multiset(b);
      var k :| 0 <= k < |b| && b[k] == a[last];
      RemoveAt(a, last);
      assert a[..last] + a[last + 1..] == a[..last];
      RemoveAt(b, k);
      ExactIgnoresOrder(op, first, a[..last], b[..k] + b[k + 1..]);
      ExactPullOut(op, first, b, k);
    }
  }

  lemma MultipleIsFar(m: int, d: int)
    requires m >= 0
    ensures d >= 1 ==> m * d >= m
    ensures d <= -1 ==> m * d + m <= 0
  {
    if d >= 1 {
      assert m * d == m * (d - 1) + m;
    } else if d <= -1 {
      assert m * d == m * (d + 1) - m;
    }
  }

  lemma RemainderIsUnique(m: int, q: int, r: int, p: int, s: int)
    requires 0 <= r < m && 0 <= s < m && m * q + r == m * p + s
    ensures r == s
  {
    assert m * (q - p) == s - r;
    MultipleIsFar(m, q - p);
  }

  lemma SumModulo(m: int, a: int, b: int)
    requires m > 0
    ensures (a % m + b) % m == (a + b) % m
  {
    var c, d := a % m + b, a + b;
    assert d == m * (a / m) + c == m * (a / m) + m * (c / m) + c % m == m * (a / m + c / m) + c % m;
    RemainderIsUnique(m, a / m + c / m, c % m, d / m, d % m);
  }

  lemma ProdModulo(m: int, a: int, b: int)
    requires m > 0
    ensures (a % m * b) % m == (a * b) % m
  {
    var q, c, d := a / m, a % m * b, a * b;
    assert a == m * q + a % m;
    assert d == m * q * b + c == m * (q * b) + c;
    assert d == m * (q * b) + m * (c / m) + c % m == m * (q * b + c / m) + c % m;
    RemainderIsUnique(m, q * b + c / m, c % m, d / m, d % m);
  }

  /** Wrapping an operand first does not change the wrapped result. */
  lemma WrapsThrough(t: Type, a: int, b: int)
    ensures Wrap(t, Wrap(t, a) + b) == Wrap(t, a + b)
    ensures Wrap(t, Wrap(t, a) * b) == Wrap(t, a * b)
  {
    var m := if Wide(t) then 0x1_0000_0000_0000_0000 else 0x1_0000_0000;
    SumModulo(m, a, b);
    ProdModulo(m, a, b);
  }

  /** What the machine keeps of an exact value: the value, or its remainder for an unsigned type. */
  function Represent(t: Type, v: int): int {
    if Signed(t) then v else Wrap(t, v)
  }

  lemma StepIsExact(op: Op, t: Type, x: int, v: int)
    requires InRange(t, v) && (op.Min? || op.Max? ==> InRange(t, x))
    ensures !Signed(t) ==> Machine(op, t, Represent(t, x), v) == Some(Represent(t, Exact(op, x, v)))
    ensures Signed(t) ==> Machine(op, t, x, v) == if InRange(t, Exact(op, x, v)) then Some(Exact(op, x, v)) else None
    ensures op.Min? || op.Max? ==> InRange(t, Exact(op, x, v))
  {
    match op {
      case Sum => WrapsThrough(t, x, v);
      case Prod => WrapsThrough(t, x, v);
      case _ => WrapKeepsRange(t, x);
    }
  }

  /** Wherever the machine's fold has a result, it represents the exact fold. */
  lemma {:induction false} MachineIsExact(op: Op, t: Type, first: int, rest: seq<int>)
    requires InRange(t, first) && forall i :: 0 <= i < |rest| ==> InRange(t, rest[i])
    ensures !Signed(t) || op.Min? || op.Max? ==> MachineFold(op, t, first, rest).Some?
    ensures MachineFold(op, t, first, rest) in {None, Some(Represent(t, ExactFold(op, first, rest)))}
    ensures op.Min? || op.Max? ==> InRange(t, ExactFold(op, first, rest))
    decreases |rest|
  {
    if rest == [] {
      WrapKeepsRange(t, first);
    } else {
      var front := rest[..|rest| - 1];
      MachineIsExact(op, t, first, front);
      StepIsExact(op, t, ExactFold(op, first, front), rest[|rest| - 1]);
    }
  }

  /** Two orders of the same operands that both have a result have the same one. */
  lemma ResultIgnoresOrder(op: Op, t: Type, first: int, a: seq<int>, b: seq<int>)
    requires InRange(t, first) && (forall i :: 0 <= i < |a| ==> InRange(t, a[i])) && multiset(a) == multiset(b)
    requires MachineFold(op, t, first, a).Some? && MachineFold(op, t, first, b).Some?
    ensures MachineFold(op, t, first, a) == MachineFold(op, t, first, b)
  {
    forall i | 0 <= i < |b| ensures InRange(t, b[i]) {
      assert b[i] in multiset(a);
    }
    MachineIsExact(op, t, first, a);
    MachineIsExact(op, t, first, b);
    ExactIgnoresOrder(op, first, a, b);
  }

  /** Whether a signed sum overflows does depend on the order. */
  lemma OverflowDependsOnOrder()
    ensures MachineFold(Sum, IntType, 0x7FFF_FFFF, [1, -1]) == None
    ensures MachineFold(Sum, IntType, 0x7FFF_FFFF, [-1, 1]) == Some(0x7FFF_FFFF)
  {
    assert [1, -1][..1] == [1] && [-1, 1][..1] == [-1];
    assert [1][..0] == [] && [-1][..0] == [];
  }

  // ----- what `operate` computes -----

  /** What a variable of the type holds after `v` was computed in it: `v`, or for an unsigned type its remainder. */
  ghost predicate Stored(t: Type, v: int, r: int) {
    match t
    case UInt32Type => InRange(t, r) && (v - r) % 0x1_0000_0000 == 0
    case UInt64Type => InRange(t, r) && (v - r) % 0x1_0000_0000_0000_0000 == 0
    case _ => InRange(t, r) && r == v
  }

  lemma RepresentKeepsRange(t: Type, v: int)
    requires InRange(t, v)
    ensures Represent(t, v) == v
  {
  }

  lemma RepresentIsStored(t: Type, v: int)
    requires Signed(t) ==> InRange(t, v)
    ensures Stored(t, v, Represent(t, v))
  {
  }

  /** What every result of the machine's fold is, by the operation. */
  lemma ResultMeans(op: Op, t: Type, first: int, rest: seq<int>)
    requires InRange(t, first) && (forall i :: 0 <= i < |rest| ==> InRange(t, rest[i]))
    requires MachineFold(op, t, first, rest).Some?
    ensures
      var r := MachineFold(op, t, first, rest).value;
      && (op.Min? ==> (r == first || r in rest) && r <= first && forall i :: 0 <= i < |rest| ==> r <= rest[i])
      && (op.Max? ==> (r == first || r in rest) && r >= first && forall i :: 0 <= i < |rest| ==> r >= rest[i])
      && (op.Sum? ==> Stored(t, first + SumOf(rest), r))
      && (op.Prod? ==> Stored(t, first * ProductOf(rest), r))
  {
    MachineIsExact(op, t, first, rest);
    ResultInRange(op, t, first, rest);
    if op.Min? || op.Max? {
      FoldIsExtreme(op, first, rest);
      WrapKeepsRange(t, ExactFold(op, first, rest));
    } else {
      FoldIsSum(first, rest);
      FoldIsProduct(first, rest);
      RepresentIsStored(t, ExactFold(op, first, rest));
    }
  }

  lemma {:induction false} ResultInRange(op: Op, t: Type, first: int, rest: seq<int>)
    requires InRange(t, first) && (forall i :: 0 <= i < |rest| ==> InRange(t, rest[i]))
    requires MachineFold(op, t, first, rest).Some?
    ensures InRange(t, MachineFold(op, t, first, rest).value)
    decreases |rest|
  {
    if rest != [] {
      ResultInRange(op, t, first, rest[..|rest| - 1]);
      WrapKeepsRange(t, Exact(op, MachineFold(op, t, first, rest[..|rest| - 1]).value, rest[|rest| - 1]));
    }
  }

  /** The sum or product of these operands does not fit a signed type. */
  ghost predicate Beyond(op: Op, t: Type, first: int, rest: seq<int>) {
    && Signed(t)
    && match op
       case Sum => !InRange(t, first + SumOf(rest))
       case Prod => !InRange(t, first * ProductOf(rest))
       case _ => false
  }

  /** That of the first so many operands does not. */
  ghost predicate Overflows(op: Op, t: Type, first: int, rest: seq<int>) {
    exists k :: 0 <= k <= |rest| && Beyond(op, t, first, rest[..k])
  }

  lemma BeyondIff(op: Op, t: Type, first: int, rest: seq<int>)
    requires op.Min? || op.Max? ==> InRange(t, ExactFold(op, first, rest))
    ensures Beyond(op, t, first, rest) <==> Signed(t) && !InRange(t, ExactFold(op, first, rest))
  {
    FoldIsSum(first, rest);
    FoldIsProduct(first, rest);
  }

  lemma OverflowsSplit(op: Op, t: Type, first: int, rest: seq<int>)
    requires rest != []
    ensures Overflows(op, t, first, rest)
      <==> Overflows(op, t, first, rest[..|rest| - 1]) || Beyond(op, t, first, rest)
  {
    var front := rest[..|rest| - 1];
    assert rest[..|rest|] == rest;
    if Overflows(op, t, first, rest) {
      var k :| 0 <= k <= |rest| && Beyond(op, t, first, rest[..k]);
      assert k < |rest| ==> front[..k] == rest[..k];
    }
    if Overflows(op, t, first, front) {
      var k :| 0 <= k <= |front| && Beyond(op, t, first, front[..k]);
      assert front[..k] == rest[..k];
    }
  }

  /** The machine has no result exactly where a sum or product on the way overflows. */
  lemma {:induction false} UndefinedIff(op: Op, t: Type, first: int, rest: seq<int>)
    requires InRange(t, first) && forall i :: 0 <= i < |rest| ==> InRange(t, rest[i])
    ensures MachineFold(op, t, first, rest) == None <==> Overflows(op, t, first, rest)
    decreases |rest|
  {
    MachineIsExact(op, t, first, rest);
    BeyondIff(op, t, first, rest);
    if rest == [] {
      assert rest[..0] == rest;
    } else {
      var n := |rest| - 1;
      UndefinedIff(op, t, first, rest[..n]);
      OverflowsSplit(op, t, first, rest);
      MachineIsExact(op, t, first, rest[..n]);
      StepIsExact(op, t, ExactFold(op, first, rest[..n]), rest[n]);
    }
  }

  /** `operate`: `None` where the code runs into a signed overflow. */
  method Operate(op: Op, t: Type, data: int, buffers: seq<int>) returns (result: Option<int>)
    requires InRange(t, data) && forall i :: 0 <= i < |buffers| ==> InRange(t, buffers[i])
    ensures result == MachineFold(op, t, data, buffers)
    ensures result == None <==> Overflows(op, t, data, buffers)
    ensures op.Min? && result.Some? ==> result.value == data || result.value in buffers
    ensures op.Min? && result.Some? ==>
      result.value <= data && forall i :: 0 <= i < |buffers| ==> result.value <= buffers[i]
    ensures op.Max? && result.Some? ==> result.value == data || result.value in buffers
    ensures op.Max? && result.Some? ==>
      result.value >= data && forall i :: 0 <= i < |buffers| ==> result.value >= buffers[i]
    ensures op.Sum? && result.Some? ==> Stored(t, data + SumOf(buffers), result.value)
    ensures op.Prod? && result.Some? ==> Stored(t, data * ProductOf(buffers), result.value)
    ensures result.Some? ==> InRange(t, result.value)
  {
    UndefinedIff(op, t, data, buffers);
    result := Some(data);
    var i := 0;
    while i < |buffers|
      invariant i <= |buffers| && result.Some? && InRange(t, result.value)
      invariant result == MachineFold(op, t, data, buffers[..i])
    {
      assert buffers[..i + 1][..i] == buffers[..i];
      result := Combine(op, t, result.value, buffers[i]);
      if result == None {
        UndefinedStays(op, t, data, buffers, i + 1);
        return;
      }
      i := i + 1;
    }
    assert buffers[..|buffers|] == buffers;
    ResultMeans(op, t, data, buffers);
  }
}
