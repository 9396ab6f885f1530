/**
 * The all-reduce of a group, over any number of consecutive calls. The processes are numbered by the slots of the root:
 * process `i` is the one that the root's slot `i` is connected to, and its rank is `peer[i]`.
 */
module Allreduce {
  import opened Common
  import opened Reduction
  import Mesh

  /** `input(p, k)` is what rank `p` contributes to the k-th call. */
  datatype Group = Group(n: nat, op: Op, t: Type, peer: seq<nat>, input: (nat, nat) -> int)

  datatype Stage =
    | Idle
    | Entered   // a worker: before its send; the root: gathering
    | Sent      // a worker: its contribution is sent
    | Settled   // the result is known

  /** The messages of a channel are kept after they are received; the receiver counts how many it has taken. */
  datatype State = State(
    round: seq<nat>,         // completed calls
    stage: seq<Stage>,
    up: seq<seq<int>>,       // sent to the root
    collected: seq<nat>,     // received by the root
    buffers: seq<int>,       // the root's gather buffers
    down: seq<seq<int>>,     // sent by the root
    results: seq<seq<int>>)  // what the process has been given, call by call

  datatype Event =
    | Enter(i: nat)
    | Contribute(i: nat)
    | Collect(i: nat)
    | Compute
    | Distribute(i: nat)
    | Obtain(i: nat)
    | Leave(i: nat)

  /** The ranks of the workers in order. */
  function Ranks(n: nat): (s: seq<nat>)
    requires n > 0
    ensures |s| == n - 1 && forall i :: 0 <= i < |s| ==> s[i] == i + 1
  {
    seq(n - 1, i requires 0 <= i => i + 1)
  }

  ghost predicate ValidGroup(g: Group) {
    && 0 < g.n == |g.peer| && g.peer[0] == 0
    && multiset(g.peer[1..]) == multiset(Ranks(g.n))
    && forall p: nat, k: nat :: p < g.n ==> InRange(g.t, g.input(p, k))
  }

  /** What the given ranks contribute to call `k`. */
  function Inputs(g: Group, ranks: seq<nat>, k: nat): (s: seq<int>)
    ensures |s| == |ranks| && forall i :: 0 <= i < |s| ==> s[i] == g.input(ranks[i], k)
  {
    seq(|ranks|, i requires 0 <= i < |ranks| => g.input(ranks[i], k))
  }

  /** The reduction of the inputs of call `k` in the order of the ranks. */
  function Value(g: Group, k: nat): int
    requires g.n > 0
  {
    Represent(g.t, ExactFold(g.op, g.input(0, k), Inputs(g, Ranks(g.n), k)))
  }

  ghost predicate Shaped(g: Group, s: State) {
    |s.round| == |s.stage| == |s.up| == |s.collected| == |s.buffers| == |s.down| == |s.results| == g.n == |g.peer|
  }

  ghost function Initial(g: Group): (s: State)
    requires |g.peer| == g.n
    ensures Shaped(g, s)
  {
    var none := seq(g.n, _ => []);
    var zeros := seq(g.n, _ => 0);
    State(zeros, seq(g.n, _ => Idle), none, zeros, zeros, none, none)
  }

  ghost predicate IsWorker(g: Group, i: nat) {
    0 < i < g.n
  }

  ghost predicate AllCollected(g: Group, s: State)
    requires Shaped(g, s) && g.n > 0
  {
    forall i: nat :: IsWorker(g, i) ==> s.collected[i] == s.round[0] + 1
  }

  ghost predicate AllDistributed(g: Group, s: State)
    requires Shaped(g, s) && g.n > 0
  {
    forall i: nat :: IsWorker(g, i) ==> |s.down[i]| == s.round[0] + 1
  }

  /** A signed overflow in the root's fold is undefined behaviour: the model then has no Compute step. */
  ghost predicate Enabled(g: Group, s: State, e: Event)
    requires Shaped(g, s) && g.n > 0
  {
    match e
    case Enter(i) => i < g.n && s.stage[i] == Idle
    case Contribute(i) => IsWorker(g, i) && s.stage[i] == Entered
    case Collect(i) =>
      IsWorker(g, i) && s.stage[0] == Entered && s.collected[i] == s.round[0] && s.collected[i] < |s.up[i]|
    case Compute =>
      && s.stage[0] == Entered && AllCollected(g, s)
      && MachineFold(g.op, g.t, g.input(0, s.round[0]), s.buffers[1..]).Some?
    case Distribute(i) =>
      IsWorker(g, i) && s.stage[0] == Settled && |s.down[i]| == s.round[0] && s.results[0] != []
    case Obtain(i) => IsWorker(g, i) && s.stage[i] == Sent && |s.results[i]| < |s.down[i]|
    case Leave(i) => i < g.n && s.stage[i] == Settled && (i == 0 ==> AllDistributed(g, s))
  }

  ghost function RootResult(g: Group, s: State): int
    requires Shaped(g, s) && g.n > 0 && Enabled(g, s, Compute)
  {
    MachineFold(g.op, g.t, g.input(0, s.round[0]), s.buffers[1..]).value
  }

  ghost function Step(g: Group, s: State, e: Event): (t: State)
    requires Shaped(g, s) && g.n > 0 && Enabled(g, s, e)
    ensures Shaped(g, t)
  {
    match e
    case Enter(i) => s.(stage := s.stage[i := Entered])
    case Contribute(i) =>
      s.(stage := s.stage[i := Sent], up := s.up[i := s.up[i] + [g.input(g.peer[i], s.round[i])]])
    case Collect(i) =>
      s.(buffers := s.buffers[i := s.up[i][s.collected[i]]], collected := s.collected[i := s.collected[i] + 1])
    case Compute =>
      s.(stage := s.stage[0 := Settled], results := s.results[0 := s.results[0] + [RootResult(g, s)]])
    case Distribute(i) =>
      s.(down := s.down[i := s.down[i] + [s.results[0][|s.results[0]| - 1]]])
    case Obtain(i) =>
      s.(stage := s.stage[i := Settled], results := s.results[i := s.results[i] + [s.down[i][|s.results[i]|]]])
    case Leave(i) => s.(stage := s.stage[i := Idle], round := s.round[i := s.round[i] + 1])
  }

  ghost predicate CanRun(g: Group, s: State, run: seq<Event>)
    requires Shaped(g, s) && g.n > 0
    decreases |run|
  {
    run == [] || (Enabled(g, s, run[0]) && CanRun(g, Step(g, s, run[0]), run[1..]))
  }

  ghost function Run(g: Group, s: State, run: seq<Event>): (t: State)
    requires Shaped(g, s) && g.n > 0 && CanRun(g, s, run)
    ensures Shaped(g, t)
    decreases |run|
  {
    if run == [] then s else Run(g, Step(g, s, run[0]), run[1..])
  }

  // ----- the invariant -----

  /** The calls for which worker `i` has sent its contribution. */
  ghost function Contributed(s: State, i: nat): nat
    requires i < |s.round| == |s.stage|
  {
    s.round[i] + if s.stage[i] == Sent || s.stage[i] == Settled then 1 else 0
  }

  ghost function Finished(s: State, i: nat): nat
    requires i < |s.round| == |s.stage|
  {
    s.round[i] + if s.stage[i] == Settled then 1 else 0
  }

  ghost predicate UpInv(g: Group, s: State, i: nat)
    requires ValidGroup(g) && Shaped(g, s) && IsWorker(g, i)
  {
    && |s.up[i]| == Contributed(s, i)
    && (forall k :: 0 <= k < |s.up[i]| ==> s.up[i][k] == g.input(g.peer[i], k))
    && Finished(s, 0) <= s.collected[i] <= |s.up[i]|
    && s.collected[i] <= s.round[0] + (if s.stage[0] == Idle then 0 else 1)
    && (s.stage[0] == Entered && s.collected[i] > s.round[0] ==> s.buffers[i] == g.input(g.peer[i], s.round[0]))
  }

  ghost predicate DownInv(g: Group, s: State, i: nat)
    requires ValidGroup(g) && Shaped(g, s) && IsWorker(g, i)
  {
    && s.round[0] <= |s.down[i]| <= Finished(s, 0)
    && |s.results[i]| <= |s.down[i]|
    && (forall k :: 0 <= k < |s.down[i]| ==> s.down[i][k] == Value(g, k))
  }

  ghost predicate ResultInv(g: Group, s: State, i: nat)
    requires ValidGroup(g) && Shaped(g, s) && i < g.n
  {
    && |s.results[i]| == Finished(s, i)
    && (forall k :: 0 <= k < |s.results[i]| ==> s.results[i][k] == Value(g, k))
    && (i == 0 ==> s.stage[i] != Sent && forall k :: 0 <= k < |s.results[0]| ==> InRange(g.t, Value(g, k)))
  }

  ghost predicate Inv(g: Group, s: State) {
    && ValidGroup(g) && Shaped(g, s)
    && (forall i: nat :: IsWorker(g, i) ==> UpInv(g, s, i) && DownInv(g, s, i))
    && (forall i: nat :: i < g.n ==> ResultInv(g, s, i))
  }

  // ----- the order of the slots does not matter -----

  lemma InputsSplit(g: Group, a: seq<nat>, j: nat, k: nat)
    requires j < |a|
    ensures multiset(Inputs(g, a, k)) == multiset(Inputs(g, a[..j] + a[j + 1..], k)) + multiset{g.input(a[j], k)}
  {
    var all := Inputs(g, a, k);
    assert all == all[..j] + [g.input(a[j], k)] + all[j + 1..];
    assert Inputs(g, a[..j] + a[j + 1..], k) == all[..j] + all[j + 1..];
  }

  lemma SameMember(a: seq<nat>, b: seq<nat>) returns (j: nat)
    requires a != [] && multiset(a) == multiset(b)
    ensures j < |b| && b[j] == a[0] && multiset(a[..0] + a[1..]) == multiset(b[..j] + b[j + 1..])
  {
    assert a[0] in multiset(b);
    j :| 0 <= j < |b| && b[j] == a[0];
    RemoveAt(a, 0);
    RemoveAt(b, j);
  }

  /** Contributions of the same ranks in another order are the same contributions in another order. */
  lemma {:induction false} InputsReorder(g: Group, a: seq<nat>, b: seq<nat>, k: nat)
    requires multiset(a) == multiset(b)
    ensures multiset(Inputs(g, a, k)) == multiset(Inputs(g, b, k))
    decreases |a|
  {
    assert |multiset(a)| == |a| && |multiset(b)| == |b|;
    if a != [] {
      var j := SameMember(a, b);
      InputsReorder(g, a[..0] + a[1..], b[..j] + b[j + 1..], k);
      InputsSplit(g, a, 0, k);
      InputsSplit(g, b, j, k);
    }
  }

  /** What the root computes from its buffers, whose order is that of its slots, is the reduction in rank order. */
  lemma RootComputesValue(g: Group, s: State)
    requires Inv(g, s) && Enabled(g, s, Compute)
    ensures RootResult(g, s) == Value(g, s.round[0]) && InRange(g.t, RootResult(g, s))
  {
    var k := s.round[0];
    var gathered := Inputs(g, g.peer[1..], k);
    forall i | 0 <= i < g.n - 1 ensures s.buffers[1..][i] == gathered[i] {
      assert IsWorker(g, i + 1) && UpInv(g, s, i + 1);
    }
    assert s.buffers[1..] == gathered;
    InputsReorder(g, g.peer[1..], Ranks(g.n), k);
    InputsInRange(g, g.peer[1..], k);
    MachineIsExact(g.op, g.t, g.input(0, k), gathered);
    ResultInRange(g.op, g.t, g.input(0, k), gathered);
    ExactIgnoresOrder(g.op, g.input(0, k), gathered, Inputs(g, Ranks(g.n), k));
  }

  lemma InputsInRange(g: Group, ranks: seq<nat>, k: nat)
    requires ValidGroup(g) && multiset(ranks) == multiset(Ranks(g.n))
    ensures InRange(g.t, g.input(0, k))
    ensures forall i :: 0 <= i < |ranks| ==> InRange(g.t, Inputs(g, ranks, k)[i])
  {
    forall i | 0 <= i < |ranks| ensures ranks[i] < g.n {
      assert ranks[i] in multiset(Ranks(g.n));
    }
  }

  // ----- every step keeps the invariant -----

  lemma UpStep(g: Group, s: State, e: Event, i: nat)
    requires Inv(g, s) && Enabled(g, s, e) && IsWorker(g, i)
    ensures UpInv(g, Step(g, s, e), i)
  {
    assert UpInv(g, s, i) && ResultInv(g, s, 0) && ResultInv(g, s, i);
  }

  lemma DownStep(g: Group, s: State, e: Event, i: nat)
    requires Inv(g, s) && Enabled(g, s, e) && IsWorker(g, i)
    ensures DownInv(g, Step(g, s, e), i)
  {
    assert DownInv(g, s, i) && ResultInv(g, s, 0) && ResultInv(g, s, i);
  }

  lemma ResultStep(g: Group, s: State, e: Event, i: nat)
    requires Inv(g, s) && Enabled(g, s, e) && i < g.n
    ensures ResultInv(g, Step(g, s, e), i)
  {
    assert ResultInv(g, s, i);
    if e.Compute? {
      RootComputesValue(g, s);
    } else if e.Obtain? {
      assert DownInv(g, s, e.i);
    }
  }

  lemma StepKeepsInvariant(g: Group, s: State, e: Event)
    requires Inv(g, s) && Enabled(g, s, e)
    ensures Inv(g, Step(g, s, e))
  {
    forall i: nat | IsWorker(g, i) ensures UpInv(g, Step(g, s, e), i) && DownInv(g, Step(g, s, e), i) {
      UpStep(g, s, e, i);
      DownStep(g, s, e, i);
    }
    forall i: nat | i < g.n ensures ResultInv(g, Step(g, s, e), i) {
      ResultStep(g, s, e, i);
    }
  }

  lemma {:induction false} RunKeepsInvariant(g: Group, s: State, run: seq<Event>)
    requires Inv(g, s) && CanRun(g, s, run)
    ensures Inv(g, Run(g, s, run))
    decreases |run|
  {
    if run != [] {
      StepKeepsInvariant(g, s, run[0]);
      RunKeepsInvariant(g, Step(g, s, run[0]), run[1..]);
    }
  }

  lemma ReachableInvariant(g: Group, run: seq<Event>)
    requires ValidGroup(g) && CanRun(g, Initial(g), run)
    ensures Inv(g, Run(g, Initial(g), run))
  {
    assert Inv(g, Initial(g));
    RunKeepsInvariant(g, Initial(g), run);
  }

  // ----- what the calls guarantee -----

  /**
   * In every interleaving, what a process obtains from call `k` is the reduction of exactly the inputs of call `k`, in
   * whatever order the root's slots hold the workers.
   */
  lemma EveryRankAgrees(g: Group, run: seq<Event>, i: nat, k: nat)
    requires ValidGroup(g) && CanRun(g, Initial(g), run)
    requires i < g.n && k < |Run(g, Initial(g), run).results[i]|
    ensures Run(g, Initial(g), run).results[i][k] == Value(g, k)
  {
    ReachableInvariant(g, run);
    assert ResultInv(g, Run(g, Initial(g), run), i);
  }

  /** The sum and the product of what the first `p` ranks contribute to call `k`. */
  ghost function InputSum(g: Group, p: nat, k: nat): int {
    if p == 0 then 0 else InputSum(g, p - 1, k) + g.input(p - 1, k)
  }

  ghost function InputProduct(g: Group, p: nat, k: nat): int {
    if p == 0 then 1 else InputProduct(g, p - 1, k) * g.input(p - 1, k)
  }

  lemma {:induction false} InputsAddUp(g: Group, p: nat, k: nat)
    requires p > 0
    ensures g.input(0, k) + SumOf(Inputs(g, Ranks(p), k)) == InputSum(g, p, k)
    ensures g.input(0, k) * ProductOf(Inputs(g, Ranks(p), k)) == InputProduct(g, p, k)
    decreases p
  {
    if p == 1 {
      assert Inputs(g, Ranks(1), k) == [] && InputSum(g, 0, k) == 0 && InputProduct(g, 0, k) == 1;
    } else {
      var front, last := Inputs(g, Ranks(p - 1), k), g.input(p - 1, k);
      InputsAddUp(g, p - 1, k);
      SumAndProductSplit(front, last);
      assert Inputs(g, Ranks(p), k) == front + [last];
      Regroup(g.input(0, k), ProductOf(front), last);
    }
  }

  /** The extreme of the inputs is the input of some rank. */
  lemma ExtremeIsInput(g: Group, k: nat) returns (p: nat)
    requires g.n > 0 && (g.op.Min? || g.op.Max?)
    ensures p < g.n && g.input(p, k) == ExactFold(g.op, g.input(0, k), Inputs(g, Ranks(g.n), k))
  {
    var rest := Inputs(g, Ranks(g.n), k);
    var v := ExactFold(g.op, g.input(0, k), rest);
    FoldIsExtreme(g.op, g.input(0, k), rest);
    p := 0;
    if v != g.input(0, k) {
      var i :| 0 <= i < |rest| && rest[i] == v;
      p := Ranks(g.n)[i];
    }
  }

  lemma ExtremeBounds(g: Group, k: nat, p: nat)
    requires p < g.n && (g.op.Min? || g.op.Max?)
    ensures
      var v := ExactFold(g.op, g.input(0, k), Inputs(g, Ranks(g.n), k));
      (g.op.Min? ==> v <= g.input(p, k)) && (g.op.Max? ==> v >= g.input(p, k))
  {
    FoldIsExtreme(g.op, g.input(0, k), Inputs(g, Ranks(g.n), k));
    if p > 0 {
      assert Ranks(g.n)[p - 1] == p;
      assert Inputs(g, Ranks(g.n), k)[p - 1] == g.input(p, k);
    }
  }

  lemma ValueIsExtreme(g: Group, k: nat)
    requires ValidGroup(g) && (g.op.Min? || g.op.Max?)
    ensures Value(g, k) == ExactFold(g.op, g.input(0, k), Inputs(g, Ranks(g.n), k))
  {
    InputsInRange(g, Ranks(g.n), k);
    MachineIsExact(g.op, g.t, g.input(0, k), Inputs(g, Ranks(g.n), k));
    RepresentKeepsRange(g.t, ExactFold(g.op, g.input(0, k), Inputs(g, Ranks(g.n), k)));
  }

  lemma ValueIsTotal(g: Group, k: nat)
    requires g.n > 0 && InRange(g.t, Value(g, k))
    ensures g.op.Sum? ==> Stored(g.t, InputSum(g, g.n, k), Value(g, k))
    ensures g.op.Prod? ==> Stored(g.t, InputProduct(g, g.n, k), Value(g, k))
  {
    var first, rest := g.input(0, k), Inputs(g, Ranks(g.n), k);
    FoldIsSum(first, rest);
    FoldIsProduct(first, rest);
    InputsAddUp(g, g.n, k);
    RepresentIsStored(g.t, ExactFold(g.op, first, rest));
  }

  /**
   * What a process obtains from call `k`: the least or the greatest of what the ranks contribute to it, or their sum or
   * product as far as the type holds it.
   */
  lemma EveryResultIsReduction(g: Group, run: seq<Event>, i: nat, k: nat)
    requires ValidGroup(g) && CanRun(g, Initial(g), run)
    requires i < g.n && k < |Run(g, Initial(g), run).results[i]|
    ensures
      var r := Run(g, Initial(g), run).results[i][k];
      && (g.op.Min? || g.op.Max? ==> exists p: nat :: p < g.n && g.input(p, k) == r)
      && (g.op.Min? ==> forall p: nat :: p < g.n ==> r <= g.input(p, k))
      && (g.op.Max? ==> forall p: nat :: p < g.n ==> r >= g.input(p, k))
      && (g.op.Sum? ==> Stored(g.t, InputSum(g, g.n, k), r))
      && (g.op.Prod? ==> Stored(g.t, InputProduct(g, g.n, k), r))
  {
    EveryRankAgrees(g, run, i, k);
    ReachableInvariant(g, run);
    var s := Run(g, Initial(g), run);
    assert ResultInv(g, s, 0) && (i > 0 ==> DownInv(g, s, i));
    if g.op.Min? || g.op.Max? {
      ValueIsExtreme(g, k);
      var q := ExtremeIsInput(g, k);
      forall p: nat | p < g.n
        ensures (g.op.Min? ==> Value(g, k) <= g.input(p, k)) && (g.op.Max? ==> Value(g, k) >= g.input(p, k))
      {
        ExtremeBounds(g, k, p);
      }
    } else {
      ValueIsTotal(g, k);
    }
  }

  /** Unlike the barrier, one all-reduce holds everyone back until all have entered it and sent their input. */
  lemma OneCallSynchronises(g: Group, run: seq<Event>, i: nat, j: nat)
    requires ValidGroup(g) && CanRun(g, Initial(g), run) && i < g.n && j < g.n
    ensures
      var s := Run(g, Initial(g), run);
      s.round[i] <= s.round[j] + if s.stage[j] == Idle then 0 else 1
  {
    ReachableInvariant(g, run);
    var s := Run(g, Initial(g), run);
    assert ResultInv(g, s, i) && ResultInv(g, s, 0) && ResultInv(g, s, j);
    assert i > 0 ==> DownInv(g, s, i);
    assert j > 0 ==> UpInv(g, s, j);
  }

  /** All processes have entered call `k`, and nothing but a new call can happen. */
  ghost predicate Quiescent(g: Group, s: State, k: nat)
    requires Shaped(g, s) && g.n > 0
  {
    && (forall j: nat :: j < g.n ==> s.round[j] == k + (if s.stage[j] == Idle then 1 else 0))
    && (forall e :: Enabled(g, s, e) ==> e.Enter?)
  }

  lemma QuiescentCollected(g: Group, s: State, k: nat, j: nat)
    requires Inv(g, s) && Quiescent(g, s, k) && IsWorker(g, j)
    ensures s.collected[j] == k + 1 && (s.stage[0] == Settled ==> |s.down[j]| == k + 1)
  {
    assert UpInv(g, s, j) && DownInv(g, s, j) && ResultInv(g, s, 0);
    assert !Enabled(g, s, Contribute(j)) && !Enabled(g, s, Collect(j)) && !Enabled(g, s, Distribute(j));
    assert s.stage[j] != Entered;
  }

  /** The root is stuck in a reduction that overflows. */
  ghost predicate RootOverflows(g: Group, s: State)
    requires Shaped(g, s) && g.n > 0
  {
    s.stage[0] == Entered && MachineFold(g.op, g.t, g.input(0, s.round[0]), s.buffers[1..]) == None
  }

  lemma QuiescentReturned(g: Group, s: State, k: nat, i: nat)
    requires Inv(g, s) && Quiescent(g, s, k) && i < g.n && !RootOverflows(g, s)
    ensures s.round[i] == k + 1
  {
    forall j: nat | IsWorker(g, j) ensures s.collected[j] == k + 1 && (s.stage[0] == Settled ==> |s.down[j]| == k + 1) {
      QuiescentCollected(g, s, k, j);
    }
    assert !Enabled(g, s, Compute) && !Enabled(g, s, Leave(0)) && ResultInv(g, s, 0);
    assert s.stage[0] == Idle;
    if i > 0 {
      assert DownInv(g, s, i) && UpInv(g, s, i) && ResultInv(g, s, i);
      assert !Enabled(g, s, Obtain(i)) && !Enabled(g, s, Contribute(i)) && !Enabled(g, s, Leave(i));
    }
  }

  /** No deadlock: when all have entered call `k` and no call can go on, all returned, unless the root overflows. */
  lemma EveryCallReturns(g: Group, run: seq<Event>, k: nat, i: nat)
    requires ValidGroup(g) && CanRun(g, Initial(g), run) && i < g.n
    requires Quiescent(g, Run(g, Initial(g), run), k) && !RootOverflows(g, Run(g, Initial(g), run))
    ensures Run(g, Initial(g), run).round[i] == k + 1
  {
    ReachableInvariant(g, run);
    QuiescentReturned(g, Run(g, Initial(g), run), k, i);
  }

  /** What has happened at process `i`: its returns and results, and for a worker the messages of its two channels. */
  ghost function Work(s: State, i: nat): nat
    requires i < |s.round| == |s.up| == |s.collected| == |s.down| == |s.results|
  {
    s.round[i] + |s.results[i]| + if i == 0 then 0 else |s.up[i]| + s.collected[i] + |s.down[i]|
  }

  ghost function WorkBelow(s: State, i: nat): nat
    requires i <= |s.round| == |s.up| == |s.collected| == |s.down| == |s.results|
  {
    if i == 0 then 0 else WorkBelow(s, i - 1) + Work(s, i - 1)
  }

  lemma {:induction false} StepIsWork(g: Group, s: State, e: Event, i: nat)
    requires Shaped(g, s) && g.n > 0 && Enabled(g, s, e) && !e.Enter? && i <= g.n
    ensures WorkBelow(Step(g, s, e), i) == WorkBelow(s, i) + if (if e.Compute? then 0 else e.i) < i then 1 else 0
  {
    if i > 0 {
      StepIsWork(g, s, e, i - 1);
    }
  }

  /** No process has entered more than `k` calls. */
  ghost predicate EnteredAtMost(g: Group, s: State, k: nat)
    requires Shaped(g, s)
  {
    forall i: nat :: i < g.n ==> s.round[i] + (if s.stage[i] == Idle then 0 else 1) <= k
  }

  lemma {:induction false} WorkIsBounded(g: Group, s: State, k: nat, i: nat)
    requires Inv(g, s) && i <= g.n && EnteredAtMost(g, s, k)
    ensures WorkBelow(s, i) <= 5 * i * k
  {
    if i > 0 {
      WorkIsBounded(g, s, k, i - 1);
      assert ResultInv(g, s, i - 1) && Finished(s, 0) <= k && Finished(s, i - 1) <= k;
      assert i - 1 > 0 ==> UpInv(g, s, i - 1) && DownInv(g, s, i - 1);
      assert 5 * (i - 1) * k + 5 * k == 5 * i * k;
    }
  }

  /** The calls come to an end: while no process enters another call, only so many steps can happen. */
  lemma {:induction false} CallsEnd(g: Group, s: State, k: nat, run: seq<Event>)
    requires Inv(g, s) && CanRun(g, s, run) && (forall j :: 0 <= j < |run| ==> !run[j].Enter?)
    requires EnteredAtMost(g, s, k)
    ensures |run| + WorkBelow(s, g.n) <= 5 * g.n * k
    decreases |run|
  {
    if run == [] {
      WorkIsBounded(g, s, k, g.n);
    } else {
      StepKeepsInvariant(g, s, run[0]);
      StepIsWork(g, s, run[0], g.n);
      CallsEnd(g, Step(g, s, run[0]), k, run[1..]);
    }
  }

  // ----- the slots of a finished mesh -----

  /** The ranks that the root's slots of a finished mesh are connected to. */
  ghost function MeshPeers(m: Mesh.State, n: nat): (peer: seq<nat>)
    requires n > 0 && Mesh.Shaped(m, n) && Mesh.FullMesh(m, n)
    ensures |peer| == n && peer[0] == 0
  {
    [0] + seq(n - 1, i requires 0 <= i < n - 1 => m.slots[0][i + 1].value)
  }

  /** Whatever order the connections were accepted in, the slots are as the all-reduce needs them. */
  lemma MeshFitsAllreduce(m: Mesh.State, n: nat)
    requires n > 0 && Mesh.Shaped(m, n) && Mesh.FullMesh(m, n)
    ensures multiset(MeshPeers(m, n)[1..]) == multiset(Ranks(n))
  {
    var workers := MeshPeers(m, n)[1..];
    assert Distinct(workers);
    forall x: nat ensures multiset(workers)[x] == multiset(Ranks(n))[x] {
      DistinctMultiplicity(workers, x);
      DistinctMultiplicity(Ranks(n), x);
      if 0 < x < n {
        assert Mesh.Holds(m, n, 0, x);
        var j :| 0 < j < n && m.slots[0][j] == Some(x);
        assert workers[j - 1] == x && Ranks(n)[x - 1] == x;
      }
    }
  }
}
