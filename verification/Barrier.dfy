/**
 * The barrier of a group: in each call the root exchanges one empty message with every worker, in both directions at
 * once. All sequences are indexed by rank, count over the whole life of the group, and rank 0 is the root.
 */
module Barrier {

  datatype State = State(
    entered: seq<nat>,   // calls that the rank has entered
    left: seq<nat>,      // calls that it has returned from
    sentUp: seq<nat>,    // messages from the worker to the root
    gotUp: seq<nat>,     // those that the root has received
    sentDown: seq<nat>,  // messages from the root to the worker
    gotDown: seq<nat>)   // those that the worker has received

  datatype Event =
    | Enter(p: nat)
    | SendUp(w: nat)
    | ReceiveUp(w: nat)
    | SendDown(w: nat)
    | ReceiveDown(w: nat)
    | Leave(p: nat)

  /** A request that one call posts, with the rank at the other end of its connection. */
  datatype Post = Receive(peer: nat) | Send(peer: nat)

  /** The requests of one call in posting order; the call fails for a group without members. */
  method PostAll(rank: nat, size: nat) returns (code: int, posts: seq<Post>)
    requires size > 0 ==> rank < size
    ensures code == if size == 0 then -1 else 0
    ensures size > 0 && rank != 0 ==> posts == [Receive(0), Send(0)]
    ensures size > 0 && rank == 0 ==> |posts| == 2 * (size - 1)
    ensures size > 0 && rank == 0 ==>
      forall w :: 0 < w < size ==> posts[2 * (w - 1)] == Receive(w) && posts[2 * (w - 1) + 1] == Send(w)
  {
    if size == 0 {
      return -1, [];
    }
    code, posts := 0, [];
    if rank == 0 {
      var i := 0;
      while i < size
        invariant i <= size && |posts| == if i == 0 then 0 else 2 * (i - 1)
        invariant forall w :: 0 < w < i ==> posts[2 * (w - 1)] == Receive(w) && posts[2 * (w - 1) + 1] == Send(w)
      {
        if i != 0 {
          posts := posts + [Receive(i), Send(i)];
        }
        i := i + 1;
      }
    } else {
      posts := [Receive(0), Send(0)];
    }
  }

  ghost predicate Shaped(s: State, n: nat) {
    |s.entered| == |s.left| == |s.sentUp| == |s.gotUp| == |s.sentDown| == |s.gotDown| == n
  }

  ghost function Initial(n: nat): (s: State)
    ensures Shaped(s, n)
  {
    var zeros := seq(n, _ => 0);
    State(zeros, zeros, zeros, zeros, zeros, zeros)
  }

  ghost predicate IsWorker(n: nat, w: nat) {
    0 < w < n
  }

  /** All the requests of the call that `p` is in are complete. */
  ghost predicate Done(s: State, n: nat, p: nat)
    requires Shaped(s, n) && p < n
  {
    if p == 0 then forall w: nat :: IsWorker(n, w) ==> s.sentDown[w] == s.entered[0] && s.gotUp[w] == s.entered[0]
    else s.sentUp[p] == s.entered[p] && s.gotDown[p] == s.entered[p]
  }

  /** A rank has one send and one receive per peer and call; a receive needs a message in its channel. */
  ghost predicate Enabled(s: State, n: nat, e: Event)
    requires Shaped(s, n)
  {
    match e
    case Enter(p) => p < n && s.left[p] == s.entered[p]
    case SendUp(w) => IsWorker(n, w) && s.sentUp[w] < s.entered[w]
    case ReceiveUp(w) => IsWorker(n, w) && s.gotUp[w] < s.entered[0] && s.gotUp[w] < s.sentUp[w]
    case SendDown(w) => IsWorker(n, w) && s.sentDown[w] < s.entered[0]
    case ReceiveDown(w) => IsWorker(n, w) && s.gotDown[w] < s.entered[w] && s.gotDown[w] < s.sentDown[w]
    case Leave(p) => p < n && s.left[p] < s.entered[p] && Done(s, n, p)
  }

  ghost function Step(s: State, n: nat, e: Event): (t: State)
    requires Shaped(s, n) && Enabled(s, n, e)
    ensures Shaped(t, n)
  {
    match e
    case Enter(p) => s.(entered := s.entered[p := s.entered[p] + 1])
    case SendUp(w) => s.(sentUp := s.sentUp[w := s.sentUp[w] + 1])
    case ReceiveUp(w) => s.(gotUp := s.gotUp[w := s.gotUp[w] + 1])
    case SendDown(w) => s.(sentDown := s.sentDown[w := s.sentDown[w] + 1])
    case ReceiveDown(w) => s.(gotDown := s.gotDown[w := s.gotDown[w] + 1])
    case Leave(p) => s.(left := s.left[p := s.left[p] + 1])
  }

  ghost predicate CanRun(s: State, n: nat, run: seq<Event>)
    requires Shaped(s, n)
    decreases |run|
  {
    run == [] || (Enabled(s, n, run[0]) && CanRun(Step(s, n, run[0]), n, run[1..]))
  }

  ghost function Run(s: State, n: nat, run: seq<Event>): (t: State)
    requires Shaped(s, n) && CanRun(s, n, run)
    ensures Shaped(t, n)
    decreases |run|
  {
    if run == [] then s else Run(Step(s, n, run[0]), n, run[1..])
  }

  ghost predicate RankInv(s: State, n: nat, p: nat)
    requires Shaped(s, n) && p < n
  {
    s.left[p] <= s.entered[p] <= s.left[p] + 1
  }

  /** The channels of worker `w`: nobody receives what was not sent, and nobody leaves before its own are done. */
  ghost predicate ChannelInv(s: State, n: nat, w: nat)
    requires Shaped(s, n) && IsWorker(n, w)
  {
    && s.left[w] <= s.sentUp[w] <= s.entered[w]
    && s.left[0] <= s.gotUp[w] <= s.sentUp[w]
    && s.left[0] <= s.sentDown[w] <= s.entered[0]
    && s.left[w] <= s.gotDown[w] <= s.sentDown[w]
    && s.gotUp[w] <= s.entered[0] && s.gotDown[w] <= s.entered[w]
  }

  ghost predicate Inv(s: State, n: nat) {
    && Shaped(s, n)
    && (forall p :: 0 <= p < n ==> RankInv(s, n, p))
    && (forall w :: IsWorker(n, w) ==> ChannelInv(s, n, w))
  }

  lemma StepKeepsInvariant(s: State, n: nat, e: Event)
    requires Inv(s, n) && Enabled(s, n, e)
    ensures Inv(Step(s, n, e), n)
  {
    var t := Step(s, n, e);
    forall p | 0 <= p < n ensures RankInv(t, n, p) {
      assert RankInv(s, n, p);
    }
    forall w | IsWorker(n, w) ensures ChannelInv(t, n, w) {
      assert ChannelInv(s, n, w) && RankInv(s, n, w) && RankInv(s, n, 0);
    }
  }

  lemma {:induction false} RunKeepsInvariant(s: State, n: nat, run: seq<Event>)
    requires Inv(s, n) && CanRun(s, n, run)
    ensures Inv(Run(s, n, run), n)
    decreases |run|
  {
    if run != [] {
      StepKeepsInvariant(s, n, run[0]);
      RunKeepsInvariant(Step(s, n, run[0]), n, run[1..]);
    }
  }

  ghost predicate Reachable(s: State, n: nat) {
    exists run :: CanRun(Initial(n), n, run) && Run(Initial(n), n, run) == s
  }

  lemma ReachableInvariant(s: State, n: nat)
    requires Reachable(s, n)
    ensures Inv(s, n)
  {
    var run :| CanRun(Initial(n), n, run) && Run(Initial(n), n, run) == s;
    assert Inv(Initial(n), n);
    RunKeepsInvariant(Initial(n), n, run);
  }

  // ----- what the barrier separates -----

  /** The root returns from its k-th call only after every rank has entered its k-th call. */
  lemma RootLeavesLast(s: State, n: nat, q: nat)
    requires Reachable(s, n) && q < n
    ensures s.left[0] <= s.entered[q]
  {
    ReachableInvariant(s, n);
    assert RankInv(s, n, 0);
    if q > 0 {
      assert ChannelInv(s, n, q);
    }
  }

  /** Two consecutive calls: whoever returns from call k + 1 does so after every rank has entered call k. */
  lemma TwoCallsAreFullBarrier(s: State, n: nat, p: nat, q: nat)
    requires Reachable(s, n) && p < n && q < n
    ensures s.left[p] <= s.entered[q] + 1
  {
    ReachableInvariant(s, n);
    RootLeavesLast(s, n, q);
    assert RankInv(s, n, 0);
    if p > 0 {
      assert ChannelInv(s, n, p);
    }
  }

  /** What one call would have to guarantee: nobody returns from its k-th call before all have entered theirs. */
  ghost predicate OneCallIsFullBarrier(n: nat) {
    forall s :: Reachable(s, n) ==> NobodyAhead(s, n)
  }

  ghost predicate NobodyAhead(s: State, n: nat) {
    Shaped(s, n) && forall p, q :: 0 <= p < n && 0 <= q < n ==> s.left[p] <= s.entered[q]
  }

  lemma {:induction false} Extend(s: State, n: nat, run: seq<Event>, e: Event)
    requires Shaped(s, n) && CanRun(s, n, run) && Enabled(Run(s, n, run), n, e)
    ensures CanRun(s, n, run + [e]) && Run(s, n, run + [e]) == Step(Run(s, n, run), n, e)
    decreases |run|
  {
    if run == [] {
      assert [e][1..] == [];
    } else {
      Extend(Step(s, n, run[0]), n, run[1..], e);
      assert (run + [e])[1..] == run[1..] + [e];
    }
  }

  lemma ReachableStep(s: State, n: nat, e: Event)
    requires Reachable(s, n) && Shaped(s, n) && Enabled(s, n, e)
    ensures Reachable(Step(s, n, e), n)
  {
    var run :| CanRun(Initial(n), n, run) && Run(Initial(n), n, run) == s;
    Extend(Initial(n), n, run, e);
  }

  /** The root's message lets worker 1 through although worker 2 has not arrived. */
  lemma WorkerPassesEarly(n: nat) returns (s: State)
    requires n >= 3
    ensures Reachable(s, n) && Shaped(s, n) && s.left[1] == 1 && s.entered[2] == 0
  {
    s := Initial(n);
    assert CanRun(s, n, []) && Run(s, n, []) == s;
    var run := [Enter(0), SendDown(1), Enter(1), SendUp(1), ReceiveDown(1), Leave(1)];
    var i := 0;
    while i < |run|
      invariant i <= |run| && Reachable(s, n) && Shaped(s, n)
      invariant s.entered[0] == (if i > 0 then 1 else 0) && s.entered[1] == (if i > 2 then 1 else 0)
      invariant s.sentDown[1] == (if i > 1 then 1 else 0) && s.sentUp[1] == (if i > 3 then 1 else 0)
      invariant s.gotDown[1] == (if i > 4 then 1 else 0) && s.left[1] == (if i > 5 then 1 else 0)
      invariant s.left[0] == 0 && s.entered[2] == 0
    {
      ReachableStep(s, n, run[i]);
      s := Step(s, n, run[i]);
      i := i + 1;
    }
  }

  /** One call is a full barrier if and only if the group has at most two ranks. */
  lemma OneCallIsFullBarrierIff(n: nat)
    ensures OneCallIsFullBarrier(n) <==> n <= 2
  {
    if n <= 2 {
      forall s | Reachable(s, n) ensures NobodyAhead(s, n) {
        ReachableInvariant(s, n);
        forall p, q | 0 <= p < n && 0 <= q < n ensures s.left[p] <= s.entered[q] {
          assert RankInv(s, n, p);
          assert n == 2 ==> ChannelInv(s, n, 1);
        }
      }
    } else {
      var s := WorkerPassesEarly(n);
      assert !NobodyAhead(s, n);
    }
  }

  // ----- the barrier returns -----

  ghost predicate OnlyEnters(s: State, n: nat)
    requires Shaped(s, n)
  {
    forall e :: Enabled(s, n, e) ==> e.Enter?
  }

  /** No deadlock: when every rank has entered its k-th call and no call can go on, every rank has returned from it. */
  lemma EveryCallReturns(s: State, n: nat, k: nat, p: nat)
    requires Reachable(s, n) && Shaped(s, n) && (forall q :: 0 <= q < n ==> s.entered[q] == k)
    requires OnlyEnters(s, n) && p < n
    ensures s.left[p] == k
  {
    ReachableInvariant(s, n);
    forall w: nat | IsWorker(n, w)
      ensures s.sentUp[w] == s.gotUp[w] == s.sentDown[w] == s.gotDown[w] == k
    {
      assert ChannelInv(s, n, w);
      assert !Enabled(s, n, SendUp(w)) && !Enabled(s, n, SendDown(w));
      assert !Enabled(s, n, ReceiveUp(w)) && !Enabled(s, n, ReceiveDown(w));
    }
    assert Done(s, n, p) && !Enabled(s, n, Leave(p)) && RankInv(s, n, p);
  }

  /** What has happened at rank `p`: its returns and, for a worker, the messages of its two channels. */
  ghost function Work(s: State, p: nat): nat
    requires p < |s.entered| && Shaped(s, |s.entered|)
  {
    s.left[p] + if p == 0 then 0 else s.sentUp[p] + s.gotUp[p] + s.sentDown[p] + s.gotDown[p]
  }

  ghost function WorkBelow(s: State, p: nat): nat
    requires p <= |s.entered| && Shaped(s, |s.entered|)
  {
    if p == 0 then 0 else WorkBelow(s, p - 1) + Work(s, p - 1)
  }

  ghost function Where(e: Event): nat {
    match e
    case Enter(p) => p
    case SendUp(w) => w
    case ReceiveUp(w) => w
    case SendDown(w) => w
    case ReceiveDown(w) => w
    case Leave(p) => p
  }

  lemma {:induction false} StepIsWork(s: State, n: nat, e: Event, p: nat)
    requires Shaped(s, n) && Enabled(s, n, e) && !e.Enter? && p <= n
    ensures WorkBelow(Step(s, n, e), p) == WorkBelow(s, p) + if Where(e) < p then 1 else 0
  {
    if p > 0 {
      StepIsWork(s, n, e, p - 1);
    }
  }

  lemma {:induction false} WorkIsBounded(s: State, n: nat, k: nat, p: nat)
    requires Inv(s, n) && p <= n && forall q :: 0 <= q < n ==> s.entered[q] <= k
    ensures WorkBelow(s, p) <= 5 * p * k
  {
    if p > 0 {
      WorkIsBounded(s, n, k, p - 1);
      assert RankInv(s, n, p - 1) && s.entered[p - 1] <= k && s.entered[0] <= k;
      assert p - 1 > 0 ==> ChannelInv(s, n, p - 1);
      assert 5 * (p - 1) * k + 5 * k == 5 * p * k;
    }
  }

  /** The calls come to an end: while no rank enters another call, only so many steps can happen. */
  lemma {:induction false} CallsEnd(s: State, n: nat, k: nat, run: seq<Event>)
    requires Inv(s, n) && CanRun(s, n, run) && (forall j :: 0 <= j < |run| ==> !run[j].Enter?)
    requires forall q :: 0 <= q < n ==> s.entered[q] <= k
    ensures |run| + WorkBelow(s, n) <= 5 * n * k
    decreases |run|
  {
    if run == [] {
      WorkIsBounded(s, n, k, n);
    } else {
      StepKeepsInvariant(s, n, run[0]);
      StepIsWork(s, n, run[0], n);
      CallsEnd(Step(s, n, run[0]), n, k, run[1..]);
    }
  }
}
