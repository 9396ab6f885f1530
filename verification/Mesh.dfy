/**
 * Building the full mesh of a group: every process goes through the ranks in order, connects to each lower one and
 * accepts a connection for each higher one. A connection is a rendezvous of a blocked connect with an accept; which of
 * the connecting processes an accept meets is left open.
 */
module Mesh {
  import opened Common

  /** The loop index of every process, and the peer that it stored in each of its slots. */
  datatype State = State(next: seq<nat>, slots: seq<seq<Option<nat>>>)

  /** Process `q` connects to the lower process `p`, which accepts it. */
  datatype Meeting = Meeting(q: nat, p: nat)

  ghost predicate Shaped(s: State, n: nat) {
    |s.next| == n && |s.slots| == n && forall p :: 0 <= p < n ==> |s.slots[p]| == n
  }

  /** The loop index after `j`: a process skips itself. */
  function After(p: nat, j: nat): nat {
    if j + 1 == p then j + 2 else j + 1
  }

  function Initial(n: nat): (s: State)
    ensures Shaped(s, n)
  {
    State(seq(n, p => if p == 0 then 1 else 0), seq(n, _ => seq(n, _ => None)))
  }

  /** `q` is at its connect to `p`, and `p` is at one of its accepts. */
  predicate Enabled(s: State, n: nat, m: Meeting)
    requires Shaped(s, n)
  {
    m.p < m.q < n && s.next[m.q] == m.p && m.p < s.next[m.p] < n
  }

  function Step(s: State, n: nat, m: Meeting): (t: State)
    requires Shaped(s, n) && Enabled(s, n, m)
    ensures Shaped(t, n)
  {
    var j := s.next[m.p];
    State(s.next[m.q := After(m.q, m.p)][m.p := After(m.p, j)],
          s.slots[m.q := s.slots[m.q][m.p := Some(m.p)]][m.p := s.slots[m.p][j := Some(m.q)]])
  }

  ghost predicate Finished(s: State, n: nat)
    requires Shaped(s, n)
  {
    forall p :: 0 <= p < n ==> s.next[p] >= n
  }

  ghost predicate CanRun(s: State, n: nat, run: seq<Meeting>)
    requires Shaped(s, n)
    decreases |run|
  {
    run == [] || (Enabled(s, n, run[0]) && CanRun(Step(s, n, run[0]), n, run[1..]))
  }

  ghost function Run(s: State, n: nat, run: seq<Meeting>): (t: State)
    requires Shaped(s, n) && CanRun(s, n, run)
    ensures Shaped(t, n)
    decreases |run|
  {
    if run == [] then s else Run(Step(s, n, run[0]), n, run[1..])
  }

  // ----- the invariant -----

  /** The higher processes that are past their connect to `p`. */
  ghost function Passed(s: State, n: nat, p: nat): set<int>
    requires Shaped(s, n)
  {
    set q | p < q < n && s.next[q] > p
  }

  function Accepts(s: State, p: nat): int
    requires p < |s.next|
  {
    if s.next[p] > p then s.next[p] - p - 1 else 0
  }

  ghost predicate Indices(s: State, n: nat)
    requires Shaped(s, n)
  {
    && (forall p :: 0 <= p < n ==> s.next[p] <= n && s.next[p] != p)
    && (forall p :: 0 <= p < n ==> |Passed(s, n, p)| == Accepts(s, p))
  }

  ghost predicate Lower(s: State, n: nat)
    requires Shaped(s, n)
  {
    forall q, j :: 0 <= j < q < n ==> LowerSlot(s, n, q, j)
  }

  /** A process has connected to the lower ranks that its loop is past, and to no other. */
  ghost predicate LowerSlot(s: State, n: nat, q: nat, j: nat)
    requires Shaped(s, n) && j < q < n
  {
    s.slots[q][j] == if j < s.next[q] then Some(j) else None
  }

  ghost predicate Higher(s: State, n: nat)
    requires Shaped(s, n)
  {
    && (forall p, j :: 0 <= p < j < n && j < s.next[p] ==> AcceptedAt(s, n, p, j))
    && (forall p, j, k :: 0 <= p < j < k < n && k < s.next[p] ==> s.slots[p][j] != s.slots[p][k])
    && (forall p, q :: 0 <= p < q < n && s.next[q] > p ==> SomeSlot(s, n, p, q))
  }

  ghost predicate AcceptedAt(s: State, n: nat, p: nat, j: nat)
    requires Shaped(s, n) && p < n && j < n
  {
    s.slots[p][j].Some? && p < s.slots[p][j].value < n && s.next[s.slots[p][j].value] > p
  }

  ghost predicate SomeSlot(s: State, n: nat, p: nat, q: nat)
    requires Shaped(s, n) && p < n
  {
    exists j :: p < j < n && j < s.next[p] && s.slots[p][j] == Some(q)
  }

  ghost predicate Inv(s: State, n: nat) {
    Shaped(s, n) && Indices(s, n) && Lower(s, n) && Higher(s, n)
  }

  lemma PassedStep(s: State, n: nat, m: Meeting, p: nat)
    requires Inv(s, n) && Enabled(s, n, m) && p < n
    ensures |Passed(Step(s, n, m), n, p)| == Accepts(Step(s, n, m), p)
  {
    var t := Step(s, n, m);
    if p == m.p {
      assert Passed(t, n, p) == Passed(s, n, p) + {m.q as int} && m.q !in Passed(s, n, p);
    } else {
      assert Passed(t, n, p) == Passed(s, n, p);
    }
  }

  lemma StepKeepsAccepted(s: State, n: nat, m: Meeting, p: nat, j: nat)
    requires Inv(s, n) && Enabled(s, n, m) && p < j < n && j < Step(s, n, m).next[p]
    ensures AcceptedAt(Step(s, n, m), n, p, j)
    ensures p == m.p && j < s.next[p] ==> s.slots[p][j] != Some(m.q)
  {
    if p != m.p || j < s.next[p] {
      if p != m.q {
        assert AcceptedAt(s, n, p, j);
      }
    }
  }

  lemma StepKeepsHigher(s: State, n: nat, m: Meeting)
    requires Inv(s, n) && Enabled(s, n, m)
    ensures Higher(Step(s, n, m), n)
  {
    var t := Step(s, n, m);
    forall p, j | 0 <= p < j < n && j < t.next[p] ensures AcceptedAt(t, n, p, j) {
      StepKeepsAccepted(s, n, m, p, j);
    }
    forall p, j, k | 0 <= p < j < k < n && k < t.next[p] ensures t.slots[p][j] != t.slots[p][k] {
      StepKeepsAccepted(s, n, m, p, j);
    }
    forall p, q | 0 <= p < q < n && t.next[q] > p ensures SomeSlot(t, n, p, q) {
      if q == m.q && p == m.p {
        assert t.slots[p][s.next[p]] == Some(q);
      } else {
        assert SomeSlot(s, n, p, q);
        var j :| p < j < n && j < s.next[p] && s.slots[p][j] == Some(q);
        assert t.slots[p][j] == Some(q);
      }
    }
  }

  lemma StepKeepsLower(s: State, n: nat, m: Meeting)
    requires Inv(s, n) && Enabled(s, n, m)
    ensures Lower(Step(s, n, m), n)
  {
    var t := Step(s, n, m);
    forall q, j | 0 <= j < q < n ensures LowerSlot(t, n, q, j) {
      if q != m.q || j != m.p {
        assert LowerSlot(s, n, q, j) && t.slots[q][j] == s.slots[q][j];
      }
    }
  }

  lemma StepKeepsInvariant(s: State, n: nat, m: Meeting)
    requires Inv(s, n) && Enabled(s, n, m)
    ensures Inv(Step(s, n, m), n)
  {
    forall p | 0 <= p < n ensures |Passed(Step(s, n, m), n, p)| == Accepts(Step(s, n, m), p) {
      PassedStep(s, n, m, p);
    }
    StepKeepsLower(s, n, m);
    StepKeepsHigher(s, n, m);
  }

  lemma InitialInvariant(n: nat)
    ensures Inv(Initial(n), n)
  {
    forall p | 0 <= p < n ensures |Passed(Initial(n), n, p)| == Accepts(Initial(n), p) {
      assert Passed(Initial(n), n, p) == {};
    }
  }

  lemma {:induction false} RunKeepsInvariant(s: State, n: nat, run: seq<Meeting>)
    requires Inv(s, n) && CanRun(s, n, run)
    ensures Inv(Run(s, n, run), n)
    decreases |run|
  {
    if run != [] {
      StepKeepsInvariant(s, n, run[0]);
      RunKeepsInvariant(Step(s, n, run[0]), n, run[1..]);
    }
  }

  // ----- no deadlock -----

  /** A process that is through has met every higher process. */
  lemma AllHavePassed(s: State, n: nat, p: nat, q: nat)
    requires Inv(s, n) && p < q < n && s.next[p] >= n
    ensures s.next[q] > p
  {
    SubsetSize(Passed(s, n, p), Range(p + 1, n));
    assert (q as int) in Range(p + 1, n);
  }

  lemma {:induction false} SmallestUnfinished(s: State, n: nat, k: nat) returns (p: nat)
    requires Shaped(s, n) && k < n && s.next[k] < n
    ensures p < n && s.next[p] < n && forall j :: 0 <= j < p ==> s.next[j] >= n
  {
    p := k;
    if j :| 0 <= j < k && s.next[j] < n {
      p := SmallestUnfinished(s, n, j);
    }
  }

  /** While a process is not through, some connect meets an accept: no accept order leads into a deadlock. */
  lemma NeverStuck(s: State, n: nat) returns (m: Meeting)
    requires Inv(s, n) && !Finished(s, n)
    ensures Enabled(s, n, m)
  {
    var k :| 0 <= k < n && s.next[k] < n;
    var p := SmallestUnfinished(s, n, k);
    if s.next[p] < p {
      AllHavePassed(s, n, s.next[p], p);
    }
    var missing := Range(p + 1, n) - Passed(s, n, p);
    assert Passed(s, n, p) <= Range(p + 1, n);
    assert |missing| == |Range(p + 1, n)| - |Passed(s, n, p)|;
    var q :| q in missing;
    if s.next[q] < p {
      AllHavePassed(s, n, s.next[q], q);
    }
    m := Meeting(q, p);
  }

  /** How much of the loops is left. */
  ghost function Remaining(next: seq<nat>, n: nat): nat {
    if next == [] then 0
    else Remaining(next[..|next| - 1], n) + (if next[|next| - 1] < n then n - next[|next| - 1] else 0)
  }

  lemma {:induction false} RemainingDrops(next: seq<nat>, n: nat, p: nat, j: nat)
    requires p < |next| && next[p] < j && next[p] < n
    ensures Remaining(next[p := j], n) < Remaining(next, n)
  {
    var front := next[..|next| - 1];
    if p < |next| - 1 {
      RemainingDrops(front, n, p, j);
      assert next[p := j][..|next| - 1] == front[p := j];
    } else {
      assert next[p := j][..|next| - 1] == front;
    }
  }

  lemma EveryMeetingProgresses(s: State, n: nat, m: Meeting)
    requires Shaped(s, n) && Enabled(s, n, m)
    ensures Remaining(Step(s, n, m).next, n) < Remaining(s.next, n)
  {
    RemainingDrops(s.next, n, m.q, After(m.q, m.p));
    RemainingDrops(s.next[m.q := After(m.q, m.p)], n, m.p, After(m.p, s.next[m.p]));
  }

  lemma {:induction false} RunsAreShort(s: State, n: nat, run: seq<Meeting>)
    requires Shaped(s, n) && CanRun(s, n, run)
    ensures |run| <= Remaining(s.next, n)
    decreases |run|
  {
    if run != [] {
      EveryMeetingProgresses(s, n, run[0]);
      RunsAreShort(Step(s, n, run[0]), n, run[1..]);
    }
  }

  // ----- the mesh -----

  /** Some slot above its own rank connects process `p` with `q`. */
  ghost predicate Holds(s: State, n: nat, p: nat, q: nat)
    requires Shaped(s, n) && p < n
  {
    exists j :: p < j < n && s.slots[p][j] == Some(q)
  }

  /**
   * In a finished mesh every process has one connection with every other: the slots below its own rank name the right
   * rank, and those above hold a permutation of the higher ranks.
   */
  ghost predicate FullMesh(s: State, n: nat)
    requires Shaped(s, n)
  {
    && (forall p, j :: 0 <= j < p < n ==> s.slots[p][j] == Some(j as nat))
    && (forall p, j :: 0 <= p < j < n ==> s.slots[p][j].Some? && p < s.slots[p][j].value < n)
    && (forall p, j, k :: 0 <= p < j < k < n ==> s.slots[p][j] != s.slots[p][k])
    && (forall p, q :: 0 <= p < q < n ==> Holds(s, n, p, q))
  }

  lemma FinishedIsFullMesh(s: State, n: nat)
    requires Inv(s, n) && Finished(s, n)
    ensures FullMesh(s, n)
  {
    forall p, j | 0 <= j < p < n ensures s.slots[p][j] == Some(j as nat) {
      assert LowerSlot(s, n, p, j);
    }
    forall p, j | 0 <= p < j < n ensures s.slots[p][j].Some? && p < s.slots[p][j].value < n {
      assert AcceptedAt(s, n, p, j);
    }
    forall p, q | 0 <= p < q < n ensures Holds(s, n, p, q) {
      assert SomeSlot(s, n, p, q);
    }
  }

  /** Every run of the mesh ends, and wherever nothing more can happen the mesh is full. */
  lemma MeshCompletes(n: nat, run: seq<Meeting>)
    requires CanRun(Initial(n), n, run)
    ensures |run| <= Remaining(Initial(n).next, n)
    ensures (forall m :: !Enabled(Run(Initial(n), n, run), n, m)) ==> FullMesh(Run(Initial(n), n, run), n)
  {
    InitialInvariant(n);
    RunKeepsInvariant(Initial(n), n, run);
    RunsAreShort(Initial(n), n, run);
    var s := Run(Initial(n), n, run);
    if !Finished(s, n) {
      var m := NeverStuck(s, n);
    } else {
      FinishedIsFullMesh(s, n);
    }
  }

  /** One scheduling of the processes: any enabled meeting happens, as long as there is one. */
  method Build(n: nat) returns (s: State)
    ensures Shaped(s, n) && FullMesh(s, n)
  {
    s := Initial(n);
    InitialInvariant(n);
    while exists p :: 0 <= p < n && s.next[p] < n
      invariant Inv(s, n)
      decreases Remaining(s.next, n)
    {
      ghost var enabled := NeverStuck(s, n);
      var q, p :| 0 <= p < q < n && Enabled(s, n, Meeting(q, p));
      StepKeepsInvariant(s, n, Meeting(q, p));
      EveryMeetingProgresses(s, n, Meeting(q, p));
      s := Step(s, n, Meeting(q, p));
    }
    FinishedIsFullMesh(s, n);
  }

  /** The accept order matters: the slots above the own rank need not name the right ranks. */
  lemma HigherSlotsMayBeSwapped()
    ensures CanRun(Initial(3), 3, [Meeting(2, 0), Meeting(1, 0), Meeting(2, 1)])
    ensures
      var s := Run(Initial(3), 3, [Meeting(2, 0), Meeting(1, 0), Meeting(2, 1)]);
      Finished(s, 3) && s.slots[0][1] == Some(2) && s.slots[0][2] == Some(1)
  {
    var run := [Meeting(2, 0), Meeting(1, 0), Meeting(2, 1)];
    var s := Step(Initial(3), 3, Meeting(2, 0));
    assert run[1..] == [Meeting(1, 0), Meeting(2, 1)];
    assert run[1..][1..] == [Meeting(2, 1)];
    assert run[1..][1..][1..] == [];
    var t := Step(s, 3, Meeting(1, 0));
    assert t.next == [3, 2, 1];
  }
}
