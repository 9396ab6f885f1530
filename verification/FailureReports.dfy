/** Telling any-source receives about failed communicators: each failure is reported to one waiting request. */
module FailureReports {
  import opened Common
  import FailureDetection
  import opened Lifecycle
  import opened Requests
  import opened WaitNum

  ghost function Elements<T>(s: seq<T>): set<T> {
    set x | x in s
  }

  /** `taken` are distinct elements of `from`, and `left` are the others. */
  ghost predicate TakenFrom<T>(taken: seq<T>, from: set<T>, left: set<T>) {
    Distinct(taken) && Elements(taken) <= from && left == from - Elements(taken) && |left| == |from| - |taken|
  }

  /** Request i carries the failure of communicator i. */
  ghost predicate Carry(told: seq<Request>, comms: seq<nat>)
    reads set r | r in told
  {
    |told| == |comms| && forall i :: 0 <= i < |told| ==> told[i].source == comms[i] && told[i].error == -LFI_BROKEN_COMM
  }

  lemma OneMore<T>(taken: seq<T>, x: T, from: set<T>, left: set<T>)
    requires TakenFrom(taken, from, left) && x in left
    ensures TakenFrom(taken + [x], from, left - {x})
  {
    assert Elements(taken + [x]) == Elements(taken) + {x};
  }

  class EndpointReports {
    var anyRequests: set<Request>
    var pending: set<nat>

    constructor ()
      ensures anyRequests == {} && pending == {}
    {
      anyRequests, pending := {}, {};
    }

    /** One step of the matching: a waiting request is taken out and told. */
    method TellOne(comm: nat, ghost all: set<Request>) returns (r: Request)
      requires anyRequests != {} && anyRequests <= all
      modifies `anyRequests, all`source, all`error
      ensures r in old(anyRequests) && r.source == comm && r.error == -LFI_BROKEN_COMM
      ensures anyRequests == old(anyRequests) - {r}
      ensures forall x :: x in all && x != r ==> x.source == old(x.source) && x.error == old(x.error)
    {
      r :| r in anyRequests;
      r.source := comm;
      r.error := -LFI_BROKEN_COMM;
      anyRequests := anyRequests - {r};
    }

    /** The same step, added to the requests told so far. */
    method TellNext(comm: nat, told: seq<Request>, ghost comms: seq<nat>, ghost waiting: set<Request>,
                    ghost all: set<Request>) returns (more: seq<Request>)
      requires anyRequests != {} && waiting <= all && TakenFrom(told, waiting, anyRequests) && Carry(told, comms)
      modifies `anyRequests, all`source, all`error
      ensures TakenFrom(more, waiting, anyRequests) && Carry(more, comms + [comm]) && |more| == |told| + 1
      ensures forall x :: x in told ==> x in more
      ensures forall x :: x in all && x !in more ==> x.source == old(x.source) && x.error == old(x.error)
    {
      assert forall x :: x in told ==> x in Elements(told);
      var r := TellOne(comm, all);
      OneMore(told, r, waiting, anyRequests + {r});
      assert (anyRequests + {r}) - {r} == anyRequests;
      more := told + [r];
    }

    /** A pending failure is taken out. */
    method TakePending(ghost comms: seq<nat>, ghost was: set<nat>) returns (comm: nat)
      requires pending != {} && TakenFrom(comms, was, pending)
      modifies `pending
      ensures TakenFrom(comms + [comm], was, pending) && |pending| == |old(pending)| - 1
    {
      comm :| comm in pending;
      OneMore(comms, comm, was, pending);
      pending := pending - {comm};
    }

    /** One turn of the matching with the pending failures. */
    method MatchNext(told: seq<Request>, comms: seq<nat>, ghost waiting: set<Request>, ghost was: set<nat>,
                     ghost all: set<Request>) returns (more: seq<Request>, comms': seq<nat>)
      requires anyRequests != {} && pending != {} && waiting <= all
      requires TakenFrom(told, waiting, anyRequests) && TakenFrom(comms, was, pending) && Carry(told, comms)
      modifies `anyRequests, `pending, all`source, all`error
      ensures TakenFrom(more, waiting, anyRequests) && TakenFrom(comms', was, pending) && Carry(more, comms')
      ensures |pending| == |old(pending)| - 1 && forall x :: x in told ==> x in more
      ensures forall x :: x in all && x !in more ==> x.source == old(x.source) && x.error == old(x.error)
    {
      var comm := TakePending(comms, was);
      more := TellNext(comm, told, comms, waiting, all);
      comms' := comms + [comm];
    }

    /** The failures that found no request in earlier passes are reported, and then forgotten. */
    method ReportPending(ghost all: set<Request>) returns (told: seq<Request>, comms: seq<nat>)
      requires anyRequests <= all
      modifies `anyRequests, `pending, all`source, all`error
      ensures TakenFrom(told, old(anyRequests), anyRequests) && Carry(told, comms)
      ensures forall x :: x in all && x !in told ==> x.source == old(x.source) && x.error == old(x.error)
      ensures TakenFrom(comms, old(pending), pending) && |comms| == Min(|old(anyRequests)|, |old(pending)|)
    {
      ghost var waiting, was := anyRequests, pending;
      told, comms := [], [];
      while anyRequests != {} && pending != {}
        invariant TakenFrom(told, waiting, anyRequests) && Carry(told, comms)
        invariant forall x :: x in all && x !in told ==> x.source == old(x.source) && x.error == old(x.error)
        invariant TakenFrom(comms, was, pending)
        decreases |pending|
      {
        told, comms := MatchNext(told, comms, waiting, was, all);
      }
    }

    /** The communicators that this pass gave up are reported in their order, as long as requests are left. */
    method ReportCanceled(canceled: seq<nat>, ghost all: set<Request>) returns (told: seq<Request>)
      requires anyRequests <= all
      modifies `anyRequests, all`source, all`error
      ensures |told| == Min(|old(anyRequests)|, |canceled|)
      ensures TakenFrom(told, old(anyRequests), anyRequests) && Carry(told, canceled[..|told|])
      ensures forall x :: x in all && x !in told ==> x.source == old(x.source) && x.error == old(x.error)
    {
      told := [];
      while anyRequests != {} && |told| < |canceled|
        invariant |told| <= |canceled| && TakenFrom(told, old(anyRequests), anyRequests)
        invariant Carry(told, canceled[..|told|])
        invariant forall x :: x in all && x !in told ==> x.source == old(x.source) && x.error == old(x.error)
        decreases |canceled| - |told|
      {
        var comm := canceled[|told|];
        assert canceled[..|told| + 1] == canceled[..|told|] + [comm];
        told := TellNext(comm, told, canceled[..|told|], old(anyRequests), all);
      }
    }

    /** The failures for which no request is left wait for a later pass. */
    method KeepRest(canceled: seq<nat>, from: nat)
      requires from <= |canceled|
      modifies `pending
      ensures pending == old(pending) + Elements(canceled[from..])
    {
      var k := from;
      while k < |canceled|
        invariant from <= k <= |canceled| && pending == old(pending) + Elements(canceled[from..k])
      {
        assert canceled[from..k + 1] == canceled[from..k] + [canceled[k]];
        pending := pending + {canceled[k]};
        k := k + 1;
      }
      assert canceled[from..k] == canceled[from..];
    }

    /** The second half of the matching, after the pending failures `comms` went to the requests `told`. */
    method ReportNew(canceled: seq<nat>, told: seq<Request>, comms: seq<nat>, ghost waiting: set<Request>,
                     ghost was: set<nat>, ghost all: set<Request>) returns (allTold: seq<Request>, allComms: seq<nat>)
      requires waiting <= all && TakenFrom(told, waiting, anyRequests) && TakenFrom(comms, was, pending)
      requires Carry(told, comms)
      modifies `anyRequests, `pending, all`source, all`error
      ensures TakenFrom(allTold, waiting, anyRequests) && Carry(allTold, allComms)
      ensures |allTold| == |told| + Min(|old(anyRequests)|, |canceled|) && told <= allTold
      ensures Reported(was, canceled, allComms, |comms|, pending)
      ensures forall x :: x in all && x !in allTold ==> x.source == old(x.source) && x.error == old(x.error)
    {
      ghost var left := anyRequests;
      ToldAreWaiting(told, waiting, left);
      var more := ReportCanceled(canceled, all);
      ToldAreWaiting(more, left, anyRequests);
      KeepRest(canceled, |more|);
      TakenTwice(told, more, waiting, left, anyRequests);
      CarryBoth(told, more, comms, canceled[..|more|]);
      ReportedBoth(was, canceled, comms, |more|);
      allTold, allComms := told + more, comms + canceled[..|more|];
    }

    /** The matching of one pass. */
    method MatchAll(canceled: seq<nat>, ghost all: set<Request>)
        returns (told: seq<Request>, comms: seq<nat>, older: nat)
      requires anyRequests <= all
      modifies `anyRequests, `pending, all`source, all`error
      ensures Matched(old(anyRequests), anyRequests, told, old(pending), canceled, comms, older, pending)
      ensures Carry(told, comms)
      ensures forall x :: x in all && x !in told ==> x.source == old(x.source) && x.error == old(x.error)
    {
      told, comms := ReportPending(all);
      older := |comms|;
      told, comms := ReportNew(canceled, told, comms, old(anyRequests), old(pending), all);
    }

    /**
     * A pass that reports failures: afterwards every request that was told is complete with the error of a broken
     * communicator and the failed communicator as its source.
     */
    method HandleReports(canceled: seq<nat>, ghost all: set<Request>, ghost contexts: set<Context>,
                         ghost waits: set<WaitStruct>) returns (told: seq<Request>, comms: seq<nat>, older: nat)
      requires Closed(all, contexts, waits) && anyRequests <= all
      requires forall r :: r in anyRequests ==> r.opType == RECV && !r.Completed()
      modifies `anyRequests, `pending, all, contexts, waits
      ensures Matched(old(anyRequests), anyRequests, told, old(pending), canceled, comms, older, pending)
      ensures Carry(told, comms)
      ensures forall i :: 0 <= i < |told| ==> told[i].Completed()
      ensures forall r :: r in anyRequests ==> !r.Completed()
      ensures forall r :: r in all && r !in told ==>
        r.source == old(r.source) && r.error == old(r.error) && r.Completed() == old(r.Completed())
    {
      if |anyRequests| == 0 && |pending| == 0 && |canceled| == 0 {
        assert anyRequests == {} && pending == {} && canceled == [];
        NothingReported();
        return [], [], 0;
      }
      told, comms, older := MatchAll(canceled, all);
      ToldAreWaiting(told, old(anyRequests), anyRequests);
      CancelTold(told, comms, all, contexts, waits);
    }
  }

  /** The requests that were told are cancelled, which completes them with the error that they carry. */
  method CancelTold(told: seq<Request>, comms: seq<nat>, ghost all: set<Request>, ghost contexts: set<Context>,
                    ghost waits: set<WaitStruct>)
    requires Closed(all, contexts, waits) && Carry(told, comms)
    requires forall i :: 0 <= i < |told| ==> told[i] in all && told[i].opType == RECV
    modifies all, contexts, waits
    ensures Carry(told, comms) && forall i :: 0 <= i < |told| ==> told[i].Completed()
    ensures forall r :: r in all && r !in told ==>
      r.Completed() == old(r.Completed()) && r.source == old(r.source) && r.error == old(r.error)
  {
    var i := 0;
    while i < |told|
      invariant i <= |told| && Closed(all, contexts, waits) && Carry(told, comms)
      invariant forall k :: 0 <= k < i ==> told[k].Completed()
      invariant forall k :: 0 <= k < |told| ==> told[k].opType == RECV
      invariant forall r :: r in all && r !in told ==>
        r.Completed() == old(r.Completed()) && r.source == old(r.source) && r.error == old(r.error)
    {
      told[i].Complete(CancelError(told[i].opType, told[i].error, false));
      i := i + 1;
    }
  }

  /**
   * One pass: distinct waiting requests get one failure each, `older` of them pending ones and the others those of this
   * pass in their order; as many failures are reported as there are requests and failures.
   */
  ghost predicate Matched(waiting: set<Request>, left: set<Request>, told: seq<Request>, was: set<nat>,
                          canceled: seq<nat>, comms: seq<nat>, older: nat, pending: set<nat>) {
    && TakenFrom(told, waiting, left) && |told| == |comms| == Min(|waiting|, |was| + |canceled|)
    && older == Min(|waiting|, |was|) && Reported(was, canceled, comms, older, pending)
  }

  /** Where the failures go: `older` pending ones and a prefix of the new ones are reported, the others stay pending. */
  ghost predicate Reported(was: set<nat>, canceled: seq<nat>, comms: seq<nat>, older: nat, pending: set<nat>) {
    && older <= |comms| <= older + |canceled|
    && TakenFrom(comms[..older], was, was - Elements(comms[..older]))
    && comms[older..] == canceled[..|comms| - older]
    && pending == (was - Elements(comms[..older])) + Elements(canceled[|comms| - older..])
  }

  lemma ToldAreWaiting(told: seq<Request>, waiting: set<Request>, left: set<Request>)
    requires TakenFrom(told, waiting, left)
    ensures forall i :: 0 <= i < |told| ==> told[i] in waiting
    ensures forall r :: r in left ==> r in waiting && r !in told
  {
    assert forall i :: 0 <= i < |told| ==> told[i] in Elements(told);
  }

  lemma NothingReported()
    ensures Matched({}, {}, [], {}, [], [], 0, {})
  {
    assert Elements<nat>([]) == {};
  }

  lemma ReportedBoth(was: set<nat>, canceled: seq<nat>, first: seq<nat>, n: nat)
    requires TakenFrom(first, was, was - Elements(first)) && n <= |canceled|
    ensures Reported(was, canceled, first + canceled[..n], |first|, (was - Elements(first)) + Elements(canceled[n..]))
  {
    var comms := first + canceled[..n];
    assert comms[..|first|] == first && comms[|first|..] == canceled[..n];
  }

  lemma CarryBoth(told: seq<Request>, more: seq<Request>, comms: seq<nat>, others: seq<nat>)
    requires Carry(told, comms) && Carry(more, others)
    ensures Carry(told + more, comms + others)
  {
  }

  lemma TakenTwice<T>(a: seq<T>, b: seq<T>, from: set<T>, mid: set<T>, left: set<T>)
    requires TakenFrom(a, from, mid) && TakenFrom(b, mid, left)
    ensures TakenFrom(a + b, from, left)
  {
    assert Elements(a + b) == Elements(a) + Elements(b);
    assert forall i, j :: 0 <= i < |a| && 0 <= j < |b| ==> a[i] in Elements(a) && b[j] in Elements(b);
  }

  // ----- conservation -----

  lemma RepeatedMultiplicity(s: seq<nat>) returns (x: nat)
    requires !Distinct(s)
    ensures multiset(s)[x] >= 2
  {
    var i, j :| 0 <= i < j < |s| && s[i] == s[j];
    x := s[i];
    assert s == s[..j] + [s[j]] + s[j + 1..];
    assert s[..j][i] == x;
  }

  lemma KeptConserves(first: seq<nat>, was: set<nat>, left: set<nat>, kept: seq<nat>)
    requires TakenFrom(first, was, left)
    ensures multiset(first) + multiset(left + Elements(kept)) == multiset(was) + multiset(kept)
      <==> Distinct(kept) && Elements(kept) !! left
  {
    var a: multiset<nat> := multiset(first) + multiset(left + Elements(kept));
    var b: multiset<nat> := multiset(was) + multiset(kept);
    if Distinct(kept) && Elements(kept) !! left {
      forall x: nat ensures a[x] == b[x] {
        DistinctMultiplicity(first, x);
        DistinctMultiplicity(kept, x);
      }
    } else if !Distinct(kept) {
      var x := RepeatedMultiplicity(kept);
      DistinctMultiplicity(first, x);
      assert a[x] < b[x];
    } else {
      var x :| x in Elements(kept) && x in left;
      DistinctMultiplicity(first, x);
      assert a[x] < b[x];
    }
  }

  lemma SameOnBothSides(a: multiset<nat>, b: multiset<nat>, c: multiset<nat>)
    ensures a + c == b + c <==> a == b
  {
    if a + c == b + c {
      forall x: nat ensures a[x] == b[x] {
        assert (a + c)[x] == (b + c)[x];
      }
    }
  }

  /**
   * Reported and still pending together are previously pending and newly given up together if and only if the failures
   * that are kept are distinct and not pending already. Nothing is ever lost but a repetition.
   */
  lemma FailuresAreConserved(was: set<nat>, canceled: seq<nat>, comms: seq<nat>, older: nat, pending: set<nat>)
    requires Reported(was, canceled, comms, older, pending)
    ensures
      var kept := canceled[|comms| - older..];
      multiset(comms) + multiset(pending) == multiset(was) + multiset(canceled)
        <==> Distinct(kept) && Elements(kept) !! was - Elements(comms[..older])
    ensures Elements(comms) + pending == was + Elements(canceled)
  {
    var n := |comms| - older;
    var first, front, kept := comms[..older], canceled[..n], canceled[n..];
    var left := was - Elements(first);
    assert comms == first + front && canceled == front + kept;
    KeptConserves(first, was, left, kept);
    SameOnBothSides(multiset(first) + multiset(pending), multiset(was) + multiset(kept), multiset(front));
    assert multiset(comms) + multiset(pending) == (multiset(first) + multiset(pending)) + multiset(front);
    assert multiset(was) + multiset(canceled) == (multiset(was) + multiset(kept)) + multiset(front);
  }

  lemma FreshFailuresAreConserved(was: set<nat>, canceled: seq<nat>, comms: seq<nat>, older: nat, pending: set<nat>)
    requires Reported(was, canceled, comms, older, pending)
    requires Distinct(canceled) && Elements(canceled) !! was
    ensures multiset(comms) + multiset(pending) == multiset(was) + multiset(canceled)
  {
    FailuresAreConserved(was, canceled, comms, older, pending);
  }

  // ----- any series of loops -----

  type CommState = FailureDetection.CommState

  /**
   * From one loop of the failure detector to the next: what happened to every communicator, the communicators listed as
   * failed, whether an any-source request waits, and then what the matching made of the list.
   */
  datatype Round = Round(
    runs: seq<seq<FailureDetection.Event>>,
    canceled: seq<nat>,
    waiting: bool,
    comms: seq<nat>,
    older: nat,
    pending: set<nat>)

  ghost predicate Failed(states: seq<CommState>, x: nat) {
    x < |states| && states[x].status == FailureDetection.ERROR
  }

  ghost predicate AllFailed(states: seq<CommState>, pending: set<nat>) {
    forall x :: x in pending ==> Failed(states, x)
  }

  ghost function After(states: seq<CommState>, ftMs: nat, runs: seq<seq<FailureDetection.Event>>): (r: seq<CommState>)
    requires |runs| == |states|
    ensures |r| == |states| && forall i :: 0 <= i < |r| ==> r[i] == FailureDetection.Run(states[i], ftMs, runs[i])
  {
    seq(|states|, i requires 0 <= i < |states| => FailureDetection.Run(states[i], ftMs, runs[i]))
  }

  /** The list has one entry for every time that a communicator is listed as failed, in any order. */
  ghost predicate Lists(canceled: seq<nat>, states: seq<CommState>, ftMs: nat, runs: seq<seq<FailureDetection.Event>>)
    requires |runs| == |states|
  {
    && (forall i :: 0 <= i < |canceled| ==> canceled[i] < |states|)
    && forall i :: 0 <= i < |states| ==>
         multiset(canceled)[i] == FailureDetection.Listings(states[i], ftMs, runs[i])
  }

  /** Without a waiting any-source request there is no matching, and the list is cleared. */
  ghost predicate IsRound(states: seq<CommState>, ftMs: nat, was: set<nat>, round: Round) {
    && |round.runs| == |states| && Lists(round.canceled, states, ftMs, round.runs)
    && if round.waiting then Reported(was, round.canceled, round.comms, round.older, round.pending)
       else round.comms == [] && round.pending == was
  }

  ghost function Dropped(round: Round): seq<nat> {
    if round.waiting then [] else round.canceled
  }

  /** Every loop starts with the failures that the loop before it kept. */
  ghost predicate IsSeries(states: seq<CommState>, ftMs: nat, was: set<nat>, rounds: seq<Round>)
    decreases |rounds|
  {
    rounds == []
    || (IsRound(states, ftMs, was, rounds[0])
        && IsSeries(After(states, ftMs, rounds[0].runs), ftMs, rounds[0].pending, rounds[1..]))
  }

  ghost function StatesAfter(states: seq<CommState>, ftMs: nat, was: set<nat>, rounds: seq<Round>): seq<CommState>
    requires IsSeries(states, ftMs, was, rounds)
    decreases |rounds|
  {
    if rounds == [] then states
    else StatesAfter(After(states, ftMs, rounds[0].runs), ftMs, rounds[0].pending, rounds[1..])
  }

  ghost function PendingAfter(was: set<nat>, rounds: seq<Round>): set<nat> {
    if rounds == [] then was else rounds[|rounds| - 1].pending
  }

  /** All failures reported in the series, in their order. */
  ghost function AllReports(rounds: seq<Round>): seq<nat> {
    if rounds == [] then [] else rounds[0].comms + AllReports(rounds[1..])
  }

  /** All failures that were listed and then forgotten. */
  ghost function AllDropped(rounds: seq<Round>): seq<nat> {
    if rounds == [] then [] else Dropped(rounds[0]) + AllDropped(rounds[1..])
  }

  /** 1 for a communicator that failed between the two states. */
  ghost function Fails(states: seq<CommState>, later: seq<CommState>, x: nat): nat {
    if !Failed(states, x) && Failed(later, x) then 1 else 0
  }

  lemma OnceMeansDistinct(s: seq<nat>)
    requires forall x: nat :: multiset(s)[x] <= 1
    ensures Distinct(s)
  {
    if !Distinct(s) {
      var x := RepeatedMultiplicity(s);
    }
  }

  /** A communicator is listed in a round exactly when it fails in it, and one that has failed stays so. */
  lemma ListedWhenFailing(states: seq<CommState>, ftMs: nat, was: set<nat>, round: Round, x: nat)
    requires IsRound(states, ftMs, was, round)
    ensures multiset(round.canceled)[x] == Fails(states, After(states, ftMs, round.runs), x)
    ensures Failed(states, x) ==> Failed(After(states, ftMs, round.runs), x)
  {
    if x < |states| {
      FailureDetection.ListedAtMostOnce(states[x], ftMs, round.runs[x]);
    } else {
      assert forall i :: 0 <= i < |round.canceled| ==> round.canceled[i] != x;
    }
  }

  /** What is listed is new: distinct, not pending, and failed from now on. */
  lemma ListedAreFresh(states: seq<CommState>, ftMs: nat, was: set<nat>, round: Round)
    requires IsRound(states, ftMs, was, round) && AllFailed(states, was)
    ensures Distinct(round.canceled) && Elements(round.canceled) !! was
    ensures AllFailed(After(states, ftMs, round.runs), was + Elements(round.canceled))
  {
    forall x: nat
      ensures multiset(round.canceled)[x] == Fails(states, After(states, ftMs, round.runs), x)
      ensures Failed(states, x) ==> Failed(After(states, ftMs, round.runs), x)
    {
      ListedWhenFailing(states, ftMs, was, round, x);
    }
    OnceMeansDistinct(round.canceled);
    forall x | x in Elements(round.canceled) ensures x !in was && Failed(After(states, ftMs, round.runs), x) {
      assert x in multiset(round.canceled);
    }
  }

  /** One round conserves the failures: they are reported, kept or dropped. */
  lemma RoundConserves(states: seq<CommState>, ftMs: nat, was: set<nat>, round: Round)
    requires IsRound(states, ftMs, was, round) && AllFailed(states, was)
    ensures multiset(round.comms) + multiset(round.pending) + multiset(Dropped(round))
      == multiset(was) + multiset(round.canceled)
    ensures AllFailed(After(states, ftMs, round.runs), round.pending)
  {
    ListedAreFresh(states, ftMs, was, round);
    if round.waiting {
      FreshFailuresAreConserved(was, round.canceled, round.comms, round.older, round.pending);
      FailuresAreConserved(was, round.canceled, round.comms, round.older, round.pending);
    }
  }

  lemma RoundConservesOne(states: seq<CommState>, ftMs: nat, was: set<nat>, round: Round, x: nat)
    requires IsRound(states, ftMs, was, round) && AllFailed(states, was)
    ensures multiset(round.comms)[x] + multiset(round.pending)[x] + multiset(Dropped(round))[x]
      == multiset(was)[x] + Fails(states, After(states, ftMs, round.runs), x)
  {
    RoundConserves(states, ftMs, was, round);
    ListedWhenFailing(states, ftMs, was, round, x);
    var sum: multiset<nat> := multiset(round.comms) + multiset(round.pending) + multiset(Dropped(round));
    assert sum[x] == multiset(was)[x] + multiset(round.canceled)[x];
  }

  lemma FailsInBetween(first: seq<CommState>, middle: seq<CommState>, last: seq<CommState>, x: nat)
    requires (Failed(first, x) ==> Failed(middle, x)) && (Failed(middle, x) ==> Failed(last, x))
    ensures Fails(first, last, x) == Fails(first, middle, x) + Fails(middle, last, x)
    ensures Failed(first, x) ==> Failed(last, x)
  {
  }

  lemma ReportsOfRest(was: set<nat>, rounds: seq<Round>, x: nat)
    requires rounds != []
    ensures multiset(AllReports(rounds))[x] == multiset(rounds[0].comms)[x] + multiset(AllReports(rounds[1..]))[x]
    ensures multiset(AllDropped(rounds))[x] == multiset(Dropped(rounds[0]))[x] + multiset(AllDropped(rounds[1..]))[x]
    ensures PendingAfter(was, rounds) == PendingAfter(rounds[0].pending, rounds[1..])
  {
  }

  lemma {:induction false} SeriesConservesOne(states: seq<CommState>, ftMs: nat, was: set<nat>, rounds: seq<Round>,
                                              x: nat)
    requires IsSeries(states, ftMs, was, rounds) && AllFailed(states, was)
    ensures multiset(AllReports(rounds))[x] + multiset(PendingAfter(was, rounds))[x] + multiset(AllDropped(rounds))[x]
      == multiset(was)[x] + Fails(states, StatesAfter(states, ftMs, was, rounds), x)
    ensures Failed(states, x) ==> Failed(StatesAfter(states, ftMs, was, rounds), x)
    decreases |rounds|
  {
    if rounds != [] {
      var next := After(states, ftMs, rounds[0].runs);
      RoundConservesOne(states, ftMs, was, rounds[0], x);
      RoundConserves(states, ftMs, was, rounds[0]);
      ListedWhenFailing(states, ftMs, was, rounds[0], x);
      SeriesConservesOne(next, ftMs, rounds[0].pending, rounds[1..], x);
      FailsInBetween(states, next, StatesAfter(states, ftMs, was, rounds), x);
      ReportsOfRest(was, rounds, x);
    }
  }

  /** The communicators that failed between the two states. */
  ghost function NewlyFailed(states: seq<CommState>, later: seq<CommState>): set<nat> {
    set x | 0 <= x < |later| && !Failed(states, x) && Failed(later, x)
  }

  /**
   * Over any series of loops, what was reported, what is still pending and what was dropped are together what was
   * pending at first and the communicators that failed meanwhile: every failure is in exactly one of the three, once.
   */
  lemma FailuresAreAccountedFor(states: seq<CommState>, ftMs: nat, was: set<nat>, rounds: seq<Round>)
    requires IsSeries(states, ftMs, was, rounds) && AllFailed(states, was)
    ensures multiset(AllReports(rounds)) + multiset(PendingAfter(was, rounds)) + multiset(AllDropped(rounds))
      == multiset(was) + multiset(NewlyFailed(states, StatesAfter(states, ftMs, was, rounds)))
  {
    var later := StatesAfter(states, ftMs, was, rounds);
    var a: multiset<nat> :=
      multiset(AllReports(rounds)) + multiset(PendingAfter(was, rounds)) + multiset(AllDropped(rounds));
    var b: multiset<nat> := multiset(was) + multiset(NewlyFailed(states, later));
    forall x: nat ensures a[x] == b[x] {
      SeriesConservesOne(states, ftMs, was, rounds, x);
    }
  }

  /** Some communicator fails in a loop in which no any-source request waits. */
  ghost predicate FailsUnnoticed(states: seq<CommState>, ftMs: nat, was: set<nat>, rounds: seq<Round>)
    requires IsSeries(states, ftMs, was, rounds)
    decreases |rounds|
  {
    rounds != []
    && ((!rounds[0].waiting && NewlyFailed(states, After(states, ftMs, rounds[0].runs)) != {})
        || FailsUnnoticed(After(states, ftMs, rounds[0].runs), ftMs, rounds[0].pending, rounds[1..]))
  }

  lemma ListedIffSomeFails(states: seq<CommState>, ftMs: nat, was: set<nat>, round: Round)
    requires IsRound(states, ftMs, was, round)
    ensures round.canceled == [] <==> NewlyFailed(states, After(states, ftMs, round.runs)) == {}
  {
    var next := After(states, ftMs, round.runs);
    if round.canceled != [] {
      var x := round.canceled[0];
      ListedWhenFailing(states, ftMs, was, round, x);
      assert multiset(round.canceled)[x] > 0;
      assert x in NewlyFailed(states, next);
    }
    if x :| x in NewlyFailed(states, next) {
      ListedWhenFailing(states, ftMs, was, round, x);
      assert x in multiset(round.canceled);
    }
  }

  /** Nothing is dropped if and only if every failure falls in a loop in which an any-source request waits. */
  lemma {:induction false} NothingDroppedIff(states: seq<CommState>, ftMs: nat, was: set<nat>, rounds: seq<Round>)
    requires IsSeries(states, ftMs, was, rounds)
    ensures AllDropped(rounds) == [] <==> !FailsUnnoticed(states, ftMs, was, rounds)
    decreases |rounds|
  {
    if rounds != [] {
      ListedIffSomeFails(states, ftMs, was, rounds[0]);
      NothingDroppedIff(After(states, ftMs, rounds[0].runs), ftMs, rounds[0].pending, rounds[1..]);
    }
  }

  /** So the reports conserve the failures if and only if every failure falls in such a loop. */
  lemma FailuresAreConservedInTheSystemIff(states: seq<CommState>, ftMs: nat, was: set<nat>, rounds: seq<Round>)
    requires IsSeries(states, ftMs, was, rounds) && AllFailed(states, was)
    ensures multiset(AllReports(rounds)) + multiset(PendingAfter(was, rounds))
        == multiset(was) + multiset(NewlyFailed(states, StatesAfter(states, ftMs, was, rounds)))
      <==> !FailsUnnoticed(states, ftMs, was, rounds)
  {
    FailuresAreAccountedFor(states, ftMs, was, rounds);
    NothingDroppedIff(states, ftMs, was, rounds);
    var kept: multiset<nat> := multiset(AllReports(rounds)) + multiset(PendingAfter(was, rounds));
    var dropped := multiset(AllDropped(rounds));
    assert |kept + dropped| == |kept| + |dropped| && |dropped| == |AllDropped(rounds)|;
  }
}
