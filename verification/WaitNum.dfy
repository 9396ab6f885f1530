/** Waiting for one or several requests while other threads complete them. */
module WaitNum {
  import opened Common
  import opened Requests
  import opened VectorQueues

  /**
   * What happens to the waiting thread between two of its own steps: the requests that other threads (or the progress
   * it makes itself) complete, and whether its clock has then passed the timeout.
   */
  datatype Batch = Batch(done: seq<(Request, int)>, expired: bool)

  datatype WaitResult = Returned(code: int) | Blocked

  /** The rotating start of the result scan, shared by all calls. */
  class LinearCounter {
    var value: nat

    constructor ()
      ensures value == 0
    {
      value := 0;
    }

    method Next() returns (v: nat)
      modifies this
      ensures v == old(value) && value == (old(value) + 1) % 0x1_0000_0000
    {
      v := value;
      value := (value + 1) % 0x1_0000_0000;
    }
  }

  /** The requests in use, and the contexts and wait structures that they reach. */
  ghost predicate Closed(all: set<Request>, contexts: set<Context>, waits: set<WaitStruct>)
    reads all
  {
    forall r :: r in all ==>
      (r.waitContext != null ==> r.waitContext in contexts) && (r.sharedWait != null ==> r.sharedWait in waits)
  }

  ghost predicate OnlyOf(script: seq<Batch>, all: set<Request>) {
    forall b, i :: b in script && 0 <= i < |b.done| ==> b.done[i].0 in all
  }

  ghost function Done(rs: set<Request>): set<Request>
    reads rs
  {
    set r | r in rs && r.Completed()
  }

  /** The requests that point to `shared`. */
  ghost function Attached(all: set<Request>, shared: WaitStruct): set<Request>
    reads all
  {
    set r | r in all && r.sharedWait == shared
  }

  /** The completed requests that point to `shared`. */
  ghost function Counted(shared: WaitStruct, all: set<Request>): (s: set<Request>)
    reads all
    ensures s == Done(Attached(all, shared))
  {
    set r | r in all && r.sharedWait == shared && r.Completed()
  }

  /** What a wait structure counts down to plus the completed requests that point to it: no completion changes it. */
  ghost function Tally(w: WaitStruct, all: set<Request>): int
    reads w, all
  {
    w.waitCount + |Counted(w, all)|
  }

  /** One of the batches completes the request with this error. */
  ghost predicate Given(script: seq<Batch>, r: Request, err: int) {
    exists b, i :: b in script && 0 <= i < |b.done| && b.done[i] == (r, err)
  }

  /** Whether a request is complete, and its error. */
  datatype Outlook = Outlook(complete: bool, error: int)

  ghost function Look(all: set<Request>): map<Request, Outlook>
    reads all
  {
    map r | r in all :: Outlook(r.Completed(), r.error)
  }

  /**
   * A request that is complete afterwards has the error that it was completed with: the one it had, or one that a batch
   * gives it. Of the others, those of `touched` that had the error `from` now have the error `to`.
   */
  ghost predicate Follows(s: map<Request, Outlook>, t: map<Request, Outlook>, script: seq<Batch>,
                          touched: set<Request>, from: int, to: int) {
    s.Keys == t.Keys && forall r :: r in t ==> FollowsAt(s, t, script, touched, from, to, r)
  }

  ghost predicate FollowsAt(s: map<Request, Outlook>, t: map<Request, Outlook>, script: seq<Batch>,
                            touched: set<Request>, from: int, to: int, r: Request)
    requires r in s && r in t
  {
    if s[r].complete then t[r] == s[r]
    else if t[r].complete then Given(script, r, t[r].error)
    else t[r].error == if r in touched && s[r].error == from then to else s[r].error
  }

  lemma FollowsOn(s: map<Request, Outlook>, t: map<Request, Outlook>, u: map<Request, Outlook>,
                  script: seq<Batch>, more: seq<Batch>, touched: set<Request>, others: set<Request>, from: int, to: int)
    requires Follows(s, t, script, touched, from, to) && Follows(t, u, more, others, from, to) && from != to
    requires more <= script || (|more| == 1 && (more[0] in script || more[0].done == []))
    ensures Follows(s, u, script, touched + others, from, to)
  {
    forall r | r in u ensures FollowsAt(s, u, script, touched + others, from, to, r) {
      assert FollowsAt(s, t, script, touched, from, to, r) && FollowsAt(t, u, more, others, from, to, r);
      if Given(more, r, u[r].error) {
        var b, i :| b in more && 0 <= i < |b.done| && b.done[i] == (r, u[r].error);
        assert b in script;
      }
    }
  }

  lemma FollowsItself(s: map<Request, Outlook>, script: seq<Batch>, from: int, to: int)
    ensures Follows(s, s, script, {}, from, to)
  {
  }

  lemma FollowsAnyMark(s: map<Request, Outlook>, t: map<Request, Outlook>, script: seq<Batch>, from: int, to: int)
    requires Follows(s, t, script, {}, 0, 1)
    ensures Follows(s, t, script, {}, from, to)
  {
    assert forall r :: r in t ==> FollowsAt(s, t, script, {}, 0, 1, r);
  }

  method CompleteOne(r: Request, err: int, ghost all: set<Request>, ghost contexts: set<Context>,
                     ghost waits: set<WaitStruct>)
    requires Closed(all, contexts, waits) && r in all
    modifies r, contexts, waits
    ensures Closed(all, contexts, waits) && r.sharedWait == old(r.sharedWait)
    ensures r.Completed() && r.error == if old(r.Completed()) then old(r.error) else err
    ensures forall w :: w in waits ==> Tally(w, all) == old(Tally(w, all))
    ensures Done(all) == old(Done(all)) + {r}
    ensures Look(all) == if old(r.Completed()) then old(Look(all)) else old(Look(all))[r := Outlook(true, err)]
  {
    ghost var already := r.Completed();
    r.Complete(err);
    assert forall x :: x in all && x != r ==> x.Completed() == old(x.Completed()) && x.error == old(x.error);
    if already {
      assert forall w :: w in waits ==> Counted(w, all) == old(Counted(w, all));
    } else {
      assert forall w :: w in waits && w != r.sharedWait ==> Counted(w, all) == old(Counted(w, all));
      assert r.sharedWait != null ==> Counted(r.sharedWait, all) == old(Counted(r.sharedWait, all)) + {r};
    }
  }

  /** The requests that a batch completes. */
  ghost function Finished(done: seq<(Request, int)>): set<Request> {
    if done == [] then {} else Finished(done[..|done| - 1]) + {done[|done| - 1].0}
  }

  lemma FinishedNext(done: seq<(Request, int)>, i: nat)
    requires i < |done|
    ensures Finished(done[..i + 1]) == Finished(done[..i]) + {done[i].0}
  {
    assert done[..i + 1][..i] == done[..i];
  }

  lemma CompletedFollows(was: map<Request, Outlook>, s: map<Request, Outlook>, t: map<Request, Outlook>, batch: Batch,
                         i: nat)
    requires Follows(was, s, [batch], {}, 0, 1) && i < |batch.done| && batch.done[i].0 in s
    requires
      var (r, err) := batch.done[i];
      t == if s[r].complete then s else s[r := Outlook(true, err)]
    ensures Follows(was, t, [batch], {}, 0, 1)
  {
    assert Given([batch], batch.done[i].0, batch.done[i].1);
    forall x | x in t ensures FollowsAt(was, t, [batch], {}, 0, 1, x) {
      assert FollowsAt(was, s, [batch], {}, 0, 1, x);
    }
  }

  method InterfereOne(batch: Batch, i: nat, ghost was: map<Request, Outlook>, ghost all: set<Request>,
                      ghost contexts: set<Context>, ghost waits: set<WaitStruct>)
    requires Closed(all, contexts, waits) && i < |batch.done| && batch.done[i].0 in all
    requires Follows(was, Look(all), [batch], {}, 0, 1)
    modifies all, contexts, waits
    ensures Closed(all, contexts, waits) && Done(all) == old(Done(all)) + {batch.done[i].0}
    ensures forall r :: r in all ==> r.sharedWait == old(r.sharedWait)
    ensures forall w :: w in waits ==> Tally(w, all) == old(Tally(w, all))
    ensures Follows(was, Look(all), [batch], {}, 0, 1)
  {
    ghost var between := Look(all);
    CompleteOne(batch.done[i].0, batch.done[i].1, all, contexts, waits);
    CompletedFollows(was, between, Look(all), batch, i);
  }

  /** Other threads complete requests, each of which is counted down once by the structure it points to. */
  method Interfere(batch: Batch, ghost all: set<Request>, ghost contexts: set<Context>, ghost waits: set<WaitStruct>)
    requires Closed(all, contexts, waits) && forall i :: 0 <= i < |batch.done| ==> batch.done[i].0 in all
    modifies all, contexts, waits
    ensures Closed(all, contexts, waits)
    ensures forall r :: r in all ==> r.sharedWait == old(r.sharedWait)
    ensures forall w :: w in waits ==> Tally(w, all) == old(Tally(w, all))
    ensures Done(all) == old(Done(all)) + Finished(batch.done)
    ensures Follows(old(Look(all)), Look(all), [batch], {}, 0, 1)
  {
    ghost var was := Look(all);
    FollowsItself(was, [batch], 0, 1);
    var i := 0;
    while i < |batch.done|
      invariant i <= |batch.done| && Closed(all, contexts, waits)
      invariant Done(all) == old(Done(all)) + Finished(batch.done[..i])
      invariant forall r :: r in all ==> r.sharedWait == old(r.sharedWait)
      invariant forall w :: w in waits ==> Tally(w, all) == old(Tally(w, all))
      invariant Follows(was, Look(all), [batch], {}, 0, 1)
    {
      FinishedNext(batch.done, i);
      InterfereOne(batch, i, was, all, contexts, waits);
      i := i + 1;
    }
    assert batch.done[..i] == batch.done;
  }

  ghost function Members(requests: seq<Request>): set<Request> {
    set r | r in requests
  }

  /** What a wait call may assume of its requests: known, distinct, and in no other wait call. */
  ghost predicate Waitable(requests: seq<Request>, all: set<Request>)
    reads all
  {
    Members(requests) <= all && Distinct(requests) && forall r :: r in requests ==> r.sharedWait == null
  }

  /** The batch at position `k`, or nothing when the record of other threads' steps is used up. */
  function BatchAt(script: seq<Batch>, k: nat): Batch {
    if k < |script| then script[k] else Batch([], false)
  }

  /** The requests that the first `k` batches complete. */
  ghost function DoneBy(script: seq<Batch>, k: nat): set<Request> {
    if k == 0 then {} else DoneBy(script, k - 1) + Finished(BatchAt(script, k - 1).done)
  }

  /** The requests that are complete after `k` batches, when those of `base` were complete before. */
  ghost function CompleteAt(base: set<Request>, script: seq<Batch>, k: nat): set<Request> {
    base + DoneBy(script, k)
  }

  /** How the waiting ends: after so many batches, with or without a timeout, or never. */
  datatype Exit = Left(k: nat, timeout: bool) | Stuck

  ghost predicate Reached(base: set<Request>, script: seq<Batch>, members: set<Request>, howMany: int, k: nat) {
    howMany <= |members * CompleteAt(base, script, k)|
  }

  ghost function ExitFrom(base: set<Request>, script: seq<Batch>, members: set<Request>, howMany: int, timed: bool,
                          k: nat): Exit
    decreases |script| - k
  {
    if Reached(base, script, members, howMany, k) then Left(k, false)
    else if k >= |script| then Stuck
    else if timed && script[k].expired then Left(k + 1, true)
    else ExitFrom(base, script, members, howMany, timed, k + 1)
  }

  /** Setting up one request: it is attached, and counted down if it is already complete. */
  method AttachOne(request: Request, shared: WaitStruct, ghost all: set<Request>)
    requires request in all && request.sharedWait != shared
    modifies request, shared
    ensures request.sharedWait == shared && request.waitContext == old(request.waitContext)
    ensures request.error
      == if !request.Completed() && old(request.error) == -LFI_TIMEOUT then LFI_SUCCESS else old(request.error)
    ensures Done(all) == old(Done(all))
    ensures Attached(all, shared) == old(Attached(all, shared)) + {request}
    ensures Tally(shared, all) == old(Tally(shared, all))
  {
    ghost var attached, before := Attached(all, shared), Done(Attached(all, shared));
    request.sharedWait := shared;
    assert Attached(all, shared) == attached + {request};
    if request.Completed() {
      shared.waitCount := shared.waitCount - 1;
      assert Done(attached + {request}) == before + {request} && request !in before;
    } else {
      if request.error == -LFI_TIMEOUT {
        request.error := LFI_SUCCESS;
      }
      assert Done(attached + {request}) == before;
    }
    assert Attached(all, shared) == attached + {request};
  }

  lemma NextMember(requests: seq<Request>, i: nat)
    requires Distinct(requests) && i < |requests|
    ensures requests[i] in requests && requests[i] !in Members(requests[..i])
    ensures Members(requests[..i + 1]) == Members(requests[..i]) + {requests[i]}
  {
    assert requests[..i + 1] == requests[..i] + [requests[i]];
  }

  /** One turn of the setup loop, after whatever other threads do before it. */
  method SetUpOne(requests: seq<Request>, i: nat, shared: WaitStruct, batch: Batch, ghost all: set<Request>,
                  ghost contexts: set<Context>, ghost waits: set<WaitStruct>)
    requires Closed(all, contexts, waits) && i < |requests| && Distinct(requests) && Members(requests) <= all
    requires forall k :: 0 <= k < |batch.done| ==> batch.done[k].0 in all
    requires shared in waits && Attached(all, shared) == Members(requests[..i])
    modifies all, contexts, waits
    ensures Closed(all, contexts, waits) && Attached(all, shared) == Members(requests[..i + 1])
    ensures Tally(shared, all) == old(Tally(shared, all))
    ensures Done(all) == old(Done(all)) + Finished(batch.done)
    ensures Follows(old(Look(all)), Look(all), [batch], {requests[i]}, -LFI_TIMEOUT, LFI_SUCCESS)
  {
    ghost var was := Look(all);
    Interfere(batch, all, contexts, waits);
    ghost var between := Look(all);
    FollowsAnyMark(was, between, [batch], -LFI_TIMEOUT, LFI_SUCCESS);
    NextMember(requests, i);
    assert Attached(all, shared) == Members(requests[..i]);
    AttachOne(requests[i], shared, all);
    AttachedFollows(between, Look(all), batch, requests[i]);
    FollowsOn(was, between, Look(all), [batch], [batch], {}, {requests[i]}, -LFI_TIMEOUT, LFI_SUCCESS);
    assert {} + {requests[i]} == {requests[i]};
  }

  lemma AttachedFollows(s: map<Request, Outlook>, t: map<Request, Outlook>, batch: Batch, request: Request)
    requires request in s && request in t && t == s[request := t[request]]
    requires t[request].complete == s[request].complete && t[request].error
      == if !s[request].complete && s[request].error == -LFI_TIMEOUT then LFI_SUCCESS else s[request].error
    ensures Follows(s, t, [batch], {request}, -LFI_TIMEOUT, LFI_SUCCESS)
  {
    forall r | r in t ensures FollowsAt(s, t, [batch], {request}, -LFI_TIMEOUT, LFI_SUCCESS, r) {
    }
  }

  /** Setting up the wait: all requests are attached, and the ones already complete are counted down. */
  method Attach(requests: seq<Request>, shared: WaitStruct, script: seq<Batch>, ghost all: set<Request>,
                ghost contexts: set<Context>, ghost waits: set<WaitStruct>)
    requires Closed(all, contexts, waits) && Waitable(requests, all) && OnlyOf(script, all)
    requires shared in waits && Attached(all, shared) == {}
    modifies all, contexts, waits
    ensures Closed(all, contexts, waits) && Attached(all, shared) == Members(requests)
    ensures Tally(shared, all) == old(shared.waitCount)
    ensures Done(all) == CompleteAt(old(Done(all)), script, |requests|)
    ensures Follows(old(Look(all)), Look(all), script, Members(requests), -LFI_TIMEOUT, LFI_SUCCESS)
  {
    ghost var was := Look(all);
    FollowsItself(was, script, -LFI_TIMEOUT, LFI_SUCCESS);
    var i := 0;
    while i < |requests|
      invariant i <= |requests| && Closed(all, contexts, waits)
      invariant Attached(all, shared) == Members(requests[..i])
      invariant Tally(shared, all) == old(shared.waitCount)
      invariant Done(all) == CompleteAt(old(Done(all)), script, i)
      invariant Follows(was, Look(all), script, Members(requests[..i]), -LFI_TIMEOUT, LFI_SUCCESS)
    {
      ghost var between := Look(all);
      var batch := BatchAt(script, i);
      SetUpOne(requests, i, shared, batch, all, contexts, waits);
      FollowsOn(was, between, Look(all), script, [batch], Members(requests[..i]), {requests[i]},
                -LFI_TIMEOUT, LFI_SUCCESS);
      NextMember(requests, i);
      i := i + 1;
    }
    assert requests[..|requests|] == requests;
  }

  /** What is left to count is `howMany` without the members that are complete. */
  lemma LeftToCount(shared: WaitStruct, members: set<Request>, howMany: int, all: set<Request>)
    requires members <= all && Attached(all, shared) == members && Tally(shared, all) == howMany
    ensures shared.waitCount == howMany - |members * Done(all)| && Done(members) == members * Done(all)
  {
    assert Counted(shared, all) == members * Done(all) == Done(members);
  }

  /** The wait structure and the completed requests after `k` batches of a call waiting for `howMany` of `members`. */
  ghost predicate Waiting(shared: WaitStruct, members: set<Request>, howMany: int, base: set<Request>,
                          script: seq<Batch>, k: nat, all: set<Request>)
    reads shared, all
  {
    && members <= all && Attached(all, shared) == members && Tally(shared, all) == howMany
    && Done(all) == CompleteAt(base, script, k)
  }

  /** One turn of the waiting loop. */
  method AwaitTurn(shared: WaitStruct, script: seq<Batch>, k: nat, ghost members: set<Request>, ghost howMany: int,
                   ghost base: set<Request>, ghost was: map<Request, Outlook>, ghost all: set<Request>,
                   ghost contexts: set<Context>, ghost waits: set<WaitStruct>)
    requires Closed(all, contexts, waits) && OnlyOf(script, all) && shared in waits && k < |script|
    requires Waiting(shared, members, howMany, base, script, k, all) && Follows(was, Look(all), script, {}, 0, 1)
    modifies all, contexts, waits
    ensures Closed(all, contexts, waits) && Waiting(shared, members, howMany, base, script, k + 1, all)
    ensures shared.waitCount > 0 <==> !Reached(base, script, members, howMany, k + 1)
    ensures Follows(was, Look(all), script, {}, 0, 1)
  {
    ghost var between := Look(all);
    Interfere(script[k], all, contexts, waits);
    assert Attached(all, shared) == old(Attached(all, shared));
    LeftToCount(shared, members, howMany, all);
    FollowsOn(was, between, Look(all), script, [script[k]], {}, {}, 0, 1);
  }

  /** Waiting until nothing is left to count, the clock expires, or no other step is left to happen. */
  method AwaitCount(shared: WaitStruct, timed: bool, script: seq<Batch>, from: nat, ghost members: set<Request>,
                    ghost howMany: int, ghost base: set<Request>, ghost all: set<Request>,
                    ghost contexts: set<Context>, ghost waits: set<WaitStruct>)
      returns (k: nat, isTimeout: bool, blocked: bool)
    requires Closed(all, contexts, waits) && OnlyOf(script, all) && shared in waits
    requires Waiting(shared, members, howMany, base, script, from, all)
    modifies all, contexts, waits
    ensures Closed(all, contexts, waits) && Waiting(shared, members, howMany, base, script, k, all)
    ensures ExitFrom(base, script, members, howMany, timed, from) == if blocked then Stuck else Left(k, isTimeout)
    ensures blocked || !isTimeout ==> (blocked <==> !Reached(base, script, members, howMany, k))
    ensures Follows(old(Look(all)), Look(all), script, {}, 0, 1)
  {
    ghost var was := Look(all);
    FollowsItself(was, script, 0, 1);
    k, isTimeout, blocked := from, false, false;
    LeftToCount(shared, members, howMany, all);
    while shared.waitCount > 0 && !isTimeout && !blocked
      invariant Closed(all, contexts, waits) && Waiting(shared, members, howMany, base, script, k, all)
      invariant shared.waitCount > 0 <==> !Reached(base, script, members, howMany, k)
      invariant ExitFrom(base, script, members, howMany, timed, from)
        == if blocked then Stuck else if isTimeout then Left(k, true)
           else ExitFrom(base, script, members, howMany, timed, k)
      invariant blocked ==> !isTimeout && shared.waitCount > 0
      invariant Follows(was, Look(all), script, {}, 0, 1)
      decreases !blocked, |script| - k
    {
      if k >= |script| {
        blocked := true;
      } else {
        AwaitTurn(shared, script, k, members, howMany, base, was, all, contexts, waits);
        isTimeout := timed && script[k].expired;
        k := k + 1;
      }
    }
  }

  /** The i-th position that the result scan looks at. */
  function Cyclic(first: nat, i: nat, n: nat): (index: nat)
    requires first < n && i < n
    ensures index < n
  {
    if first + i < n then first + i else first + i - n
  }

  /** When the scan from `first` looks at `index`. */
  function Turn(first: nat, index: nat, n: nat): (i: nat)
    requires first < n && index < n
    ensures i < n && Cyclic(first, i, n) == index
    ensures forall k :: 0 <= k < n && Cyclic(first, k, n) == index ==> k == i
  {
    if index >= first then index - first else index + n - first
  }

  /** Detaching one request and noting whether it is complete. */
  method DetachOne(request: Request, ghost all: set<Request>) returns (complete: bool)
    requires request in all
    modifies request
    ensures request.sharedWait == null && request.waitContext == old(request.waitContext)
    ensures complete == request.Completed()
    ensures request.error == if !complete && old(request.error) == LFI_SUCCESS then -LFI_TIMEOUT else old(request.error)
  {
    request.sharedWait := null;
    complete := request.Completed();
    if !complete && request.error == LFI_SUCCESS {
      request.error := -LFI_TIMEOUT;
    }
  }

  /**
   * `index` is the first position in cyclic order from `first` whose request is complete when the scan comes to it; the
   * scan begins after `k` batches, and one more happens before each of its turns.
   */
  ghost predicate FirstComplete(requests: seq<Request>, first: nat, index: nat, base: set<Request>, script: seq<Batch>,
                                k: nat)
    requires first < |requests| && index < |requests|
  {
    && requests[index] in CompleteAt(base, script, k + Turn(first, index, |requests|) + 1)
    && forall j :: 0 <= j < |requests| ==>
        (Turn(first, j, |requests|) < Turn(first, index, |requests|) ==>
          requests[j] !in CompleteAt(base, script, k + Turn(first, j, |requests|) + 1))
  }

  /** The positions are looked at one after the other, from `first` to the end and then from the beginning. */
  lemma FirstCompleteMeans(requests: seq<Request>, first: nat, index: nat, base: set<Request>, script: seq<Batch>,
                           k: nat)
    requires first < |requests| && index < |requests|
    ensures
      var n := |requests|;
      var last := k + if first <= index then index - first else n - first + index;
      FirstComplete(requests, first, index, base, script, k) <==>
        && requests[index] in CompleteAt(base, script, last + 1)
        && forall j :: 0 <= j < n && (if first <= index then first <= j < index else j >= first || j < index) ==>
             requests[j] !in CompleteAt(base, script, k + 1 + if first <= j then j - first else n - first + j)
  {
  }

  lemma FirstCompleteIsUnique(requests: seq<Request>, first: nat, i: nat, j: nat, base: set<Request>,
                              script: seq<Batch>, k: nat)
    requires first < |requests| && i < |requests| && j < |requests|
    requires FirstComplete(requests, first, i, base, script, k) && FirstComplete(requests, first, j, base, script, k)
    ensures i == j
  {
    var n := |requests|;
    assert Turn(first, i, n) == Turn(first, j, n);
    assert Cyclic(first, Turn(first, i, n), n) == i && Cyclic(first, Turn(first, j, n), n) == j;
  }

  lemma {:induction false} MoreComplete(base: set<Request>, script: seq<Batch>, k: nat, m: nat)
    requires k <= m
    ensures CompleteAt(base, script, k) <= CompleteAt(base, script, m)
    decreases m
  {
    if k < m {
      MoreComplete(base, script, k, m - 1);
    }
  }

  /** In particular no request that the scan meets before the result was complete when the waiting ended. */
  lemma FirstOfThoseAtExit(requests: seq<Request>, first: nat, index: nat, base: set<Request>, script: seq<Batch>,
                           k: nat, j: nat)
    requires first < |requests| && index < |requests| && FirstComplete(requests, first, index, base, script, k)
    requires j < |requests| && Turn(first, j, |requests|) < Turn(first, index, |requests|)
    ensures requests[j] !in CompleteAt(base, script, k)
  {
    MoreComplete(base, script, k, k + Turn(first, j, |requests|) + 1);
  }

  /** The scan has passed the request: it points to no wait structure, and it is complete or marked as timed out. */
  ghost predicate Detached(r: Request)
    reads r
  {
    r.sharedWait == null && (r.Completed() || r.error != LFI_SUCCESS)
  }

  method InterfereDetached(batch: Batch, ghost all: set<Request>, ghost contexts: set<Context>,
                           ghost waits: set<WaitStruct>)
    requires Closed(all, contexts, waits) && forall i :: 0 <= i < |batch.done| ==> batch.done[i].0 in all
    modifies all, contexts, waits
    ensures Closed(all, contexts, waits) && Done(all) == old(Done(all)) + Finished(batch.done)
    ensures forall r :: r in all && old(Detached(r)) ==> Detached(r)
    ensures Follows(old(Look(all)), Look(all), [batch], {}, LFI_SUCCESS, -LFI_TIMEOUT)
  {
    ghost var was := Look(all);
    Interfere(batch, all, contexts, waits);
    assert forall r :: r in all ==> FollowsAt(was, Look(all), [batch], {}, 0, 1, r);
    FollowsAnyMark(was, Look(all), [batch], LFI_SUCCESS, -LFI_TIMEOUT);
  }

  /** One turn of the result scan. */
  method CollectOne(request: Request, batch: Batch, ghost all: set<Request>, ghost contexts: set<Context>,
                    ghost waits: set<WaitStruct>) returns (complete: bool)
    requires Closed(all, contexts, waits) && request in all
    requires forall i :: 0 <= i < |batch.done| ==> batch.done[i].0 in all
    modifies all, contexts, waits
    ensures Closed(all, contexts, waits) && Done(all) == old(Done(all)) + Finished(batch.done)
    ensures complete == (request in Done(all)) && Detached(request)
    ensures forall r :: r in all && old(Detached(r)) ==> Detached(r)
    ensures Follows(old(Look(all)), Look(all), [batch], {request}, LFI_SUCCESS, -LFI_TIMEOUT)
  {
    ghost var was := Look(all);
    InterfereDetached(batch, all, contexts, waits);
    ghost var between := Look(all);
    complete := DetachOne(request, all);
    DetachedFollows(between, Look(all), batch, request);
    FollowsOn(was, between, Look(all), [batch], [batch], {}, {request}, LFI_SUCCESS, -LFI_TIMEOUT);
    assert {} + {request} == {request};
  }

  lemma DetachedFollows(s: map<Request, Outlook>, t: map<Request, Outlook>, batch: Batch, request: Request)
    requires request in s && request in t && t == s[request := t[request]]
    requires t[request].complete == s[request].complete && t[request].error
      == if !s[request].complete && s[request].error == LFI_SUCCESS then -LFI_TIMEOUT else s[request].error
    ensures Follows(s, t, [batch], {request}, LFI_SUCCESS, -LFI_TIMEOUT)
  {
    forall r | r in t ensures FollowsAt(s, t, [batch], {request}, LFI_SUCCESS, -LFI_TIMEOUT, r) {
    }
  }

  /** What the scan has found after its first `i` turns. */
  ghost predicate Scanned(requests: seq<Request>, first: nat, base: set<Request>, script: seq<Batch>, k: nat, i: nat,
                          outIndex: int)
    requires first < |requests|
  {
    if outIndex == -1 then
      forall j :: 0 <= j < |requests| && Turn(first, j, |requests|) < i ==>
        requests[j] !in CompleteAt(base, script, k + Turn(first, j, |requests|) + 1)
    else
      0 <= outIndex < |requests| && FirstComplete(requests, first, outIndex, base, script, k)
  }

  lemma ScanOne(requests: seq<Request>, first: nat, base: set<Request>, script: seq<Batch>, k: nat, index: nat,
                outIndex: int)
    requires first < |requests| && index < |requests|
    requires Scanned(requests, first, base, script, k, Turn(first, index, |requests|), outIndex)
    ensures
      var i := Turn(first, index, |requests|);
      var found := requests[index] in CompleteAt(base, script, k + i + 1) && outIndex == -1;
      Scanned(requests, first, base, script, k, i + 1, if found then index else outIndex)
  {
    OneAtATurn(first, index, |requests|);
  }

  /** The requests of the first `i` turns have been passed. */
  ghost predicate Passed(requests: seq<Request>, first: nat, i: nat, all: set<Request>)
    requires first < |requests|
    reads all
  {
    forall j :: 0 <= j < |requests| && Turn(first, j, |requests|) < i ==>
      requests[j] in all && Detached(requests[j])
  }

  /** Turn `i` of the scan, from what it has found so far. */
  method CollectTurn(requests: seq<Request>, first: nat, script: seq<Batch>, from: nat, i: nat, found: int,
                     ghost base: set<Request>, ghost all: set<Request>, ghost contexts: set<Context>,
                     ghost waits: set<WaitStruct>) returns (outIndex: int)
    requires first < |requests| && i < |requests| && Done(all) == CompleteAt(base, script, from + i)
    requires Closed(all, contexts, waits) && OnlyOf(script, all) && Members(requests) <= all
    requires Passed(requests, first, i, all) && Scanned(requests, first, base, script, from, i, found)
    modifies all, contexts, waits
    ensures Closed(all, contexts, waits) && Done(all) == CompleteAt(base, script, from + i + 1)
    ensures Passed(requests, first, i + 1, all) && Scanned(requests, first, base, script, from, i + 1, outIndex)
    ensures Follows(old(Look(all)), Look(all), [BatchAt(script, from + i)], {requests[Cyclic(first, i, |requests|)]},
                    LFI_SUCCESS, -LFI_TIMEOUT)
  {
    var index := (first + i) % |requests|;
    WrapIsRemainder(first + i, |requests|);
    assert Turn(first, index, |requests|) == i && requests[index] in Members(requests);
    ScanOne(requests, first, base, script, from, index, found);
    OneAtATurn(first, index, |requests|);
    var complete := CollectOne(requests[index], BatchAt(script, from + i), all, contexts, waits);
    outIndex := if complete && found == -1 then index else found;
  }

  /** The requests of the first `i` turns. */
  ghost function Touched(requests: seq<Request>, first: nat, i: nat): set<Request>
    requires first < |requests|
  {
    set j | 0 <= j < |requests| && Turn(first, j, |requests|) < i :: requests[j]
  }

  lemma TouchedNext(requests: seq<Request>, first: nat, i: nat)
    requires first < |requests| && i < |requests|
    ensures Touched(requests, first, i + 1) == Touched(requests, first, i) + {requests[Cyclic(first, i, |requests|)]}
  {
    var index := Cyclic(first, i, |requests|);
    assert Turn(first, index, |requests|) == i;
    OneAtATurn(first, index, |requests|);
  }

  lemma TouchedAll(requests: seq<Request>, first: nat)
    requires first < |requests|
    ensures Touched(requests, first, 0) == {} && Touched(requests, first, |requests|) == Members(requests)
  {
    forall r | r in Members(requests) ensures r in Touched(requests, first, |requests|) {
      var j :| 0 <= j < |requests| && requests[j] == r;
      assert Turn(first, j, |requests|) < |requests|;
    }
  }

  /** The same turn, with what has become of the errors since `was`. */
  method CollectNext(requests: seq<Request>, first: nat, script: seq<Batch>, from: nat, i: nat, found: int,
                     ghost base: set<Request>, ghost was: map<Request, Outlook>, ghost all: set<Request>,
                     ghost contexts: set<Context>, ghost waits: set<WaitStruct>) returns (outIndex: int)
    requires first < |requests| && i < |requests| && Done(all) == CompleteAt(base, script, from + i)
    requires Closed(all, contexts, waits) && OnlyOf(script, all) && Members(requests) <= all
    requires Passed(requests, first, i, all) && Scanned(requests, first, base, script, from, i, found)
    requires Follows(was, Look(all), script, Touched(requests, first, i), LFI_SUCCESS, -LFI_TIMEOUT)
    modifies all, contexts, waits
    ensures Closed(all, contexts, waits) && Done(all) == CompleteAt(base, script, from + i + 1)
    ensures Passed(requests, first, i + 1, all) && Scanned(requests, first, base, script, from, i + 1, outIndex)
    ensures Follows(was, Look(all), script, Touched(requests, first, i + 1), LFI_SUCCESS, -LFI_TIMEOUT)
  {
    ghost var between := Look(all);
    outIndex := CollectTurn(requests, first, script, from, i, found, base, all, contexts, waits);
    FollowsOn(was, between, Look(all), script, [BatchAt(script, from + i)], Touched(requests, first, i),
              {requests[Cyclic(first, i, |requests|)]}, LFI_SUCCESS, -LFI_TIMEOUT);
    TouchedNext(requests, first, i);
  }

  /** The result scan: every request is detached, and the first complete one from `first` on is the result. */
  method Collect(requests: seq<Request>, first: nat, script: seq<Batch>, from: nat, ghost base: set<Request>,
                 ghost all: set<Request>, ghost contexts: set<Context>, ghost waits: set<WaitStruct>)
      returns (outIndex: int)
    requires first < |requests| && Done(all) == CompleteAt(base, script, from)
    requires Closed(all, contexts, waits) && OnlyOf(script, all) && Members(requests) <= all
    modifies all, contexts, waits
    ensures Closed(all, contexts, waits) && Done(all) == CompleteAt(base, script, from + |requests|)
    ensures forall j :: 0 <= j < |requests| ==> Detached(requests[j])
    ensures Scanned(requests, first, base, script, from, |requests|, outIndex)
    ensures Follows(old(Look(all)), Look(all), script, Members(requests), LFI_SUCCESS, -LFI_TIMEOUT)
  {
    ghost var was := Look(all);
    FollowsItself(was, script, LFI_SUCCESS, -LFI_TIMEOUT);
    TouchedAll(requests, first);
    outIndex := -1;
    var i := 0;
    while i < |requests|
      invariant i <= |requests| && Closed(all, contexts, waits) && Done(all) == CompleteAt(base, script, from + i)
      invariant Passed(requests, first, i, all) && Scanned(requests, first, base, script, from, i, outIndex)
      invariant Follows(was, Look(all), script, Touched(requests, first, i), LFI_SUCCESS, -LFI_TIMEOUT)
    {
      outIndex := CollectNext(requests, first, script, from, i, outIndex, base, was, all, contexts, waits);
      i := i + 1;
    }
    assert forall j :: 0 <= j < |requests| ==> Turn(first, j, |requests|) < |requests|;
  }

  lemma OneAtATurn(first: nat, index: nat, n: nat)
    requires first < n && index < n
    ensures forall j :: 0 <= j < n && Turn(first, j, n) == Turn(first, index, n) ==> j == index
  {
    forall j | 0 <= j < n && Turn(first, j, n) == Turn(first, index, n) ensures j == index {
      assert Cyclic(first, Turn(first, j, n), n) == j;
    }
  }

  /** The clock of a timed call expires in one of the first `k` batches. */
  ghost predicate Expires(script: seq<Batch>, timed: bool, k: nat) {
    timed && exists j :: 0 <= j < k && j < |script| && script[j].expired
  }

  /** The request is complete at the start, or completes in a batch no later than the first expired one. */
  ghost predicate InTime(request: Request, base: set<Request>, script: seq<Batch>, timed: bool) {
    || request in base
    || exists k: nat :: k < |script| && !Expires(script, timed, k) && request in CompleteAt(base, script, k + 1)
  }

  /** A batch in which the clock of a timed call expires leaves the request incomplete. */
  ghost predicate Late(request: Request, base: set<Request>, script: seq<Batch>, timed: bool) {
    timed && exists k: nat :: k < |script| && script[k].expired && request !in CompleteAt(base, script, k + 1)
  }

  /** Neither does the clock expire nor is the request complete in the end. */
  ghost predicate Never(request: Request, base: set<Request>, script: seq<Batch>, timed: bool) {
    !Expires(script, timed, |script|) && request !in CompleteAt(base, script, |script|)
  }

  lemma StaysComplete(request: Request, base: set<Request>, script: seq<Batch>, k: nat, m: nat)
    requires k <= m && request in CompleteAt(base, script, k)
    ensures request in CompleteAt(base, script, m)
  {
    MoreComplete(base, script, k, m);
  }

  lemma StaysLate(request: Request, base: set<Request>, script: seq<Batch>, timed: bool, k: nat)
    requires k < |script| && timed && script[k].expired && !Expires(script, timed, k)
    requires request !in CompleteAt(base, script, k + 1)
    ensures Late(request, base, script, timed) && !InTime(request, base, script, timed)
    ensures !Never(request, base, script, timed)
  {
    forall m: nat | m < |script| && !Expires(script, timed, m) ensures request !in CompleteAt(base, script, m + 1) {
      if request in CompleteAt(base, script, m + 1) {
        StaysComplete(request, base, script, m + 1, k + 1);
      }
    }
  }

  lemma StaysInTime(request: Request, base: set<Request>, script: seq<Batch>, timed: bool, k: nat)
    requires k <= |script| && request in CompleteAt(base, script, k) && (k > 0 ==> !Expires(script, timed, k - 1))
    ensures InTime(request, base, script, timed) && !Late(request, base, script, timed)
    ensures !Never(request, base, script, timed)
  {
    StaysComplete(request, base, script, k, |script|);
    forall m: nat | timed && m < |script| && script[m].expired ensures request in CompleteAt(base, script, m + 1) {
      assert k > 0 ==> m >= k - 1;
      StaysComplete(request, base, script, k, m + 1);
    }
  }

  lemma StaysPending(request: Request, base: set<Request>, script: seq<Batch>, timed: bool)
    requires request !in CompleteAt(base, script, |script|) && !Expires(script, timed, |script|)
    ensures Never(request, base, script, timed) && !InTime(request, base, script, timed)
    ensures !Late(request, base, script, timed)
  {
    forall m: nat | m < |script| && !Expires(script, timed, m) ensures request !in CompleteAt(base, script, m + 1) {
      if request in CompleteAt(base, script, m + 1) {
        StaysComplete(request, base, script, m + 1, |script|);
      }
    }
  }

  /** What a wait for one request leaves: its error is set only by a completion or by the timeout that is reported. */
  ghost predicate WaitEnds(before: map<Request, Outlook>, after: map<Request, Outlook>, script: seq<Batch>,
                           request: Request, timedOut: bool) {
    && before.Keys == after.Keys
    && forall r :: r in after ==>
         if before[r].complete then after[r] == before[r]
         else if after[r].complete then Given(script, r, after[r].error)
         else after[r].error == if r == request && timedOut then -LFI_TIMEOUT else before[r].error
  }

  lemma LoopEnds(s: map<Request, Outlook>, t: map<Request, Outlook>, script: seq<Batch>, request: Request)
    requires Follows(s, t, script, {}, 0, 1)
    ensures WaitEnds(s, t, script, request, false)
    ensures request in t && !t[request].complete ==>
      WaitEnds(s, t[request := Outlook(false, -LFI_TIMEOUT)], script, request, true)
  {
    assert forall r :: r in t ==> FollowsAt(s, t, script, {}, 0, 1, r);
  }

  /** The loop of the wait: up to the batch after which the request is complete or the clock has expired, or all. */
  method WaitLoop(request: Request, timed: bool, script: seq<Batch>, ghost all: set<Request>,
                  ghost contexts: set<Context>, ghost waits: set<WaitStruct>) returns (k: nat, isTimeout: bool)
    requires Closed(all, contexts, waits) && OnlyOf(script, all) && request in all
    modifies all, contexts, waits
    ensures Closed(all, contexts, waits) && request.sharedWait == old(request.sharedWait)
    ensures k <= |script| && Done(all) == CompleteAt(old(Done(all)), script, k)
    ensures isTimeout <==> timed && k > 0 && script[k - 1].expired
    ensures k > 0 ==> !Expires(script, timed, k - 1)
    ensures !request.Completed() && !isTimeout ==> k == |script|
    ensures Follows(old(Look(all)), Look(all), script, {}, 0, 1)
  {
    ghost var was := Look(all);
    FollowsItself(was, script, 0, 1);
    k, isTimeout := 0, false;
    while !request.Completed() && !isTimeout && k < |script|
      invariant Closed(all, contexts, waits) && request.sharedWait == old(request.sharedWait)
      invariant k <= |script| && Done(all) == CompleteAt(old(Done(all)), script, k)
      invariant isTimeout <==> timed && k > 0 && script[k - 1].expired
      invariant k > 0 ==> !Expires(script, timed, k - 1)
      invariant Follows(was, Look(all), script, {}, 0, 1)
      decreases |script| - k
    {
      ghost var between := Look(all);
      Interfere(script[k], all, contexts, waits);
      FollowsOn(was, between, Look(all), script, [script[k]], {}, {}, 0, 1);
      isTimeout := timed && script[k].expired;
      k := k + 1;
    }
  }

  /**
   * Waiting for one request: success if it is complete at the start or completes no later than the clock of a timed
   * call expires, a timeout if the clock expires first, and blocked if neither happens.
   */
  method Wait(request: Request, timed: bool, script: seq<Batch>, ghost all: set<Request>, ghost contexts: set<Context>,
              ghost waits: set<WaitStruct>) returns (result: WaitResult)
    requires Closed(all, contexts, waits) && OnlyOf(script, all) && request in all
    modifies all, contexts, waits
    ensures Closed(all, contexts, waits) && request.sharedWait == old(request.sharedWait)
    ensures result in {Returned(LFI_SUCCESS), Returned(-LFI_TIMEOUT), Blocked}
    ensures request.Completed() <==> result == Returned(LFI_SUCCESS)
    ensures result == Returned(LFI_SUCCESS) <==> InTime(request, old(Done(all)), script, timed)
    ensures result == Returned(-LFI_TIMEOUT) <==> Late(request, old(Done(all)), script, timed)
    ensures result == Blocked <==> Never(request, old(Done(all)), script, timed)
    ensures WaitEnds(old(Look(all)), Look(all), script, request, result == Returned(-LFI_TIMEOUT))
  {
    ghost var base, was := Done(all), Look(all);
    var k, isTimeout := WaitLoop(request, timed, script, all, contexts, waits);
    assert request in Done(all) <==> request.Completed();
    ghost var between := Look(all);
    LoopEnds(was, between, script, request);
    if request.Completed() {
      StaysInTime(request, base, script, timed, k);
      return Returned(LFI_SUCCESS);
    }
    if isTimeout {
      StaysLate(request, base, script, timed, k - 1);
      request.error := -LFI_TIMEOUT;
      assert Look(all) == between[request := Outlook(false, -LFI_TIMEOUT)];
      return Returned(-LFI_TIMEOUT);
    }
    StaysPending(request, base, script, timed);
    return Blocked;
  }

  /** The stack-allocated structure is set up and waited on; it is the one that `structs` adds to `waits`. */
  method AttachAndAwait(requests: seq<Request>, howMany: int, timed: bool, script: seq<Batch>, ghost all: set<Request>,
                        ghost contexts: set<Context>, ghost waits: set<WaitStruct>)
      returns (e: Exit, ghost structs: set<WaitStruct>)
    requires Closed(all, contexts, waits) && OnlyOf(script, all) && Waitable(requests, all)
    modifies all, contexts, waits
    ensures Closed(all, contexts, structs) && waits <= structs && fresh(structs - waits)
    ensures e == ExitFrom(old(Done(all)), script, Members(requests), howMany, timed, |requests|)
    ensures e.Stuck? ==> |Done(Members(requests))| < howMany
    ensures e.Left? ==> Done(all) == CompleteAt(old(Done(all)), script, e.k)
    ensures e.Left? && !e.timeout ==> Reached(old(Done(all)), script, Members(requests), howMany, e.k)
    ensures Follows(old(Look(all)), Look(all), script, Members(requests), -LFI_TIMEOUT, LFI_SUCCESS)
  {
    ghost var was, base, members := Look(all), Done(all), Members(requests);
    var shared := new WaitStruct(howMany);
    structs := waits + {shared};
    assert Attached(all, shared) == {};
    Attach(requests, shared, script, all, contexts, structs);
    ghost var between := Look(all);
    LeftToCount(shared, members, howMany, all);
    if shared.waitCount <= 0 {
      return Left(|requests|, false), structs;
    }
    var k, isTimeout, blocked := AwaitCount(shared, timed, script, |requests|, members, howMany, base, all, contexts,
                                            structs);
    ReachedIsDone(members, howMany, base, script, k, all);
    FollowsAnyMark(between, Look(all), script, -LFI_TIMEOUT, LFI_SUCCESS);
    FollowsOn(was, between, Look(all), script, script, members, {}, -LFI_TIMEOUT, LFI_SUCCESS);
    assert members + {} == members;
    e := if blocked then Stuck else Left(k, isTimeout);
  }

  lemma {:induction false} ExitMeans(base: set<Request>, script: seq<Batch>, members: set<Request>, howMany: int,
                                     timed: bool, k: nat)
    ensures
      var e := ExitFrom(base, script, members, howMany, timed, k);
      && (e.Left? && !e.timeout ==> k <= e.k && howMany <= |members * CompleteAt(base, script, e.k)|)
      && (e.Left? && e.timeout ==> timed)
      && (e.Stuck? ==> |members * CompleteAt(base, script, if k < |script| then |script| else k)| < howMany)
    decreases |script| - k
  {
    if !Reached(base, script, members, howMany, k) && k < |script| && !(timed && script[k].expired) {
      ExitMeans(base, script, members, howMany, timed, k + 1);
    }
  }

  /**
   * The waiting for several requests, that begins after `k` batches, leaves after `m` batches without a timeout if and
   * only if these are the first after which enough are complete and the clock has not expired before.
   */
  lemma {:induction false} LeavesInTimeIff(base: set<Request>, script: seq<Batch>, members: set<Request>, howMany: int,
                                           timed: bool, k: nat, m: nat)
    ensures ExitFrom(base, script, members, howMany, timed, k) == Left(m, false) <==>
      && k <= m && (k == m || m <= |script|) && Reached(base, script, members, howMany, m)
      && (forall j :: k <= j < m ==> !Reached(base, script, members, howMany, j) && !(timed && script[j].expired))
    decreases |script| - k
  {
    if !Reached(base, script, members, howMany, k) && k < |script| && !(timed && script[k].expired) {
      LeavesInTimeIff(base, script, members, howMany, timed, k + 1, m);
    } else if k < m <= |script| {
      assert Reached(base, script, members, howMany, k) || (timed && script[k].expired);
    }
  }

  /** It leaves with a timeout if and only if the clock first expires in the last of these and too few were complete. */
  lemma {:induction false} LeavesLateIff(base: set<Request>, script: seq<Batch>, members: set<Request>, howMany: int,
                                         timed: bool, k: nat, m: nat)
    ensures ExitFrom(base, script, members, howMany, timed, k) == Left(m, true) <==>
      && timed && k < m <= |script| && script[m - 1].expired
      && (forall j :: k <= j < m ==> !Reached(base, script, members, howMany, j))
      && (forall j :: k <= j < m - 1 ==> !script[j].expired)
    decreases |script| - k
  {
    if !Reached(base, script, members, howMany, k) && k < |script| && !(timed && script[k].expired) {
      LeavesLateIff(base, script, members, howMany, timed, k + 1, m);
    }
  }

  /** It is stuck if and only if never enough are complete and the clock does not expire. */
  lemma {:induction false} StuckIff(base: set<Request>, script: seq<Batch>, members: set<Request>, howMany: int,
                                    timed: bool, k: nat)
    ensures ExitFrom(base, script, members, howMany, timed, k) == Stuck <==>
      && !Reached(base, script, members, howMany, k)
      && (forall j :: k <= j <= |script| ==> !Reached(base, script, members, howMany, j))
      && (forall j :: k <= j < |script| ==> !(timed && script[j].expired))
    decreases |script| - k
  {
    if !Reached(base, script, members, howMany, k) && k < |script| && !(timed && script[k].expired) {
      StuckIff(base, script, members, howMany, timed, k + 1);
    }
  }

  lemma StaysReached(base: set<Request>, script: seq<Batch>, members: set<Request>, howMany: int, k: nat, m: nat)
    requires k <= m && Reached(base, script, members, howMany, k)
    ensures Reached(base, script, members, howMany, m)
  {
    MoreComplete(base, script, k, m);
    SubsetSize(members * CompleteAt(base, script, k), members * CompleteAt(base, script, m));
  }

  /** Whether the count is reached can be read off the requests themselves. */
  lemma ReachedIsDone(members: set<Request>, howMany: int, base: set<Request>, script: seq<Batch>, k: nat,
                      all: set<Request>)
    requires members <= all && Done(all) == CompleteAt(base, script, k)
    ensures Reached(base, script, members, howMany, k) <==> howMany <= |Done(members)|
  {
    assert Done(members) == members * Done(all);
  }

  lemma OneIsComplete(requests: seq<Request>, howMany: int, base: set<Request>, script: seq<Batch>, k: nat)
      returns (j: nat)
    requires 0 < howMany && Reached(base, script, Members(requests), howMany, k)
    ensures j < |requests| && requests[j] in CompleteAt(base, script, k)
  {
    var complete := Members(requests) * CompleteAt(base, script, k);
    assert complete != {};
    var r :| r in complete;
    j :| 0 <= j < |requests| && requests[j] == r;
  }

  /** A scan that begins when enough requests are complete finds one. */
  lemma ScanFinds(requests: seq<Request>, howMany: int, base: set<Request>, script: seq<Batch>, k: nat, first: nat,
                  outIndex: int)
    requires 0 < howMany && first < |requests| && Reached(base, script, Members(requests), howMany, k)
    requires Scanned(requests, first, base, script, k, |requests|, outIndex)
    ensures 0 <= outIndex < |requests| && requests[outIndex] in CompleteAt(base, script, k + |requests|)
  {
    var n := |requests|;
    var j := OneIsComplete(requests, howMany, base, script, k);
    MoreComplete(base, script, k, k + Turn(first, j, n) + 1);
    assert outIndex != -1;
    MoreComplete(base, script, k + Turn(first, outIndex, n) + 1, k + n);
  }

  /** What a call on several requests returns after the waiting has ended, from the counter at its start. */
  ghost predicate OutcomeOf(e: Exit, requests: seq<Request>, counter: nat, base: set<Request>, script: seq<Batch>,
                            result: WaitResult)
    requires requests != []
  {
    match e
    case Stuck => result == Blocked
    case Left(k, true) => result == Returned(-LFI_TIMEOUT)
    case Left(k, false) =>
      && result.Returned? && 0 <= result.code < |requests|
      && FirstComplete(requests, counter % |requests|, result.code, base, script, k)
  }

  /** What the call returns, from the counter and the completed requests at its start. */
  ghost predicate Outcome(requests: seq<Request>, howMany: int, timed: bool, script: seq<Batch>, counter: nat,
                          base: set<Request>, result: WaitResult)
    requires requests != []
  {
    var e := ExitFrom(base, script, Members(requests), howMany, timed, |requests|);
    OutcomeOf(e, requests, counter, base, script, result)
  }

  /**
   * What a call on several requests leaves of a request that was complete or not and had an error before: a complete
   * request keeps the error it was completed with, and the call's own requests that are not complete are marked as
   * timed out unless they carry another error; a call that blocks has only taken that mark off them.
   */
  ghost predicate Ends(before: Outlook, after: Outlook, r: Request, script: seq<Batch>, own: bool, blocked: bool) {
    if before.complete then after == before
    else if after.complete then Given(script, r, after.error)
    else if !own || before.error !in {LFI_SUCCESS, -LFI_TIMEOUT} then after.error == before.error
    else after.error == if blocked then LFI_SUCCESS else -LFI_TIMEOUT
  }

  ghost predicate AllEnd(before: map<Request, Outlook>, after: map<Request, Outlook>, script: seq<Batch>,
                         members: set<Request>, blocked: bool) {
    before.Keys == after.Keys && forall r :: r in after ==> Ends(before[r], after[r], r, script, r in members, blocked)
  }

  lemma BlockedEnds(s: map<Request, Outlook>, t: map<Request, Outlook>, script: seq<Batch>, members: set<Request>)
    requires Follows(s, t, script, members, -LFI_TIMEOUT, LFI_SUCCESS)
    ensures AllEnd(s, t, script, members, true)
  {
    forall r | r in t ensures Ends(s[r], t[r], r, script, r in members, true) {
      assert FollowsAt(s, t, script, members, -LFI_TIMEOUT, LFI_SUCCESS, r);
    }
  }

  lemma ReturnedEnds(s: map<Request, Outlook>, t: map<Request, Outlook>, u: map<Request, Outlook>, script: seq<Batch>,
                     members: set<Request>)
    requires Follows(s, t, script, members, -LFI_TIMEOUT, LFI_SUCCESS)
    requires Follows(t, u, script, members, LFI_SUCCESS, -LFI_TIMEOUT)
    ensures AllEnd(s, u, script, members, false)
  {
    forall r | r in u ensures Ends(s[r], u[r], r, script, r in members, false) {
      assert FollowsAt(s, t, script, members, -LFI_TIMEOUT, LFI_SUCCESS, r);
      assert FollowsAt(t, u, script, members, LFI_SUCCESS, -LFI_TIMEOUT, r);
    }
  }

  /** From the end of the waiting to the result. */
  lemma FinishMeans(requests: seq<Request>, howMany: int, base: set<Request>, script: seq<Batch>, k: nat, first: nat,
                    outIndex: int, all: set<Request>)
    requires 0 < howMany && first < |requests| && Reached(base, script, Members(requests), howMany, k)
    requires Scanned(requests, first, base, script, k, |requests|, outIndex)
    requires Members(requests) <= all && Done(all) == CompleteAt(base, script, k + |requests|)
    ensures 0 <= outIndex < |requests| && requests[outIndex].Completed() && howMany <= |Done(Members(requests))|
  {
    ScanFinds(requests, howMany, base, script, k, first, outIndex);
    StaysReached(base, script, Members(requests), howMany, k, k + |requests|);
    ReachedIsDone(Members(requests), howMany, base, script, k + |requests|, all);
  }

  method Finish(requests: seq<Request>, ticket: nat, script: seq<Batch>, e: Exit, ghost howMany: int,
                ghost base: set<Request>, ghost all: set<Request>, ghost contexts: set<Context>,
                ghost waits: set<WaitStruct>) returns (result: WaitResult)
    requires requests != [] && 0 < howMany && e.Left? && Done(all) == CompleteAt(base, script, e.k)
    requires Closed(all, contexts, waits) && OnlyOf(script, all) && Members(requests) <= all
    requires !e.timeout ==> Reached(base, script, Members(requests), howMany, e.k)
    modifies all, contexts, waits
    ensures OutcomeOf(e, requests, ticket, base, script, result) && result.Returned?
    ensures forall j :: 0 <= j < |requests| ==> requests[j].sharedWait == null
    ensures result.code >= 0 ==>
      result.code < |requests| && requests[result.code].Completed() && howMany <= |Done(Members(requests))|
    ensures Follows(old(Look(all)), Look(all), script, Members(requests), LFI_SUCCESS, -LFI_TIMEOUT)
  {
    var first := ticket % |requests|;
    var outIndex := Collect(requests, first, script, e.k, base, all, contexts, waits);
    result := Returned(if e.timeout then -LFI_TIMEOUT else outIndex);
    if !e.timeout {
      FinishMeans(requests, howMany, base, script, e.k, first, outIndex, all);
    }
  }

  /** The rotating start is drawn when the waiting has ended. */
  method Conclude(requests: seq<Request>, counter: LinearCounter, script: seq<Batch>, e: Exit, ghost howMany: int,
                  ghost base: set<Request>, ghost all: set<Request>, ghost contexts: set<Context>,
                  ghost waits: set<WaitStruct>) returns (result: WaitResult)
    requires requests != [] && 0 < howMany && e.Left? && Done(all) == CompleteAt(base, script, e.k)
    requires Closed(all, contexts, waits) && OnlyOf(script, all) && Members(requests) <= all
    requires !e.timeout ==> Reached(base, script, Members(requests), howMany, e.k)
    modifies all, contexts, waits, counter
    ensures OutcomeOf(e, requests, old(counter.value), base, script, result) && result.Returned?
    ensures counter.value == (old(counter.value) + 1) % 0x1_0000_0000
    ensures forall j :: 0 <= j < |requests| ==> requests[j].sharedWait == null
    ensures result.code >= 0 ==>
      result.code < |requests| && requests[result.code].Completed() && howMany <= |Done(Members(requests))|
    ensures Follows(old(Look(all)), Look(all), script, Members(requests), LFI_SUCCESS, -LFI_TIMEOUT)
  {
    var ticket := counter.Next();
    result := Finish(requests, ticket, script, e, howMany, base, all, contexts, waits);
  }

  /**
   * Waiting for `howMany` of several requests. The result is determined by what happens: it blocks if what is recorded
   * never reaches the count, reports a timeout if the clock expires in a turn of the waiting loop, and otherwise is the
   * first complete request in cyclic order from the rotating start.
   */
  method WaitShared(requests: seq<Request>, howMany: int, timed: bool, script: seq<Batch>, counter: LinearCounter,
                    ghost all: set<Request>, ghost contexts: set<Context>, ghost waits: set<WaitStruct>)
      returns (result: WaitResult)
    requires Closed(all, contexts, waits) && OnlyOf(script, all) && Waitable(requests, all)
    requires 0 < howMany <= |requests|
    modifies all, contexts, waits, counter
    ensures Outcome(requests, howMany, timed, script, old(counter.value), old(Done(all)), result)
    ensures counter.value == if result == Blocked then old(counter.value) else (old(counter.value) + 1) % 0x1_0000_0000
    ensures result != Blocked ==> forall j :: 0 <= j < |requests| ==> requests[j].sharedWait == null
    ensures result == Blocked ==> |Done(Members(requests))| < howMany
    ensures result.Returned? && result.code >= 0 ==>
      requests[result.code].Completed() && howMany <= |Done(Members(requests))|
    ensures AllEnd(old(Look(all)), Look(all), script, Members(requests), result == Blocked)
  {
    ghost var base, was := Done(all), Look(all);
    var e;
    ghost var structs;
    e, structs := AttachAndAwait(requests, howMany, timed, script, all, contexts, waits);
    ghost var between := Look(all);
    if e.Stuck? {
      BlockedEnds(was, between, script, Members(requests));
      return Blocked;
    }
    result := Conclude(requests, counter, script, e, howMany, base, all, contexts, structs);
    ReturnedEnds(was, between, Look(all), script, Members(requests));
  }

  /**
   * The whole call: the arguments are checked, a single request is waited for directly, and otherwise the shared count
   * is used.
   */
  method WaitNum(requests: seq<Request>, howMany: int, timed: bool, script: seq<Batch>, counter: LinearCounter,
                 ghost all: set<Request>, ghost contexts: set<Context>, ghost waits: set<WaitStruct>)
      returns (result: WaitResult)
    requires Closed(all, contexts, waits) && OnlyOf(script, all) && Waitable(requests, all)
    modifies all, contexts, waits, counter
    ensures howMany > |requests| || howMany <= 0 || requests == [] <==> result == Returned(-1)
    ensures result != Blocked ==> forall j :: 0 <= j < |requests| ==> requests[j].sharedWait == null
    ensures result == Blocked ==> |Done(Members(requests))| < howMany
    ensures result.Returned? ==> result.code in {-1, -LFI_TIMEOUT} || 0 <= result.code < |requests|
    ensures result == Returned(-LFI_TIMEOUT) ==> timed
    ensures result.Returned? && result.code >= 0 ==>
      requests[result.code].Completed() && howMany <= |Done(Members(requests))|
    ensures 0 < howMany <= |requests| && |requests| > 1 ==>
      && Outcome(requests, howMany, timed, script, old(counter.value), old(Done(all)), result)
      && counter.value == if result == Blocked then old(counter.value) else (old(counter.value) + 1) % 0x1_0000_0000
    ensures result == Returned(-1) || |requests| == 1 ==> counter.value == old(counter.value)
    ensures howMany == 1 == |requests| ==>
      && (result == Returned(LFI_SUCCESS) <==> InTime(requests[0], old(Done(all)), script, timed))
      && (result == Returned(-LFI_TIMEOUT) <==> Late(requests[0], old(Done(all)), script, timed))
      && (result == Blocked <==> Never(requests[0], old(Done(all)), script, timed))
      && WaitEnds(old(Look(all)), Look(all), script, requests[0], result == Returned(-LFI_TIMEOUT))
    ensures 0 < howMany <= |requests| && |requests| > 1 ==>
      AllEnd(old(Look(all)), Look(all), script, Members(requests), result == Blocked)
  {
    if howMany > |requests| || howMany <= 0 || |requests| == 0 {
      return Returned(-1);
    }
    if howMany == 1 && |requests| == 1 {
      assert requests[0] in requests && Members(requests) == {requests[0]};
      result := Wait(requests[0], timed, script, all, contexts, waits);
      assert requests[0].Completed() ==> Done(Members(requests)) == {requests[0]};
      return;
    }
    result := WaitShared(requests, howMany, timed, script, counter, all, contexts, waits);
    ExitMeans(old(Done(all)), script, Members(requests), howMany, timed, |requests|);
  }
}
