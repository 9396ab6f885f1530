/**
 * An endpoint as the heap of objects the code keeps: request and context objects pointing at each other, the context
 * pool and the two circular queues. Every method does to this heap what the state machine of `Lifecycle` does to
 * values: a heap that matches an abstract state before the call matches the stepped abstract state after it.
 */
module Endpoints {
  import opened Common
  import opened Delivery
  import opened Lifecycle
  import opened Requests
  import opened VectorQueues

  type HeapState = State<Request, Context?>

  type HeapWorld = World<Request, Context?>

  type HeapAct = Act<Request, Context?>

  predicate NoneSubmits(acts: seq<HeapAct>) {
    forall i :: 0 <= i < |acts| ==> acts[i].Doing? ==> !acts[i].e.Submit?
  }

  /** The call of erase_if that cancel makes on each queue. */
  method EraseContext(queue: VectorQueue<Op<Context?>>, c: Context, ghost known: set<Context>)
    requires queue.Valid() && forall op :: op in queue.Contents() ==> op.context in known
    modifies queue, queue.buffer
    ensures queue.Valid() && queue.buffer == old(queue.buffer)
    ensures queue.Contents() == Erase(old(queue.Contents()), c)
    ensures forall op :: op in queue.Contents() ==> op.context in known
  {
    var drop := (op: Op<Context?>) => op.context == c;
    EraseByPredicate(queue.Contents(), c, drop);
    ghost var was := queue.Contents();
    queue.EraseIf(drop);
    forall i | 0 <= i < |Keep(was, drop)| ensures Keep(was, drop)[i] in was {
      var k := KeepOrigin(was, drop, i);
    }
  }

  class Endpoint {
    const priorityOps: VectorQueue<Op<Context?>>
    const pendingOps: VectorQueue<Op<Context?>>
    const factory: ContextFactory
    /** Numbers the submissions; the source has no such counter, and nothing it does depends on it. */
    var nextTicket: nat
    /** The local variables of the thread that delivers an entry. */
    var reading: Option<Reading<Request, Context?>>
    ghost var requests: set<Request>
    ghost var contexts: set<Context>
    /** The structures of the wait calls in progress. */
    ghost var waits: set<WaitStruct>

    ghost predicate QueuesValid()
      reads `contexts, priorityOps, pendingOps, priorityOps.buffer, pendingOps.buffer
    {
      && priorityOps != pendingOps && priorityOps.buffer != pendingOps.buffer
      && priorityOps.Valid() && pendingOps.Valid()
      && (forall op :: op in priorityOps.Contents() ==> op.context in contexts)
      && (forall op :: op in pendingOps.Contents() ==> op.context in contexts)
    }

    ghost predicate Linked()
      reads `requests, `contexts, `waits, requests, contexts, factory
    {
      && (forall r :: r in requests && r.waitContext != null ==> r.waitContext in contexts)
      && (forall r :: r in requests && r.sharedWait != null ==> r.sharedWait in waits)
      && (forall c :: c in contexts && c.request != null ==> c.request in requests)
      && (forall c :: c in factory.queue ==> c in contexts)
    }

    ghost predicate Valid()
      reads `requests, `contexts, `waits, requests, contexts, factory
      reads priorityOps, pendingOps, priorityOps.buffer, pendingOps.buffer
    {
      QueuesValid() && Linked()
    }

    ghost function OwnerOf(c: Context): Option<Request>
      reads c
    {
      if c.request == null then None else Some(c.request)
    }

    ghost function RequestMap(): map<Request, RequestState<Context?>>
      reads `requests, requests
    {
      map r | r in requests :: r.View()
    }

    ghost function OwnerMap(): map<Context?, Option<Request>>
      reads `contexts, contexts
    {
      map c | c in contexts :: OwnerOf(c)
    }

    /** The objects agree with the abstract state. */
    ghost predicate ObjectsMatch(s: HeapState)
      reads `requests, `contexts, requests, contexts, factory
    {
      s.requests == RequestMap() && s.owner == OwnerMap() && s.pool == factory.queue
    }

    ghost predicate QueuesMatch(s: HeapState)
      reads `contexts, priorityOps, pendingOps, priorityOps.buffer, pendingOps.buffer
      requires QueuesValid()
    {
      s.priority.ops == priorityOps.Contents() && s.normal.ops == pendingOps.Contents()
    }

    ghost predicate Matches(s: HeapState)
      reads this, requests, contexts, factory, priorityOps, pendingOps, priorityOps.buffer, pendingOps.buffer
    {
      Valid() && ObjectsMatch(s) && QueuesMatch(s) && s.nextTicket == nextTicket
    }

    ghost predicate MatchesWorld(w: HeapWorld)
      reads this, requests, contexts, factory, priorityOps, pendingOps, priorityOps.buffer, pendingOps.buffer
    {
      Matches(w.base) && reading == w.reading
    }

    constructor ()
      ensures MatchesWorld(Start(map[]))
    {
      priorityOps := new VectorQueue(64);
      pendingOps := new VectorQueue(64);
      factory := new ContextFactory();
      requests, contexts, waits, nextTicket, reading := {}, {}, {}, 0, None;
    }

    /** A new request of the endpoint, with no operation outstanding. */
    method NewRequest(commId: nat, ghost s: HeapState) returns (r: Request)
      requires Matches(s)
      modifies this`requests
      ensures fresh(r) && r.commId == commId && requests == old(requests) + {r} && r !in s.requests
      ensures
        var rs := RequestState(None, NONE, 0, 0, UNINITIALIZED_COMM, LFI_SUCCESS, 0);
        Matches(s.(requests := s.requests[r := rs]))
    {
      r := new Request(commId);
      requests := requests + {r};
      assert RequestMap() == old(RequestMap())[r := r.View()];
    }

    // ----- completions -----

    method CompleteFields(r: Request, err: int)
      requires Linked() && r in requests && r.waitContext != null
      modifies r, r.waitContext, r.sharedWait
      ensures Linked()
      ensures RequestMap() == old(RequestMap())[r := old(r.View()).(context := None, error := err)]
      ensures OwnerMap() == old(OwnerMap())[old(r.waitContext) := None]
    {
      r.Complete(err);
    }

    method Complete(r: Request, err: int, ghost s: HeapState)
      requires Matches(s) && r in requests
      modifies r, r.waitContext, r.sharedWait
      ensures Matches(CompleteRequest(s, r, err))
    {
      if r.waitContext != null {
        CompleteFields(r, err);
      }
    }

    /** Completing whatever request the context is assigned to. */
    method CompleteAssigned(c: Context, err: int, ghost s: HeapState)
      requires Matches(s) && c in contexts
      modifies requests, contexts, waits
      ensures Matches(CompleteOwner(s, c, err))
    {
      if c.request != null {
        Complete(c.request, err, s);
      }
    }

    method SetReceived(r: Request, len: nat, tag: nat, source: nat)
      requires Linked() && r in requests
      modifies r
      ensures Linked() && OwnerMap() == old(OwnerMap())
      ensures RequestMap() == old(RequestMap())[r := old(r.View()).(size := len, tag := tag, source := source)]
    {
      r.size, r.tag, r.source := len, tag, source;
    }

    method Recirculate(c: Context, ghost s: HeapState)
      requires Matches(s) && c in contexts
      modifies c, factory
      ensures Matches(Recycle(s, c))
    {
      factory.Destroy(c);
      assert OwnerMap() == old(OwnerMap())[c := None];
    }

    /** The request is fetched. */
    method FetchEntry(c: Context, report: Report, ghost w: HeapWorld)
      requires MatchesWorld(w) && CanAct(w, HeapAct.Fetch(c, report))
      modifies `reading
      ensures MatchesWorld(Do(w, HeapAct.Fetch(c, report)))
    {
      var request: Option<Request> := if c.request == null then None else Some(c.request);
      var k: Reading<Request, Context?> := Reading(c, report, request, Fetched);
      reading := Some(k);
      assert reading.value.request == w.base.owner[c];
    }

    method FillFields(request: Request, report: Report, ghost s: HeapState)
      requires Matches(s) && request in requests && report.Done?
      modifies request
      ensures Matches(FillRequest(s, request, report))
    {
      if request.opType.RECV? {
        SetReceived(request, report.len, report.tag, report.source);
      }
    }

    /** A received message is filled in, whatever has become of the request. */
    method FillEntry(ghost w: HeapWorld)
      requires MatchesWorld(w) && CanAct(w, HeapAct.FillIn)
      modifies `reading, requests
      ensures MatchesWorld(Do(w, HeapAct.FillIn))
    {
      var k := reading.value;
      FillFields(k.request.value, k.report, w.base);
      reading := Some(k.(stage := Filled));
    }

    method FinishEntry(ghost w: HeapWorld)
      requires MatchesWorld(w) && CanAct(w, HeapAct.Finish)
      modifies `reading, requests, contexts, waits
      ensures MatchesWorld(Do(w, HeapAct.Finish))
    {
      var k := reading.value;
      Complete(k.request.value, Outcome(k.report), w.base);
      reading := Some(k.(stage := Finished));
    }

    method ReleaseEntry(ghost w: HeapWorld)
      requires MatchesWorld(w) && CanAct(w, HeapAct.Release)
      modifies `reading, contexts, factory
      ensures MatchesWorld(Do(w, HeapAct.Release))
    {
      var c := reading.value.context;
      Recirculate(c, w.base.(posted := w.base.posted - {c}));
      reading := None;
    }

    /** The acts between the fetch and the release can be done. */
    ghost predicate CanFinish(w: HeapWorld) {
      && w.reading.Some?
      && (w.reading.value.request.Some? && w.reading.value.report.Done? ==>
            CanAct(w, HeapAct.FillIn) && CanAct(Do(w, HeapAct.FillIn), HeapAct.Finish))
      && (w.reading.value.request.Some? && !w.reading.value.report.Done? ==> CanAct(w, HeapAct.Finish))
    }

    ghost function FinishedWorld(w: HeapWorld): HeapWorld
      requires CanFinish(w)
    {
      if w.reading.value.request.None? then w
      else if w.reading.value.report.Done? then Do(Do(w, HeapAct.FillIn), HeapAct.Finish)
      else Do(w, HeapAct.Finish)
    }

    /** The fetched request, if there is one, is filled in unless the entry is an error, and completed. */
    method FillAndFinish(ghost w: HeapWorld)
      requires MatchesWorld(w) && CanFinish(w)
      modifies `reading, requests, contexts, waits
      ensures MatchesWorld(FinishedWorld(w))
    {
      if reading.value.request.Some? {
        if reading.value.report.Done? {
          FillEntry(w);
          FinishEntry(Do(w, HeapAct.FillIn));
        } else {
          FinishEntry(w);
        }
      }
    }

    /** The ticket that the fabric holds a context for plays no part in reading its entry. */
    lemma ReadForgetsPosted(s: HeapState, c: Context, report: Report)
      requires c in s.owner
      ensures CompletionRead(s.(posted := s.posted[c := 0]), c, report) == CompletionRead(s, c, report)
    {
      assert s.posted[c := 0] - {c} == s.posted - {c};
    }

    /** An undisturbed delivery, with filling and finishing taken together. */
    lemma UndisturbedHalves(s: HeapState, c: Context, report: Report)
      requires c in s.posted && c in s.owner && (s.owner[c].Some? ==> s.owner[c].value in s.requests)
      ensures CanAct(World(s, None), HeapAct.Fetch(c, report))
      ensures
        var f := Do(World(s, None), HeapAct.Fetch(c, report));
        && CanFinish(f) && CanAct(FinishedWorld(f), HeapAct.Release)
        && Do(FinishedWorld(f), HeapAct.Release) == World(CompletionRead(s, c, report), None)
    {
      UndisturbedSteps(s, c, report);
    }

    /** One entry for a context that the fabric holds, when nobody comes in between. */
    method DeliverEntry(c: Context, report: Report, ghost s: HeapState)
      requires Matches(s) && c in contexts && c in s.posted && reading == None
      modifies `reading, requests, contexts, factory, waits
      ensures MatchesWorld(World(CompletionRead(s, c, report), None))
    {
      ghost var w := World(s, None);
      UndisturbedHalves(s, c, report);
      FetchEntry(c, report, w);
      ghost var f := Do(w, HeapAct.Fetch(c, report));
      FillAndFinish(f);
      ReleaseEntry(FinishedWorld(f));
    }

    /** One entry of the completion queue, when nobody comes in between. */
    method HandleCompletion(c: Context, report: Report, ghost s: HeapState)
      requires Matches(s) && c in contexts && reading == None
      modifies `reading, requests, contexts, factory, waits
      ensures Matches(CompletionRead(s, c, report)) && reading == None
    {
      ReadForgetsPosted(s, c, report);
      DeliverEntry(c, report, s.(posted := s.posted[c := 0]));
    }

    // ----- posting -----

    /** The completions that go with the fabric's answer to one operation. */
    method Answer(op: Op<Context?>, code: int, ghost s: HeapState)
      requires Matches(s) && op.context in contexts
      modifies requests, contexts, factory, waits
      ensures Matches(Posted(s, op, code))
    {
      if !op.kind.NoneOp? && code != 0 {
        CompleteAssigned(op.context, -LFI_LIBFABRIC_ERROR, s);
      } else if op.kind.InjectOp? {
        CompleteAssigned(op.context, LFI_SUCCESS, s);
        Recirculate(op.context, CompleteOwner(s, op.context, LFI_SUCCESS));
      }
    }

    method FrontOp(urgent: bool, ghost s: HeapState) returns (op: Op<Context?>)
      requires Matches(s) && LaneOf(s, urgent).ops != []
      ensures op == LaneOf(s, urgent).ops[0] && op.context in contexts
    {
      if urgent {
        op := priorityOps.Front();
        assert op in priorityOps.Contents();
      } else {
        op := pendingOps.Front();
        assert op in pendingOps.Contents();
      }
    }

    method QueueEmpty(urgent: bool, ghost s: HeapState) returns (b: bool)
      requires Matches(s)
      ensures b <==> LaneOf(s, urgent).ops == []
    {
      if urgent {
        b := priorityOps.Empty();
      } else {
        b := pendingOps.Empty();
      }
    }

    method PopPriority(ghost s: HeapState)
      requires Matches(s) && s.priority.ops != []
      modifies priorityOps
      ensures Matches(PopFront(s, true)) && priorityOps.buffer == old(priorityOps.buffer)
    {
      priorityOps.Pop();
      assert ObjectsMatch(s) && Linked();
    }

    method PopPending(ghost s: HeapState)
      requires Matches(s) && s.normal.ops != []
      modifies pendingOps
      ensures Matches(PopFront(s, false)) && pendingOps.buffer == old(pendingOps.buffer)
    {
      pendingOps.Pop();
      assert ObjectsMatch(s) && Linked();
    }

    method PopQueue(urgent: bool, ghost s: HeapState)
      requires Matches(s) && LaneOf(s, urgent).ops != []
      modifies priorityOps, pendingOps
      ensures Matches(PopFront(s, urgent))
      ensures priorityOps.buffer == old(priorityOps.buffer) && pendingOps.buffer == old(pendingOps.buffer)
    {
      if urgent {
        PopPriority(s);
      } else {
        PopPending(s);
      }
    }

    /** The fabric has taken the operation, which is popped. */
    method Taken(op: Op<Context?>, urgent: bool, code: int, ghost s: HeapState)
      requires Matches(s) && LaneOf(s, urgent).ops != [] && op == LaneOf(s, urgent).ops[0] && op.context in contexts
      requires !Refuses(op.kind, code)
      modifies requests, contexts, factory, waits, priorityOps, pendingOps
      ensures Matches(PostFront(s, urgent, code))
      ensures priorityOps.buffer == old(priorityOps.buffer) && pendingOps.buffer == old(pendingOps.buffer)
    {
      Answer(op, code, s);
      PostedKeepsQueues(s, op, code);
      PopQueue(urgent, Posted(s, op, code));
    }

    /** One turn of the posting loop on a non-empty queue. */
    method PostTurn(urgent: bool, code: int, ghost s: HeapState) returns (again: bool)
      requires Matches(s) && LaneOf(s, urgent).ops != []
      modifies requests, contexts, factory, waits, priorityOps, pendingOps
      ensures Matches(PostFront(s, urgent, code))
      ensures again == Refuses(LaneOf(s, urgent).ops[0].kind, code)
      ensures priorityOps.buffer == old(priorityOps.buffer) && pendingOps.buffer == old(pendingOps.buffer)
    {
      var op := FrontOp(urgent, s);
      again := Refuses(op.kind, code);
      if !again {
        Taken(op, urgent, code, s);
      }
    }

    /** The loop test and one turn, from abstract state `t` with the first `k` answers of the fabric used. */
    method DrainTurn(urgent: bool, fabric: nat -> int, k: nat, ghost t: HeapState)
        returns (done: bool, emptied: bool, used: nat, ghost after: HeapState)
      requires Matches(t)
      modifies requests, contexts, factory, waits, priorityOps, pendingOps
      ensures Matches(after)
      ensures Drain(t, urgent, fabric, k) == if done then (after, emptied, used) else Drain(after, urgent, fabric, used)
      ensures !done ==> |LaneOf(after, urgent).ops| < |LaneOf(t, urgent).ops|
    {
      done, used, after := true, k, t;
      emptied := QueueEmpty(urgent, t);
      if !emptied {
        var again := PostTurn(urgent, fabric(k), t);
        used := k + 1;
        if !again {
          PostShrinks(t, urgent, fabric(k));
          done, after := false, PostFront(t, urgent, fabric(k));
        }
      }
    }

    /** The posting loop on one queue; `fabric(k)` is the fabric's k-th answer. */
    method ProcessQueue(urgent: bool, fabric: nat -> int, first: nat, ghost s: HeapState)
        returns (emptied: bool, k: nat)
      requires Matches(s)
      modifies requests, contexts, factory, waits, priorityOps, pendingOps
      ensures
        var d := Drain(s, urgent, fabric, first);
        Matches(d.0) && emptied == d.1 && k == d.2
    {
      ghost var t := s;
      k, emptied := first, false;
      var done := false;
      while !done
        invariant Matches(t)
        invariant Drain(s, urgent, fabric, first) == if done then (t, emptied, k) else Drain(t, urgent, fabric, k)
        decreases if done then 0 else 1 + |LaneOf(t, urgent).ops|
      {
        done, emptied, k, t := DrainTurn(urgent, fabric, k, t);
      }
    }

    /** Posts the pending operations; the normal queue waits for the priority queue to be empty. */
    method PostPendingOps(fabric: nat -> int, ghost s: HeapState)
      requires Matches(s)
      modifies requests, contexts, factory, waits, priorityOps, pendingOps
      ensures Matches(PostPass(s, fabric))
      ensures
        var before := old(priorityOps.Contents() + pendingOps.Contents());
        var after := priorityOps.Contents() + pendingOps.Contents();
        exists n :: 0 <= n <= |before| && after == before[n..]
          && (forall j :: 0 <= j < n ==> fabric(j) != -FI_EAGAIN || before[j].kind.NoneOp?)
          && (n < |before| ==> fabric(n) == -FI_EAGAIN && !before[n].kind.NoneOp?)
    {
      ghost var n := PassMeans(s, fabric);
      var emptied, k := ProcessQueue(true, fabric, 0, s);
      if emptied {
        var _, _ := ProcessQueue(false, fabric, k, Drain(s, true, fabric, 0).0);
      }
    }

    // ----- submission and cancellation -----

    /** The request fields of a submission, before it has a context. */
    ghost function Prepared(s: HeapState, r: Request, what: Submission): HeapState
      requires r in s.requests
    {
      var d := Detach(s, r);
      d.(requests := d.requests[r :=
        RequestState(None, what.OpType(), what.size, what.Tag(), what.commId, 0, s.nextTicket)])
    }

    method ResetFields(r: Request)
      requires Linked() && r in requests
      modifies r, r.waitContext
      ensures Linked() && r.waitContext == null && r.error == 0
      ensures RequestMap() == old(RequestMap())[r := r.View()]
      ensures old(r.waitContext) == null ==> OwnerMap() == old(OwnerMap())
      ensures old(r.waitContext) != null ==> OwnerMap() == old(OwnerMap())[old(r.waitContext) := None]
    {
      r.Reset();
    }

    method SetFields(r: Request, what: Submission)
      requires Linked() && r in requests && r.waitContext == null
      modifies r
      ensures Linked() && r.waitContext == null && OwnerMap() == old(OwnerMap())
      ensures RequestMap() == old(RequestMap())[r :=
        RequestState(None, what.OpType(), what.size, what.Tag(), what.commId, r.error, nextTicket)]
      ensures r.error == old(r.error)
    {
      r.opType, r.size, r.tag, r.source := what.OpType(), what.size, what.Tag(), what.commId;
      r.ticket := nextTicket;
    }

    method PrepareFields(r: Request, what: Submission)
      requires Linked() && r in requests
      modifies r, r.waitContext
      ensures Linked() && r.waitContext == null
      ensures RequestMap() == old(RequestMap())[r :=
        RequestState(None, what.OpType(), what.size, what.Tag(), what.commId, 0, nextTicket)]
      ensures old(r.waitContext) == null ==> OwnerMap() == old(OwnerMap())
      ensures old(r.waitContext) != null ==> OwnerMap() == old(OwnerMap())[old(r.waitContext) := None]
    {
      ResetFields(r);
      SetFields(r, what);
    }

    method Prepare(r: Request, what: Submission, ghost s: HeapState)
      requires Matches(s) && r in requests
      modifies r, r.waitContext
      ensures Matches(Prepared(s, r, what)) && r.waitContext == null
    {
      PrepareFields(r, what);
    }

    ghost function Attached(s: HeapState, r: Request, c: Context): HeapState
      requires r in s.requests
    {
      s.(requests := s.requests[r := s.requests[r].(context := Some(c))],
         owner := s.owner[c := Some(r)],
         pool := PoolRest(s.pool))
    }

    method AttachFields(r: Request) returns (c: Context)
      requires Linked() && r in requests && r.waitContext == null
      modifies this`contexts, r, factory, contexts
      ensures Linked() && contexts == old(contexts) + {c} && factory.queue == PoolRest(old(factory.queue))
      ensures if old(factory.queue) == [] then fresh(c) else c == old(factory.queue)[|old(factory.queue)| - 1]
      ensures RequestMap() == old(RequestMap())[r := old(r.View()).(context := Some(c))]
      ensures OwnerMap() == old(OwnerMap())[c := Some(r)]
    {
      c := factory.Create(r);
      r.waitContext := c;
      contexts := contexts + {c};
    }

    ghost function PoolRest(pool: seq<Context?>): seq<Context?> {
      if pool == [] then [] else pool[..|pool| - 1]
    }

    /** A pooled or new context is assigned to the request. */
    method Attach(r: Request, ghost s: HeapState) returns (c: Context)
      requires Matches(s) && r in requests && r.waitContext == null
      modifies this`contexts, r, factory, contexts
      ensures c in contexts && Matches(Attached(s, r, c))
      ensures if s.pool == [] then fresh(c) else c == s.pool[|s.pool| - 1]
    {
      c := AttachFields(r);
    }

    ghost function Pushed(s: HeapState, urgent: bool, op: Op<Context?>): HeapState {
      if urgent then s.(priority := PushLane(s.priority, op)) else s.(normal := PushLane(s.normal, op))
    }

    method PushPriority(op: Op<Context?>, ghost s: HeapState)
      requires Matches(s) && op.context in contexts
      modifies priorityOps, priorityOps.buffer
      ensures Matches(Pushed(s, true, op))
    {
      priorityOps.Push(op);
      assert ObjectsMatch(s) && Linked();
    }

    method PushPending(op: Op<Context?>, ghost s: HeapState)
      requires Matches(s) && op.context in contexts
      modifies pendingOps, pendingOps.buffer
      ensures Matches(Pushed(s, false, op))
    {
      pendingOps.Push(op);
      assert ObjectsMatch(s) && Linked();
    }

    method PushOp(urgent: bool, op: Op<Context?>, ghost s: HeapState)
      requires Matches(s) && op.context in contexts
      modifies priorityOps, pendingOps, priorityOps.buffer, pendingOps.buffer
      ensures Matches(Pushed(s, urgent, op))
    {
      if urgent {
        PushPriority(op, s);
      } else {
        PushPending(op, s);
      }
    }

    /** The numbered operation goes to the end of its queue. */
    method Enqueue(kind: Kind, c: Context, urgent: bool, ghost s: HeapState)
      requires Matches(s) && c in contexts
      modifies this`nextTicket, priorityOps, pendingOps, priorityOps.buffer, pendingOps.buffer
      ensures Matches(Pushed(s, urgent, Op(kind, c, s.nextTicket)).(nextTicket := s.nextTicket + 1))
    {
      PushOp(urgent, Op(kind, c, nextTicket), s);
      nextTicket := nextTicket + 1;
    }

    /** Submission is preparing the fields, attaching a context and enqueueing. */
    lemma SubmitInSteps(s: HeapState, r: Request, what: Submission, urgent: bool, c: Context, spare: Context?)
      requires r in s.requests && c == Handout(s, spare)
      ensures
        var pushed := Pushed(Attached(Prepared(s, r, what), r, c), urgent, Op(what.Kind(), c, s.nextTicket));
        SubmitOp(s, r, what, urgent, spare) == pushed.(nextTicket := s.nextTicket + 1)
    {
    }

    /** The request gets its new fields and a context; `spare` is the context that a dry pool creates. */
    method Stage(r: Request, what: Submission, urgent: bool, ghost s: HeapState)
        returns (c: Context, ghost spare: Context?, ghost staged: HeapState)
      requires Matches(s) && r in requests
      modifies this`contexts, r, factory, contexts
      ensures c in contexts && Matches(staged) && spare !in s.owner
      ensures SubmitOp(s, r, what, urgent, spare)
        == Pushed(staged, urgent, Op(what.Kind(), c, staged.nextTicket)).(nextTicket := staged.nextTicket + 1)
    {
      ghost var prepared := Prepared(s, r, what);
      Prepare(r, what, s);
      c := Attach(r, prepared);
      spare := if s.pool == [] then c else null;
      staged := Attached(prepared, r, c);
      SubmitInSteps(s, r, what, urgent, c, spare);
    }

    /** async_send, async_recv, async_put and async_get past their checks. */
    method Submit(r: Request, what: Submission, urgent: bool, ghost s: HeapState) returns (ghost spare: Context?)
      requires Matches(s) && r in requests
      modifies `contexts, `nextTicket, r, factory, contexts
      modifies priorityOps, pendingOps, priorityOps.buffer, pendingOps.buffer
      ensures spare !in s.owner && Matches(SubmitOp(s, r, what, urgent, spare))
    {
      var c;
      ghost var staged;
      c, spare, staged := Stage(r, what, urgent, s);
      Enqueue(what.Kind(), c, urgent, staged);
    }

    ghost function ErasedLane(s: HeapState, urgent: bool, c: Context): HeapState {
      if urgent then s.(priority := s.priority.(ops := Erase(s.priority.ops, c)))
      else s.(normal := s.normal.(ops := Erase(s.normal.ops, c)))
    }

    method ErasePriority(c: Context, ghost s: HeapState)
      requires Matches(s)
      modifies priorityOps, priorityOps.buffer
      ensures Matches(ErasedLane(s, true, c)) && priorityOps.buffer == old(priorityOps.buffer)
    {
      EraseContext(priorityOps, c, contexts);
      assert QueuesValid();
      assert ObjectsMatch(s) && Linked();
    }

    method ErasePending(c: Context, ghost s: HeapState)
      requires Matches(s)
      modifies pendingOps, pendingOps.buffer
      ensures Matches(ErasedLane(s, false, c)) && pendingOps.buffer == old(pendingOps.buffer)
    {
      EraseContext(pendingOps, c, contexts);
      assert QueuesValid();
      assert ObjectsMatch(s) && Linked();
    }

    /** The first half of cancel: the operation of the request's context leaves whichever queue holds it. */
    method EraseQueuedOps(r: Request, ghost s: HeapState)
      requires Matches(s) && r in requests
      modifies priorityOps, pendingOps, priorityOps.buffer, pendingOps.buffer
      ensures Matches(EraseQueued(s, r))
      ensures priorityOps.buffer == old(priorityOps.buffer) && pendingOps.buffer == old(pendingOps.buffer)
    {
      var c := r.waitContext;
      if c != null {
        ErasePriority(c, s);
        ErasePending(c, ErasedLane(s, true, c));
      }
    }

    method ReadCompletions(batch: seq<Entry<Context?>>, ghost s: HeapState)
      requires Matches(s) && reading == None && forall e :: e in batch ==> e.context in contexts
      modifies `reading, requests, contexts, factory, waits
      ensures Matches(ReadAll(s, batch)) && reading == None
    {
      var i := 0;
      ghost var t := s;
      while i < |batch|
        invariant i <= |batch| && Matches(t) && reading == None
        invariant ReadAll(t, batch[i..]) == ReadAll(s, batch)
      {
        assert batch[i..][0] == batch[i] && batch[i..][1..] == batch[i + 1..];
        OwnersStay(t, batch[i].context, batch[i].report);
        HandleCompletion(batch[i].context, batch[i].report, t);
        t := CompletionRead(t, batch[i].context, batch[i].report);
        i := i + 1;
      }
    }

    /** One progress call: what the completion queue holds is read, then pending operations are posted. */
    method MakeProgress(batch: seq<Entry<Context?>>, fabric: nat -> int, ghost s: HeapState)
      requires Matches(s) && reading == None && forall e :: e in batch ==> e.context in contexts
      modifies `reading, requests, contexts, factory, waits, priorityOps, pendingOps
      ensures Matches(Progress(s, batch, fabric)) && reading == None
    {
      ReadCompletions(batch, s);
      PostPendingOps(fabric, ReadAll(s, batch));
    }

    /** One step of another thread that is not the delivery of an entry. */
    method HappenElsewhere(e: Event<Request, Context?>, ghost s: HeapState)
      requires Matches(s) && Enabled(s, e) && !e.Submit? && !e.Completion?
      modifies requests, contexts, factory, waits, priorityOps, pendingOps, priorityOps.buffer, pendingOps.buffer
      ensures Matches(Step(s, e))
      ensures priorityOps.buffer == old(priorityOps.buffer) && pendingOps.buffer == old(pendingOps.buffer)
    {
      match e {
        case Post(urgent, code) =>
          var _ := PostTurn(urgent, code, s);
        case CancelErase(r) => EraseQueuedOps(r, s);
        case Complete(r, err) => Complete(r, err, s);
      }
    }

    /** One step of another thread, or of the progress call that a cancellation makes. */
    method Happen(a: HeapAct, ghost w: HeapWorld)
      requires MatchesWorld(w) && CanAct(w, a) && (a.Doing? ==> !a.e.Submit?)
      modifies `reading, requests, contexts, factory, waits
      modifies priorityOps, pendingOps, priorityOps.buffer, pendingOps.buffer
      ensures MatchesWorld(Do(w, a))
      ensures priorityOps.buffer == old(priorityOps.buffer) && pendingOps.buffer == old(pendingOps.buffer)
    {
      match a {
        case Doing(e) => HappenElsewhere(e, w.base);
        case Fetch(c, report) => FetchEntry(c, report, w);
        case FillIn => FillEntry(w);
        case Finish => FinishEntry(w);
        case Release => ReleaseEntry(w);
      }
    }

    /** What happens while a cancellation does not look. */
    method Meanwhile(acts: seq<HeapAct>, ghost w: HeapWorld)
      requires MatchesWorld(w) && CanPlay(w, acts) && NoneSubmits(acts)
      modifies `reading, requests, contexts, factory, waits
      modifies priorityOps, pendingOps, priorityOps.buffer, pendingOps.buffer
      ensures MatchesWorld(Play(w, acts))
      ensures priorityOps.buffer == old(priorityOps.buffer) && pendingOps.buffer == old(pendingOps.buffer)
    {
      var i := 0;
      ghost var v := w;
      while i < |acts|
        invariant i <= |acts| && MatchesWorld(v)
        invariant CanPlay(v, acts[i..]) && Play(v, acts[i..]) == Play(w, acts)
        invariant priorityOps.buffer == old(priorityOps.buffer) && pendingOps.buffer == old(pendingOps.buffer)
      {
        assert acts[i..][0] == acts[i] && acts[i..][1..] == acts[i + 1..];
        Happen(acts[i], v);
        v := Do(v, acts[i]);
        i := i + 1;
      }
    }

    /** The error is chosen, and the request completed with it unless it completes in the meantime. */
    method CancelPending(r: Request, commCanceled: bool, after: seq<HeapAct>, ghost m: HeapWorld)
      requires MatchesWorld(m) && r in requests && CanPlay(m, after) && NoneSubmits(after)
      requires r in Play(m, after).base.requests
      modifies `reading, requests, contexts, factory, waits
      modifies priorityOps, pendingOps, priorityOps.buffer, pendingOps.buffer
      ensures
        var p, err := Play(m, after), ErrorAtTest(old(r.View()), commCanceled);
        MatchesWorld(p.(base := CompleteRequest(p.base, r, err)))
    {
      var err := CancelError(r.opType, r.error, commCanceled);
      Meanwhile(after, m);
      Complete(r, err, Play(m, after).base);
    }

    lemma NoSubmission(acts: seq<HeapAct>, r: Request)
      requires NoneSubmits(acts)
      ensures NeverSubmits(acts, r)
    {
    }

    /** The request is under way, and nothing but the cancellation ends its operation. */
    ghost predicate Undisturbed(w: HeapWorld, r: Request, before: seq<HeapAct>, after: seq<HeapAct>) {
      && Good(w) && CanCancel(w, r, before, after) && w.base.requests[r].context.Some?
      && Ending(Erased(w, r), before, r).None? && Ending(Play(Erased(w, r), before), after, r).None?
    }

    method CancelSteps(r: Request, commCanceled: bool, before: seq<HeapAct>, after: seq<HeapAct>, ghost w: HeapWorld)
      requires MatchesWorld(w) && r in requests && NoneSubmits(before) && NoneSubmits(after)
      requires CanCancel(w, r, before, after)
      modifies `reading, requests, contexts, factory, waits
      modifies priorityOps, pendingOps, priorityOps.buffer, pendingOps.buffer
      ensures MatchesWorld(CancelFrom(w, r, commCanceled, before, after))
    {
      EraseQueuedOps(r, w.base);
      Meanwhile(before, Erased(w, r));
      if r.waitContext != null {
        CancelPending(r, commCanceled, after, Play(Erased(w, r), before));
      }
    }

    /**
     * cancel, with what happens before and after its test; the progress call that it makes is part of `after`. Unless
     * something else ends the operation, the request then carries one of the two errors of a cancellation.
     */
    method Cancel(r: Request, commCanceled: bool, before: seq<HeapAct>, after: seq<HeapAct>, ghost w: HeapWorld)
      requires MatchesWorld(w) && r in requests && NoneSubmits(before) && NoneSubmits(after)
      requires CanCancel(w, r, before, after)
      modifies `reading, requests, contexts, factory, waits
      modifies priorityOps, pendingOps, priorityOps.buffer, pendingOps.buffer
      ensures MatchesWorld(CancelFrom(w, r, commCanceled, before, after))
      ensures Undisturbed(w, r, before, after) ==>
        var inject, broken := old(r.opType.INJECT?), commCanceled || old(r.error) == -LFI_BROKEN_COMM;
        && r.Completed() && r.error in {-LFI_BROKEN_COMM, -LFI_CANCELED}
        && (r.error == -LFI_BROKEN_COMM <==> !inject && broken)
    {
      ghost var was := w.base.requests[r];
      assert was == r.View();
      CancelSteps(r, commCanceled, before, after, w);
      if Undisturbed(w, r, before, after) {
        NoSubmission(before, r);
        NoSubmission(after, r);
        CancelCompletes(w, r, commCanceled, before, after);
        assert r in requests && RequestMap()[r] == r.View();
      }
    }
  }
}
