/**
 * Giving up a communicator: its registered requests are cancelled one after the other while other threads go on
 * completing and submitting requests.
 */
module CancelComm {
  import opened Common
  import opened Lifecycle
  import opened Requests
  import opened WaitNum

  /** What other threads do in between: a request completes, or one is submitted on the communicator. */
  datatype Happening = Completes(r: Request, err: int) | Submits(r: Request, opType: OpType, context: Context)

  /** The fields of a communicator that cancellation works on; the list of registered requests is a sequence here. */
  class Communicator {
    var isCanceled: bool
    var ftRequests: seq<Request>

    constructor ()
      ensures !isCanceled && ftRequests == []
    {
      isCanceled, ftRequests := false, [];
    }
  }

  /** The requests in use and what they reach. */
  datatype World = World(all: set<Request>, contexts: set<Context>, waits: set<WaitStruct>)

  /** Registered requests are distinct and not complete: completing a request takes it off the list first. */
  ghost predicate Valid(comm: Communicator, w: World)
    reads comm, w.all
  {
    && Closed(w.all, w.contexts, w.waits)
    && Distinct(comm.ftRequests)
    && forall i :: 0 <= i < |comm.ftRequests| ==> comm.ftRequests[i] in w.all && !comm.ftRequests[i].Completed()
  }

  /** `complete` of a registered or an already completed request. */
  method CompleteRequest(comm: Communicator, r: Request, err: int, ghost w: World)
    requires Valid(comm, w) && r in w.all
    modifies comm`ftRequests, r, w.contexts, w.waits
    ensures Valid(comm, w) && r.Completed() && r.opType == old(r.opType)
    ensures comm.ftRequests == if old(r.Completed()) then old(comm.ftRequests) else Remove(old(comm.ftRequests), r)
    ensures r.error == if old(r.Completed()) then old(r.error) else err
  {
    if r.Completed() {
      return;
    }
    RemoveKeepsTheRest(comm.ftRequests, r);
    comm.ftRequests := Remove(comm.ftRequests, r);
    r.Complete(err);
  }

  /** A submission: refused once the communicator is given up, and otherwise registered. */
  method Submit(comm: Communicator, r: Request, opType: OpType, c: Context, ghost w: World) returns (code: int)
    requires Valid(comm, w) && r in w.all && c in w.contexts
    requires !comm.isCanceled ==> r !in comm.ftRequests && r.waitContext != c
    modifies comm`ftRequests, r, w.contexts
    ensures Valid(comm, w)
    ensures old(comm.isCanceled) ==> code == -LFI_BROKEN_COMM && unchanged(comm, r)
    ensures !old(comm.isCanceled) ==> code == LFI_SUCCESS && comm.ftRequests == old(comm.ftRequests) + [r]
    ensures !old(comm.isCanceled) ==> r.waitContext == c && r.opType == opType
  {
    if comm.isCanceled {
      return -LFI_BROKEN_COMM;
    }
    r.Reset();
    r.opType := opType;
    c.Assign(r);
    r.waitContext := c;
    comm.ftRequests := comm.ftRequests + [r];
    code := LFI_SUCCESS;
  }

  ghost predicate Known(h: Happening, w: World) {
    h.r in w.all && (h.Submits? ==> h.context in w.contexts)
  }

  predicate CompletedBy(events: seq<Happening>, r: Request) {
    exists i :: 0 <= i < |events| && events[i].Completes? && events[i].r == r
  }

  ghost predicate Shrinks(before: seq<Request>, now: seq<Request>) {
    |now| <= |before| && (|now| == |before| ==> now == before) && forall i :: 0 <= i < |now| ==> now[i] in before
  }

  /** One event on a communicator that is given up: a submission no longer does anything. */
  method Happen(comm: Communicator, h: Happening, ghost w: World)
    requires Valid(comm, w) && comm.isCanceled && Known(h, w)
    modifies comm`ftRequests, w.all, w.contexts, w.waits
    ensures Valid(comm, w) && Shrinks(old(comm.ftRequests), comm.ftRequests)
    ensures forall r :: r in w.all ==> r.opType == old(r.opType)
    ensures forall r :: r in w.all && old(r.Completed()) ==> r.Completed() && r.error == old(r.error)
    ensures forall r :: r in old(comm.ftRequests) ==> r in comm.ftRequests || r.Completed()
    ensures forall r :: r in w.all && (h.Submits? || h.r != r) ==>
      r.Completed() == old(r.Completed()) && r.error == old(r.error)
  {
    match h {
      case Completes(r, err) =>
        RemoveKeepsTheRest(comm.ftRequests, r);
        CompleteRequest(comm, r, err, w);
      case Submits(r, opType, c) =>
        var code := Submit(comm, r, opType, c, w);
    }
  }

  /** What other threads, or the progress that a cancellation makes, do in between. */
  method Progress(comm: Communicator, events: seq<Happening>, ghost w: World)
    requires Valid(comm, w) && comm.isCanceled && forall i :: 0 <= i < |events| ==> Known(events[i], w)
    modifies comm`ftRequests, w.all, w.contexts, w.waits
    ensures Valid(comm, w) && Shrinks(old(comm.ftRequests), comm.ftRequests)
    ensures forall r :: r in w.all ==> r.opType == old(r.opType)
    ensures forall r :: r in w.all && old(r.Completed()) ==> r.Completed() && r.error == old(r.error)
    ensures forall r :: r in old(comm.ftRequests) ==> r in comm.ftRequests || r.Completed()
    ensures forall r :: r in w.all && !CompletedBy(events, r) ==>
      r.Completed() == old(r.Completed()) && r.error == old(r.error)
  {
    var k := 0;
    while k < |events|
      invariant k <= |events| && Valid(comm, w) && Shrinks(old(comm.ftRequests), comm.ftRequests)
      invariant forall r :: r in w.all ==> r.opType == old(r.opType)
      invariant forall r :: r in w.all && old(r.Completed()) ==> r.Completed() && r.error == old(r.error)
      invariant forall r :: r in old(comm.ftRequests) ==> r in comm.ftRequests || r.Completed()
      invariant forall r :: r in w.all && !CompletedBy(events[..k], r) ==>
        r.Completed() == old(r.Completed()) && r.error == old(r.error)
    {
      Happen(comm, events[k], w);
      k := k + 1;
    }
  }

  /** `cancel` of a request of a communicator that is given up, with the progress that it makes. */
  method Cancel(comm: Communicator, r: Request, events: seq<Happening>, ghost w: World)
    requires Valid(comm, w) && comm.isCanceled && r in w.all && forall i :: 0 <= i < |events| ==> Known(events[i], w)
    modifies comm`ftRequests, w.all, w.contexts, w.waits
    ensures Valid(comm, w) && Shrinks(old(comm.ftRequests), comm.ftRequests) && r.Completed() && r !in comm.ftRequests
    ensures r in old(comm.ftRequests) ==> |comm.ftRequests| < |old(comm.ftRequests)|
    ensures forall x :: x in w.all ==> x.opType == old(x.opType)
    ensures forall x :: x in w.all && old(x.Completed()) ==> x.Completed() && x.error == old(x.error)
    ensures forall x :: x in old(comm.ftRequests) ==> x in comm.ftRequests || x.Completed()
    ensures forall x :: x in w.all && !CompletedBy(events, x) && x != r ==>
      x.Completed() == old(x.Completed()) && x.error == old(x.error)
    ensures !old(r.Completed()) && !CompletedBy(events, r) ==>
      r.error == if r.opType.INJECT? then -LFI_CANCELED else -LFI_BROKEN_COMM
  {
    if r.Completed() {
      return;
    }
    var cancelError := CancelError(r.opType, r.error, comm.isCanceled);
    Progress(comm, events, w);
    RemoveKeepsTheRest(comm.ftRequests, r);
    CompleteRequest(comm, r, cancelError, w);
  }

  predicate CompletedWithin(script: seq<seq<Happening>>, r: Request) {
    exists k :: 0 <= k < |script| && CompletedBy(script[k], r)
  }

  /**
   * `cancel_comm`: whatever completes meanwhile, the loop over the head of the list ends, with no request registered
   * and every request that was registered complete, with the error of the cancellation unless something else completed
   * it. The number of registered requests is the measure.
   */
  method CancelAll(comm: Communicator, script: seq<seq<Happening>>, ghost w: World)
    requires Valid(comm, w)
    requires forall k, i :: 0 <= k < |script| && 0 <= i < |script[k]| ==> Known(script[k][i], w)
    modifies comm, w.all, w.contexts, w.waits
    ensures Valid(comm, w) && comm.isCanceled && comm.ftRequests == []
    ensures forall r :: r in old(comm.ftRequests) ==> r.Completed()
    ensures forall r :: r in old(comm.ftRequests) && !CompletedWithin(script, r) ==>
      r.opType == old(r.opType) && r.error == if r.opType.INJECT? then -LFI_CANCELED else -LFI_BROKEN_COMM
  {
    comm.isCanceled := true;
    var k := 0;
    while |comm.ftRequests| > 0
      invariant Valid(comm, w) && comm.isCanceled && Shrinks(old(comm.ftRequests), comm.ftRequests)
      invariant forall r :: r in old(comm.ftRequests) ==> r in comm.ftRequests || r.Completed()
      invariant forall r :: r in old(comm.ftRequests) && r.Completed() && !CompletedWithin(script, r) ==>
        r.error == if r.opType.INJECT? then -LFI_CANCELED else -LFI_BROKEN_COMM
      invariant forall r :: r in w.all ==> r.opType == old(r.opType)
      decreases |comm.ftRequests|
    {
      var events := if k < |script| then script[k] else [];
      Cancel(comm, comm.ftRequests[0], events, w);
      k := k + 1;
    }
  }
}
