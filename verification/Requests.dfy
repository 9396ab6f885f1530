/** The request objects, their contexts and the pool that recycles contexts. */
module Requests {
  import opened Common
  import opened Lifecycle

  const UNINITIALIZED_COMM: nat := 0xFFFF_FFFF

  /** The object whose address the fabric returns with a completion. */
  class Context {
    var request: Request?

    constructor (req: Request)
      ensures request == req
    {
      request := req;
    }

    method Assign(req: Request)
      modifies this
      ensures request == req
    {
      request := req;
    }

    method Unassign()
      modifies this
      ensures request == null
    {
      request := null;
    }
  }

  /** What the threads of one wait_num call share. */
  class WaitStruct {
    var waitCount: int

    constructor (count: int)
      ensures waitCount == count
    {
      waitCount := count;
    }
  }

  class Request {
    const commId: nat
    var error: int
    var waitContext: Context?
    var opType: OpType
    var size: nat
    var tag: nat
    var source: nat
    var sharedWait: WaitStruct?
    /** The number of the submission that the fields belong to. */
    ghost var ticket: nat

    constructor (commId: nat)
      ensures Completed() && sharedWait == null && error == LFI_SUCCESS && this.commId == commId
      ensures View() == RequestState(None, NONE, 0, 0, UNINITIALIZED_COMM, LFI_SUCCESS, 0)
    {
      this.commId := commId;
      error, waitContext, opType, size, tag := LFI_SUCCESS, null, NONE, 0, 0;
      source, sharedWait, ticket := UNINITIALIZED_COMM, null, 0;
    }

    predicate Completed()
      reads this
    {
      waitContext == null
    }

    /** The fields of the life cycle as a value. */
    ghost function View(): RequestState<Context?>
      reads this
    {
      RequestState(if waitContext == null then None else Some(waitContext), opType, size, tag, source, error, ticket)
    }

    method Reset()
      modifies this, waitContext
      ensures old(waitContext) != null ==> old(waitContext).request == null
      ensures View() == RequestState(None, NONE, 0, 0, UNINITIALIZED_COMM, 0, old(ticket))
      ensures sharedWait == old(sharedWait)
    {
      if waitContext != null {
        waitContext.Unassign();
      }
      opType, error, size, tag, source := NONE, 0, 0, 0, UNINITIALIZED_COMM;
      waitContext := null;
    }

    method Complete(err: int)
      modifies this, waitContext, sharedWait
      ensures sharedWait == old(sharedWait)
      ensures old(waitContext) == null ==> View() == old(View())
      ensures old(waitContext) != null ==>
        View() == old(View()).(context := None, error := err) && old(waitContext).request == null
      ensures sharedWait != null ==>
        sharedWait.waitCount == old(sharedWait.waitCount) - (if old(waitContext) == null then 0 else 1)
      ensures old(waitContext) == null ==> unchanged(this)
    {
      if waitContext == null {
        return;
      }
      error := err;
      waitContext.Unassign();
      waitContext := null;
      if sharedWait != null {
        sharedWait.waitCount := sharedWait.waitCount - 1;
      }
    }
  }

  class ContextFactory {
    var queue: seq<Context>

    constructor ()
      ensures queue == []
    {
      queue := [];
    }

    method Create(req: Request) returns (c: Context)
      modifies this, if queue == [] then {} else {queue[|queue| - 1]}
      ensures old(queue) == [] ==> fresh(c) && queue == []
      ensures old(queue) != [] ==> c == old(queue)[|old(queue)| - 1] && queue == old(queue)[..|old(queue)| - 1]
      ensures c.request == req
    {
      if queue == [] {
        c := new Context(req);
        return;
      }
      c := queue[|queue| - 1];
      queue := queue[..|queue| - 1];
      c.Assign(req);
    }

    method Destroy(c: Context)
      modifies this, c
      ensures c.request == null && queue == old(queue) + [c]
    {
      c.Unassign();
      queue := queue + [c];
    }
  }
}
