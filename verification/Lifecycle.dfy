/**
 * The life of a request as a state machine over values: submission with a pooled context, queueing,
 * posting to the fabric, completion, cancellation and reuse, in any interleaving.
 *
 * `R` names requests and `C` names contexts. A submission number (`ticket`) is given to every submitted
 * operation so that two uses of the same request or of the same pooled context can be told apart.
 */
module Lifecycle {
  import opened Common
  import opened VectorQueues

  datatype OpType = NONE | SEND | INJECT | PUT | GET | RECV

  datatype Kind = NoneOp | SendOp | SendvOp | RecvOp | RecvvOp | InjectOp | PutOp | GetOp

  datatype Op<C> = Op(kind: Kind, context: C, ticket: nat)

  datatype RequestState<C> = RequestState(
    context: Option<C>,
    opType: OpType,
    size: nat,
    tag: nat,
    source: nat,
    error: int,
    ticket: nat)

  /** The four submission calls; `commId` is the communicator of the request. */
  datatype Submission =
    | SendMsg(commId: nat, size: nat, tag: nat, vectored: bool, inject: bool)
    | RecvMsg(commId: nat, size: nat, tag: nat, vectored: bool)
    | PutMem(commId: nat, size: nat)
    | GetMem(commId: nat, size: nat)
  {
    function Kind(): Kind {
      match this
      case SendMsg(_, _, _, vectored, inject) => if inject then InjectOp else if vectored then SendvOp else SendOp
      case RecvMsg(_, _, _, vectored) => if vectored then RecvvOp else RecvOp
      case PutMem(_, _) => PutOp
      case GetMem(_, _) => GetOp
    }

    function OpType(): OpType {
      match this
      case SendMsg(_, _, _, _, inject) => if inject then INJECT else SEND
      case RecvMsg(_, _, _, _) => RECV
      case PutMem(_, _) => PUT
      case GetMem(_, _) => GET
    }

    function Tag(): nat {
      if SendMsg? || RecvMsg? then tag else 0
    }
  }

  /** What the completion queue reports for a context: a tagged entry or an error entry. */
  datatype Report = Done(len: nat, tag: nat, source: nat) | Failed(reason: FabricError)

  datatype FabricError = Canceled | NoMessage | Truncated | Other

  function ErrorOf(reason: FabricError): int {
    match reason
    case Canceled => -LFI_CANCELED
    case NoMessage => -LFI_PEEK_NO_MSG
    case Truncated => -LFI_ETRUN_RECV
    case Other => -LFI_LIBFABRIC_ERROR
  }

  function Outcome(report: Report): int {
    if report.Done? then LFI_SUCCESS else ErrorOf(report.reason)
  }

  /** One pending-operation queue with the record of every ticket pushed to it and taken out by posting. */
  datatype Lane<C> = Lane(ops: seq<Op<C>>, pushed: seq<nat>, taken: seq<nat>)

  datatype State<R, C> = State(
    requests: map<R, RequestState<C>>,
    /** Every context ever created, with the request it is assigned to. */
    owner: map<C, Option<R>>,
    pool: seq<C>,
    priority: Lane<C>,
    normal: Lane<C>,
    /** Contexts accepted by the fabric whose completion has not been read, with the ticket they were posted for. */
    posted: map<C, nat>,
    /** Tickets removed from a queue by a cancellation. */
    dropped: set<nat>,
    /** Contexts that left the queues without reaching the fabric or the pool. */
    lost: set<C>,
    nextTicket: nat)

  datatype Event<R, C> =
    | Submit(r: R, what: Submission, urgent: bool, spare: C)
    | Post(urgent: bool, code: int)
    | Completion(context: C, report: Report)
    | CancelErase(r: R)
    | Complete(r: R, err: int)

  ghost function Initial<R, C>(requests: map<R, RequestState<C>>): State<R, C> {
    State(requests, map[], [], Lane([], [], []), Lane([], [], []), map[], {}, {}, 0)
  }

  // ----- the steps -----

  /** `reset` and `complete` detach the context from the request. */
  ghost function Detach<R, C>(s: State<R, C>, r: R): State<R, C>
    requires r in s.requests
  {
    match s.requests[r].context
    case None => s
    case Some(c) => s.(owner := s.owner[c := None], requests := s.requests[r := s.requests[r].(context := None)])
  }

  /** `complete`: nothing on a completed request, otherwise the error is stored and the context detached. */
  ghost function CompleteRequest<R, C>(s: State<R, C>, r: R, err: int): State<R, C>
    requires r in s.requests
  {
    if s.requests[r].context.None? then s
    else
      var t := Detach(s, r);
      t.(requests := t.requests[r := t.requests[r].(error := err)])
  }

  /** The factory hands out the most recently pooled context, or a new one. */
  ghost function Handout<R, C>(s: State<R, C>, spare: C): C {
    if s.pool == [] then spare else s.pool[|s.pool| - 1]
  }

  ghost function SubmitOp<R, C>(s: State<R, C>, r: R, what: Submission, urgent: bool, spare: C): State<R, C>
    requires r in s.requests
  {
    var t := Detach(s, r);
    var c := Handout(s, spare);
    var rs := RequestState(Some(c), what.OpType(), what.size, what.Tag(), what.commId, 0, s.nextTicket);
    var op := Op(what.Kind(), c, s.nextTicket);
    var u := t.(
      requests := t.requests[r := rs],
      owner := t.owner[c := Some(r)],
      pool := if s.pool == [] then [] else s.pool[..|s.pool| - 1],
      nextTicket := s.nextTicket + 1);
    if urgent then u.(priority := PushLane(u.priority, op)) else u.(normal := PushLane(u.normal, op))
  }

  ghost function PushLane<C>(lane: Lane<C>, op: Op<C>): Lane<C> {
    lane.(ops := lane.ops + [op], pushed := lane.pushed + [op.ticket])
  }

  /** `destroy`: the context is detached and goes back to the pool. */
  ghost function Recycle<R, C>(s: State<R, C>, c: C): State<R, C> {
    s.(owner := s.owner[c := None], pool := s.pool + [c])
  }

  /** The request a context is assigned to completes with `err`, if there is one. */
  ghost function CompleteOwner<R, C>(s: State<R, C>, c: C, err: int): State<R, C> {
    if c in s.owner && s.owner[c].Some? && s.owner[c].value in s.requests
    then CompleteRequest(s, s.owner[c].value, err) else s
  }

  /** The fabric's answer to the operation at the front of a queue, after which it is popped. */
  ghost function Posted<R, C>(s: State<R, C>, op: Op<C>, code: int): State<R, C> {
    if op.kind.NoneOp? then s.(lost := s.lost + {op.context})
    else if code != 0 then CompleteOwner(s, op.context, -LFI_LIBFABRIC_ERROR).(lost := s.lost + {op.context})
    else if op.kind.InjectOp? then Recycle(CompleteOwner(s, op.context, LFI_SUCCESS), op.context)
    else s.(posted := s.posted[op.context := op.ticket])
  }

  ghost function PopLane<C>(lane: Lane<C>): Lane<C>
    requires lane.ops != []
  {
    lane.(ops := lane.ops[1..], taken := lane.taken + [lane.ops[0].ticket])
  }

  ghost function LaneOf<R, C>(s: State<R, C>, urgent: bool): Lane<C> {
    if urgent then s.priority else s.normal
  }

  /** Whether the fabric takes the operation out of the queue: an operation of no kind never reaches it. */
  predicate Refuses(kind: Kind, code: int) {
    !kind.NoneOp? && code == -FI_EAGAIN
  }

  ghost function PostFront<R, C>(s: State<R, C>, urgent: bool, code: int): State<R, C>
    requires LaneOf(s, urgent).ops != []
  {
    var op := LaneOf(s, urgent).ops[0];
    if Refuses(op.kind, code) then s
    else
      PostedKeepsQueues(s, op, code);
      PopFront(Posted(s, op, code), urgent)
  }

  ghost function PopFront<R, C>(s: State<R, C>, urgent: bool): State<R, C>
    requires LaneOf(s, urgent).ops != []
  {
    if urgent then s.(priority := PopLane(s.priority)) else s.(normal := PopLane(s.normal))
  }

  /** The entry of a finished receive is written into a receiving request. */
  ghost function FillRequest<R, C>(s: State<R, C>, r: R, report: Report): State<R, C>
    requires r in s.requests && report.Done?
  {
    if s.requests[r].opType.RECV?
    then s.(requests := s.requests[r := Received(s.requests[r], report)])
    else s
  }

  function Received<C>(rs: RequestState<C>, report: Report): RequestState<C>
    requires report.Done?
  {
    rs.(size := report.len, tag := report.tag, source := report.source)
  }

  /** The entry is written into the request that the context is assigned to. */
  ghost function Fill<R, C>(s: State<R, C>, c: C, report: Report): State<R, C>
    requires c in s.owner
  {
    if report.Done? && s.owner[c].Some? && s.owner[c].value in s.requests
    then FillRequest(s, s.owner[c].value, report) else s
  }

  /** Reading one completion-queue entry when nobody comes in between. */
  ghost function CompletionRead<R, C>(s: State<R, C>, c: C, report: Report): State<R, C>
    requires c in s.owner
  {
    var filled := Fill(s.(posted := s.posted - {c}), c, report);
    Recycle(CompleteOwner(filled, c, Outcome(report)), c)
  }

  ghost function Erase<C>(ops: seq<Op<C>>, c: C): seq<Op<C>> {
    Keep(ops, (op: Op<C>) => op.context == c)
  }

  /** The first half of `cancel`: the operation of the request's context leaves both queues. */
  ghost function EraseQueued<R, C>(s: State<R, C>, r: R): State<R, C>
    requires r in s.requests
  {
    match s.requests[r].context
    case None => s
    case Some(c) =>
      var gone := set op | op in s.priority.ops + s.normal.ops && op.context == c;
      s.(
        priority := s.priority.(ops := Erase(s.priority.ops, c)),
        normal := s.normal.(ops := Erase(s.normal.ops, c)),
        dropped := s.dropped + (set op | op in gone :: op.ticket),
        lost := s.lost + (set op | op in gone :: op.context))
  }

  ghost predicate Enabled<R, C>(s: State<R, C>, e: Event<R, C>) {
    match e
    case Submit(r, _, _, spare) => r in s.requests && spare !in s.owner
    case Post(urgent, _) => LaneOf(s, urgent).ops != [] && (!urgent ==> s.priority.ops == [])
    case Completion(c, _) => c in s.posted && c in s.owner
    case CancelErase(r) => r in s.requests
    case Complete(r, _) => r in s.requests
  }

  ghost function Step<R, C>(s: State<R, C>, e: Event<R, C>): State<R, C>
    requires Enabled(s, e)
  {
    match e
    case Submit(r, what, urgent, spare) => SubmitOp(s, r, what, urgent, spare)
    case Post(urgent, code) => PostFront(s, urgent, code)
    case Completion(c, report) => CompletionRead(s, c, report)
    case CancelErase(r) => EraseQueued(s, r)
    case Complete(r, err) => CompleteRequest(s, r, err)
  }

  ghost predicate CanRun<R, C>(s: State<R, C>, events: seq<Event<R, C>>)
    decreases |events|
  {
    events == [] || (Enabled(s, events[0]) && CanRun(Step(s, events[0]), events[1..]))
  }

  ghost function Run<R, C>(s: State<R, C>, events: seq<Event<R, C>>): State<R, C>
    requires CanRun(s, events)
    decreases |events|
  {
    if events == [] then s else Run(Step(s, events[0]), events[1..])
  }

  // ----- the invariant -----

  /** A context is assigned to a request exactly when it is that request's context. */
  ghost predicate Paired<R, C>(s: State<R, C>) {
    && (forall r :: r in s.requests && s.requests[r].context.Some? ==>
          s.requests[r].context.value in s.owner && s.owner[s.requests[r].context.value] == Some(r))
    && (forall c :: c in s.owner && s.owner[c].Some? ==>
          s.owner[c].value in s.requests && s.requests[s.owner[c].value].context == Some(c))
  }

  ghost function Queued<R, C>(s: State<R, C>): seq<Op<C>> {
    s.priority.ops + s.normal.ops
  }

  /** The contexts of the queued operations. */
  ghost function Waiting<R, C>(s: State<R, C>): set<C> {
    set op | op in Queued(s) :: op.context
  }

  ghost predicate DistinctContexts<C>(ops: seq<Op<C>>) {
    forall i, j :: 0 <= i < j < |ops| ==> ops[i].context != ops[j].context
  }

  /** Every context ever created is in exactly one place: the pool, a queue, the fabric, or lost. */
  ghost predicate Placed<R, C>(s: State<R, C>) {
    && (forall i, j :: 0 <= i < j < |s.pool| ==> s.pool[i] != s.pool[j])
    && DistinctContexts(Queued(s))
    && (forall c :: c in s.pool ==> c in s.owner && s.owner[c] == None)
    && (forall c :: c in s.pool ==> c !in Waiting(s) && c !in s.posted && c !in s.lost)
    && (forall c :: c in Waiting(s) ==> c in s.owner && c !in s.posted && c !in s.lost)
    && (forall c :: c in s.posted ==> c in s.owner && c !in s.lost)
    && s.lost <= s.owner.Keys
    && (forall c :: c in s.owner ==> c in s.pool || c in Waiting(s) || c in s.posted || c in s.lost)
  }

  /** An operation in a queue or in the fabric whose context is assigned is its request's current operation. */
  ghost predicate Current<R, C>(s: State<R, C>) {
    && (forall op :: op in Queued(s) ==> IsCurrent(s, op.context, op.ticket))
    && (forall c :: c in s.posted ==> IsCurrent(s, c, s.posted[c]))
  }

  ghost predicate IsCurrent<R, C>(s: State<R, C>, c: C, ticket: nat) {
    c in s.owner && s.owner[c].Some? && s.owner[c].value in s.requests ==>
      s.requests[s.owner[c].value].ticket == ticket
  }

  ghost predicate Sound<R, C>(s: State<R, C>) {
    Paired(s) && Placed(s) && Current(s)
  }

  lemma DetachSound<R, C>(s: State<R, C>, r: R)
    requires Sound(s) && r in s.requests
    ensures Sound(Detach(s, r))
  {
    var t := Detach(s, r);
    assert Queued(t) == Queued(s) && Waiting(t) == Waiting(s);
  }

  lemma CompleteSound<R, C>(s: State<R, C>, r: R, err: int)
    requires Sound(s) && r in s.requests
    ensures Sound(CompleteRequest(s, r, err))
  {
    DetachSound(s, r);
    var t := CompleteRequest(s, r, err);
    assert Queued(t) == Queued(s) && Waiting(t) == Waiting(s);
  }

  lemma InsertDistinct<C>(a: seq<Op<C>>, b: seq<Op<C>>, op: Op<C>)
    requires DistinctContexts(a + b)
    requires forall o :: o in a + b ==> o.context != op.context
    ensures DistinctContexts(a + [op] + b)
    ensures forall o :: o in a + [op] + b <==> o in a + b || o == op
  {
    var s, t := a + b, a + [op] + b;
    forall i, j | 0 <= i < j < |t| ensures t[i].context != t[j].context {
      assert i < |a| ==> t[i] == s[i];
      assert i > |a| ==> t[i] == s[i - 1];
      assert j < |a| ==> t[j] == s[j];
      assert j > |a| ==> t[j] == s[j - 1];
    }
    forall o | o in s ensures o in t {
      var k :| 0 <= k < |s| && s[k] == o;
      assert t[if k < |a| then k else k + 1] == o;
    }
    assert t[|a|] == op;
  }

  /** What a submission does to the queues. */
  lemma SubmitQueues<R, C>(s: State<R, C>, r: R, what: Submission, urgent: bool, spare: C)
    requires Sound(s) && r in s.requests && spare !in s.owner
    ensures
      var t := SubmitOp(s, r, what, urgent, spare);
      var op := Op(what.Kind(), Handout(s, spare), s.nextTicket);
      && DistinctContexts(Queued(t)) && Waiting(t) == Waiting(s) + {op.context}
      && (forall o :: o in Queued(t) <==> o in Queued(s) || o == op)
  {
    var t := SubmitOp(s, r, what, urgent, spare);
    var op := Op(what.Kind(), Handout(s, spare), s.nextTicket);
    assert op.context !in Waiting(s);
    if urgent {
      assert Queued(t) == s.priority.ops + [op] + s.normal.ops;
      InsertDistinct(s.priority.ops, s.normal.ops, op);
    } else {
      assert Queued(t) == Queued(s) + [op] + [] && Queued(s) + [] == Queued(s);
      InsertDistinct(Queued(s), [], op);
    }
  }

  lemma SubmitPaired<R, C>(s: State<R, C>, r: R, what: Submission, urgent: bool, spare: C)
    requires Sound(s) && r in s.requests && spare !in s.owner
    ensures Paired(SubmitOp(s, r, what, urgent, spare))
  {
    DetachSound(s, r);
    PairOne(Detach(s, r), SubmitOp(s, r, what, urgent, spare), r, Handout(s, spare));
  }

  /** A free request and a free context become a pair. */
  lemma PairOne<R, C>(s: State<R, C>, t: State<R, C>, r: R, c: C)
    requires Paired(s) && r in s.requests && s.requests[r].context == None && (c in s.owner ==> s.owner[c] == None)
    requires r in t.requests && t.requests == s.requests[r := t.requests[r]] && t.requests[r].context == Some(c)
    requires t.owner == s.owner[c := Some(r)]
    ensures Paired(t)
  {
  }

  lemma DropLast<C>(pool: seq<C>)
    requires pool != [] && forall i, j :: 0 <= i < j < |pool| ==> pool[i] != pool[j]
    ensures forall x :: x in pool[..|pool| - 1] <==> x in pool && x != pool[|pool| - 1]
  {
    assert pool == pool[..|pool| - 1] + [pool[|pool| - 1]];
  }

  /** What a submission does to the pool and the table of contexts. */
  lemma SubmitPool<R, C>(s: State<R, C>, r: R, what: Submission, urgent: bool, spare: C)
    requires Sound(s) && r in s.requests && spare !in s.owner
    ensures
      var t := SubmitOp(s, r, what, urgent, spare);
      var c := Handout(s, spare);
      && (forall x :: x in t.pool <==> x in s.pool && x != c)
      && t.owner.Keys == s.owner.Keys + {c}
      && (forall x :: x in t.pool ==> t.owner[x] == None)
      && c !in Waiting(s) && c !in s.posted && c !in s.lost
  {
    if s.pool != [] {
      DropLast(s.pool);
    }
  }

  lemma SubmitPlaced<R, C>(s: State<R, C>, r: R, what: Submission, urgent: bool, spare: C)
    requires Sound(s) && r in s.requests && spare !in s.owner
    ensures Placed(SubmitOp(s, r, what, urgent, spare))
  {
    SubmitQueues(s, r, what, urgent, spare);
    SubmitPool(s, r, what, urgent, spare);
    var t := SubmitOp(s, r, what, urgent, spare);
    assert t.posted == s.posted && t.lost == s.lost;
    assert forall i :: 0 <= i < |t.pool| ==> t.pool[i] == s.pool[i];
  }

  lemma SubmitCurrent<R, C>(s: State<R, C>, r: R, what: Submission, urgent: bool, spare: C)
    requires Sound(s) && r in s.requests && spare !in s.owner
    ensures Current(SubmitOp(s, r, what, urgent, spare))
  {
    SubmitQueues(s, r, what, urgent, spare);
    var d := Detach(s, r);
    DetachSound(s, r);
    var t := SubmitOp(s, r, what, urgent, spare);
    var c := Handout(s, spare);
    forall op | op in Queued(t) ensures IsCurrent(t, op.context, op.ticket) {
      if op.context != c {
        assert op in Queued(d) && IsCurrent(d, op.context, op.ticket);
        assert d.requests[r].context == None;
      }
    }
    forall x | x in t.posted ensures IsCurrent(t, x, t.posted[x]) {
      assert x != c && IsCurrent(d, x, d.posted[x]);
      assert d.requests[r].context == None;
    }
  }

  lemma SubmitSound<R, C>(s: State<R, C>, r: R, what: Submission, urgent: bool, spare: C)
    requires Sound(s) && r in s.requests && spare !in s.owner
    ensures Sound(SubmitOp(s, r, what, urgent, spare))
  {
    SubmitPaired(s, r, what, urgent, spare);
    SubmitPlaced(s, r, what, urgent, spare);
    SubmitCurrent(s, r, what, urgent, spare);
  }

  lemma EraseMembers<C>(ops: seq<Op<C>>, c: C)
    ensures forall op :: op in Erase(ops, c) <==> op in ops && op.context != c
  {
    KeepMembers(ops, (op: Op<C>) => op.context == c);
  }

  /** Any predicate that singles out the operations of `c` erases them. */
  lemma EraseByPredicate<C>(ops: seq<Op<C>>, c: C, drop: Op<C> -> bool)
    requires forall op :: op in ops ==> drop(op) == (op.context == c)
    ensures Keep(ops, drop) == Erase(ops, c)
  {
    KeepCongruent(ops, drop, (op: Op<C>) => op.context == c);
  }

  lemma {:induction false} EraseDistinct<C>(ops: seq<Op<C>>, c: C)
    requires DistinctContexts(ops)
    ensures DistinctContexts(Erase(ops, c))
  {
    if ops != [] {
      var front, last := ops[..|ops| - 1], ops[|ops| - 1];
      EraseDistinct(front, c);
      assert Erase(ops, c) == if last.context == c then Erase(front, c) else Erase(front, c) + [last];
      forall i | 0 <= i < |Erase(front, c)| ensures Erase(front, c)[i].context != last.context {
        var k := KeepOrigin(front, (op: Op<C>) => op.context == c, i);
        assert ops[k] == front[k];
      }
    }
  }

  lemma EraseQueues<R, C>(s: State<R, C>, r: R)
    requires r in s.requests && s.requests[r].context.Some? && DistinctContexts(Queued(s))
    ensures
      var t := EraseQueued(s, r);
      var c := s.requests[r].context.value;
      && Queued(t) == Erase(Queued(s), c) && DistinctContexts(Queued(t))
      && (forall op :: op in Queued(t) <==> op in Queued(s) && op.context != c)
      && Waiting(t) == Waiting(s) - {c}
      && t.lost == (if c in Waiting(s) then s.lost + {c} else s.lost)
  {
    var c := s.requests[r].context.value;
    KeepConcat(s.priority.ops, s.normal.ops, (op: Op<C>) => op.context == c);
    EraseDistinct(Queued(s), c);
    EraseMembers(Queued(s), c);
    assert Queued(EraseQueued(s, r)) == Erase(Queued(s), c);
    var gone := set op | op in Queued(s) && op.context == c;
    if c in Waiting(s) {
      var op :| op in Queued(s) && op.context == c;
      assert op in gone && (set o | o in gone :: o.context) == {c};
    } else {
      assert gone == {};
    }
  }

  lemma EraseSound<R, C>(s: State<R, C>, r: R)
    requires Sound(s) && r in s.requests
    ensures Sound(EraseQueued(s, r))
  {
    if s.requests[r].context.Some? {
      EraseQueues(s, r);
      var t := EraseQueued(s, r);
      assert Paired(t);
      assert Placed(t);
      forall op | op in Queued(t) ensures IsCurrent(t, op.context, op.ticket) {
        assert op in Queued(s) && IsCurrent(s, op.context, op.ticket);
      }
    }
  }

  lemma PostedKeepsQueues<R, C>(s: State<R, C>, op: Op<C>, code: int)
    ensures Posted(s, op, code).priority == s.priority && Posted(s, op, code).normal == s.normal
    ensures Posted(s, op, code).dropped == s.dropped && Posted(s, op, code).nextTicket == s.nextTicket
  {
  }

  lemma PostShrinks<R, C>(s: State<R, C>, urgent: bool, code: int)
    requires LaneOf(s, urgent).ops != [] && !Refuses(LaneOf(s, urgent).ops[0].kind, code)
    ensures |LaneOf(PostFront(s, urgent, code), urgent).ops| == |LaneOf(s, urgent).ops| - 1
    ensures LaneOf(PostFront(s, urgent, code), !urgent) == LaneOf(s, !urgent)
  {
    PostedKeepsQueues(s, LaneOf(s, urgent).ops[0], code);
  }

  /** A queue without its first operation. */
  lemma DropFirst<C>(ops: seq<Op<C>>)
    requires ops != [] && DistinctContexts(ops)
    ensures DistinctContexts(ops[1..])
    ensures (set op | op in ops[1..] :: op.context) == (set op | op in ops :: op.context) - {ops[0].context}
    ensures ops[0].context in (set op | op in ops :: op.context)
  {
    assert ops == [ops[0]] + ops[1..];
    assert forall i :: 0 <= i < |ops[1..]| ==> ops[1..][i] == ops[i + 1];
  }

  /** Popping the front operation and handing its context on. */
  lemma PopQueues<R, C>(s: State<R, C>, urgent: bool, code: int)
    requires Sound(s) && LaneOf(s, urgent).ops != [] && (!urgent ==> s.priority.ops == [])
    requires !Refuses(LaneOf(s, urgent).ops[0].kind, code)
    ensures
      var t := PostFront(s, urgent, code);
      var op := LaneOf(s, urgent).ops[0];
      && Queued(t) == Queued(s)[1..] && op == Queued(s)[0] && DistinctContexts(Queued(t))
      && Waiting(t) == Waiting(s) - {op.context} && op.context in Waiting(s)
  {
    PostedKeepsQueues(s, LaneOf(s, urgent).ops[0], code);
    DropFirst(Queued(s));
    assert Queued(PostFront(s, urgent, code)) == Queued(s)[1..];
  }

  lemma CompleteOwnerSound<R, C>(s: State<R, C>, c: C, err: int)
    requires Sound(s) && c in s.owner
    ensures Sound(CompleteOwner(s, c, err))
    ensures
      var t := CompleteOwner(s, c, err);
      && t.owner == s.owner[c := None] && t.requests.Keys == s.requests.Keys
      && t == s.(owner := t.owner, requests := t.requests)
  {
    if s.owner[c].Some? {
      CompleteSound(s, s.owner[c].value, err);
    } else {
      assert s.owner[c := None] == s.owner;
    }
  }

  /** The context of a popped operation moves to the fabric, the pool or the lost set. */
  lemma MoveSound<R, C>(s: State<R, C>, t: State<R, C>, c: C, ticket: nat)
    requires Sound(s) && c in Waiting(s) && IsCurrent(s, c, ticket)
    requires t.requests == s.requests && t.owner == s.owner
    requires Waiting(t) == Waiting(s) - {c} && DistinctContexts(Queued(t))
    requires forall op :: op in Queued(t) ==> op in Queued(s)
    requires
      || (t.posted == s.posted[c := ticket] && t.pool == s.pool && t.lost == s.lost)
      || (t.posted == s.posted && t.pool == s.pool && t.lost == s.lost + {c})
      || (t.posted == s.posted && t.pool == s.pool + [c] && t.lost == s.lost && s.owner[c] == None)
    ensures Sound(t)
  {
    assert Paired(t);
    assert Current(t);
  }

  lemma PostSound<R, C>(s: State<R, C>, urgent: bool, code: int)
    requires Sound(s) && LaneOf(s, urgent).ops != [] && (!urgent ==> s.priority.ops == [])
    ensures Sound(PostFront(s, urgent, code))
  {
    var op := LaneOf(s, urgent).ops[0];
    if !Refuses(op.kind, code) {
      PopQueues(s, urgent, code);
      var t := PostFront(s, urgent, code);
      var mid := s;
      if !op.kind.NoneOp? && (code != 0 || op.kind.InjectOp?) {
        var err := if code != 0 then -LFI_LIBFABRIC_ERROR else LFI_SUCCESS;
        CompleteOwnerSound(s, op.context, err);
        mid := CompleteOwner(s, op.context, err);
      }
      assert Queued(mid) == Queued(s) && Waiting(mid) == Waiting(s);
      assert IsCurrent(mid, op.context, op.ticket);
      MoveSound(mid, t, op.context, op.ticket);
    }
  }

  lemma FillSound<R, C>(s: State<R, C>, c: C, report: Report)
    requires Sound(s) && c in s.owner
    ensures Sound(Fill(s, c, report)) && Fill(s, c, report) == s.(requests := Fill(s, c, report).requests)
  {
    var f := Fill(s, c, report);
    assert Queued(f) == Queued(s) && Waiting(f) == Waiting(s);
  }

  /** Neither filling nor completing looks at what the fabric holds. */
  lemma ReadOfPosted<R, C>(s: State<R, C>, c: C, report: Report, posted: map<C, nat>)
    requires c in s.owner
    ensures Fill(s.(posted := posted), c, report) == Fill(s, c, report).(posted := posted)
    ensures CompleteOwner(s.(posted := posted), c, Outcome(report))
      == CompleteOwner(s, c, Outcome(report)).(posted := posted)
  {
  }

  /** Reading a completion is filling, completing the owner, and moving the context to the pool. */
  lemma CompletionShape<R, C>(s: State<R, C>, c: C, report: Report)
    requires Sound(s) && c in s.posted && c in s.owner
    ensures
      var f := Fill(s, c, report);
      var m := CompleteOwner(f, c, Outcome(report));
      && Sound(m) && m.owner == s.owner[c := None] && Queued(m) == Queued(s)
      && m == s.(owner := m.owner, requests := m.requests)
      && CompletionRead(s, c, report) == m.(posted := m.posted - {c}, pool := m.pool + [c])
  {
    FillSound(s, c, report);
    CompleteOwnerSound(Fill(s, c, report), c, Outcome(report));
    ReadOfPosted(s, c, report, s.posted - {c});
    ReadOfPosted(Fill(s, c, report), c, report, s.posted - {c});
  }

  lemma CompletionSound<R, C>(s: State<R, C>, c: C, report: Report)
    requires Sound(s) && c in s.posted && c in s.owner
    ensures Sound(CompletionRead(s, c, report))
  {
    CompletionShape(s, c, report);
    var m := CompleteOwner(Fill(s, c, report), c, Outcome(report));
    var t := CompletionRead(s, c, report);
    assert Queued(t) == Queued(m) && Waiting(t) == Waiting(m);
    assert Paired(t) && Current(t);
    assert forall x :: x in t.pool <==> x in m.pool || x == c;
  }

  // ----- the history of the queues -----

  ghost function Tickets<C>(ops: seq<Op<C>>): (ts: seq<nat>)
    ensures |ts| == |ops| && forall i :: 0 <= i < |ops| ==> ts[i] == ops[i].ticket
  {
    seq(|ops|, i requires 0 <= i < |ops| => ops[i].ticket)
  }

  /** The tickets of `pushed` that no cancellation dropped, in order. */
  ghost function Surviving(pushed: seq<nat>, dropped: set<nat>): seq<nat> {
    if pushed == [] then [] else
    var rest := Surviving(pushed[..|pushed| - 1], dropped);
    if pushed[|pushed| - 1] in dropped then rest else rest + [pushed[|pushed| - 1]]
  }

  ghost predicate Increasing(s: seq<nat>) {
    forall i, j :: 0 <= i < j < |s| ==> s[i] < s[j]
  }

  ghost predicate LaneRecorded<C>(lane: Lane<C>, dropped: set<nat>, bound: nat) {
    && lane.taken + Tickets(lane.ops) == Surviving(lane.pushed, dropped)
    && Increasing(lane.pushed)
    && forall t :: t in lane.pushed ==> t < bound
  }

  ghost predicate Recorded<R, C>(s: State<R, C>) {
    && LaneRecorded(s.priority, s.dropped, s.nextTicket)
    && LaneRecorded(s.normal, s.dropped, s.nextTicket)
    && (forall t :: t in s.priority.pushed ==> t !in s.normal.pushed)
    && (forall t :: t in s.dropped ==> t < s.nextTicket)
  }

  lemma {:induction false} SurvivingMembers(p: seq<nat>, d: set<nat>)
    ensures forall t :: t in Surviving(p, d) <==> t in p && t !in d
    ensures Increasing(p) ==> Increasing(Surviving(p, d))
  {
    if p != [] {
      SurvivingMembers(p[..|p| - 1], d);
      assert p == p[..|p| - 1] + [p[|p| - 1]];
      var rest := Surviving(p[..|p| - 1], d);
      forall i | Increasing(p) && 0 <= i < |rest| ensures rest[i] < p[|p| - 1] {
        assert rest[i] in rest;
      }
    }
  }

  lemma {:induction false} SurvivingConcat(p: seq<nat>, q: seq<nat>, d: set<nat>)
    ensures Surviving(p + q, d) == Surviving(p, d) + Surviving(q, d)
  {
    if q == [] {
      assert p + q == p;
    } else {
      SurvivingConcat(p, q[..|q| - 1], d);
      assert (p + q)[..|p + q| - 1] == p + q[..|q| - 1];
    }
  }

  lemma {:induction false} SurvivingTwice(p: seq<nat>, d: set<nat>, d': set<nat>)
    ensures Surviving(p, d + d') == Surviving(Surviving(p, d), d')
  {
    if p != [] {
      SurvivingTwice(p[..|p| - 1], d, d');
      var last := if p[|p| - 1] in d then [] else [p[|p| - 1]];
      SurvivingConcat(Surviving(p[..|p| - 1], d), last, d');
    }
  }

  lemma {:induction false} SurvivingAll(p: seq<nat>, d: set<nat>)
    requires forall t :: t in p ==> t !in d
    ensures Surviving(p, d) == p
  {
    if p != [] {
      SurvivingAll(p[..|p| - 1], d);
      assert p == p[..|p| - 1] + [p[|p| - 1]];
    }
  }

  /** Erasing by context is erasing by ticket when only the tickets of that context are dropped. */
  lemma {:induction false} EraseTickets<C>(ops: seq<Op<C>>, c: C, d: set<nat>)
    requires forall op :: op in ops ==> (op.ticket in d <==> op.context == c)
    ensures Tickets(Erase(ops, c)) == Surviving(Tickets(ops), d)
  {
    if ops != [] {
      var front := ops[..|ops| - 1];
      EraseTickets(front, c, d);
      assert Tickets(ops)[..|ops| - 1] == Tickets(front);
      assert ops[|ops| - 1] in ops;
    }
  }

  /** Queued tickets are different from each other and from every ticket taken out. */
  lemma QueuedTicketsDistinct<C>(lane: Lane<C>, dropped: set<nat>, bound: nat)
    requires LaneRecorded(lane, dropped, bound)
    ensures Increasing(lane.taken + Tickets(lane.ops))
    ensures forall i :: 0 <= i < |lane.ops| ==> lane.ops[i].ticket in lane.pushed && lane.ops[i].ticket !in lane.taken
  {
    SurvivingMembers(lane.pushed, dropped);
    var all := lane.taken + Tickets(lane.ops);
    forall i | 0 <= i < |lane.ops| ensures lane.ops[i].ticket in lane.pushed && lane.ops[i].ticket !in lane.taken {
      assert all[|lane.taken| + i] == lane.ops[i].ticket;
      assert all[|lane.taken| + i] in all;
      assert forall k :: 0 <= k < |lane.taken| ==> lane.taken[k] == all[k] < all[|lane.taken| + i];
    }
  }

  lemma EraseLaneRecorded<C>(lane: Lane<C>, dropped: set<nat>, bound: nat, c: C, d: set<nat>)
    requires LaneRecorded(lane, dropped, bound)
    requires forall op :: op in lane.ops ==> (op.ticket in d <==> op.context == c)
    requires forall t :: t in lane.taken ==> t !in d
    ensures LaneRecorded(lane.(ops := Erase(lane.ops, c)), dropped + d, bound)
  {
    SurvivingTwice(lane.pushed, dropped, d);
    SurvivingConcat(lane.taken, Tickets(lane.ops), d);
    SurvivingAll(lane.taken, d);
    EraseTickets(lane.ops, c, d);
  }

  lemma SubmitRecorded<R, C>(s: State<R, C>, r: R, what: Submission, urgent: bool, spare: C)
    requires Recorded(s) && r in s.requests
    ensures Recorded(SubmitOp(s, r, what, urgent, spare))
  {
    var t := SubmitOp(s, r, what, urgent, spare);
    var lane, lane' := LaneOf(s, urgent), LaneOf(t, urgent);
    assert lane'.pushed[..|lane'.pushed| - 1] == lane.pushed;
    forall i | 0 <= i < |lane.pushed| ensures lane'.pushed[i] < s.nextTicket {
      assert lane'.pushed[i] == lane.pushed[i] && lane.pushed[i] in lane.pushed;
    }
    assert lane'.taken + Tickets(lane'.ops) == lane.taken + Tickets(lane.ops) + [s.nextTicket];
  }

  lemma PostRecorded<R, C>(s: State<R, C>, urgent: bool, code: int)
    requires Recorded(s) && LaneOf(s, urgent).ops != []
    ensures Recorded(PostFront(s, urgent, code))
  {
    var lane := LaneOf(s, urgent);
    PostedKeepsQueues(s, lane.ops[0], code);
    assert lane.taken + [lane.ops[0].ticket] + Tickets(lane.ops[1..]) == lane.taken + Tickets(lane.ops);
  }

  /** The tickets that erasing the context of `r` drops. */
  ghost function DroppedBy<R, C>(s: State<R, C>, c: C): set<nat> {
    set op | op in Queued(s) && op.context == c :: op.ticket
  }

  lemma DroppedByContextOnly<R, C>(s: State<R, C>, c: C)
    requires Recorded(s)
    ensures forall op :: op in Queued(s) ==> (op.ticket in DroppedBy(s, c) <==> op.context == c)
    ensures forall t :: t in s.priority.taken || t in s.normal.taken ==> t !in DroppedBy(s, c)
  {
    QueuedTicketsDistinct(s.priority, s.dropped, s.nextTicket);
    QueuedTicketsDistinct(s.normal, s.dropped, s.nextTicket);
    SurvivingMembers(s.priority.pushed, s.dropped);
    SurvivingMembers(s.normal.pushed, s.dropped);
    assert forall t :: t in s.priority.taken ==> t in s.priority.taken + Tickets(s.priority.ops);
    assert forall t :: t in s.normal.taken ==> t in s.normal.taken + Tickets(s.normal.ops);
    forall i, j | 0 <= i < j < |Queued(s)| ensures Queued(s)[i].ticket != Queued(s)[j].ticket {
      var n := |s.priority.ops|;
      if j < n {
        var all := s.priority.taken + Tickets(s.priority.ops);
        assert all[|s.priority.taken| + i] < all[|s.priority.taken| + j];
      } else if i >= n {
        var all := s.normal.taken + Tickets(s.normal.ops);
        assert all[|s.normal.taken| + (i - n)] < all[|s.normal.taken| + (j - n)];
      }
    }
    forall op | op in Queued(s) ensures op.ticket in DroppedBy(s, c) <==> op.context == c {
      if op.ticket in DroppedBy(s, c) {
        var o :| o in Queued(s) && o.context == c && o.ticket == op.ticket;
      }
    }
  }

  lemma QueuedBelowNext<R, C>(s: State<R, C>)
    requires Recorded(s)
    ensures forall op :: op in Queued(s) ==> op.ticket < s.nextTicket
  {
    QueuedTicketsDistinct(s.priority, s.dropped, s.nextTicket);
    QueuedTicketsDistinct(s.normal, s.dropped, s.nextTicket);
    forall op | op in Queued(s) ensures op.ticket < s.nextTicket {
      assert op in s.priority.ops || op in s.normal.ops;
    }
  }

  lemma EraseDrops<R, C>(s: State<R, C>, r: R, c: C)
    requires Recorded(s) && r in s.requests && s.requests[r].context == Some(c)
    ensures EraseQueued(s, r).dropped == s.dropped + DroppedBy(s, c)
    ensures forall t :: t in DroppedBy(s, c) ==> t < s.nextTicket
  {
    QueuedBelowNext(s);
  }

  lemma EraseLaneOf<R, C>(s: State<R, C>, lane: Lane<C>, c: C)
    requires lane == s.priority || lane == s.normal
    requires LaneRecorded(lane, s.dropped, s.nextTicket)
    requires forall op :: op in Queued(s) ==> (op.ticket in DroppedBy(s, c) <==> op.context == c)
    requires forall t :: t in s.priority.taken || t in s.normal.taken ==> t !in DroppedBy(s, c)
    ensures LaneRecorded(lane.(ops := Erase(lane.ops, c)), s.dropped + DroppedBy(s, c), s.nextTicket)
  {
    assert forall op :: op in lane.ops ==> op in Queued(s);
    EraseLaneRecorded(lane, s.dropped, s.nextTicket, c, DroppedBy(s, c));
  }

  lemma EraseRecorded<R, C>(s: State<R, C>, r: R)
    requires Recorded(s) && r in s.requests
    ensures Recorded(EraseQueued(s, r))
  {
    if s.requests[r].context.Some? {
      var c := s.requests[r].context.value;
      DroppedByContextOnly(s, c);
      EraseDrops(s, r, c);
      EraseLaneOf(s, s.priority, c);
      EraseLaneOf(s, s.normal, c);
    }
  }

  // ----- every reachable state -----

  /** A request is as it was, or has been completed by the end of the operation it was waiting for. */
  ghost predicate SameOrCompleted<C>(before: RequestState<C>, after: RequestState<C>) {
    && after.ticket == before.ticket
    && (after.context == before.context || after.context == None)
    && (before.context == None ==> after == before)
  }

  lemma CompleteOwnerTouches<R, C>(s: State<R, C>, c: C, err: int, r: R)
    requires r in s.requests
    ensures r in CompleteOwner(s, c, err).requests
    ensures SameOrCompleted(s.requests[r], CompleteOwner(s, c, err).requests[r])
  {
  }

  lemma PostTouches<R, C>(s: State<R, C>, urgent: bool, code: int, r: R)
    requires LaneOf(s, urgent).ops != [] && r in s.requests
    ensures r in PostFront(s, urgent, code).requests
    ensures SameOrCompleted(s.requests[r], PostFront(s, urgent, code).requests[r])
  {
    var op := LaneOf(s, urgent).ops[0];
    PostedKeepsQueues(s, op, code);
    CompleteOwnerTouches(s, op.context, LFI_SUCCESS, r);
    CompleteOwnerTouches(s, op.context, -LFI_LIBFABRIC_ERROR, r);
  }

  /** The number of an operation under way has been given out, and no other queued operation carries it. */
  ghost predicate Numbered<R, C>(s: State<R, C>, r: R)
    requires r in s.requests
  {
    s.requests[r].context.Some? ==>
      && s.requests[r].ticket < s.nextTicket
      && forall op :: op in Queued(s) && op.ticket == s.requests[r].ticket ==> s.requests[r].context == Some(op.context)
  }

  ghost predicate Invariant<R, C>(s: State<R, C>) {
    Sound(s) && Recorded(s) && forall r :: r in s.requests ==> Numbered(s, r)
  }

  /** A new operation has a number that no request and no operation has yet. */
  lemma AddedStaysNumbered<R, C>(s: State<R, C>, t: State<R, C>, r: R, added: Op<C>)
    requires r in s.requests && r in t.requests && Numbered(s, r)
    requires t.nextTicket == s.nextTicket + 1 == added.ticket + 1
    requires forall op :: op in Queued(t) ==> op in Queued(s) || op == added
    requires forall op :: op in Queued(s) ==> op.ticket < s.nextTicket
    requires t.requests[r] == s.requests[r]
      || (t.requests[r].ticket == added.ticket && t.requests[r].context == Some(added.context))
    ensures Numbered(t, r)
  {
  }

  lemma SubmitRequests<R, C>(s: State<R, C>, r: R, what: Submission, urgent: bool, spare: C, x: R)
    requires r in s.requests && x in s.requests
    ensures
      var t := SubmitOp(s, r, what, urgent, spare);
      && x in t.requests && t.nextTicket == s.nextTicket + 1
      && (t.requests[x] == s.requests[x]
          || (t.requests[x].ticket == s.nextTicket && t.requests[x].context == Some(Handout(s, spare))))
  {
  }

  lemma SubmitStaysNumbered<R, C>(s: State<R, C>, r: R, what: Submission, urgent: bool, spare: C, x: R)
    requires Sound(s) && Recorded(s) && r in s.requests && spare !in s.owner && x in s.requests && Numbered(s, x)
    ensures x in SubmitOp(s, r, what, urgent, spare).requests && Numbered(SubmitOp(s, r, what, urgent, spare), x)
  {
    QueuedBelowNext(s);
    SubmitQueues(s, r, what, urgent, spare);
    SubmitRequests(s, r, what, urgent, spare, x);
    var t := SubmitOp(s, r, what, urgent, spare);
    AddedStaysNumbered(s, t, x, Op(what.Kind(), Handout(s, spare), s.nextTicket));
  }

  lemma EraseStaysNumbered<R, C>(s: State<R, C>, x: R, r: R)
    requires Invariant(s) && x in s.requests && r in s.requests
    ensures Numbered(EraseQueued(s, x), r)
  {
    assert Numbered(s, r);
    if s.requests[x].context.Some? {
      EraseQueues(s, x);
      var t := EraseQueued(s, x);
      forall op | op in Queued(t) && op.ticket == s.requests[r].ticket && s.requests[r].context.Some?
        ensures s.requests[r].context == Some(op.context)
      {
        assert op in Queued(s);
      }
    }
  }

  /** Queues that only shrink and requests that are only completed keep the numbering. */
  lemma StaysNumbered<R, C>(s: State<R, C>, t: State<R, C>, r: R)
    requires r in s.requests && r in t.requests && Numbered(s, r)
    requires SameOrCompleted(s.requests[r], t.requests[r]) && t.nextTicket == s.nextTicket
    requires forall op :: op in Queued(t) ==> op in Queued(s)
    ensures Numbered(t, r)
  {
  }

  lemma PostStaysNumbered<R, C>(s: State<R, C>, urgent: bool, code: int, r: R)
    requires LaneOf(s, urgent).ops != [] && r in s.requests && Numbered(s, r)
    ensures r in PostFront(s, urgent, code).requests && Numbered(PostFront(s, urgent, code), r)
  {
    PostedKeepsQueues(s, LaneOf(s, urgent).ops[0], code);
    PostTouches(s, urgent, code, r);
    StaysNumbered(s, PostFront(s, urgent, code), r);
  }

  lemma CompletionStaysNumbered<R, C>(s: State<R, C>, c: C, report: Report, r: R)
    requires Sound(s) && Enabled(s, Event<R, C>.Completion(c, report)) && r in s.requests && Numbered(s, r)
    ensures r in CompletionRead(s, c, report).requests && Numbered(CompletionRead(s, c, report), r)
  {
    CompletionShape(s, c, report);
    StaysNumbered(s, CompletionRead(s, c, report), r);
  }

  lemma StepStaysNumbered<R, C>(s: State<R, C>, e: Event<R, C>, r: R)
    requires Invariant(s) && Enabled(s, e) && r in s.requests
    ensures r in Step(s, e).requests && Numbered(Step(s, e), r)
  {
    assert Numbered(s, r);
    match e
    case Submit(x, what, urgent, spare) => SubmitStaysNumbered(s, x, what, urgent, spare, r);
    case Post(urgent, code) => PostStaysNumbered(s, urgent, code, r);
    case Completion(c, report) => CompletionStaysNumbered(s, c, report, r);
    case CancelErase(x) => EraseStaysNumbered(s, x, r);
    case Complete(x, err) => StaysNumbered(s, CompleteRequest(s, x, err), r);
  }

  lemma StepKeepsPlaces<R, C>(s: State<R, C>, e: Event<R, C>)
    requires Sound(s) && Recorded(s) && Enabled(s, e)
    ensures Sound(Step(s, e)) && Recorded(Step(s, e))
  {
    match e
    case Submit(r, what, urgent, spare) =>
      SubmitSound(s, r, what, urgent, spare);
      SubmitRecorded(s, r, what, urgent, spare);
    case Post(urgent, code) =>
      PostSound(s, urgent, code);
      PostRecorded(s, urgent, code);
    case Completion(c, report) =>
      CompletionSound(s, c, report);
      CompletionShape(s, c, report);
    case CancelErase(r) =>
      EraseSound(s, r);
      EraseRecorded(s, r);
    case Complete(r, err) =>
      CompleteSound(s, r, err);
  }

  lemma StepKeepsRequests<R, C>(s: State<R, C>, e: Event<R, C>)
    requires Enabled(s, e)
    ensures Step(s, e).requests.Keys == s.requests.Keys
  {
  }

  lemma StepKeepsInvariant<R, C>(s: State<R, C>, e: Event<R, C>)
    requires Invariant(s) && Enabled(s, e)
    ensures Invariant(Step(s, e))
  {
    StepKeepsPlaces(s, e);
    StepKeepsRequests(s, e);
    forall r | r in s.requests ensures Numbered(Step(s, e), r) {
      StepStaysNumbered(s, e, r);
    }
  }

  lemma InitialInvariant<R, C>(requests: map<R, RequestState<C>>)
    requires forall r :: r in requests ==> requests[r].context.None?
    ensures Invariant(Initial(requests))
  {
    var s := Initial(requests);
    assert Sound(s) && Recorded(s);
    forall r | r in s.requests ensures Numbered(s, r) {
    }
  }

  /** A new request, which has no operation outstanding, keeps the invariant. */
  lemma NewRequestKeepsInvariant<R, C>(s: State<R, C>, r: R, rs: RequestState<C>)
    requires Invariant(s) && r !in s.requests && rs.context == None
    ensures Invariant(s.(requests := s.requests[r := rs]))
  {
    var t := s.(requests := s.requests[r := rs]);
    assert Queued(t) == Queued(s) && Waiting(t) == Waiting(s);
    assert Sound(t) && Recorded(t);
    forall x | x in t.requests ensures Numbered(t, x) {
      assert x != r ==> Numbered(s, x);
    }
  }

  /**
   * Context safety: assignment is mutual, pooled contexts are distinct and unassigned, and no context is in two of the
   * pool, the queues, the fabric and the lost set.
   */
  ghost predicate SafeContext<R, C>(s: State<R, C>, r: R, c: C) {
    && ((c in s.owner && s.owner[c] == Some(r)) <==> (r in s.requests && s.requests[r].context == Some(c)))
    && (forall i, j :: 0 <= i < j < |s.pool| ==> s.pool[i] != s.pool[j])
    && (c in s.pool ==> c in s.owner && s.owner[c] == None)
    && (c in s.owner <==> c in s.pool || c in Waiting(s) || c in s.posted || c in s.lost)
    && (c in s.pool ==> c !in Waiting(s) && c !in s.posted && c !in s.lost)
    && (c in Waiting(s) ==> c !in s.posted && c !in s.lost)
    && (c in s.posted ==> c !in s.lost)
  }

  lemma ContextsAreSafe<R, C>(s: State<R, C>, r: R, c: C)
    requires Invariant(s)
    ensures SafeContext(s, r, c)
  {
  }

  /** What a submission sets and queues. */
  lemma SubmitMeans<R, C>(s: State<R, C>, r: R, what: Submission, urgent: bool, spare: C)
    requires r in s.requests
    ensures
      var t, rs := SubmitOp(s, r, what, urgent, spare), SubmitOp(s, r, what, urgent, spare).requests[r];
      && rs.context == Some(if s.pool == [] then spare else s.pool[|s.pool| - 1]) && rs.error == LFI_SUCCESS
      && rs.source == what.commId && rs.size == what.size && rs.ticket == s.nextTicket
      && rs.tag == (if what.SendMsg? || what.RecvMsg? then what.tag else 0)
      && (rs.opType == PUT <==> what.PutMem?) && (rs.opType == GET <==> what.GetMem?)
      && (rs.opType == RECV <==> what.RecvMsg?) && (rs.opType == INJECT <==> what.SendMsg? && what.inject)
      && (rs.opType == SEND <==> what.SendMsg? && !what.inject)
      && (forall x :: x in s.requests && x != r ==> x in t.requests && t.requests[x] == s.requests[x])
    ensures
      var t := SubmitOp(s, r, what, urgent, spare);
      var before, after := if urgent then s.priority else s.normal, if urgent then t.priority else t.normal;
      && |after.ops| == |before.ops| + 1 && after.ops[..|before.ops|] == before.ops
      && (if urgent then t.normal == s.normal else t.priority == s.priority)
      && var op := after.ops[|before.ops|];
      && op.ticket == s.nextTicket && t.requests[r].context == Some(op.context)
      && (op.kind == PutOp <==> what.PutMem?) && (op.kind == GetOp <==> what.GetMem?)
      && (op.kind == InjectOp <==> what.SendMsg? && what.inject)
      && (op.kind == SendOp <==> what.SendMsg? && !what.inject && !what.vectored)
      && (op.kind == SendvOp <==> what.SendMsg? && !what.inject && what.vectored)
      && (op.kind == RecvOp <==> what.RecvMsg? && !what.vectored)
      && (op.kind == RecvvOp <==> what.RecvMsg? && what.vectored)
  {
  }

  /** Where the operation at the front of a queue goes, by the fabric's answer. */
  lemma PostMeans<R, C>(s: State<R, C>, urgent: bool, code: int)
    requires Sound(s) && Enabled(s, Event<R, C>.Post(urgent, code))
    ensures
      var op, t := LaneOf(s, urgent).ops[0], PostFront(s, urgent, code);
      var c := op.context;
      && (code == -FI_EAGAIN && !op.kind.NoneOp? ==> t == s)
      && (code == 0 && !op.kind.NoneOp? && !op.kind.InjectOp? ==>
            c in t.posted && t.posted[c] == op.ticket && t.requests == s.requests)
      && (code == 0 && op.kind.InjectOp? ==> t.posted == s.posted && t.pool == s.pool + [c])
      && (code != 0 && code != -FI_EAGAIN && !op.kind.NoneOp? ==> t.posted == s.posted && c in t.lost)
      && (t != s ==> LaneOf(t, urgent).ops == LaneOf(s, urgent).ops[1..] && LaneOf(t, !urgent) == LaneOf(s, !urgent))
  {
    PostedKeepsQueues(s, LaneOf(s, urgent).ops[0], code);
  }

  /** What reading an entry at once makes of the request that its context is assigned to. */
  lemma CompletionMeans<R, C>(s: State<R, C>, c: C, report: Report, r: R)
    requires Sound(s) && Enabled(s, Event<R, C>.Completion(c, report)) && r in s.requests
    requires s.requests[r].context == Some(c)
    ensures r in CompletionRead(s, c, report).requests
    ensures
      var rs, t := s.requests[r], CompletionRead(s, c, report);
      var after := t.requests[r];
      && after.context == None && after.opType == rs.opType && after.ticket == rs.ticket
      && (report.Done? ==> after.error == LFI_SUCCESS)
      && (report.Failed? ==>
            (report.reason.Canceled? <==> after.error == -LFI_CANCELED)
            && (report.reason.NoMessage? <==> after.error == -LFI_PEEK_NO_MSG)
            && (report.reason.Truncated? <==> after.error == -LFI_ETRUN_RECV)
            && (report.reason.Other? <==> after.error == -LFI_LIBFABRIC_ERROR))
      && (report.Done? && rs.opType.RECV? ==>
            after.size == report.len && after.tag == report.tag && after.source == report.source)
      && (!(report.Done? && rs.opType.RECV?) ==>
            after.size == rs.size && after.tag == rs.tag && after.source == rs.source)
      && c in t.pool && c !in t.posted
  {
    CompletionShape(s, c, report);
    assert s.owner[c] == Some(r);
  }

  /**
   * A completion read at once, however late after its request was cancelled or used again and even after other contexts
   * were recycled, changes no request but the one whose current operation it completes.
   */
  lemma LateCompletionIsHarmless<R, C>(s: State<R, C>, c: C, report: Report, r: R)
    requires Invariant(s) && Enabled(s, Completion(c, report)) && r in s.requests
    ensures
      var t := Step(s, Completion(c, report));
      && t.requests.Keys == s.requests.Keys
      && (t.requests[r] != s.requests[r] ==> s.requests[r].context == Some(c) && s.requests[r].ticket == s.posted[c])
      && (s.requests[r].context == Some(c) ==> t.requests[r].context == None && t.requests[r].error == Outcome(report))
  {
    CompletionShape(s, c, report);
  }

  /** Cancelling drops at most the current operation of the cancelled request and keeps everything else in order. */
  lemma CancelRemovesOnlyItsOwn<R, C>(s: State<R, C>, r: R)
    requires Invariant(s) && r in s.requests
    ensures
      var t := EraseQueued(s, r);
      && (forall k :: k in t.dropped - s.dropped ==> k == s.requests[r].ticket)
      && t.requests == s.requests && t.posted == s.posted && t.pool == s.pool
      && |Queued(t)| >= |Queued(s)| - 1
      && (forall op :: op in Queued(t) <==> op in Queued(s) && s.requests[r].context != Some(op.context))
  {
    if s.requests[r].context.Some? {
      var c := s.requests[r].context.value;
      EraseQueues(s, r);
      EraseLosesOne(Queued(s), c);
      forall k | k in EraseQueued(s, r).dropped - s.dropped ensures k == s.requests[r].ticket {
        var op :| op in Queued(s) && op.context == c && op.ticket == k;
        assert IsCurrent(s, op.context, op.ticket);
      }
    }
  }

  lemma {:induction false} EraseLosesOne<C>(ops: seq<Op<C>>, c: C)
    requires DistinctContexts(ops)
    ensures |Erase(ops, c)| >= |ops| - 1
    ensures (forall op :: op in ops ==> op.context != c) ==> Erase(ops, c) == ops
  {
    if ops != [] {
      var front, last := ops[..|ops| - 1], ops[|ops| - 1];
      assert ops == front + [last];
      EraseLosesOne(front, c);
      if last.context == c {
        forall op | op in front ensures op.context != c {
          var k :| 0 <= k < |front| && front[k] == op;
          assert ops[k].context != ops[|ops| - 1].context;
        }
      }
    }
  }

  /** Contexts are lost only by cancelling a queued operation or by a posting that fails. */
  lemma LostOnlyByCancelOrError<R, C>(s: State<R, C>, e: Event<R, C>)
    requires Sound(s) && Enabled(s, e)
    ensures Step(s, e).lost != s.lost ==>
      || (e.CancelErase? && s.requests[e.r].context.Some? && s.requests[e.r].context.value in Waiting(s))
      || (e.Post? && ((e.code != 0 && e.code != -FI_EAGAIN) || LaneOf(s, e.urgent).ops[0].kind.NoneOp?))
  {
    if e.CancelErase? && s.requests[e.r].context.Some? {
      EraseQueues(s, e.r);
    }
    if e.Completion? {
      CompletionShape(s, e.context, e.report);
    }
  }

  // ----- posting passes -----

  /** Posting from one queue until it is empty or the fabric says "again"; `fabric(k)` is its k-th answer. */
  ghost function Drain<R, C>(s: State<R, C>, urgent: bool, fabric: nat -> int, k: nat): (State<R, C>, bool, nat)
    decreases |LaneOf(s, urgent).ops|
  {
    if LaneOf(s, urgent).ops == [] then (s, true, k)
    else if Refuses(LaneOf(s, urgent).ops[0].kind, fabric(k)) then (s, false, k + 1)
    else
      PostedKeepsQueues(s, LaneOf(s, urgent).ops[0], fabric(k));
      Drain(PostFront(s, urgent, fabric(k)), urgent, fabric, k + 1)
  }

  /** The priority queue first; the normal queue only when the priority queue could be emptied. */
  ghost function PostPass<R, C>(s: State<R, C>, fabric: nat -> int): State<R, C> {
    var (t, emptied, k) := Drain(s, true, fabric, 0);
    if emptied then Drain(t, false, fabric, k).0 else t
  }

  lemma {:induction false} DrainIsRun<R, C>(s: State<R, C>, urgent: bool, fabric: nat -> int, k: nat)
      returns (events: seq<Event<R, C>>)
    requires !urgent ==> s.priority.ops == []
    ensures CanRun(s, events) && Run(s, events) == Drain(s, urgent, fabric, k).0
    ensures forall e :: e in events ==> e.Post? && e.urgent == urgent
    ensures urgent ==> Drain(s, urgent, fabric, k).0.normal == s.normal
    ensures !urgent ==> Drain(s, urgent, fabric, k).0.priority == s.priority
    ensures Drain(s, urgent, fabric, k).1 ==> LaneOf(Drain(s, urgent, fabric, k).0, urgent).ops == []
    decreases |LaneOf(s, urgent).ops|
  {
    if LaneOf(s, urgent).ops == [] || Refuses(LaneOf(s, urgent).ops[0].kind, fabric(k)) {
      events := [];
    } else {
      PostedKeepsQueues(s, LaneOf(s, urgent).ops[0], fabric(k));
      var rest := DrainIsRun(PostFront(s, urgent, fabric(k)), urgent, fabric, k + 1);
      events := [Post(urgent, fabric(k))] + rest;
      assert events[1..] == rest;
    }
  }

  /** Taking the front operation out: it is the first of its queue, and its ticket the next that is taken. */
  lemma PostTakes<R, C>(s: State<R, C>, urgent: bool, code: int)
    requires LaneOf(s, urgent).ops != [] && !Refuses(LaneOf(s, urgent).ops[0].kind, code)
    ensures
      var lane, after := LaneOf(s, urgent), LaneOf(PostFront(s, urgent, code), urgent);
      after.ops == lane.ops[1..] && after.taken == lane.taken + [lane.ops[0].ticket]
    ensures LaneOf(PostFront(s, urgent, code), !urgent) == LaneOf(s, !urgent)
  {
    PostedKeepsQueues(s, LaneOf(s, urgent).ops[0], code);
  }

  /** A lane after its first `m` operations have been taken out. */
  ghost predicate Advanced<C>(lane: Lane<C>, after: Lane<C>, m: nat) {
    && m <= |lane.ops| && after.ops == lane.ops[m..]
    && after.taken == lane.taken + Tickets(lane.ops[..m])
  }

  lemma AdvancedOne<C>(lane: Lane<C>, next: Lane<C>, after: Lane<C>, m: nat)
    requires lane.ops != [] && next.ops == lane.ops[1..] && next.taken == lane.taken + [lane.ops[0].ticket]
    requires Advanced(next, after, m)
    ensures Advanced(lane, after, m + 1)
  {
    assert lane.ops[1..][m..] == lane.ops[m + 1..];
    assert Tickets(lane.ops[..m + 1]) == [lane.ops[0].ticket] + Tickets(lane.ops[1..][..m]);
  }

  /** The fabric takes the first `n` operations, its answers beginning with the k-th. */
  ghost predicate Accepted<C>(ops: seq<Op<C>>, n: nat, fabric: nat -> int, k: nat)
    requires n <= |ops|
  {
    forall j :: 0 <= j < n ==> !Refuses(ops[j].kind, fabric(k + j))
  }

  lemma AcceptedNext<C>(ops: seq<Op<C>>, n: nat, fabric: nat -> int, k: nat)
    requires ops != [] && n < |ops| && !Refuses(ops[0].kind, fabric(k)) && Accepted(ops[1..], n, fabric, k + 1)
    ensures Accepted(ops, n + 1, fabric, k)
  {
    forall j | 0 <= j < n + 1 ensures !Refuses(ops[j].kind, fabric(k + j)) {
      assert j > 0 ==> ops[j] == ops[1..][j - 1] && k + j == k + 1 + (j - 1);
    }
  }

  lemma AcceptedBoth<C>(a: seq<Op<C>>, b: seq<Op<C>>, n: nat, fabric: nat -> int)
    requires Accepted(a, |a|, fabric, 0) && n <= |b| && Accepted(b, n, fabric, |a|)
    ensures Accepted(a + b, |a| + n, fabric, 0)
  {
    forall j | 0 <= j < |a| + n ensures !Refuses((a + b)[j].kind, fabric(0 + j)) {
      assert j >= |a| ==> (a + b)[j] == b[j - |a|] && j == |a| + (j - |a|);
    }
  }

  /** What `d` says of a loop that begins with the k-th answer: `m` operations were taken from the queue. */
  ghost predicate Drained<R, C>(s: State<R, C>, urgent: bool, d: (State<R, C>, bool, nat), fabric: nat -> int, k: nat,
                                m: nat) {
    var ops := LaneOf(s, urgent).ops;
    && Advanced(LaneOf(s, urgent), LaneOf(d.0, urgent), m) && LaneOf(d.0, !urgent) == LaneOf(s, !urgent)
    && Accepted(ops, m, fabric, k) && (m < |ops| ==> Refuses(ops[m].kind, fabric(k + m)))
    && (d.1 <==> m == |ops|) && (d.1 ==> d.2 == k + m)
  }

  lemma DrainedNext<R, C>(s: State<R, C>, next: State<R, C>, urgent: bool, d: (State<R, C>, bool, nat),
                          fabric: nat -> int, k: nat, m: nat)
    requires LaneOf(s, urgent).ops != [] && !Refuses(LaneOf(s, urgent).ops[0].kind, fabric(k))
    requires LaneOf(next, urgent).ops == LaneOf(s, urgent).ops[1..] && LaneOf(next, !urgent) == LaneOf(s, !urgent)
    requires LaneOf(next, urgent).taken == LaneOf(s, urgent).taken + [LaneOf(s, urgent).ops[0].ticket]
    requires Drained(next, urgent, d, fabric, k + 1, m)
    ensures Drained(s, urgent, d, fabric, k, m + 1)
  {
    AdvancedOne(LaneOf(s, urgent), LaneOf(next, urgent), LaneOf(d.0, urgent), m);
    AcceptedNext(LaneOf(s, urgent).ops, m, fabric, k);
  }

  /** The loop on one queue takes operations until the fabric says "again" to one, or none is left. */
  lemma {:induction false} DrainMeans<R, C>(s: State<R, C>, urgent: bool, fabric: nat -> int, k: nat)
      returns (m: nat)
    ensures Drained(s, urgent, Drain(s, urgent, fabric, k), fabric, k, m)
    decreases |LaneOf(s, urgent).ops|
  {
    var lane := LaneOf(s, urgent);
    m := 0;
    if lane.ops != [] && !Refuses(lane.ops[0].kind, fabric(k)) {
      PostTakes(s, urgent, fabric(k));
      var next := PostFront(s, urgent, fabric(k));
      m := DrainMeans(next, urgent, fabric, k + 1);
      DrainedNext(s, next, urgent, Drain(next, urgent, fabric, k + 1), fabric, k, m);
      m := m + 1;
    } else {
      assert Tickets(lane.ops[..0]) == [];
    }
  }

  /** The lanes of `t` are those of `s` after the first `n` queued operations were taken out, priority ones first. */
  ghost predicate TookFirst<R, C>(s: State<R, C>, t: State<R, C>, n: nat) {
    var p := |s.priority.ops|;
    && Advanced(s.priority, t.priority, if n < p then n else p)
    && Advanced(s.normal, t.normal, if n < p then 0 else n - p)
  }

  lemma TookFirstOfQueue<R, C>(s: State<R, C>, t: State<R, C>, n: nat)
    requires TookFirst(s, t, n)
    ensures n <= |Queued(s)| && Queued(t) == Queued(s)[n..]
  {
    var p := |s.priority.ops|;
    if n < p {
      assert t.normal.ops == s.normal.ops;
    } else {
      assert t.priority.ops == [];
    }
  }

  /** `n` operations were taken, and "again" was said to the next, if there is one. */
  ghost predicate StopsAt<R, C>(s: State<R, C>, t: State<R, C>, n: nat, fabric: nat -> int) {
    && TookFirst(s, t, n) && n <= |Queued(s)| && Accepted(Queued(s), n, fabric, 0)
    && (n < |Queued(s)| ==> Refuses(Queued(s)[n].kind, fabric(n)))
  }

  lemma StopsInPriority<R, C>(s: State<R, C>, t: State<R, C>, n: nat, fabric: nat -> int)
    requires Advanced(s.priority, t.priority, n) && t.normal == s.normal && n < |s.priority.ops|
    requires Accepted(s.priority.ops, n, fabric, 0) && Refuses(s.priority.ops[n].kind, fabric(n))
    ensures StopsAt(s, t, n, fabric)
  {
    assert forall j :: 0 <= j <= n ==> Queued(s)[j] == s.priority.ops[j];
    assert s.normal.ops[0..] == s.normal.ops && Tickets(s.normal.ops[..0]) == [];
  }

  lemma StopsInNormal<R, C>(s: State<R, C>, t: State<R, C>, n: nat, fabric: nat -> int)
    requires Advanced(s.priority, t.priority, |s.priority.ops|) && Advanced(s.normal, t.normal, n)
    requires Accepted(s.priority.ops, |s.priority.ops|, fabric, 0)
    requires Accepted(s.normal.ops, n, fabric, |s.priority.ops|)
    requires n < |s.normal.ops| ==> Refuses(s.normal.ops[n].kind, fabric(|s.priority.ops| + n))
    ensures StopsAt(s, t, |s.priority.ops| + n, fabric)
  {
    AcceptedBoth(s.priority.ops, s.normal.ops, n, fabric);
  }

  lemma PostPassIs<R, C>(s: State<R, C>, fabric: nat -> int)
    ensures
      var d := Drain(s, true, fabric, 0);
      PostPass(s, fabric) == if d.1 then Drain(d.0, false, fabric, d.2).0 else d.0
  {
  }

  lemma StopsFrom<R, C>(s: State<R, C>, d: (State<R, C>, bool, nat), e: (State<R, C>, bool, nat), n: nat, m: nat,
                        fabric: nat -> int)
    requires Drained(s, true, d, fabric, 0, n) && (d.1 ==> Drained(d.0, false, e, fabric, d.2, m))
    ensures if d.1 then StopsAt(s, e.0, n + m, fabric) else StopsAt(s, d.0, n, fabric)
  {
    if d.1 {
      StopsInNormal(s, e.0, m, fabric);
    } else {
      StopsInPriority(s, d.0, n, fabric);
    }
  }

  /** Where a pass stops. */
  lemma PassStops<R, C>(s: State<R, C>, fabric: nat -> int) returns (n: nat)
    ensures StopsAt(s, PostPass(s, fabric), n, fabric)
  {
    var d := Drain(s, true, fabric, 0);
    var e := Drain(d.0, false, fabric, d.2);
    n := DrainMeans(s, true, fabric, 0);
    var m := DrainMeans(d.0, false, fabric, d.2);
    StopsFrom(s, d, e, n, m, fabric);
    PostPassIs(s, fabric);
    n := if d.1 then n + m else n;
  }

  /**
   * A posting pass takes the first `n` queued operations, priority ones first and each in the order of its queue; the
   * fabric says "again" to the next one, or there is none. Operation `j` of them is given the fabric's answer `j`.
   */
  lemma PassMeans<R, C>(s: State<R, C>, fabric: nat -> int) returns (n: nat)
    ensures n <= |Queued(s)| && Queued(PostPass(s, fabric)) == Queued(s)[n..]
    ensures forall j :: 0 <= j < n ==> fabric(j) != -FI_EAGAIN || Queued(s)[j].kind.NoneOp?
    ensures n < |Queued(s)| ==> fabric(n) == -FI_EAGAIN && !Queued(s)[n].kind.NoneOp?
    ensures
      var p, t := |s.priority.ops|, PostPass(s, fabric);
      && t.priority.taken == s.priority.taken + Tickets(s.priority.ops[..if n < p then n else p])
      && t.normal.taken == s.normal.taken + Tickets(s.normal.ops[..if n < p then 0 else n - p])
  {
    n := PassStops(s, fabric);
    TookFirstOfQueue(s, PostPass(s, fabric), n);
    forall j | 0 <= j < n ensures fabric(j) != -FI_EAGAIN || Queued(s)[j].kind.NoneOp? {
      assert !Refuses(Queued(s)[j].kind, fabric(0 + j));
    }
  }

  /** With a fabric that never says "again", a pass empties both queues and takes every operation. */
  lemma PassEmptiesQueues<R, C>(s: State<R, C>, fabric: nat -> int)
    requires forall k :: fabric(k) != -FI_EAGAIN
    ensures
      var t := PostPass(s, fabric);
      && t.priority.ops == [] && t.normal.ops == []
      && t.priority.taken == s.priority.taken + Tickets(s.priority.ops)
      && t.normal.taken == s.normal.taken + Tickets(s.normal.ops)
  {
    var n := PassMeans(s, fabric);
    assert s.priority.ops[..|s.priority.ops|] == s.priority.ops && s.normal.ops[..|s.normal.ops|] == s.normal.ops;
    assert Queued(PostPass(s, fabric)) == [];
  }

  lemma {:induction false} RunConcat<R, C>(s: State<R, C>, a: seq<Event<R, C>>, b: seq<Event<R, C>>)
    requires CanRun(s, a) && CanRun(Run(s, a), b)
    ensures CanRun(s, a + b) && Run(s, a + b) == Run(Run(s, a), b)
    decreases |a|
  {
    if a == [] {
      assert a + b == b;
    } else {
      RunConcat(Step(s, a[0]), a[1..], b);
      assert (a + b)[0] == a[0] && (a + b)[1..] == a[1..] + b;
    }
  }

  /** A posting pass is a run of posting steps, and touches the normal queue only if the priority queue is emptied. */
  lemma PassIsRun<R, C>(s: State<R, C>, fabric: nat -> int) returns (events: seq<Event<R, C>>)
    ensures CanRun(s, events) && Run(s, events) == PostPass(s, fabric)
    ensures forall e :: e in events ==> e.Post?
    ensures PostPass(s, fabric).normal != s.normal ==> PostPass(s, fabric).priority.ops == []
  {
    events := DrainIsRun(s, true, fabric, 0);
    var (t, emptied, k) := Drain(s, true, fabric, 0);
    if emptied {
      var more := DrainIsRun(t, false, fabric, k);
      RunConcat(s, events, more);
      events := events + more;
    }
  }

  /**
   * Posting order: what posting took out of a queue followed by what is still queued is what was pushed without what
   * was cancelled, in order, and no ticket is taken out twice.
   */
  ghost predicate InOrder<R, C>(s: State<R, C>) {
    && s.priority.taken + Tickets(s.priority.ops) == Surviving(s.priority.pushed, s.dropped)
    && s.normal.taken + Tickets(s.normal.ops) == Surviving(s.normal.pushed, s.dropped)
    && Increasing(s.priority.taken) && Increasing(s.normal.taken)
    && (forall t :: t in s.priority.taken ==> t !in s.normal.taken)
  }

  lemma QueuesAreInOrder<R, C>(s: State<R, C>)
    requires Invariant(s)
    ensures InOrder(s)
  {
    QueuedTicketsDistinct(s.priority, s.dropped, s.nextTicket);
    QueuedTicketsDistinct(s.normal, s.dropped, s.nextTicket);
    SurvivingMembers(s.priority.pushed, s.dropped);
    SurvivingMembers(s.normal.pushed, s.dropped);
    var p, n := s.priority.taken + Tickets(s.priority.ops), s.normal.taken + Tickets(s.normal.ops);
    assert forall i :: 0 <= i < |s.priority.taken| ==> s.priority.taken[i] == p[i];
    assert forall i :: 0 <= i < |s.normal.taken| ==> s.normal.taken[i] == n[i];
    assert forall t :: t in s.priority.taken ==> t in p;
    assert forall t :: t in s.normal.taken ==> t in n;
  }

  // ----- one progress call -----

  datatype Entry<C> = Entry(context: C, report: Report)

  ghost function ReadAll<R, C>(s: State<R, C>, batch: seq<Entry<C>>): State<R, C>
    requires forall e :: e in batch ==> e.context in s.owner
    decreases |batch|
  {
    if batch == [] then s else
    var t := CompletionRead(s, batch[0].context, batch[0].report);
    OwnersStay(s, batch[0].context, batch[0].report);
    ReadAll(t, batch[1..])
  }

  lemma OwnersStay<R, C>(s: State<R, C>, c: C, report: Report)
    requires c in s.owner
    ensures s.owner.Keys <= CompletionRead(s, c, report).owner.Keys
    ensures CompletionRead(s, c, report).requests.Keys == s.requests.Keys
  {
  }

  /** One call of `progress`: the completion queue is read, then pending operations are posted. */
  ghost function Progress<R, C>(s: State<R, C>, batch: seq<Entry<C>>, fabric: nat -> int): State<R, C>
    requires forall e :: e in batch ==> e.context in s.owner
  {
    PostPass(ReadAll(s, batch), fabric)
  }

  /** Whether each entry reports a context that the fabric still holds when it is read. */
  ghost predicate Readable<R, C>(s: State<R, C>, batch: seq<Entry<C>>)
    decreases |batch|
  {
    batch == [] ||
    (Enabled(s, Completion(batch[0].context, batch[0].report))
      && Readable(CompletionRead(s, batch[0].context, batch[0].report), batch[1..]))
  }

  lemma {:induction false} ReadAllIsRun<R, C>(s: State<R, C>, batch: seq<Entry<C>>) returns (events: seq<Event<R, C>>)
    requires (forall e :: e in batch ==> e.context in s.owner) && Readable(s, batch)
    ensures CanRun(s, events) && Run(s, events) == ReadAll(s, batch)
    ensures forall e :: e in events ==> e.Completion?
    decreases |batch|
  {
    if batch == [] {
      events := [];
    } else {
      var t := CompletionRead(s, batch[0].context, batch[0].report);
      OwnersStay(s, batch[0].context, batch[0].report);
      var rest := ReadAllIsRun(t, batch[1..]);
      events := [Completion(batch[0].context, batch[0].report)] + rest;
      assert events[1..] == rest;
    }
  }

  /** The error a cancellation reports if the request is still not complete. */
  function CancelError(opType: OpType, error: int, commCanceled: bool): int {
    if opType.INJECT? then -LFI_CANCELED
    else if commCanceled || error == -LFI_BROKEN_COMM then -LFI_BROKEN_COMM
    else -LFI_CANCELED
  }

  ghost predicate OnlyProgress<R, C>(events: seq<Event<R, C>>) {
    forall e :: e in events ==> e.Post? || e.Completion?
  }

  /** The operations waiting in the queues after progress were waiting there before. */
  lemma {:induction false} ProgressQueuesNothing<R, C>(s: State<R, C>, events: seq<Event<R, C>>)
    requires CanRun(s, events) && OnlyProgress(events)
    ensures forall op :: op in Queued(Run(s, events)) ==> op in Queued(s)
    decreases |events|
  {
    if events != [] {
      var e := events[0];
      assert e in events;
      if e.Post? {
        PostedKeepsQueues(s, LaneOf(s, e.urgent).ops[0], e.code);
      }
      assert OnlyProgress(events[1..]);
      ProgressQueuesNothing(Step(s, e), events[1..]);
    }
  }

  /** What one progress call does is a run of posting and completion steps. */
  lemma ProgressIsRun<R, C>(s: State<R, C>, batch: seq<Entry<C>>, fabric: nat -> int) returns (events: seq<Event<R, C>>)
    requires (forall e :: e in batch ==> e.context in s.owner) && Readable(s, batch)
    ensures CanRun(s, events) && OnlyProgress(events) && Run(s, events) == Progress(s, batch, fabric)
  {
    var readings := ReadAllIsRun(s, batch);
    var posts := PassIsRun(ReadAll(s, batch), fabric);
    RunConcat(s, readings, posts);
    events := readings + posts;
  }

  // ----- a request that no longer waits in a queue -----

  /** No queue holds the operation. */
  ghost predicate NotQueued<R, C>(s: State<R, C>, ticket: nat) {
    forall op :: op in Queued(s) ==> op.ticket != ticket
  }

  /** A request under way that no longer waits in a queue. */
  ghost predicate Withdrawn<R, C>(s: State<R, C>, r: R, ticket: nat) {
    && r in s.requests && s.requests[r].ticket == ticket
    && ticket < s.nextTicket && NotQueued(s, ticket)
  }

  lemma PostedLeaves<R, C>(s: State<R, C>, op: Op<C>, code: int, r: R)
    requires r in s.requests && (op.context in s.owner ==> s.owner[op.context] != Some(r))
    ensures r in Posted(s, op, code).requests && Posted(s, op, code).requests[r] == s.requests[r]
  {
  }

  lemma QueuedAfterPost<R, C>(s: State<R, C>, urgent: bool, code: int)
    requires LaneOf(s, urgent).ops != []
    ensures forall op :: op in Queued(PostFront(s, urgent, code)) ==> op in Queued(s)
    ensures PostFront(s, urgent, code).nextTicket == s.nextTicket
  {
    PostedKeepsQueues(s, LaneOf(s, urgent).ops[0], code);
  }

  /** A posting concerns the operation at the front of a queue only. */
  lemma PostLeaves<R, C>(s: State<R, C>, urgent: bool, code: int, r: R, ticket: nat)
    requires Invariant(s) && Enabled(s, Event<R, C>.Post(urgent, code)) && Withdrawn(s, r, ticket)
    ensures Withdrawn(PostFront(s, urgent, code), r, ticket)
    ensures PostFront(s, urgent, code).requests[r] == s.requests[r]
  {
    var op := LaneOf(s, urgent).ops[0];
    assert op in Queued(s) && IsCurrent(s, op.context, op.ticket);
    PostedKeepsQueues(s, op, code);
    PostedLeaves(s, op, code, r);
    QueuedAfterPost(s, urgent, code);
  }

  lemma SubmitLeaves<R, C>(s: State<R, C>, e: Event<R, C>, r: R, ticket: nat)
    requires Invariant(s) && e.Submit? && Enabled(s, e) && Withdrawn(s, r, ticket) && e.r != r
    ensures Withdrawn(Step(s, e), r, ticket) && Step(s, e).requests[r] == s.requests[r]
  {
    SubmitQueues(s, e.r, e.what, e.urgent, e.spare);
  }

  lemma EraseLeaves<R, C>(s: State<R, C>, x: R, r: R, ticket: nat)
    requires Invariant(s) && x in s.requests && Withdrawn(s, r, ticket)
    ensures Withdrawn(EraseQueued(s, x), r, ticket) && EraseQueued(s, x).requests == s.requests
  {
    CancelRemovesOnlyItsOwn(s, x);
    forall op | op in Queued(EraseQueued(s, x)) ensures op.ticket != ticket {
      assert op in Queued(s);
    }
  }

  lemma ErasedIsWithdrawn<R, C>(s: State<R, C>, r: R)
    requires Invariant(s) && r in s.requests && s.requests[r].context.Some?
    ensures Withdrawn(EraseQueued(s, r), r, s.requests[r].ticket) && Invariant(EraseQueued(s, r))
    ensures EraseQueued(s, r).requests == s.requests
  {
    StepKeepsInvariant(s, CancelErase(r));
    CancelRemovesOnlyItsOwn(s, r);
    assert Numbered(s, r);
  }
}
