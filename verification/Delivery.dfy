/**
 * Delivering the entries of the completion queue. The progress leader delivers an entry in four steps that are locked
 * separately: it fetches the request that the context is assigned to, fills a received message in, completes the
 * request, and pools the context. Other threads submit, post, cancel and complete in between.
 */
module Delivery {
  import opened Common
  import opened Lifecycle

  datatype Stage = Fetched | Filled | Finished

  /** The local variables of the leader: the entry, the request fetched for it, and how far the delivery has come. */
  datatype Reading<R, C> = Reading(context: C, report: Report, request: Option<R>, stage: Stage)

  /** A context stays in `posted` until its entry is delivered, so that `posted` still has the ticket of the entry. */
  datatype World<R, C> = World(base: State<R, C>, reading: Option<Reading<R, C>>)

  datatype Act<R, C> =
    | Doing(e: Event<R, C>)              // a step of the life cycle other than reading an entry
    | Fetch(context: C, report: Report)  // get_request
    | FillIn                             // a received message is written into the fetched request
    | Finish                             // complete
    | Release                            // destroy

  /** The request that the delivery under way will fill and complete. */
  ghost function Target<R, C>(w: World<R, C>): Option<R> {
    if w.reading.Some? && w.reading.value.request.Some? && w.reading.value.request.value in w.base.requests
    then w.reading.value.request else None
  }

  ghost predicate CanAct<R, C>(w: World<R, C>, a: Act<R, C>) {
    match a
    case Doing(e) => !e.Completion? && Enabled(w.base, e)
    case Fetch(c, _) => w.reading.None? && c in w.base.posted && c in w.base.owner
    case FillIn => Target(w).Some? && w.reading.value.stage.Fetched? && w.reading.value.report.Done?
    case Finish =>
      Target(w).Some? && w.reading.value.stage == if w.reading.value.report.Done? then Filled else Fetched
    case Release =>
      && w.reading.Some? && w.reading.value.context in w.base.owner
      && (w.reading.value.stage.Finished? || w.reading.value.request.None?)
  }

  ghost function Do<R, C>(w: World<R, C>, a: Act<R, C>): World<R, C>
    requires CanAct(w, a)
  {
    match a
    case Doing(e) => w.(base := Step(w.base, e))
    case Fetch(c, report) => w.(reading := Some(Reading(c, report, w.base.owner[c], Fetched)))
    case FillIn =>
      var k := w.reading.value;
      World(FillRequest(w.base, k.request.value, k.report), Some(k.(stage := Filled)))
    case Finish =>
      var k := w.reading.value;
      World(CompleteRequest(w.base, k.request.value, Outcome(k.report)), Some(k.(stage := Finished)))
    case Release =>
      var c := w.reading.value.context;
      World(Recycle(w.base.(posted := w.base.posted - {c}), c), None)
  }

  ghost predicate CanPlay<R, C>(w: World<R, C>, acts: seq<Act<R, C>>)
    decreases |acts|
  {
    acts == [] || (CanAct(w, acts[0]) && CanPlay(Do(w, acts[0]), acts[1..]))
  }

  ghost function Play<R, C>(w: World<R, C>, acts: seq<Act<R, C>>): World<R, C>
    requires CanPlay(w, acts)
    decreases |acts|
  {
    if acts == [] then w else Play(Do(w, acts[0]), acts[1..])
  }

  ghost function Start<R, C>(requests: map<R, RequestState<C>>): World<R, C> {
    World(Initial(requests), None)
  }

  // ----- the invariant -----

  /** The entry's context is still the leader's: it is assigned to the fetched request, or to none any more. */
  ghost predicate Held<R, C>(s: State<R, C>, k: Reading<R, C>) {
    && k.context in s.posted && k.context in s.owner
    && (s.owner[k.context] == None || s.owner[k.context] == k.request)
    && (k.request.Some? ==> k.request.value in s.requests)
    && (k.stage.Finished? ==> s.owner[k.context] == None)
  }

  ghost predicate Good<R, C>(w: World<R, C>) {
    Invariant(w.base) && (w.reading.Some? ==> Held(w.base, w.reading.value))
  }

  /** What the other threads leave as it is while the leader holds a context. */
  ghost predicate Spares<R, C>(s: State<R, C>, t: State<R, C>, c: C) {
    && c in t.posted && c in s.posted && t.posted[c] == s.posted[c]
    && c in t.owner && c in s.owner && (t.owner[c] == None || t.owner[c] == s.owner[c])
    && t.requests.Keys == s.requests.Keys && t.nextTicket >= s.nextTicket
  }

  lemma SubmitSpares<R, C>(s: State<R, C>, e: Event<R, C>, c: C)
    requires Sound(s) && e.Submit? && Enabled(s, e) && c in s.posted && c in s.owner
    ensures Spares(s, Step(s, e), c)
  {
    SubmitPool(s, e.r, e.what, e.urgent, e.spare);
  }

  lemma PostedSpares<R, C>(s: State<R, C>, op: Op<C>, code: int, c: C)
    requires c in s.posted && c in s.owner && op.context != c
    ensures Spares(s, Posted(s, op, code), c)
  {
  }

  lemma PopSpares<R, C>(s: State<R, C>, t: State<R, C>, urgent: bool, c: C)
    requires Spares(s, t, c) && LaneOf(t, urgent).ops != []
    ensures Spares(s, PopFront(t, urgent), c)
  {
  }

  lemma PostSpares<R, C>(s: State<R, C>, urgent: bool, code: int, c: C)
    requires Sound(s) && Enabled(s, Event<R, C>.Post(urgent, code)) && c in s.posted && c in s.owner
    ensures Spares(s, PostFront(s, urgent, code), c)
  {
    var op := LaneOf(s, urgent).ops[0];
    assert op in Queued(s) && op.context in Waiting(s) && op.context != c;
    PostedKeepsQueues(s, op, code);
    PostedSpares(s, op, code, c);
    if !Refuses(op.kind, code) {
      PopSpares(s, Posted(s, op, code), urgent, c);
    }
  }

  lemma StepSpares<R, C>(s: State<R, C>, e: Event<R, C>, c: C)
    requires Sound(s) && !e.Completion? && Enabled(s, e) && c in s.posted && c in s.owner
    ensures Spares(s, Step(s, e), c)
  {
    match e
    case Submit(_, _, _, _) => SubmitSpares(s, e, c);
    case Post(urgent, code) => PostSpares(s, urgent, code, c);
    case CancelErase(_) =>
    case Complete(_, _) =>
  }

  /** Filling a request in moves no context and starts no operation. */
  lemma FillKeepsInvariant<R, C>(s: State<R, C>, r: R, report: Report)
    requires Invariant(s) && r in s.requests && report.Done?
    ensures Invariant(FillRequest(s, r, report))
  {
    var t := FillRequest(s, r, report);
    assert Queued(t) == Queued(s) && Waiting(t) == Waiting(s);
    assert Sound(t) && Recorded(t);
    forall x | x in t.requests ensures Numbered(t, x) {
      assert Numbered(s, x);
    }
  }

  lemma FinishFrees<R, C>(s: State<R, C>, k: Reading<R, C>, err: int)
    requires Paired(s) && Held(s, k) && k.request.Some?
    ensures Held(CompleteRequest(s, k.request.value, err), k.(stage := Finished))
  {
  }

  lemma ReleaseSound<R, C>(s: State<R, C>, c: C)
    requires Sound(s) && c in s.posted && c in s.owner && s.owner[c] == None
    ensures Sound(Recycle(s.(posted := s.posted - {c}), c))
  {
    var t := Recycle(s.(posted := s.posted - {c}), c);
    assert t.owner == s.owner;
    assert Queued(t) == Queued(s) && Waiting(t) == Waiting(s);
    assert forall x :: x in t.pool <==> x in s.pool || x == c;
    assert Paired(t) && Current(t);
  }

  lemma ReleaseKeepsInvariant<R, C>(s: State<R, C>, c: C)
    requires Invariant(s) && c in s.posted && c in s.owner && s.owner[c] == None
    ensures Invariant(Recycle(s.(posted := s.posted - {c}), c))
  {
    ReleaseSound(s, c);
    var t := Recycle(s.(posted := s.posted - {c}), c);
    forall x | x in t.requests ensures Numbered(t, x) {
      assert Numbered(s, x);
    }
  }

  lemma ActKeepsGood<R, C>(w: World<R, C>, a: Act<R, C>)
    requires Good(w) && CanAct(w, a)
    ensures Good(Do(w, a)) && Do(w, a).base.requests.Keys == w.base.requests.Keys
  {
    match a
    case Doing(e) =>
      StepKeepsInvariant(w.base, e);
      StepKeepsRequests(w.base, e);
      if w.reading.Some? {
        StepSpares(w.base, e, w.reading.value.context);
      }
    case Fetch(_, _) =>
    case FillIn => FillKeepsInvariant(w.base, w.reading.value.request.value, w.reading.value.report);
    case Finish =>
      var k := w.reading.value;
      StepKeepsInvariant(w.base, Complete(k.request.value, Outcome(k.report)));
      FinishFrees(w.base, k, Outcome(k.report));
    case Release => ReleaseKeepsInvariant(w.base, w.reading.value.context);
  }

  lemma {:induction false} PlayKeepsGood<R, C>(w: World<R, C>, acts: seq<Act<R, C>>)
    requires Good(w) && CanPlay(w, acts)
    ensures Good(Play(w, acts)) && Play(w, acts).base.requests.Keys == w.base.requests.Keys
    decreases |acts|
  {
    if acts != [] {
      ActKeepsGood(w, acts[0]);
      PlayKeepsGood(Do(w, acts[0]), acts[1..]);
    }
  }

  /** From requests that have no operation outstanding, every play stays within the invariant. */
  lemma ReachableIsGood<R, C>(requests: map<R, RequestState<C>>, acts: seq<Act<R, C>>)
    requires (forall x :: x in requests ==> requests[x].context.None?) && CanPlay(Start(requests), acts)
    ensures Good(Play(Start(requests), acts))
  {
    InitialInvariant(requests);
    PlayKeepsGood(Start(requests), acts);
  }

  /** Contexts are safe in every reachable state, also in the middle of a delivery. */
  lemma ContextSafety<R, C>(requests: map<R, RequestState<C>>, acts: seq<Act<R, C>>, r: R, c: C)
    requires (forall x :: x in requests ==> requests[x].context.None?) && CanPlay(Start(requests), acts)
    ensures SafeContext(Play(Start(requests), acts).base, r, c)
  {
    ReachableIsGood(requests, acts);
    ContextsAreSafe(Play(Start(requests), acts).base, r, c);
  }

  /** The queues are in order in every reachable state. */
  lemma PostingOrder<R, C>(requests: map<R, RequestState<C>>, acts: seq<Act<R, C>>)
    requires (forall x :: x in requests ==> requests[x].context.None?) && CanPlay(Start(requests), acts)
    ensures InOrder(Play(Start(requests), acts).base)
  {
    ReachableIsGood(requests, acts);
    QueuesAreInOrder(Play(Start(requests), acts).base);
  }

  // ----- a delivery that nobody disturbs -----

  lemma PlayOne<R, C>(w: World<R, C>, a: Act<R, C>)
    requires CanAct(w, a)
    ensures CanPlay(w, [a]) && Play(w, [a]) == Do(w, a)
  {
    assert [a][1..] == [];
  }

  lemma {:induction false} PlayConcat<R, C>(w: World<R, C>, a: seq<Act<R, C>>, b: seq<Act<R, C>>)
    requires CanPlay(w, a) && CanPlay(Play(w, a), b)
    ensures CanPlay(w, a + b) && Play(w, a + b) == Play(Play(w, a), b)
    decreases |a|
  {
    if a == [] {
      assert a + b == b;
    } else {
      PlayConcat(Do(w, a[0]), a[1..], b);
      assert (a + b)[0] == a[0] && (a + b)[1..] == a[1..] + b;
    }
  }

  lemma PlayAlso<R, C>(w: World<R, C>, acts: seq<Act<R, C>>, a: Act<R, C>)
    requires CanPlay(w, acts) && CanAct(Play(w, acts), a)
    ensures CanPlay(w, acts + [a]) && Play(w, acts + [a]) == Do(Play(w, acts), a)
  {
    PlayOne(Play(w, acts), a);
    PlayConcat(w, acts, [a]);
  }

  /** Undisturbed, the steps of a delivery come to the one step that reads the entry. */
  lemma UndisturbedSteps<R, C>(s: State<R, C>, c: C, report: Report)
    requires c in s.posted && c in s.owner && (s.owner[c].Some? ==> s.owner[c].value in s.requests)
    ensures CanAct(World(s, None), Act<R, C>.Fetch(c, report))
    ensures
      var f, done := Do(World(s, None), Act<R, C>.Fetch(c, report)), World(CompletionRead(s, c, report), None);
      && (s.owner[c].None? ==> CanAct(f, Release) && Do(f, Release) == done)
      && (s.owner[c].Some? && report.Done? ==>
            CanAct(f, FillIn) && CanAct(Do(f, FillIn), Finish) && CanAct(Do(Do(f, FillIn), Finish), Release)
            && Do(Do(Do(f, FillIn), Finish), Release) == done)
      && (s.owner[c].Some? && !report.Done? ==>
            CanAct(f, Finish) && CanAct(Do(f, Finish), Release) && Do(Do(f, Finish), Release) == done)
  {
    ReadOfPosted(s, c, report, s.posted - {c});
    ReadOfPosted(Fill(s, c, report), c, report, s.posted - {c});
  }

  /** The acts of one delivery: nothing is filled in for an error, and nothing is completed without a request. */
  ghost function Entire<R, C>(s: State<R, C>, c: C, report: Report): seq<Act<R, C>>
    requires c in s.owner
  {
    if s.owner[c].None? then [Fetch(c, report)] + [Release]
    else if report.Done? then [Fetch(c, report)] + [FillIn] + [Finish] + [Release]
    else [Fetch(c, report)] + [Finish] + [Release]
  }

  lemma UndisturbedDelivery<R, C>(s: State<R, C>, c: C, report: Report)
    requires c in s.posted && c in s.owner && (s.owner[c].Some? ==> s.owner[c].value in s.requests)
    ensures CanPlay(World(s, None), Entire(s, c, report))
    ensures Play(World(s, None), Entire(s, c, report)) == World(CompletionRead(s, c, report), None)
  {
    UndisturbedSteps(s, c, report);
    var w := World(s, None);
    var fetch: Act<R, C> := Fetch(c, report);
    PlayOne(w, fetch);
    if s.owner[c].None? {
      PlayAlso(w, [fetch], Release);
    } else if report.Done? {
      PlayAlso(w, [fetch], FillIn);
      PlayAlso(w, [fetch] + [FillIn], Finish);
      PlayAlso(w, [fetch] + [FillIn] + [Finish], Release);
    } else {
      PlayAlso(w, [fetch], Finish);
      PlayAlso(w, [fetch] + [Finish], Release);
    }
  }

  /** So every run whose entries are read in one step is a play. */
  lemma {:induction false} RunIsPlay<R, C>(s: State<R, C>, events: seq<Event<R, C>>) returns (acts: seq<Act<R, C>>)
    requires Invariant(s) && CanRun(s, events)
    ensures CanPlay(World(s, None), acts) && Play(World(s, None), acts) == World(Run(s, events), None)
    decreases |events|
  {
    if events == [] {
      acts := [];
    } else {
      var e := events[0];
      StepKeepsInvariant(s, e);
      var first: seq<Act<R, C>> := [Doing(e)];
      if e.Completion? {
        UndisturbedDelivery(s, e.context, e.report);
        first := Entire(s, e.context, e.report);
      } else {
        PlayOne(World(s, None), Doing(e));
      }
      var rest := RunIsPlay(Step(s, e), events[1..]);
      PlayConcat(World(s, None), first, rest);
      acts := first + rest;
    }
  }

  // ----- which operation a delivery completes -----

  ghost predicate Resubmits<R, C>(acts: seq<Act<R, C>>, r: R) {
    exists i :: 0 <= i < |acts| && acts[i].Doing? && acts[i].e.Submit? && acts[i].e.r == r
  }

  /** The delivery under way is not over yet. */
  ghost predicate NoRelease<R, C>(acts: seq<Act<R, C>>) {
    forall i :: 0 <= i < |acts| ==> !acts[i].Release?
  }

  /** The delivery under way has fetched request `r`. */
  ghost predicate Delivers<R, C>(w: World<R, C>, r: R) {
    w.reading.Some? && w.reading.value.request == Some(r) && r in w.base.requests
  }

  /** The operation that the entry under delivery belongs to. */
  ghost function EntryTicket<R, C>(w: World<R, C>): nat
    requires Good(w) && w.reading.Some?
  {
    w.base.posted[w.reading.value.context]
  }

  /** One act of a delivery leaves its entry and its request, and a request changes its operation only by submission. */
  lemma ActTicket<R, C>(w: World<R, C>, a: Act<R, C>, r: R)
    requires Good(w) && CanAct(w, a) && !a.Release? && Delivers(w, r)
    ensures Good(Do(w, a)) && Delivers(Do(w, a), r) && EntryTicket(Do(w, a)) == EntryTicket(w)
    ensures Do(w, a).base.nextTicket >= w.base.nextTicket
    ensures
      Do(w, a).base.requests[r].ticket
        == if a.Doing? && a.e.Submit? && a.e.r == r then w.base.nextTicket else w.base.requests[r].ticket
  {
    ActKeepsGood(w, a);
    if a.Doing? {
      StepSpares(w.base, a.e, w.reading.value.context);
      StepTicket(w.base, a.e, r);
    }
  }

  lemma StepTicket<R, C>(s: State<R, C>, e: Event<R, C>, r: R)
    requires Enabled(s, e) && !e.Completion? && r in s.requests
    ensures r in Step(s, e).requests
    ensures Step(s, e).requests[r].ticket == if e.Submit? && e.r == r then s.nextTicket else s.requests[r].ticket
  {
    if e.Post? {
      PostTouches(s, e.urgent, e.code, r);
    }
  }

  lemma ResubmitsRest<R, C>(acts: seq<Act<R, C>>, r: R)
    requires acts != []
    ensures Resubmits(acts, r) <==> (acts[0].Doing? && acts[0].e.Submit? && acts[0].e.r == r) || Resubmits(acts[1..], r)
  {
    if Resubmits(acts[1..], r) {
      var i :| 0 <= i < |acts[1..]| && acts[1..][i].Doing? && acts[1..][i].e.Submit? && acts[1..][i].e.r == r;
      assert acts[i + 1] == acts[1..][i];
    }
    if Resubmits(acts, r) {
      var i :| 0 <= i < |acts| && acts[i].Doing? && acts[i].e.Submit? && acts[i].e.r == r;
      assert i > 0 ==> acts[1..][i - 1] == acts[i];
    }
  }

  /** While a delivery lasts, its request works on the entry's own operation exactly until it is submitted again. */
  lemma {:induction false} OwnUntilResubmitted<R, C>(w: World<R, C>, acts: seq<Act<R, C>>, r: R)
    requires Good(w) && CanPlay(w, acts) && NoRelease(acts) && Delivers(w, r)
    requires EntryTicket(w) <= w.base.requests[r].ticket && EntryTicket(w) < w.base.nextTicket
    ensures
      var v := Play(w, acts);
      && Good(v) && Delivers(v, r) && EntryTicket(v) == EntryTicket(w) <= v.base.requests[r].ticket
      && (v.base.requests[r].ticket == EntryTicket(v)
          <==> w.base.requests[r].ticket == EntryTicket(w) && !Resubmits(acts, r))
    decreases |acts|
  {
    if acts != [] {
      ActTicket(w, acts[0], r);
      ResubmitsRest(acts, r);
      forall i | 0 <= i < |acts[1..]| ensures !acts[1..][i].Release? {
        assert acts[1..][i] == acts[i + 1];
      }
      OwnUntilResubmitted(Do(w, acts[0]), acts[1..], r);
    }
  }

  /** A fetched request that is not complete works on the entry's operation. */
  lemma FetchedIsOwn<R, C>(w: World<R, C>, c: C, report: Report, r: R)
    requires Good(w) && CanAct(w, Act<R, C>.Fetch(c, report)) && w.base.owner[c] == Some(r)
    ensures
      var v := Do(w, Act<R, C>.Fetch(c, report));
      && Good(v) && Delivers(v, r) && EntryTicket(v) == v.base.requests[r].ticket < v.base.nextTicket
      && v.base.requests[r].context == Some(c)
  {
    ActKeepsGood(w, Act<R, C>.Fetch(c, report));
    assert IsCurrent(w.base, c, w.base.posted[c]);
    assert Numbered(w.base, r);
  }

  /** The guard of a delivery step: a receive is filled in, and a request under way is completed. */
  ghost predicate Writes<R, C>(w: World<R, C>, a: Act<R, C>, r: R)
    requires Delivers(w, r) && CanAct(w, a) && (a.FillIn? || a.Finish?)
  {
    var rs := w.base.requests[r];
    if a.FillIn? then rs.opType.RECV? && Received(rs, w.reading.value.report) != rs else rs.context.Some?
  }

  /** The step changes a request that works on another operation than the entry's. */
  ghost predicate HitsAnother<R, C>(w: World<R, C>, a: Act<R, C>)
    requires Good(w) && w.reading.Some? && CanAct(w, a)
  {
    exists x :: x in w.base.requests && x in Do(w, a).base.requests
      && Do(w, a).base.requests[x] != w.base.requests[x] && w.base.requests[x].ticket != EntryTicket(w)
  }

  /** What a delivery step changes. */
  lemma DeliveryChanges<R, C>(v: World<R, C>, a: Act<R, C>, r: R)
    requires Good(v) && Delivers(v, r) && CanAct(v, a) && (a.FillIn? || a.Finish?)
    ensures Do(v, a).base.requests.Keys == v.base.requests.Keys
    ensures Do(v, a).base.requests[r] != v.base.requests[r] <==> Writes(v, a, r)
    ensures forall x :: x in v.base.requests && x != r ==> Do(v, a).base.requests[x] == v.base.requests[x]
  {
  }

  /**
   * After the fetch and any acts of other threads, a step of the delivery changes a request that works on another
   * operation than the entry's if and only if the fetched request has been submitted again in between and the step
   * writes; no other request is ever changed.
   */
  lemma HitsAnotherIff<R, C>(w: World<R, C>, c: C, report: Report, r: R, acts: seq<Act<R, C>>, a: Act<R, C>)
    requires Good(w) && CanAct(w, Act<R, C>.Fetch(c, report)) && w.base.owner[c] == Some(r)
    requires CanPlay(Do(w, Act<R, C>.Fetch(c, report)), acts) && NoRelease(acts)
    requires CanAct(Play(Do(w, Act<R, C>.Fetch(c, report)), acts), a) && (a.FillIn? || a.Finish?)
    ensures
      var v := Play(Do(w, Act<R, C>.Fetch(c, report)), acts);
      && Good(v) && Delivers(v, r)
      && (HitsAnother(v, a) <==> Resubmits(acts, r) && Writes(v, a, r))
      && forall x :: x in v.base.requests && x != r ==>
           x in Do(v, a).base.requests && Do(v, a).base.requests[x] == v.base.requests[x]
  {
    FetchedIsOwn(w, c, report, r);
    var f := Do(w, Act<R, C>.Fetch(c, report));
    OwnUntilResubmitted(f, acts, r);
    DeliveryChanges(Play(f, acts), a, r);
  }

  // ----- what becomes of a request -----

  ghost predicate NeverSubmits<R, C>(acts: seq<Act<R, C>>, r: R) {
    forall i :: 0 <= i < |acts| ==> !(acts[i].Doing? && acts[i].e.Submit? && acts[i].e.r == r)
  }

  /** The report that this act fills the request in with. */
  ghost function FillsBy<R, C>(w: World<R, C>, a: Act<R, C>, r: R): (report: Option<Report>)
    requires CanAct(w, a) && r in w.base.requests
    ensures report.Some? ==> report.value.Done?
  {
    if a.FillIn? && Target(w) == Some(r) && w.base.requests[r].opType.RECV? then Some(w.reading.value.report) else None
  }

  /** The error with which posting ends the operation at the front of the queue: a failure, or an inject. */
  ghost function PostEnds<C>(op: Op<C>, code: int): Option<int> {
    if op.kind.NoneOp? || Refuses(op.kind, code) then None
    else if code != 0 then Some(-LFI_LIBFABRIC_ERROR)
    else if op.kind.InjectOp? then Some(LFI_SUCCESS)
    else None
  }

  /** The error with which this act completes the request. */
  ghost function EndsBy<R, C>(w: World<R, C>, a: Act<R, C>, r: R): Option<int>
    requires CanAct(w, a) && r in w.base.requests
  {
    if w.base.requests[r].context.None? then None
    else
      match a
      case Doing(Complete(x, err)) => if x == r then Some(err) else None
      case Doing(Post(urgent, code)) =>
        var op := LaneOf(w.base, urgent).ops[0];
        if w.base.requests[r].context == Some(op.context) then PostEnds(op, code) else None
      case Finish => if Target(w) == Some(r) then Some(Outcome(w.reading.value.report)) else None
      case _ => None
  }

  /** A request after it was filled in and completed, where it was. */
  ghost function Result<C>(rs: RequestState<C>, fill: Option<Report>, end: Option<int>): RequestState<C>
    requires fill.Some? ==> fill.value.Done?
  {
    var filled := if fill.Some? then Received(rs, fill.value) else rs;
    if end.Some? then filled.(context := None, error := end.value) else filled
  }

  lemma PostOn<R, C>(s: State<R, C>, urgent: bool, code: int, r: R)
    requires Sound(s) && Enabled(s, Event<R, C>.Post(urgent, code)) && r in s.requests
    ensures r in PostFront(s, urgent, code).requests
    ensures
      var op, rs := LaneOf(s, urgent).ops[0], s.requests[r];
      PostFront(s, urgent, code).requests[r]
        == Result(rs, None, if rs.context == Some(op.context) then PostEnds(op, code) else None)
  {
    var op := LaneOf(s, urgent).ops[0];
    PostedKeepsQueues(s, op, code);
    assert op in Queued(s) && op.context in Waiting(s) && op.context in s.owner;
  }

  /** One act does to a request exactly this. */
  lemma ActOn<R, C>(w: World<R, C>, a: Act<R, C>, r: R)
    requires Good(w) && CanAct(w, a) && r in w.base.requests && !(a.Doing? && a.e.Submit? && a.e.r == r)
    ensures r in Do(w, a).base.requests
    ensures Do(w, a).base.requests[r] == Result(w.base.requests[r], FillsBy(w, a, r), EndsBy(w, a, r))
  {
    if a.Doing? && a.e.Post? {
      PostOn(w.base, a.e.urgent, a.e.code, r);
    }
  }

  /** The last report of a play that fills the request in. */
  ghost function Filling<R, C>(w: World<R, C>, acts: seq<Act<R, C>>, r: R): (report: Option<Report>)
    requires CanPlay(w, acts) && r in w.base.requests
    ensures report.Some? ==> report.value.Done?
    decreases |acts|
  {
    if acts == [] || r !in Do(w, acts[0]).base.requests then None
    else
      var later := Filling(Do(w, acts[0]), acts[1..], r);
      if later.Some? then later else FillsBy(w, acts[0], r)
  }

  /** The error of the first act of a play that completes the request. */
  ghost function Ending<R, C>(w: World<R, C>, acts: seq<Act<R, C>>, r: R): (err: Option<int>)
    requires CanPlay(w, acts) && r in w.base.requests
    ensures w.base.requests[r].context.None? ==> err.None?
    decreases |acts|
  {
    if acts == [] || w.base.requests[r].context.None? then None
    else if EndsBy(w, acts[0], r).Some? || r !in Do(w, acts[0]).base.requests then EndsBy(w, acts[0], r)
    else Ending(Do(w, acts[0]), acts[1..], r)
  }

  /** What the play makes of the request. */
  ghost function Played<R, C>(w: World<R, C>, acts: seq<Act<R, C>>, r: R): RequestState<C>
    requires CanPlay(w, acts) && r in w.base.requests
  {
    Result(w.base.requests[r], Filling(w, acts, r), Ending(w, acts, r))
  }

  lemma ResultTwice<C>(rs: RequestState<C>, f: Option<Report>, e: Option<int>, f': Option<Report>, e': Option<int>)
    requires (f.Some? ==> f.value.Done?) && (f'.Some? ==> f'.value.Done?) && (e.Some? ==> e'.None?)
    ensures Result(Result(rs, f, e), f', e') == Result(rs, if f'.Some? then f' else f, if e.Some? then e else e')
  {
  }

  lemma NeverSubmitsRest<R, C>(acts: seq<Act<R, C>>, r: R)
    requires acts != [] && NeverSubmits(acts, r)
    ensures NeverSubmits(acts[1..], r)
  {
  }

  /**
   * Until it is submitted again, a request is completed by the first act that ends its operation, and filled in by a
   * delivery that fetched it, whether it is complete by then or not; nothing else changes it.
   */
  lemma {:induction false} OnlyCompletes<R, C>(w: World<R, C>, acts: seq<Act<R, C>>, r: R)
    requires Good(w) && CanPlay(w, acts) && NeverSubmits(acts, r) && r in w.base.requests
    ensures r in Play(w, acts).base.requests && Play(w, acts).base.requests[r] == Played(w, acts, r)
    decreases |acts|
  {
    if acts != [] {
      ActKeepsGood(w, acts[0]);
      ActOn(w, acts[0], r);
      NeverSubmitsRest(acts, r);
      var v := Do(w, acts[0]);
      OnlyCompletes(v, acts[1..], r);
      ResultTwice(w.base.requests[r], FillsBy(w, acts[0], r), EndsBy(w, acts[0], r),
                  Filling(v, acts[1..], r), Ending(v, acts[1..], r));
    }
  }

  /** Without a delivery that fills it in, a request is as it was or has been completed. */
  lemma UnfilledIsSameOrCompleted<R, C>(w: World<R, C>, acts: seq<Act<R, C>>, r: R)
    requires CanPlay(w, acts) && r in w.base.requests && Filling(w, acts, r).None?
    ensures SameOrCompleted(w.base.requests[r], Played(w, acts, r))
  {
  }

  // ----- when a delivery fills a complete request in -----

  /** Another thread completes the request. */
  ghost predicate Completes<R, C>(acts: seq<Act<R, C>>, r: R) {
    exists i :: 0 <= i < |acts| && acts[i].Doing? && acts[i].e.Complete? && acts[i].e.r == r
  }

  ghost predicate OnlyOthers<R, C>(acts: seq<Act<R, C>>) {
    forall i :: 0 <= i < |acts| ==> acts[i].Doing?
  }

  lemma CompletesRest<R, C>(acts: seq<Act<R, C>>, r: R)
    requires acts != []
    ensures Completes(acts, r)
      <==> (acts[0].Doing? && acts[0].e.Complete? && acts[0].e.r == r) || Completes(acts[1..], r)
  {
    if Completes(acts[1..], r) {
      var i :| 0 <= i < |acts[1..]| && acts[1..][i].Doing? && acts[1..][i].e.Complete? && acts[1..][i].e.r == r;
      assert acts[i + 1] == acts[1..][i];
    }
    if Completes(acts, r) {
      var i :| 0 <= i < |acts| && acts[i].Doing? && acts[i].e.Complete? && acts[i].e.r == r;
      assert i > 0 ==> acts[1..][i - 1] == acts[i];
    }
  }

  /** A step of another thread leaves the fetched request and its context together, unless it completes the request. */
  lemma StepOfOther<R, C>(w: World<R, C>, e: Event<R, C>, r: R, c: C)
    requires Good(w) && CanAct(w, Doing(e)) && Delivers(w, r) && w.reading.value.context == c
    requires !(e.Submit? && e.r == r) && (w.base.requests[r].context == None || w.base.requests[r].context == Some(c))
    ensures
      var v := Do(w, Doing(e));
      && Good(v) && Delivers(v, r) && v.reading == w.reading
      && v.base.requests[r].opType == w.base.requests[r].opType
      && v.base.requests[r].context == if e.Complete? && e.r == r then None else w.base.requests[r].context
  {
    ActKeepsGood(w, Doing(e));
    ActOn(w, Doing(e), r);
    if e.Post? {
      var op := LaneOf(w.base, e.urgent).ops[0];
      assert op in Queued(w.base) && op.context in Waiting(w.base);
    }
  }

  lemma {:induction false} CompleteExactlyByOthers<R, C>(w: World<R, C>, acts: seq<Act<R, C>>, r: R, c: C)
    requires Good(w) && CanPlay(w, acts) && OnlyOthers(acts) && NeverSubmits(acts, r)
    requires Delivers(w, r) && w.reading.value.context == c
    requires w.base.requests[r].context == None || w.base.requests[r].context == Some(c)
    ensures
      var v := Play(w, acts);
      && Good(v) && Delivers(v, r) && v.reading == w.reading
      && v.base.requests[r].opType == w.base.requests[r].opType
      && v.base.requests[r].context == if Completes(acts, r) then None else w.base.requests[r].context
    decreases |acts|
  {
    if acts != [] {
      assert acts[0].Doing?;
      StepOfOther(w, acts[0].e, r, c);
      CompletesRest(acts, r);
      NeverSubmitsRest(acts, r);
      assert OnlyOthers(acts[1..]);
      CompleteExactlyByOthers(Do(w, acts[0]), acts[1..], r, c);
    }
  }

  /**
   * A delivery whose request is not submitted again fills a complete request in if and only if another thread completed
   * it between the fetch and the filling, and it is a receive.
   */
  lemma FillsCompleteIff<R, C>(w: World<R, C>, c: C, report: Report, r: R, acts: seq<Act<R, C>>)
    requires Good(w) && CanAct(w, Act<R, C>.Fetch(c, report)) && w.base.owner[c] == Some(r) && report.Done?
    requires CanPlay(Do(w, Act<R, C>.Fetch(c, report)), acts) && OnlyOthers(acts) && NeverSubmits(acts, r)
    ensures
      var v := Play(Do(w, Act<R, C>.Fetch(c, report)), acts);
      && CanAct(v, FillIn) && r in v.base.requests
      && (v.base.requests[r].context.None? && FillsBy(v, FillIn, r).Some?
          <==> Completes(acts, r) && w.base.requests[r].opType.RECV?)
  {
    FetchedIsOwn(w, c, report, r);
    CompleteExactlyByOthers(Do(w, Act<R, C>.Fetch(c, report)), acts, r, c);
  }

  // ----- what goes wrong otherwise -----

  /** The leader has fetched the request; meanwhile another thread cancels it, and may submit it again. */
  ghost function CancelInBetween<R, C>(c: C, report: Report, r: R): seq<Act<R, C>> {
    [Fetch(c, report)] + [Doing(CancelErase(r))] + [Doing(Complete(r, -LFI_CANCELED))]
  }

  lemma CanceledInBetween<R, C>(s: State<R, C>, c: C, report: Report, r: R)
    requires Invariant(s) && c in s.posted && c in s.owner && s.owner[c] == Some(r) && report.Done?
    ensures CanPlay(World(s, None), CancelInBetween(c, report, r))
    ensures
      var w := Play(World(s, None), CancelInBetween(c, report, r));
      && w.reading == Some(Reading(c, report, Some(r), Fetched)) && Good(w)
      && r in s.requests && w.base.requests.Keys == s.requests.Keys
      && w.base.owner.Keys == s.owner.Keys && w.base.nextTicket == s.nextTicket
      && w.base.requests[r] == s.requests[r].(context := None, error := -LFI_CANCELED)
  {
    var w := World(s, None);
    var fetch: Act<R, C> := Fetch(c, report);
    PlayOne(w, fetch);
    PlayAlso(w, [fetch], Doing(CancelErase(r)));
    PlayAlso(w, [fetch] + [Doing(CancelErase(r))], Doing(Complete(r, -LFI_CANCELED)));
    PlayKeepsGood(w, CancelInBetween(c, report, r));
  }

  /**
   * In every state with a posted receive: a request that is cancelled after the fetch is complete, with the error of
   * the cancellation, and then gets the size, tag and source of the entry all the same.
   */
  lemma CompleteRequestIsFilledIn<R, C>(s: State<R, C>, c: C, report: Report, r: R)
    requires Invariant(s) && c in s.posted && c in s.owner && s.owner[c] == Some(r) && report.Done?
    requires r in s.requests && s.requests[r].opType.RECV?
    ensures CanPlay(World(s, None), CancelInBetween(c, report, r) + [FillIn])
    ensures
      var t := Play(World(s, None), CancelInBetween(c, report, r) + [FillIn]).base;
      r in t.requests
      && t.requests[r] == Received(s.requests[r].(context := None, error := -LFI_CANCELED), report)
  {
    CanceledInBetween(s, c, report, r);
    PlayAlso(World(s, None), CancelInBetween(c, report, r), FillIn);
  }

  /** The rest of the failing run: the request is submitted again before it is filled in and completed. */
  ghost function ResubmitInBetween<R, C>(r: R, what: Submission, urgent: bool, spare: C): seq<Act<R, C>> {
    [Doing(Submit(r, what, urgent, spare))] + [FillIn] + [Finish]
  }

  lemma SubmittedIsQueued<R, C>(s: State<R, C>, r: R, what: Submission, urgent: bool, spare: C)
    requires Sound(s) && r in s.requests && spare !in s.owner
    ensures exists op :: op in Queued(SubmitOp(s, r, what, urgent, spare)) && op.ticket == s.nextTicket
  {
    SubmitQueues(s, r, what, urgent, spare);
    assert Op(what.Kind(), Handout(s, spare), s.nextTicket) in Queued(SubmitOp(s, r, what, urgent, spare));
  }

  lemma ResubmittedThenFinished<R, C>(w: World<R, C>, r: R, what: Submission, urgent: bool, spare: C)
    requires Good(w) && Delivers(w, r) && w.reading.value.stage.Fetched? && w.reading.value.report.Done?
    requires spare !in w.base.owner
    ensures CanPlay(w, ResubmitInBetween(r, what, urgent, spare))
    ensures
      var t, report := Play(w, ResubmitInBetween(r, what, urgent, spare)).base, w.reading.value.report;
      && r in t.requests && t.requests[r].ticket == w.base.nextTicket
      && t.requests[r].context == None && t.requests[r].error == LFI_SUCCESS
      && (what.RecvMsg? ==> t.requests[r].size == report.len && t.requests[r].tag == report.tag)
      && (exists op :: op in Queued(t) && op.ticket == w.base.nextTicket)
  {
    var submit: Act<R, C> := Doing(Submit(r, what, urgent, spare));
    PlayOne(w, submit);
    var v := Do(w, submit);
    SubmittedIsQueued(w.base, r, what, urgent, spare);
    PlayAlso(w, [submit], FillIn);
    PlayAlso(w, [submit] + [FillIn], Finish);
    var t := Play(w, ResubmitInBetween(r, what, urgent, spare)).base;
    assert Queued(t) == Queued(v.base);
  }

  /**
   * In every state with a posted operation: a request that is cancelled after the fetch and submitted again is
   * completed as successful by the entry of the operation before, while its new operation still waits in a queue.
   */
  lemma NewOperationIsCompletedInstead<R, C>(s: State<R, C>, c: C, report: Report, r: R,
                                             what: Submission, urgent: bool, spare: C)
    requires Invariant(s) && c in s.posted && c in s.owner && s.owner[c] == Some(r) && report.Done?
    requires spare !in s.owner
    ensures
      var acts := CancelInBetween(c, report, r) + ResubmitInBetween(r, what, urgent, spare);
      && CanPlay(World(s, None), acts)
      && var t := Play(World(s, None), acts).base;
      && r in t.requests && s.posted[c] < s.nextTicket == t.requests[r].ticket
      && t.requests[r].context == None && t.requests[r].error == LFI_SUCCESS
      && (what.RecvMsg? ==> t.requests[r].size == report.len && t.requests[r].tag == report.tag)
      && (exists op :: op in Queued(t) && op.ticket == t.requests[r].ticket)
  {
    var w := World(s, None);
    FetchedIsOwn(w, c, report, r);
    CanceledInBetween(s, c, report, r);
    var m := Play(w, CancelInBetween(c, report, r));
    ResubmittedThenFinished(m, r, what, urgent, spare);
    PlayConcat(w, CancelInBetween(c, report, r), ResubmitInBetween(r, what, urgent, spare));
  }

  /** Such states are reachable: a receive is submitted and posted. */
  lemma PostedReceiveIsReachable<R, C>(r: R, rs: RequestState<C>, c: C, commId: nat, size: nat, tag: nat)
    requires rs.context == None
    ensures
      var acts := [Doing(Submit(r, RecvMsg(commId, size, tag, false), false, c))] + [Doing(Post(false, 0))];
      && CanPlay(Start(map[r := rs]), acts)
      && var s := Play(Start(map[r := rs]), acts).base;
      && Invariant(s) && c in s.posted && c in s.owner && s.owner[c] == Some(r)
      && r in s.requests && s.requests[r].opType.RECV?
  {
    var w := Start(map[r := rs]);
    var submit: Act<R, C> := Doing(Submit(r, RecvMsg(commId, size, tag, false), false, c));
    PlayOne(w, submit);
    PlayAlso(w, [submit], Doing(Post(false, 0)));
    ReachableIsGood(map[r := rs], [submit] + [Doing(Post(false, 0))]);
  }

  // ----- cancellation -----

  /**
   * `cancel`, which is not atomic: the queued operation is erased; after whatever happens `before` the test, nothing
   * more is done for a complete request; otherwise the error is chosen, and after whatever happens `after` that (the
   * progress call of the cancellation and the doings of other threads) the request is completed with it.
   */
  ghost function CancelFrom<R, C>(w: World<R, C>, r: R, commCanceled: bool,
                                  before: seq<Act<R, C>>, after: seq<Act<R, C>>): World<R, C>
    requires CanCancel(w, r, before, after)
  {
    var m := Play(Erased(w, r), before);
    if m.base.requests[r].context.None? then m
    else
      var p := Play(m, after);
      p.(base := CompleteRequest(p.base, r, ErrorAtTest(m.base.requests[r], commCanceled)))
  }

  function ErrorAtTest<C>(rs: RequestState<C>, commCanceled: bool): int {
    CancelError(rs.opType, rs.error, commCanceled)
  }

  ghost function Erased<R, C>(w: World<R, C>, r: R): World<R, C>
    requires r in w.base.requests
  {
    w.(base := EraseQueued(w.base, r))
  }

  /** What happens in the two gaps can happen there. */
  ghost predicate CanCancel<R, C>(w: World<R, C>, r: R, before: seq<Act<R, C>>, after: seq<Act<R, C>>) {
    && r in w.base.requests && CanPlay(Erased(w, r), before)
    && r in Play(Erased(w, r), before).base.requests
    && CanPlay(Play(Erased(w, r), before), after)
    && r in Play(Play(Erased(w, r), before), after).base.requests
  }

  lemma ErasedIsGood<R, C>(w: World<R, C>, r: R)
    requires Good(w) && r in w.base.requests
    ensures Good(Erased(w, r)) && Erased(w, r).base.requests == w.base.requests
  {
    ActKeepsGood(w, Doing(CancelErase(r)));
    CancelRemovesOnlyItsOwn(w.base, r);
  }

  lemma ActLeavesWithdrawn<R, C>(w: World<R, C>, a: Act<R, C>, r: R, ticket: nat)
    requires Good(w) && CanAct(w, a) && Withdrawn(w.base, r, ticket) && !(a.Doing? && a.e.Submit? && a.e.r == r)
    ensures Withdrawn(Do(w, a).base, r, ticket)
  {
    match a
    case Doing(Submit(_, _, _, _)) => SubmitLeaves(w.base, a.e, r, ticket);
    case Doing(Post(urgent, code)) => PostLeaves(w.base, urgent, code, r, ticket);
    case Doing(CancelErase(x)) => EraseLeaves(w.base, x, r, ticket);
    case Doing(Complete(_, _)) =>
    case Doing(Completion(_, _)) =>
    case Fetch(_, _) =>
    case FillIn =>
    case Finish =>
    case Release =>
  }

  lemma {:induction false} PlayLeavesWithdrawn<R, C>(w: World<R, C>, acts: seq<Act<R, C>>, r: R, ticket: nat)
    requires Good(w) && CanPlay(w, acts) && NeverSubmits(acts, r) && Withdrawn(w.base, r, ticket)
    ensures Withdrawn(Play(w, acts).base, r, ticket)
    decreases |acts|
  {
    if acts != [] {
      ActLeavesWithdrawn(w, acts[0], r, ticket);
      ActKeepsGood(w, acts[0]);
      NeverSubmitsRest(acts, r);
      PlayLeavesWithdrawn(Do(w, acts[0]), acts[1..], r, ticket);
    }
  }

  lemma CompleteLeaves<R, C>(p: World<R, C>, r: R, err: int)
    requires Good(p) && r in p.base.requests
    ensures
      var t := CompleteRequest(p.base, r, err);
      && Good(p.(base := t)) && t.requests.Keys == p.base.requests.Keys && Queued(t) == Queued(p.base)
      && t.requests[r] == Result(p.base.requests[r], None, if p.base.requests[r].context.Some? then Some(err) else None)
      && forall x :: x in p.base.requests && x != r ==> t.requests[x] == p.base.requests[x]
  {
    ActKeepsGood(p, Doing(Complete(r, err)));
  }

  /** The first gap of a cancellation. */
  lemma CancelBegins<R, C>(w: World<R, C>, r: R, x: R, before: seq<Act<R, C>>)
    requires Good(w) && r in w.base.requests && x in w.base.requests
    requires CanPlay(Erased(w, r), before) && NeverSubmits(before, x)
    ensures
      var m := Play(Erased(w, r), before);
      && Good(m) && m.base.requests.Keys == w.base.requests.Keys
      && m.base.requests[x] == Played(Erased(w, r), before, x)
  {
    ErasedIsGood(w, r);
    PlayKeepsGood(Erased(w, r), before);
    OnlyCompletes(Erased(w, r), before, x);
  }

  /** The second gap. */
  lemma CancelGoesOn<R, C>(m: World<R, C>, x: R, after: seq<Act<R, C>>)
    requires Good(m) && x in m.base.requests && CanPlay(m, after) && NeverSubmits(after, x)
    ensures
      var p := Play(m, after);
      && Good(p) && p.base.requests.Keys == m.base.requests.Keys && p.base.requests[x] == Played(m, after, x)
  {
    PlayKeepsGood(m, after);
    OnlyCompletes(m, after, x);
  }

  /**
   * What cancellation makes of its request: if something ended its operation before the test, what that play made of
   * it; otherwise what the play after the test made of it, completed with the cancellation error if still under way.
   */
  ghost function Canceled<R, C>(w: World<R, C>, r: R, commCanceled: bool,
                                before: seq<Act<R, C>>, after: seq<Act<R, C>>): RequestState<C>
    requires CanCancel(w, r, before, after)
  {
    var m, rs := Play(Erased(w, r), before), w.base.requests[r];
    var first := Played(Erased(w, r), before, r);
    if first.context.None? then first
    else
      var last := Played(m, after, r);
      if last.context.None? then last
      else last.(context := None, error := ErrorAtTest(rs, commCanceled))
  }

  /**
   * The error of the cancelled request: that of the first act that ended its operation, or otherwise that of a broken
   * communicator if and only if the operation is no inject and its communicator was given up or its request told so.
   */
  lemma CanceledError<R, C>(w: World<R, C>, r: R, commCanceled: bool,
                            before: seq<Act<R, C>>, after: seq<Act<R, C>>)
    requires Good(w) && CanCancel(w, r, before, after) && w.base.requests[r].context.Some?
    requires NeverSubmits(before, r)
    ensures
      var m, rs := Play(Erased(w, r), before), w.base.requests[r];
      var error := Canceled(w, r, commCanceled, before, after).error;
      && (Ending(Erased(w, r), before, r).Some? ==> error == Ending(Erased(w, r), before, r).value)
      && (Ending(Erased(w, r), before, r).None? && Ending(m, after, r).Some? ==> error == Ending(m, after, r).value)
      && (Ending(Erased(w, r), before, r).None? && Ending(m, after, r).None? ==>
            (!rs.opType.INJECT? && (commCanceled || rs.error == -LFI_BROKEN_COMM) ==> error == -LFI_BROKEN_COMM)
            && (rs.opType.INJECT? || (!commCanceled && rs.error != -LFI_BROKEN_COMM) ==> error == -LFI_CANCELED))
  {
    CancelBegins(w, r, r, before);
    ErasedIsGood(w, r);
  }

  lemma CancelIsCanceled<R, C>(w: World<R, C>, r: R, commCanceled: bool,
                               before: seq<Act<R, C>>, after: seq<Act<R, C>>)
    requires Good(w) && CanCancel(w, r, before, after) && w.base.requests[r].context.Some?
    requires NeverSubmits(before, r) && NeverSubmits(after, r)
    ensures
      var t := CancelFrom(w, r, commCanceled, before, after);
      && Good(t) && t.base.requests.Keys == w.base.requests.Keys
      && t.base.requests[r] == Canceled(w, r, commCanceled, before, after)
      && t.base.requests[r].context == None && t.base.requests[r].ticket == w.base.requests[r].ticket
      && NotQueued(t.base, w.base.requests[r].ticket)
  {
    var ticket := w.base.requests[r].ticket;
    CancelBegins(w, r, r, before);
    ErasedIsGood(w, r);
    ErasedIsWithdrawn(w.base, r);
    PlayLeavesWithdrawn(Erased(w, r), before, r, ticket);
    var m := Play(Erased(w, r), before);
    if m.base.requests[r].context.Some? {
      CancelGoesOn(m, r, after);
      PlayLeavesWithdrawn(m, after, r, ticket);
      CompleteLeaves(Play(m, after), r, ErrorAtTest(m.base.requests[r], commCanceled));
    }
  }

  /**
   * Cancellation, whatever happens while it runs, also when an entry of the request is being delivered: the request
   * ends complete, exactly as described, with its operation in no queue.
   */
  lemma CancelCompletes<R, C>(w: World<R, C>, r: R, commCanceled: bool,
                              before: seq<Act<R, C>>, after: seq<Act<R, C>>)
    requires Good(w) && CanCancel(w, r, before, after) && w.base.requests[r].context.Some?
    requires NeverSubmits(before, r) && NeverSubmits(after, r)
    ensures
      var t := CancelFrom(w, r, commCanceled, before, after);
      && Good(t) && t.base.requests.Keys == w.base.requests.Keys
      && t.base.requests[r] == Canceled(w, r, commCanceled, before, after)
      && t.base.requests[r].context == None && t.base.requests[r].ticket == w.base.requests[r].ticket
      && NotQueued(t.base, w.base.requests[r].ticket)
    ensures
      var e, rs := Erased(w, r), w.base.requests[r];
      var m, error := Play(e, before), CancelFrom(w, r, commCanceled, before, after).base.requests[r].error;
      var end := if Ending(e, before, r).Some? then Ending(e, before, r) else Ending(m, after, r);
      && (end.Some? ==> error == end.value)
      && (end.None? ==> error in {-LFI_BROKEN_COMM, -LFI_CANCELED})
      && (end.None? ==> (error == -LFI_BROKEN_COMM
            <==> !rs.opType.INJECT? && (commCanceled || rs.error == -LFI_BROKEN_COMM)))
  {
    CancelIsCanceled(w, r, commCanceled, before, after);
    CanceledError(w, r, commCanceled, before, after);
  }

  /** Cancelling a complete request does nothing. */
  lemma CancelOfComplete<R, C>(w: World<R, C>, r: R, commCanceled: bool,
                               before: seq<Act<R, C>>, after: seq<Act<R, C>>)
    requires Good(w) && CanCancel(w, r, before, after) && w.base.requests[r].context.None? && NeverSubmits(before, r)
    ensures CanPlay(w, before) && CancelFrom(w, r, commCanceled, before, after) == Play(w, before)
    ensures r in Play(w, before).base.requests
    ensures Play(w, before).base.requests[r] == Result(w.base.requests[r], Filling(w, before, r), None)
  {
    assert Erased(w, r) == w;
    CancelBegins(w, r, r, before);
  }

  /** Every other request that is not submitted again becomes what the play makes of it. */
  lemma CancelSparesOthers<R, C>(w: World<R, C>, r: R, commCanceled: bool,
                                 before: seq<Act<R, C>>, after: seq<Act<R, C>>, other: R)
    requires Good(w) && CanCancel(w, r, before, after) && other in w.base.requests && other != r
    requires NeverSubmits(before, other) && NeverSubmits(after, other)
    ensures other in Play(Erased(w, r), before).base.requests
    ensures
      var m, t := Play(Erased(w, r), before), CancelFrom(w, r, commCanceled, before, after);
      && m.base.requests[other] == Played(Erased(w, r), before, other)
      && other in t.base.requests
      && t.base.requests[other] == if m.base.requests[r].context.None? then m.base.requests[other]
                                   else Played(m, after, other)
  {
    CancelBegins(w, r, other, before);
    var m := Play(Erased(w, r), before);
    if m.base.requests[r].context.Some? {
      CancelGoesOn(m, other, after);
      CompleteLeaves(Play(m, after), r, ErrorAtTest(m.base.requests[r], commCanceled));
    }
  }
}
