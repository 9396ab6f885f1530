/**
 * The election of one progress leader per endpoint, as a state machine over the atomic steps of the guards. `G` names
 * guards. A step is one access to an atomic, or one access made while the waiters mutex is held.
 */
module Leadership {
  import opened Common

  datatype Phase<G> =
    | Constructing          // fields set, try_acquire not yet run
    | Tried                 // between try_acquire and register_waiter
    | Live                  // registered; the owner may call progress
    | Leaving               // unregistered, the leader flag not yet tested
    | Locked                // the waiters mutex is held, the list not yet looked at
    | Passing(successor: G) // own flag cleared, the successor's not yet set
    | Releasing             // in_progress cleared, own flag not yet
    | Gone

  datatype Guard<G> = Guard(requested: bool, leader: bool, phase: Phase<G>)

  datatype State<G> = State(guards: map<G, Guard<G>>, inProgress: bool, waiters: seq<G>, lock: Option<G>)

  datatype Event<G> =
    | Create(g: G, requested: bool)
    | TryAcquire(g: G)
    | Register(g: G)
    | Construct(g: G)       // try_acquire and register_waiter as one step
    | Unregister(g: G)
    | TestFlag(g: G)
    | Acquire(g: G)         // takes the waiters mutex
    | ClearOwn(g: G)
    | SetSuccessor(g: G)    // and lets the mutex go
    | ClearProgress(g: G)
    | ClearFlag(g: G)       // and lets the mutex go

  ghost function Initial<G>(): State<G> {
    State(map[], false, [], None)
  }

  ghost predicate At<G>(s: State<G>, g: G, phase: Phase<G>) {
    g in s.guards && s.guards[g].phase == phase
  }

  ghost predicate Enabled<G>(s: State<G>, e: Event<G>) {
    match e
    case Create(g, _) => g !in s.guards
    case TryAcquire(g) => At(s, g, Constructing)
    case Register(g) => At(s, g, Tried) && s.lock == None
    case Construct(g) => At(s, g, Constructing) && s.lock == None
    case Unregister(g) => At(s, g, Live) && s.lock == None
    case TestFlag(g) => At(s, g, Leaving)
    case Acquire(g) => At(s, g, Leaving) && s.guards[g].leader && s.lock == None
    case ClearOwn(g) => At(s, g, Locked) && s.waiters != []
    case SetSuccessor(g) => g in s.guards && s.guards[g].phase.Passing? && s.guards[g].phase.successor in s.guards
    case ClearProgress(g) => At(s, g, Locked) && s.waiters == []
    case ClearFlag(g) => At(s, g, Releasing)
  }

  ghost function SetGuard<G>(s: State<G>, g: G, guard: Guard<G>): State<G> {
    s.(guards := s.guards[g := guard])
  }

  ghost function Step<G>(s: State<G>, e: Event<G>): State<G>
    requires Enabled(s, e)
  {
    match e
    case Create(g, requested) => SetGuard(s, g, Guard(requested, false, Constructing))
    case TryAcquire(g) => Try(s, g, Tried)
    case Register(g) => Enlist(s, g)
    case Construct(g) => Enlist(Try(s, g, Tried), g)
    case Unregister(g) => SetGuard(s, g, s.guards[g].(phase := Leaving)).(waiters := Remove(s.waiters, g))
    case TestFlag(g) => if s.guards[g].leader then s else SetGuard(s, g, s.guards[g].(phase := Gone))
    case Acquire(g) => SetGuard(s, g, s.guards[g].(phase := Locked)).(lock := Some(g))
    case ClearOwn(g) => SetGuard(s, g, s.guards[g].(leader := false, phase := Passing(s.waiters[0])))
    case SetSuccessor(g) =>
      var t := SetGuard(s, g, s.guards[g].(phase := Gone)).(lock := None);
      var h := s.guards[g].phase.successor;
      SetGuard(t, h, t.guards[h].(leader := true))
    case ClearProgress(g) => SetGuard(s, g, s.guards[g].(phase := Releasing)).(inProgress := false)
    case ClearFlag(g) => SetGuard(s, g, s.guards[g].(leader := false, phase := Gone)).(lock := None)
  }

  /** try_acquire: a requesting guard swaps `true` into in_progress and leads if it was false. */
  ghost function Try<G>(s: State<G>, g: G, phase: Phase<G>): State<G>
    requires g in s.guards
  {
    var guard := s.guards[g];
    if guard.requested && !guard.leader
    then SetGuard(s, g, guard.(leader := !s.inProgress, phase := phase)).(inProgress := true)
    else SetGuard(s, g, guard.(phase := phase))
  }

  /** register_waiter: the guard goes to the end of the list. */
  ghost function Enlist<G>(s: State<G>, g: G): State<G>
    requires g in s.guards
  {
    SetGuard(s, g, s.guards[g].(phase := Live)).(waiters := s.waiters + [g])
  }

  ghost predicate CanRun<G>(s: State<G>, events: seq<Event<G>>)
    decreases |events|
  {
    events == [] || (Enabled(s, events[0]) && CanRun(Step(s, events[0]), events[1..]))
  }

  ghost function Run<G>(s: State<G>, events: seq<Event<G>>): State<G>
    requires CanRun(s, events)
    decreases |events|
  {
    if events == [] then s else Run(Step(s, events[0]), events[1..])
  }

  // ----- the invariant -----

  /** The region in which a guard leads: its flag is set and it has not yet given the leadership up. */
  ghost predicate Leads<G>(s: State<G>, g: G) {
    && g in s.guards && s.guards[g].leader
    && (s.guards[g].phase.Tried? || s.guards[g].phase.Live? || s.guards[g].phase.Leaving? || s.guards[g].phase.Locked?)
  }

  ghost predicate HandsOver<G>(s: State<G>, g: G) {
    g in s.guards && s.guards[g].phase.Passing?
  }

  ghost predicate InCritical<G>(guard: Guard<G>) {
    guard.phase.Locked? || guard.phase.Passing? || guard.phase.Releasing?
  }

  /** `holder` is the one guard that leads or hands over, if there is one, and in_progress says whether there is. */
  ghost predicate HeldBy<G>(s: State<G>, holder: Option<G>) {
    && (forall g :: g in s.guards ==> ((Leads(s, g) || HandsOver(s, g)) <==> holder == Some(g)))
    && (holder.Some? ==> holder.value in s.guards)
    && (s.inProgress <==> holder.Some?)
  }

  ghost predicate WellFormed<G>(s: State<G>) {
    && Distinct(s.waiters)
    && (forall i :: 0 <= i < |s.waiters| ==> s.waiters[i] in s.guards)
    && (forall g :: g in s.guards ==> (g in s.waiters <==> s.guards[g].phase.Live?))
    && (s.lock.Some? ==> s.lock.value in s.guards)
    && (forall g :: g in s.guards ==> (s.lock == Some(g) <==> InCritical(s.guards[g])))
    && (forall g :: g in s.guards && s.guards[g].phase.Passing? ==>
          s.waiters != [] && s.guards[g].phase.successor == s.waiters[0] && !s.guards[g].leader)
    && (forall g :: g in s.guards && s.guards[g].leader ==> Leads(s, g) || s.guards[g].phase.Releasing?)
    && (forall g :: g in s.guards && s.guards[g].phase.Locked? ==> s.guards[g].leader)
  }

  /** The holder after a step. */
  ghost function NextHolder<G>(s: State<G>, holder: Option<G>, e: Event<G>): Option<G>
    requires Enabled(s, e)
  {
    match e
    case TryAcquire(g) => if s.guards[g].requested && !s.inProgress then Some(g) else holder
    case Construct(g) => if s.guards[g].requested && !s.inProgress then Some(g) else holder
    case SetSuccessor(g) => Some(s.guards[g].phase.successor)
    case ClearProgress(g) => None
    case _ => holder
  }

  ghost predicate Good<G>(s: State<G>, holder: Option<G>) {
    WellFormed(s) && HeldBy(s, holder)
  }

  lemma TryKeeps<G>(s: State<G>, holder: Option<G>, g: G)
    requires Good(s, holder) && Enabled(s, TryAcquire(g))
    ensures Good(Step(s, TryAcquire(g)), NextHolder(s, holder, TryAcquire(g)))
  {
  }

  lemma RegisterKeeps<G>(s: State<G>, holder: Option<G>, g: G)
    requires Good(s, holder) && Enabled(s, Register(g))
    ensures Good(Step(s, Register(g)), holder)
  {
    var t := Step(s, Register(g));
    assert g !in s.waiters && t.waiters == s.waiters + [g];
    assert forall x :: x in t.waiters <==> x in s.waiters || x == g;
  }

  lemma UnregisterKeeps<G>(s: State<G>, holder: Option<G>, g: G)
    requires Good(s, holder) && Enabled(s, Unregister(g))
    ensures Good(Step(s, Unregister(g)), holder)
  {
    RemoveKeepsTheRest(s.waiters, g);
  }

  /** The steps outside the mutex that change neither the list nor the in_progress flag. */
  lemma QuietStepKeeps<G>(s: State<G>, holder: Option<G>, e: Event<G>)
    requires Good(s, holder) && Enabled(s, e) && (e.Create? || e.TestFlag?)
    ensures Good(Step(s, e), holder)
  {
  }

  lemma LockedStepKeeps<G>(s: State<G>, holder: Option<G>, e: Event<G>)
    requires Good(s, holder) && Enabled(s, e) && (e.Acquire? || e.ClearOwn? || e.ClearFlag?)
    ensures Good(Step(s, e), holder)
  {
  }

  /** The steps that end a leadership. */
  lemma HandingStepKeeps<G>(s: State<G>, holder: Option<G>, e: Event<G>)
    requires Good(s, holder) && Enabled(s, e) && (e.SetSuccessor? || e.ClearProgress?)
    ensures Good(Step(s, e), NextHolder(s, holder, e))
  {
  }

  lemma StepKeepsInvariant<G>(s: State<G>, holder: Option<G>, e: Event<G>)
    requires Good(s, holder) && Enabled(s, e)
    ensures Good(Step(s, e), NextHolder(s, holder, e))
  {
    match e
    case TryAcquire(g) => TryKeeps(s, holder, g);
    case Register(g) => RegisterKeeps(s, holder, g);
    case Construct(g) =>
      TryKeeps(s, holder, g);
      RegisterKeeps(Step(s, TryAcquire(g)), NextHolder(s, holder, e), g);
    case Unregister(g) => UnregisterKeeps(s, holder, g);
    case SetSuccessor(_) => HandingStepKeeps(s, holder, e);
    case ClearProgress(_) => HandingStepKeeps(s, holder, e);
    case Create(_, _) => QuietStepKeeps(s, holder, e);
    case TestFlag(_) => QuietStepKeeps(s, holder, e);
    case _ => LockedStepKeeps(s, holder, e);
  }

  // ----- mutual exclusion -----

  lemma {:induction false} RunKeepsInvariant<G>(s: State<G>, holder: Option<G>, events: seq<Event<G>>)
      returns (last: Option<G>)
    requires Good(s, holder) && CanRun(s, events)
    ensures Good(Run(s, events), last)
    decreases |events|
  {
    last := holder;
    if events != [] {
      StepKeepsInvariant(s, holder, events[0]);
      last := RunKeepsInvariant(Step(s, events[0]), NextHolder(s, holder, events[0]), events[1..]);
    }
  }

  /**
   * Under every interleaving at most one guard of the endpoint leads or hands the leadership over, so at most one
   * live guard sees its leader flag set, and in_progress says exactly whether there is such a guard.
   */
  lemma OneLeader<G>(events: seq<Event<G>>, g: G, h: G)
    requires CanRun(Initial(), events)
    ensures
      var s := Run(Initial(), events);
      && ((Leads(s, g) || HandsOver(s, g)) && (Leads(s, h) || HandsOver(s, h)) ==> g == h)
      && (At(s, g, Live) && At(s, h, Live) && s.guards[g].leader && s.guards[h].leader ==> g == h)
      && (Leads(s, g) || HandsOver(s, g) ==> s.inProgress)
      && (s.inProgress ==> SomeoneLeads(s))
  {
    var holder := RunKeepsInvariant(Initial(), None, events);
    var s := Run(Initial(), events);
    if s.inProgress {
      assert Leads(s, holder.value) || HandsOver(s, holder.value);
    }
  }

  ghost predicate SomeoneLeads<G>(s: State<G>) {
    exists g :: g in s.guards && (Leads(s, g) || HandsOver(s, g))
  }

  // ----- waiting guards and their leader -----

  ghost predicate Waits<G>(s: State<G>, i: int) {
    0 <= i < |s.waiters| && s.waiters[i] in s.guards && s.guards[s.waiters[i]].requested
  }

  /** Some registered guard asked for the leadership and nobody leads or will hand over to it. */
  ghost predicate Stranded<G>(s: State<G>) {
    !s.inProgress && exists i :: Waits(s, i)
  }

  /** A requesting guard registers although the leadership it failed to get has been given up meanwhile. */
  ghost predicate LateRegistration<G>(s: State<G>, e: Event<G>) {
    e.Register? && e.g in s.guards && s.guards[e.g].requested && !s.inProgress
  }

  lemma UnregisterStrandsNobody<G>(s: State<G>, g: G)
    requires Distinct(s.waiters) && Enabled(s, Unregister(g)) && !Stranded(s)
    ensures !Stranded(Step(s, Unregister(g)))
  {
    RemoveKeepsTheRest(s.waiters, g);
    var t := Step(s, Unregister(g));
    forall i | Waits(t, i) ensures exists j :: Waits(s, j) {
      assert t.waiters[i] == Remove(s.waiters, g)[i];
      var j :| 0 <= j < |s.waiters| && s.waiters[j] == t.waiters[i];
      assert Waits(s, j);
    }
  }

  lemma RegistrationStrands<G>(s: State<G>, g: G)
    requires Enabled(s, Register(g)) && !Stranded(s)
    ensures Stranded(Step(s, Register(g))) <==> LateRegistration(s, Register(g))
  {
    var t := Step(s, Register(g));
    assert t.waiters[|s.waiters|] == g;
    if LateRegistration(s, Register(g)) {
      assert Waits(t, |s.waiters|);
    }
    assert forall i :: 0 <= i < |s.waiters| && Waits(t, i) ==> Waits(s, i);
  }

  lemma ConstructStrandsNobody<G>(s: State<G>, holder: Option<G>, g: G)
    requires Good(s, holder) && Enabled(s, Construct(g)) && !Stranded(s)
    ensures !Stranded(Step(s, Construct(g)))
  {
    var t := Step(s, Construct(g));
    assert t.waiters[|s.waiters|] == g;
    assert forall i :: 0 <= i < |s.waiters| && Waits(t, i) ==> Waits(s, i);
  }

  /** The steps that leave the list as it is. */
  lemma OtherStepStrandsNobody<G>(s: State<G>, holder: Option<G>, e: Event<G>)
    requires Good(s, holder) && Enabled(s, e) && !Stranded(s)
    requires !e.Register? && !e.Construct? && !e.Unregister?
    ensures !Stranded(Step(s, e))
  {
    var t := Step(s, e);
    assert t.waiters == s.waiters;
    assert forall i :: Waits(t, i) ==> Waits(s, i);
  }

  /** The only step that strands anyone is a late registration, and every late registration does. */
  lemma StrandedOnlyByLateRegistration<G>(s: State<G>, holder: Option<G>, e: Event<G>)
    requires Good(s, holder) && Enabled(s, e) && !Stranded(s)
    ensures Stranded(Step(s, e)) <==> LateRegistration(s, e)
  {
    match e
    case Register(g) => RegistrationStrands(s, g);
    case Construct(g) => ConstructStrandsNobody(s, holder, g);
    case Unregister(g) => UnregisterStrandsNobody(s, g);
    case _ => OtherStepStrandsNobody(s, holder, e);
  }

  ghost predicate NeverStrands<G>(s: State<G>, events: seq<Event<G>>)
    requires CanRun(s, events)
    decreases |events|
  {
    !Stranded(s) && (events != [] ==> NeverStrands(Step(s, events[0]), events[1..]))
  }

  ghost predicate NoLateRegistration<G>(s: State<G>, events: seq<Event<G>>)
    requires CanRun(s, events)
    decreases |events|
  {
    events != [] ==> !LateRegistration(s, events[0]) && NoLateRegistration(Step(s, events[0]), events[1..])
  }

  /** A run never strands a waiter if and only if it has no late registration. */
  lemma {:induction false} NeverStrandsIff<G>(s: State<G>, holder: Option<G>, events: seq<Event<G>>)
    requires Good(s, holder) && CanRun(s, events) && !Stranded(s)
    ensures NeverStrands(s, events) <==> NoLateRegistration(s, events)
    decreases |events|
  {
    if events != [] {
      var e := events[0];
      StepKeepsInvariant(s, holder, e);
      StrandedOnlyByLateRegistration(s, holder, e);
      if !LateRegistration(s, e) {
        NeverStrandsIff(Step(s, e), NextHolder(s, holder, e), events[1..]);
      }
    }
  }

  /** Guards are constructed in one step: try_acquire and register_waiter are never apart. */
  ghost predicate OneStepConstruction<G>(events: seq<Event<G>>) {
    forall e :: e in events ==> !e.TryAcquire? && !e.Register?
  }

  lemma {:induction false} OneStepHasNoLateRegistration<G>(s: State<G>, events: seq<Event<G>>)
    requires CanRun(s, events) && OneStepConstruction(events)
    ensures NoLateRegistration(s, events)
    decreases |events|
  {
    if events != [] {
      assert events[0] in events;
      assert forall e :: e in events[1..] ==> e in events;
      OneStepHasNoLateRegistration(Step(s, events[0]), events[1..]);
    }
  }

  lemma {:induction false} NeverStrandsAtEnd<G>(s: State<G>, events: seq<Event<G>>)
    requires CanRun(s, events) && NeverStrands(s, events)
    ensures !Stranded(Run(s, events))
    decreases |events|
  {
    if events != [] {
      NeverStrandsAtEnd(Step(s, events[0]), events[1..]);
    }
  }

  /** With construction as one step, whenever a requesting guard is registered some guard leads or is handing over. */
  lemma NoStrandedWaiter<G>(events: seq<Event<G>>, g: G)
    requires CanRun(Initial(), events) && OneStepConstruction(events)
    requires At(Run(Initial(), events), g, Live) && Run(Initial(), events).guards[g].requested
    ensures SomeoneLeads(Run(Initial(), events))
  {
    var s := Run(Initial(), events);
    var holder := RunKeepsInvariant(Initial(), None, events);
    OneStepHasNoLateRegistration(Initial(), events);
    NeverStrandsIff(Initial(), None, events);
    NeverStrandsAtEnd(Initial(), events);
    var i :| 0 <= i < |s.waiters| && s.waiters[i] == g;
    assert Waits(s, i);
    OneLeader(events, g, g);
  }

  lemma {:induction false} RunConcat<G>(s: State<G>, a: seq<Event<G>>, b: seq<Event<G>>)
    requires CanRun(s, a) && CanRun(Run(s, a), b)
    ensures CanRun(s, a + b) && Run(s, a + b) == Run(Run(s, a), b)
    decreases |a|
  {
    if a == [] {
      assert a + b == b;
    } else {
      RunConcat(Step(s, a[0]), a[1..], b);
      assert (a + b)[0] == a[0] && (a + b)[1..] == a[1..] + b;
    }
  }

  lemma RunOne<G>(s: State<G>, e: Event<G>)
    requires Enabled(s, e)
    ensures CanRun(s, [e]) && Run(s, [e]) == Step(s, e)
  {
    assert [e][1..] == [];
  }

  lemma Extend<G>(s: State<G>, a: seq<Event<G>>, e: Event<G>)
    requires CanRun(s, a) && Enabled(Run(s, a), e)
    ensures CanRun(s, a + [e]) && Run(s, a + [e]) == Step(Run(s, a), e)
  {
    RunOne(Run(s, a), e);
    RunConcat(s, a, [e]);
  }

  /** Two guards: the second tries while the first leads, and has not registered yet. */
  lemma SplitPrefix() returns (events: seq<Event<nat>>)
    ensures CanRun(Initial(), events)
    ensures Run(Initial(), events)
      == State(map[0 := Guard(true, true, Live), 1 := Guard(true, false, Tried)], true, [0], None)
  {
    events := [];
    Extend(Initial(), events, Create(0, true));
    events := events + [Create(0, true)];
    Extend(Initial(), events, TryAcquire(0));
    events := events + [TryAcquire(0)];
    Extend(Initial(), events, Register(0));
    events := events + [Register(0)];
    Extend(Initial(), events, Create(1, true));
    events := events + [Create(1, true)];
    Extend(Initial(), events, TryAcquire(1));
    events := events + [TryAcquire(1)];
  }

  /** The constructor as the code has it strands a waiter: a leader leaves between the two halves of construction. */
  lemma SplitConstructionStrands() returns (events: seq<Event<nat>>)
    ensures CanRun(Initial(), events) && Stranded(Run(Initial(), events))
  {
    events := SplitPrefix();
    Extend(Initial(), events, Unregister(0));
    events := events + [Unregister(0)];
    assert Run(Initial(), events).waiters == [];
    Extend(Initial(), events, Acquire(0));
    events := events + [Acquire(0)];
    Extend(Initial(), events, ClearProgress(0));
    events := events + [ClearProgress(0)];
    Extend(Initial(), events, ClearFlag(0));
    events := events + [ClearFlag(0)];
    Extend(Initial(), events, Register(1));
    events := events + [Register(1)];
    assert Waits(Run(Initial(), events), 0);
  }

  // ----- who is next -----

  ghost predicate Registers<G>(e: Event<G>, g: G) {
    (e.Register? || e.Construct?) && e.g == g
  }

  lemma {:induction false} PrefixRuns<G>(s: State<G>, events: seq<Event<G>>, n: nat)
    requires CanRun(s, events) && n <= |events|
    ensures CanRun(s, events[..n]) && CanRun(Run(s, events[..n]), events[n..])
    ensures Run(s, events) == Run(Run(s, events[..n]), events[n..])
    decreases n
  {
    if n > 0 {
      PrefixRuns(Step(s, events[0]), events[1..], n - 1);
      assert events[..n][1..] == events[1..][..n - 1] && events[1..][n - 1..] == events[n..];
    } else {
      assert events[..0] == [] && events[0..] == events;
    }
  }

  /** The last step of a run. */
  lemma LastStep<G>(events: seq<Event<G>>)
    requires events != [] && CanRun(Initial(), events)
    ensures
      var n := |events| - 1;
      && CanRun(Initial(), events[..n]) && Enabled(Run(Initial(), events[..n]), events[n])
      && Run(Initial(), events) == Step(Run(Initial(), events[..n]), events[n])
  {
    var n := |events| - 1;
    PrefixRuns(Initial(), events, n);
    assert events[n..] == [events[n]] && events[n..][1..] == [];
  }

  lemma {:induction false} RemoveKeepsOrder<G>(s: seq<G>, x: G, i: nat, j: nat) returns (i': nat, j': nat)
    requires i < j < |Remove(s, x)|
    ensures i' < j' < |s| && s[i'] == Remove(s, x)[i] && s[j'] == Remove(s, x)[j]
  {
    if s[0] == x {
      i', j' := i + 1, j + 1;
    } else if i == 0 {
      j' := RemoveKeepsOne(s[1..], x, j - 1);
      i', j' := 0, j' + 1;
    } else {
      i', j' := RemoveKeepsOrder(s[1..], x, i - 1, j - 1);
      i', j' := i' + 1, j' + 1;
    }
  }

  lemma {:induction false} RemoveKeepsOne<G>(s: seq<G>, x: G, j: nat) returns (j': nat)
    requires j < |Remove(s, x)|
    ensures j' < |s| && s[j'] == Remove(s, x)[j]
  {
    if s[0] == x {
      j' := j + 1;
    } else if j == 0 {
      j' := 0;
    } else {
      j' := RemoveKeepsOne(s[1..], x, j - 1);
      j' := j' + 1;
    }
  }

  /** Every guard in the list has registered. */
  lemma {:induction false} WaiterRegistered<G>(events: seq<Event<G>>, i: nat) returns (a: nat)
    requires CanRun(Initial(), events) && i < |Run(Initial(), events).waiters|
    ensures a < |events| && Registers(events[a], Run(Initial(), events).waiters[i])
    decreases |events|
  {
    LastStep(events);
    var n := |events| - 1;
    var s := Run(Initial(), events[..n]);
    if (events[n].Register? || events[n].Construct?) && i == |s.waiters| {
      a := n;
    } else {
      var k := i;
      if events[n].Unregister? {
        k := RemoveKeepsOne(s.waiters, events[n].g, i);
      }
      a := WaiterRegistered(events[..n], k);
    }
  }

  /** The list is in the order of registration. */
  lemma {:induction false} WaitersInOrder<G>(events: seq<Event<G>>, i: nat, j: nat) returns (a: nat, b: nat)
    requires CanRun(Initial(), events) && i < j < |Run(Initial(), events).waiters|
    ensures a < b < |events|
    ensures Registers(events[a], Run(Initial(), events).waiters[i])
    ensures Registers(events[b], Run(Initial(), events).waiters[j])
    decreases |events|
  {
    LastStep(events);
    var n := |events| - 1;
    var s := Run(Initial(), events[..n]);
    if (events[n].Register? || events[n].Construct?) && j == |s.waiters| {
      a := WaiterRegistered(events[..n], i);
      b := n;
    } else {
      var k, l := i, j;
      if events[n].Unregister? {
        k, l := RemoveKeepsOrder(s.waiters, events[n].g, i, j);
      }
      a, b := WaitersInOrder(events[..n], k, l);
    }
  }

  /** A leader that hands over chooses a waiting guard that registered before every other waiting guard. */
  lemma FirstComeFirstServed<G>(events: seq<Event<G>>, g: G, other: G) returns (a: nat, b: nat)
    requires CanRun(Initial(), events) && Enabled(Run(Initial(), events), ClearOwn(g))
    requires
      var s := Run(Initial(), events);
      other in s.waiters && Step(s, ClearOwn(g)).guards[g].phase != Passing(other)
    ensures
      var phase := Step(Run(Initial(), events), ClearOwn(g)).guards[g].phase;
      phase.Passing? && a < b < |events| && Registers(events[a], phase.successor) && Registers(events[b], other)
  {
    var s := Run(Initial(), events);
    var j :| 0 <= j < |s.waiters| && s.waiters[j] == other;
    a, b := WaitersInOrder(events, 0, j);
  }

  /** Only a guard that asks can take the leadership itself, and only when nobody has it. */
  lemma TryMeans<G>(s: State<G>, g: G)
    requires Enabled(s, TryAcquire(g))
    ensures
      var before, after, t := s.guards[g], Step(s, TryAcquire(g)).guards[g], Step(s, TryAcquire(g));
      && (after.leader <==> before.leader || (before.requested && !s.inProgress))
      && (t.inProgress <==> s.inProgress || (before.requested && !before.leader))
      && forall h :: h in s.guards && h != g ==> t.guards[h] == s.guards[h]
  {
  }
}
