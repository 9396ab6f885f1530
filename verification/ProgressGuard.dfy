/**
 * The guard objects and the endpoint fields they share. Every method performs, without interruption, the run of
 * `Leadership` steps that the code performs in that order.
 */
module ProgressGuards {
  import opened Common
  import opened Leadership

  type GuardState = State<ProgressGuard>

  /** The part of an endpoint that the guards use: in_progress and waiters_list. */
  class EndpointProgress {
    var inProgress: bool
    var waiters: seq<ProgressGuard>
    ghost var guards: set<ProgressGuard>

    constructor ()
      ensures Matches(Initial())
    {
      inProgress, waiters, guards := false, [], {};
    }

    ghost predicate Matches(s: GuardState)
      reads this, guards
    {
      && s.guards == (map g | g in guards :: g.View())
      && s.inProgress == inProgress && s.waiters == waiters && s.lock == None
    }

    /** A new guard, with the fields that the source's constructor sets first. */
    method NewGuard(requested: bool, ghost s: GuardState) returns (g: ProgressGuard)
      requires Matches(s)
      modifies `guards
      ensures fresh(g) && guards == old(guards) + {g}
      ensures Enabled(s, Create(g, requested)) && Matches(Step(s, Create(g, requested)))
    {
      g := new ProgressGuard(requested);
      guards := guards + {g};
    }
  }

  class ProgressGuard {
    const requested: bool
    var isLeader: bool
    ghost var phase: Phase<ProgressGuard>

    ghost function View(): Guard<ProgressGuard>
      reads this
    {
      Guard(requested, isLeader, phase)
    }

    /** The fields only; `Open` runs the rest of the source's constructor. */
    constructor (requested: bool)
      ensures View() == Guard(requested, false, Constructing)
    {
      this.requested, isLeader, phase := requested, false, Constructing;
    }

    method TryAcquire(ep: EndpointProgress, ghost s: GuardState) returns (leads: bool)
      requires this in ep.guards && ep.Matches(s) && Enabled(s, Event.TryAcquire(this))
      modifies this, ep`inProgress
      ensures ep.Matches(Step(s, Event.TryAcquire(this))) && leads == isLeader
      ensures isLeader == (old(isLeader) || (requested && !old(ep.inProgress)))
      ensures ep.inProgress == (old(ep.inProgress) || (requested && !old(isLeader)))
    {
      if requested && !isLeader {
        isLeader := !ep.inProgress;
        ep.inProgress := true;
      }
      phase := Tried;
      leads := isLeader;
    }

    method RegisterWaiter(ep: EndpointProgress, ghost s: GuardState)
      requires this in ep.guards && ep.Matches(s) && Enabled(s, Register(this))
      modifies this`phase, ep`waiters
      ensures ep.Matches(Step(s, Register(this)))
    {
      ep.waiters := ep.waiters + [this];
      phase := Live;
    }

    method UnregisterWaiter(ep: EndpointProgress, ghost s: GuardState)
      requires this in ep.guards && ep.Matches(s) && Enabled(s, Unregister(this))
      modifies this`phase, ep`waiters
      ensures ep.Matches(Step(s, Unregister(this)))
    {
      ep.waiters := Remove(ep.waiters, this);
      phase := Leaving;
    }

    /** The steps of transfer_leader_and_wake in a state that nobody disturbs. */
    ghost function TransferSteps(s: GuardState): seq<Event<ProgressGuard>>
      requires this in s.guards
    {
      if !s.guards[this].leader then [TestFlag(this)]
      else if s.waiters != [] then [TestFlag(this), Acquire(this), ClearOwn(this), SetSuccessor(this)]
      else [TestFlag(this), Acquire(this), ClearProgress(this), ClearFlag(this)]
    }

    /** The outcome of those steps: the head of the list leads, or the endpoint is free. */
    ghost function Transferred(s: GuardState): GuardState
      requires this in s.guards
    {
      var t := s.(guards := s.guards[this := s.guards[this].(leader := false, phase := Gone)]);
      if !s.guards[this].leader then t
      else if s.waiters == [] || s.waiters[0] !in t.guards then t.(inProgress := false)
      else t.(guards := t.guards[s.waiters[0] := t.guards[s.waiters[0]].(leader := true)])
    }

    /** The leading guard's steps up to the point where it holds the waiters mutex. */
    lemma TakesTheLock(s: GuardState)
      requires At(s, this, Leaving) && s.lock == None && s.guards[this].leader
      ensures CanRun(s, [TestFlag(this), Acquire(this)])
      ensures Run(s, [TestFlag(this), Acquire(this)])
        == s.(guards := s.guards[this := s.guards[this].(phase := Locked)], lock := Some(this))
    {
      RunOne(s, TestFlag(this));
      Extend(s, [TestFlag(this)], Acquire(this));
      assert [TestFlag(this)] + [Acquire(this)] == [TestFlag(this), Acquire(this)];
    }

    lemma HandOverIsRun(s: GuardState)
      requires At(s, this, Leaving) && s.lock == None && s.guards[this].leader
      requires s.waiters != [] && s.waiters[0] in s.guards && s.waiters[0] != this
      ensures CanRun(s, TransferSteps(s)) && Run(s, TransferSteps(s)) == Transferred(s)
    {
      TakesTheLock(s);
      var a := [TestFlag(this), Acquire(this)];
      var b := [TestFlag(this), Acquire(this), ClearOwn(this)];
      Extend(s, a, ClearOwn(this));
      assert a + [ClearOwn(this)] == b;
      Extend(s, b, SetSuccessor(this));
      assert b + [SetSuccessor(this)] == TransferSteps(s);
      assert Run(s, TransferSteps(s)).guards == Transferred(s).guards;
    }

    lemma ReleaseIsRun(s: GuardState)
      requires At(s, this, Leaving) && s.lock == None && s.guards[this].leader && s.waiters == []
      ensures CanRun(s, TransferSteps(s)) && Run(s, TransferSteps(s)) == Transferred(s)
    {
      TakesTheLock(s);
      var a := [TestFlag(this), Acquire(this)];
      var b := [TestFlag(this), Acquire(this), ClearProgress(this)];
      Extend(s, a, ClearProgress(this));
      assert a + [ClearProgress(this)] == b;
      Extend(s, b, ClearFlag(this));
      assert b + [ClearFlag(this)] == TransferSteps(s);
      assert Run(s, TransferSteps(s)).guards == Transferred(s).guards;
    }

    lemma TransferIsRun(s: GuardState)
      requires At(s, this, Leaving) && s.lock == None
      requires s.waiters != [] ==> s.waiters[0] in s.guards && s.waiters[0] != this
      ensures CanRun(s, TransferSteps(s)) && Run(s, TransferSteps(s)) == Transferred(s)
    {
      if !s.guards[this].leader {
        RunOne(s, TestFlag(this));
      } else if s.waiters != [] {
        HandOverIsRun(s);
      } else {
        ReleaseIsRun(s);
      }
    }

    method TransferLeaderAndWake(ep: EndpointProgress, ghost s: GuardState)
      requires this in ep.guards && ep.Matches(s) && At(s, this, Leaving) && !(this in ep.waiters)
      requires ep.waiters != [] ==> ep.waiters[0] in ep.guards
      modifies this, ep`inProgress, ep.guards
      ensures CanRun(s, TransferSteps(s)) && ep.Matches(Run(s, TransferSteps(s)))
      ensures !isLeader && ep.waiters == old(ep.waiters)
      ensures old(isLeader) && ep.waiters != [] ==> ep.waiters[0].isLeader && ep.inProgress == old(ep.inProgress)
      ensures old(isLeader) && ep.waiters == [] ==> !ep.inProgress
      ensures !old(isLeader) ==> ep.inProgress == old(ep.inProgress)
      ensures forall g :: g in ep.guards && g != this && !(old(isLeader) && ep.waiters != [] && g == ep.waiters[0]) ==>
        g.isLeader == old(g.isLeader)
    {
      TransferIsRun(s);
      phase := Gone;
      if !isLeader {
        return;
      }
      if ep.waiters != [] {
        var successor := ep.waiters[0];
        isLeader := false;
        successor.isLeader := true;
      } else {
        ep.inProgress := false;
        isLeader := false;
      }
    }

    /** The rest of the source's constructor: the two halves of construction, here with no other guard between them. */
    method Open(ep: EndpointProgress, ghost s: GuardState)
      requires this in ep.guards && ep.Matches(s) && Enabled(s, Construct(this))
      modifies this, ep`inProgress, ep`waiters
      ensures ep.Matches(Step(s, Construct(this)))
    {
      var leads := TryAcquire(ep, s);
      RegisterWaiter(ep, Step(s, Event.TryAcquire(this)));
    }

    /** The destructor: the guard leaves the list, then gives its leadership to the guard that waits longest. */
    method Close(ep: EndpointProgress, ghost s: GuardState)
      requires this in ep.guards && ep.Matches(s) && Enabled(s, Unregister(this)) && Distinct(ep.waiters)
      requires forall i :: 0 <= i < |ep.waiters| ==> ep.waiters[i] in ep.guards
      modifies this, ep`inProgress, ep`waiters, ep.guards
      ensures
        var t := Step(s, Unregister(this));
        CanRun(t, TransferSteps(t)) && ep.Matches(Run(t, TransferSteps(t)))
    {
      RemoveKeepsTheRest(ep.waiters, this);
      UnregisterWaiter(ep, s);
      TransferLeaderAndWake(ep, Step(s, Unregister(this)));
    }
  }
}
