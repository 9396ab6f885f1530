/**
 * Detecting a failed communicator: the periodic scan sends a heartbeat when a communicator with outstanding requests
 * has been silent for long enough, and gives the communicator up when the heartbeat stays unanswered.
 * Times are nanoseconds of the clock; `ftMs` is the configured silence in milliseconds.
 */
module FailureDetection {
  const HEARTBEAT_CODE := 0xBAAD_C0DE_DEAD_11FE
  const MS := 1000000

  datatype Status = IDLE | HEARTBEAT | ERROR

  /** The request of the heartbeat: not created yet, under way, or complete. */
  datatype Probe = NoProbe | Running | Complete

  datatype CommState = CommState(status: Status, lastRequest: int, heartbeatTime: int, probe: Probe, value: nat)

  /**
   * One scan: the time it starts, whether requests are outstanding, whether the heartbeat can be submitted, and the
   * clock when it has been.
   */
  datatype ScanInput = ScanInput(now: int, outstanding: bool, submitted: bool, clock: int)

  /** The conversion of a duration to milliseconds truncates toward zero. */
  function ToMs(duration: int): int {
    if duration >= 0 then duration / 1000000 else -((-duration) / 1000000)
  }

  /** What a 32-bit signed variable keeps of `v`. */
  function Narrow(v: int): int {
    var r := v % 0x1_0000_0000;
    if r < 0x8000_0000 then r else r - 0x1_0000_0000
  }

  function Elapsed(now: int, since: int): int {
    Narrow(ToMs(now - since))
  }

  /** The time that an unanswered heartbeat is given. */
  function Patience(ftMs: nat): nat {
    if ftMs < 1000 then 1000 else ftMs
  }

  function Scan(c: CommState, ftMs: nat, input: ScanInput): CommState {
    if !input.outstanding then c
    else
      match c.status
      case IDLE =>
        if Elapsed(input.now, c.lastRequest) < ftMs then c
        else if c.probe == Running then c
        else if !input.submitted then c.(status := ERROR, probe := Complete, value := 0)
        else c.(status := HEARTBEAT, probe := Running, value := 0, heartbeatTime := input.clock)
      case HEARTBEAT =>
        if c.probe == Complete && c.value == HEARTBEAT_CODE then c.(status := IDLE)
        else if Elapsed(input.now, c.heartbeatTime) > Patience(ftMs) then c.(status := ERROR)
        else c
      case ERROR => c
  }

  /** The fields of a communicator that the scan works on. */
  class Communicator {
    const rankPeer: nat
    var status: Status
    var lastRequest: int
    var heartbeatTime: int
    var probe: Probe
    var value: nat

    ghost function View(): CommState
      reads this
    {
      CommState(status, lastRequest, heartbeatTime, probe, value)
    }

    constructor (rankPeer: nat, clock: int)
      ensures View() == CommState(IDLE, clock, 0, NoProbe, 0) && this.rankPeer == rankPeer
    {
      this.rankPeer := rankPeer;
      status, lastRequest, heartbeatTime, probe, value := IDLE, clock, 0, NoProbe, 0;
    }

    /** The communicator is listed as failed exactly when this scan moves it to ERROR. */
    method Process(ftMs: nat, input: ScanInput, canceled: seq<nat>) returns (listed: seq<nat>)
      modifies this
      ensures View() == Scan(old(View()), ftMs, input)
      ensures listed == canceled + if old(status) != ERROR && status == ERROR then [rankPeer] else []
    {
      listed := canceled;
      if !input.outstanding {
        return;
      }
      if status == IDLE {
        var elapsedRequest := Elapsed(input.now, lastRequest);
        if elapsedRequest >= ftMs {
          if probe == NoProbe {
            probe := Complete;
          }
          if probe == Complete {
            value := 0;
            if !input.submitted {
              listed := canceled + [rankPeer];
              status := ERROR;
              return;
            }
            probe := Running;
            status := HEARTBEAT;
            heartbeatTime := input.clock;
          }
        }
      } else if status == HEARTBEAT {
        if probe == Complete && value == HEARTBEAT_CODE {
          status := IDLE;
        } else {
          var elapsedHeartbeat := Elapsed(input.now, heartbeatTime);
          if elapsedHeartbeat > Patience(ftMs) {
            listed := canceled + [rankPeer];
            status := ERROR;
          }
        }
      }
    }
  }

  // ----- ERROR is final -----

  datatype Event =
    | Scanned(input: ScanInput)
    | RequestDone(clock: int)       // a request of the communicator completes successfully
    | ProbeDone(value: nat)         // the heartbeat completes, having read `value`

  function Step(c: CommState, ftMs: nat, e: Event): CommState {
    match e
    case Scanned(input) => Scan(c, ftMs, input)
    case RequestDone(clock) => c.(lastRequest := clock)
    case ProbeDone(value) => if c.probe == Running then c.(probe := Complete, value := value) else c
  }

  function Run(c: CommState, ftMs: nat, run: seq<Event>): CommState
    decreases |run|
  {
    if run == [] then c else Run(Step(c, ftMs, run[0]), ftMs, run[1..])
  }

  /** How often the communicator is listed as failed. */
  function Listings(c: CommState, ftMs: nat, run: seq<Event>): nat
    decreases |run|
  {
    if run == [] then 0
    else
      var d := Step(c, ftMs, run[0]);
      (if c.status != ERROR && d.status == ERROR then 1 else 0) + Listings(d, ftMs, run[1..])
  }

  /** ERROR is absorbing, so a communicator is listed at most once, and exactly when it ends in ERROR. */
  lemma {:induction false} ListedAtMostOnce(c: CommState, ftMs: nat, run: seq<Event>)
    ensures c.status == ERROR ==> Run(c, ftMs, run).status == ERROR && Listings(c, ftMs, run) == 0
    ensures c.status != ERROR ==> Listings(c, ftMs, run) == if Run(c, ftMs, run).status == ERROR then 1 else 0
    decreases |run|
  {
    if run != [] {
      ListedAtMostOnce(Step(c, ftMs, run[0]), ftMs, run[1..]);
    }
  }

  // ----- no early timeout -----

  /** Durations that the 32-bit variable holds as they are. */
  predicate Representable(duration: int) {
    0 <= duration < 0x8000_0000 * 1000000
  }

  lemma ElapsedIsExact(now: int, since: int)
    requires Representable(now - since)
    ensures Elapsed(now, since) == (now - since) / 1000000
  {
  }

  /** An unanswered heartbeat fails the communicator exactly when more than its patience has passed, to the ms. */
  lemma TimeoutIff(c: CommState, ftMs: nat, input: ScanInput)
    requires c.status == HEARTBEAT && input.outstanding && Representable(input.now - c.heartbeatTime)
    requires c.probe != Complete || c.value != HEARTBEAT_CODE
    ensures
      var patience := if ftMs < 1000 then 1000 else ftMs;
      Scan(c, ftMs, input).status == ERROR <==> input.now >= c.heartbeatTime + (patience + 1) * MS
    ensures Scan(c, ftMs, input).status != ERROR ==> Scan(c, ftMs, input) == c
  {
    ElapsedIsExact(input.now, c.heartbeatTime);
  }

  /** An idle communicator is probed exactly when it has been silent for the configured time. */
  lemma ProbeIff(c: CommState, ftMs: nat, input: ScanInput)
    requires c.status == IDLE && input.outstanding && c.probe != Running && Representable(input.now - c.lastRequest)
    ensures Scan(c, ftMs, input) == c <==> input.now < c.lastRequest + ftMs * MS
    ensures input.now >= c.lastRequest + ftMs * MS ==>
      Scan(c, ftMs, input).status == if input.submitted then HEARTBEAT else ERROR
    ensures Scan(c, ftMs, input).status == HEARTBEAT ==>
      Scan(c, ftMs, input) == CommState(HEARTBEAT, c.lastRequest, input.clock, Running, 0)
  {
    ElapsedIsExact(input.now, c.lastRequest);
  }

  /** A heartbeat is accepted exactly when it has completed and read the code, however late that is noticed. */
  lemma AnsweredIff(c: CommState, ftMs: nat, input: ScanInput)
    requires c.status == HEARTBEAT && input.outstanding
    ensures Scan(c, ftMs, input).status == IDLE <==> c.probe == Complete && c.value == 0xBAAD_C0DE_DEAD_11FE
    ensures Scan(c, ftMs, input).lastRequest == c.lastRequest && Scan(c, ftMs, input).heartbeatTime == c.heartbeatTime
  {
  }

  lemma RunNext(c: CommState, ftMs: nat, e: Event, rest: seq<Event>)
    ensures Run(c, ftMs, [e] + rest) == Run(Step(c, ftMs, e), ftMs, rest)
  {
    assert ([e] + rest)[1..] == rest;
  }

  /** The answer to a heartbeat under way is what the next scan goes by, and only the first one. */
  lemma AnswerCounts(c: CommState, ftMs: nat, value: nat, later: nat, input: ScanInput)
    requires c.status == HEARTBEAT && c.probe == Running && input.outstanding
    ensures
      var after := Run(c, ftMs, [ProbeDone(value)] + ([ProbeDone(later)] + ([Scanned(input)] + [])));
      after.status == IDLE <==> value == 0xBAAD_C0DE_DEAD_11FE
  {
    var a := Step(c, ftMs, ProbeDone(value));
    var b := Step(a, ftMs, ProbeDone(later));
    RunNext(c, ftMs, ProbeDone(value), [ProbeDone(later)] + ([Scanned(input)] + []));
    RunNext(a, ftMs, ProbeDone(later), [Scanned(input)] + []);
    RunNext(b, ftMs, Scanned(input), []);
    AnsweredIff(b, ftMs, input);
  }

  /** A successful request puts the next probe off: until the configured silence after it nothing is sent. */
  lemma RequestPutsProbeOff(c: CommState, ftMs: nat, clock: int, input: ScanInput)
    requires c.status == IDLE && c.probe != Running && input.outstanding && Representable(input.now - clock)
    ensures
      Run(c, ftMs, [RequestDone(clock)] + ([Scanned(input)] + [])).status == IDLE <==> input.now < clock + ftMs * MS
  {
    var a := Step(c, ftMs, RequestDone(clock));
    RunNext(c, ftMs, RequestDone(clock), [Scanned(input)] + []);
    RunNext(a, ftMs, Scanned(input), []);
    ProbeIff(a, ftMs, input);
  }

  ghost predicate NothingOutstanding(run: seq<Event>) {
    forall i :: 0 <= i < |run| ==> run[i].Scanned? ==> !run[i].input.outstanding
  }

  /** A communicator without outstanding requests is left alone, however long it is silent. */
  lemma {:induction false} UnusedIsLeftAlone(c: CommState, ftMs: nat, run: seq<Event>)
    requires NothingOutstanding(run)
    ensures Run(c, ftMs, run).status == c.status && Listings(c, ftMs, run) == 0
    ensures Run(c, ftMs, run).heartbeatTime == c.heartbeatTime
    decreases |run|
  {
    if run != [] {
      assert run[0].Scanned? ==> !run[0].input.outstanding;
      assert NothingOutstanding(run[1..]);
      UnusedIsLeftAlone(Step(c, ftMs, run[0]), ftMs, run[1..]);
    }
  }

  /** After 2^31 ms of silence the 32-bit variable wraps, and a dead communicator is not even probed. */
  lemma WrappedSilenceIsNotProbed(c: CommState, ftMs: nat, input: ScanInput)
    requires c.status == IDLE && input.now - c.lastRequest == 0x8000_0000 * MS
    ensures Scan(c, ftMs, input) == c
  {
    assert ToMs(input.now - c.lastRequest) == 0x8000_0000;
  }

  // ----- the detection bound -----

  /** An idle communicator has no heartbeat under way. */
  ghost predicate Settled(c: CommState) {
    c.status == IDLE ==> c.probe != Running
  }

  lemma {:induction false} RunStaysSettled(c: CommState, ftMs: nat, run: seq<Event>)
    requires Settled(c)
    ensures Settled(Run(c, ftMs, run))
    decreases |run|
  {
    if run != [] {
      RunStaysSettled(Step(c, ftMs, run[0]), ftMs, run[1..]);
    }
  }

  /**
   * Scans at most `g` apart, of which `last` was the one before, and each not before the clock that the one before it
   * has read; a heartbeat is stamped at most `d` after its scan begins.
   */
  ghost predicate Regular(last: int, clock: int, g: int, d: int, scans: seq<ScanInput>)
    decreases |scans|
  {
    scans == [] || (
      && clock <= scans[0].now <= last + g && scans[0].outstanding
      && scans[0].now <= scans[0].clock <= scans[0].now + d
      && Regular(scans[0].now, scans[0].clock, g, d, scans[1..]))
  }

  function ScanAll(c: CommState, ftMs: nat, scans: seq<ScanInput>): CommState
    decreases |scans|
  {
    if scans == [] then c else ScanAll(Scan(c, ftMs, scans[0]), ftMs, scans[1..])
  }

  /** The 32-bit variables hold the durations since `time` at every scan. */
  ghost predicate Measurable(time: int, scans: seq<ScanInput>) {
    forall i :: 0 <= i < |scans| ==> Representable(scans[i].now - time)
  }

  lemma {:induction false} ErrorStays(c: CommState, ftMs: nat, scans: seq<ScanInput>)
    requires c.status == ERROR
    ensures ScanAll(c, ftMs, scans) == c
    decreases |scans|
  {
    if scans != [] {
      ErrorStays(c, ftMs, scans[1..]);
    }
  }

  lemma {:induction false} RegularScans(last: int, clock: int, g: int, d: int, scans: seq<ScanInput>)
    requires Regular(last, clock, g, d, scans)
    ensures forall i :: 0 <= i < |scans| ==> clock <= scans[i].now && scans[i].outstanding
    decreases |scans|
  {
    if scans != [] {
      RegularScans(scans[0].now, scans[0].clock, g, d, scans[1..]);
      assert forall i :: 1 <= i < |scans| ==> scans[i] == scans[1..][i - 1];
    }
  }

  lemma {:induction false} FromHeartbeat(c: CommState, ftMs: nat, scans: seq<ScanInput>)
    requires c.status == HEARTBEAT && (c.probe != Complete || c.value != HEARTBEAT_CODE)
    requires scans != [] && Measurable(c.heartbeatTime, scans)
    requires forall i :: 0 <= i < |scans| ==> scans[i].outstanding
    requires scans[|scans| - 1].now >= c.heartbeatTime + (Patience(ftMs) + 1) * MS
    ensures ScanAll(c, ftMs, scans).status == ERROR
    decreases |scans|
  {
    var t := Scan(c, ftMs, scans[0]);
    TimeoutIff(c, ftMs, scans[0]);
    if t.status == ERROR {
      ErrorStays(t, ftMs, scans[1..]);
    } else {
      FromHeartbeat(c, ftMs, scans[1..]);
    }
  }

  function Max(a: int, b: int): int {
    if a < b then b else a
  }

  /** A scan that sends the heartbeat, and the scans after it. */
  lemma FromProbe(c: CommState, ftMs: nat, last: int, clock: int, g: int, d: int, scans: seq<ScanInput>)
    requires c.status == IDLE && c.probe != Running && Regular(last, clock, g, d, scans) && scans != []
    requires Measurable(c.lastRequest, scans) && d >= 0
    requires scans[0].now >= c.lastRequest + ftMs * MS
    requires scans[|scans| - 1].now >= last + g + d + (Patience(ftMs) + 1) * MS
    ensures ScanAll(c, ftMs, scans).status == ERROR
  {
    var t := Scan(c, ftMs, scans[0]);
    ProbeIff(c, ftMs, scans[0]);
    RegularScans(scans[0].now, scans[0].clock, g, d, scans[1..]);
    if t.status == ERROR {
      ErrorStays(t, ftMs, scans[1..]);
    } else {
      assert forall i :: 1 <= i < |scans| ==> scans[i] == scans[1..][i - 1];
      assert Measurable(t.heartbeatTime, scans[1..]);
      FromHeartbeat(t, ftMs, scans[1..]);
    }
  }

  lemma {:induction false} FromIdle(c: CommState, ftMs: nat, silent: int, last: int, clock: int, g: int, d: int,
                                    scans: seq<ScanInput>)
    requires c.status == IDLE && c.probe != Running && c.lastRequest <= silent
    requires Regular(last, clock, g, d, scans) && Measurable(c.lastRequest, scans) && g >= 0 && d >= 0
    requires scans != []
    requires scans[|scans| - 1].now >= Max(last, silent + ftMs * MS) + g + d + (Patience(ftMs) + 1) * MS
    ensures ScanAll(c, ftMs, scans).status == ERROR
    decreases |scans|
  {
    if scans[0].now >= c.lastRequest + ftMs * MS {
      FromProbe(c, ftMs, last, clock, g, d, scans);
    } else {
      ProbeIff(c, ftMs, scans[0]);
      FromIdle(c, ftMs, silent, scans[0].now, scans[0].clock, g, d, scans[1..]);
    }
  }

  /** How long after the last sign of life a failed communicator may stay undetected. */
  function Bound(ftMs: nat, g: int, d: int): int {
    Max(ftMs * MS, g) + Patience(ftMs) * MS + 2 * g + d + MS
  }

  /**
   * When nothing completes after time `silent`, requests are outstanding and the scans are at most `g` apart, the
   * communicator is in ERROR by `silent + Bound`: that is, after any scans of which the last is less than `g` before
   * that time. The 32-bit variables must hold the durations.
   */
  lemma DetectedInTime(c: CommState, ftMs: nat, silent: int, g: int, d: int, scans: seq<ScanInput>)
    requires Settled(c) && c.lastRequest <= silent && (c.status == HEARTBEAT ==> c.heartbeatTime <= silent)
    requires g >= 0 && d >= 0 && Regular(silent, silent, g, d, scans) && scans != []
    requires Measurable(c.lastRequest, scans) && (c.status == HEARTBEAT ==> Measurable(c.heartbeatTime, scans))
    requires scans[|scans| - 1].now + g >= silent + Bound(ftMs, g, d)
    ensures ScanAll(c, ftMs, scans).status == ERROR
  {
    match c.status
    case ERROR => ErrorStays(c, ftMs, scans);
    case IDLE => FromIdle(c, ftMs, silent, silent, silent, g, d, scans);
    case HEARTBEAT =>
      RegularScans(silent, silent, g, d, scans);
      if c.probe == Complete && c.value == HEARTBEAT_CODE {
        assert |scans| > 1;
        FromIdle(c.(status := IDLE), ftMs, silent, scans[0].now, scans[0].clock, g, d, scans[1..]);
      } else {
        FromHeartbeat(c, ftMs, scans);
      }
  }

  // ----- the shorter bound -----

  /** The bound that one gets when the silence is taken to end at the scan that notices it. */
  function ShorterBound(ftMs: nat, g: int): int {
    ftMs * MS + Patience(ftMs) * MS + 2 * g + MS
  }

  lemma BoundForFrequentScans(ftMs: nat, g: int)
    ensures Bound(ftMs, g, 0) == ShorterBound(ftMs, g) <==> g <= ftMs * MS
  {
  }

  /** What `DetectedInTime` asks of a communicator and its scans, up to a time `bound` after the last sign of life. */
  ghost predicate Watched(c: CommState, silent: int, g: int, scans: seq<ScanInput>, bound: int) {
    && Settled(c) && c.lastRequest <= silent && (c.status == HEARTBEAT ==> c.heartbeatTime <= silent)
    && Regular(silent, silent, g, 0, scans) && scans != []
    && Measurable(c.lastRequest, scans) && (c.status == HEARTBEAT ==> Measurable(c.heartbeatTime, scans))
    && scans[|scans| - 1].now + g >= silent + bound
  }

  ghost predicate Missed(c: CommState, ftMs: nat, silent: int, g: int, scans: seq<ScanInput>) {
    Watched(c, silent, g, scans, ShorterBound(ftMs, g)) && ScanAll(c, ftMs, scans).status != ERROR
  }

  /** Every failed communicator is detected within the shorter bound. */
  ghost predicate ShorterBoundHolds(ftMs: nat, g: int) {
    forall c, silent, scans :: !Missed(c, ftMs, silent, g, scans)
  }

  /** A scan that submits its heartbeat, if it sends one, at once. */
  function At(now: int): ScanInput {
    ScanInput(now, true, true, now)
  }

  /** Scans `g` apart, up to a last one at `last`. */
  function Spaced(from: int, last: int, g: int): (scans: seq<ScanInput>)
    requires 0 < g && from <= last
    ensures scans != [] && scans[|scans| - 1] == At(last)
    ensures forall i :: 0 <= i < |scans| ==> from <= scans[i].now <= last && scans[i] == At(scans[i].now)
    decreases last - from
  {
    if last - from <= g then [At(last)] else [At(from + g)] + Spaced(from + g, last, g)
  }

  /** One more scan in front of regular scans. */
  lemma RegularAfter(last: int, clock: int, g: int, now: int, rest: seq<ScanInput>)
    requires clock <= now <= last + g && Regular(now, now, g, 0, rest)
    ensures Regular(last, clock, g, 0, [At(now)] + rest)
  {
    assert ([At(now)] + rest)[1..] == rest;
  }

  lemma {:induction false} SpacedIsRegular(from: int, last: int, g: int)
    requires 0 < g && from <= last
    ensures Regular(from, from, g, 0, Spaced(from, last, g))
    decreases last - from
  {
    if last - from <= g {
      RegularAfter(from, from, g, last, []);
      assert [At(last)] + [] == [At(last)];
    } else {
      SpacedIsRegular(from + g, last, g);
      RegularAfter(from, from, g, from + g, Spaced(from + g, last, g));
    }
  }

  lemma {:induction false} KeepsWaiting(c: CommState, ftMs: nat, scans: seq<ScanInput>)
    requires c.status == HEARTBEAT && (c.probe != Complete || c.value != HEARTBEAT_CODE)
    requires Measurable(c.heartbeatTime, scans)
    requires forall i :: 0 <= i < |scans| ==>
      scans[i].outstanding && scans[i].now < c.heartbeatTime + (Patience(ftMs) + 1) * MS
    ensures ScanAll(c, ftMs, scans) == c
    decreases |scans|
  {
    if scans != [] {
      TimeoutIff(c, ftMs, scans[0]);
      KeepsWaiting(c, ftMs, scans[1..]);
    }
  }

  /** A communicator whose heartbeat has been answered at time 0, and which then fails. */
  function Answered(): CommState {
    CommState(HEARTBEAT, 0, 0, Complete, HEARTBEAT_CODE)
  }

  lemma ScanFirst(c: CommState, ftMs: nat, now: int, rest: seq<ScanInput>)
    ensures ScanAll(c, ftMs, [At(now)] + rest) == ScanAll(Scan(c, ftMs, At(now)), ftMs, rest)
  {
    assert ([At(now)] + rest)[1..] == rest;
  }

  lemma ProbedAtSecond(ftMs: nat, g: int, last: int, idle: CommState, tail: seq<ScanInput>)
    requires idle == Answered().(status := IDLE) && g > ftMs * MS && 2 * g < last && Representable(last)
    requires last == ftMs * MS + Patience(ftMs) * MS + g + MS
    requires forall i :: 0 <= i < |tail| ==> tail[i].outstanding && 2 * g <= tail[i].now <= last
    ensures ScanAll(idle, ftMs, [At(2 * g)] + tail).status == HEARTBEAT
  {
    ProbeIff(idle, ftMs, At(2 * g));
    KeepsWaiting(Scan(idle, ftMs, At(2 * g)), ftMs, tail);
    ScanFirst(idle, ftMs, 2 * g, tail);
  }

  /** From time `g` on: idle since time 0, the next heartbeat is sent at `2 * g` and cannot fail until `last`. */
  lemma ProbedLate(ftMs: nat, g: int, last: int) returns (rest: seq<ScanInput>)
    requires g > ftMs * MS && last == ftMs * MS + Patience(ftMs) * MS + g + MS && Representable(last)
    ensures rest != [] && rest[|rest| - 1].now == last && Regular(g, g, g, 0, rest)
    ensures forall i :: 0 <= i < |rest| ==> 0 <= rest[i].now <= last
    ensures ScanAll(Answered().(status := IDLE), ftMs, rest).status == HEARTBEAT
  {
    var idle := Answered().(status := IDLE);
    if last <= 2 * g {
      rest := [At(last)] + [];
      RegularAfter(g, g, g, last, []);
      ProbeIff(idle, ftMs, At(last));
      ScanFirst(idle, ftMs, last, []);
    } else {
      var tail := Spaced(2 * g, last, g);
      rest := [At(2 * g)] + tail;
      SpacedIsRegular(2 * g, last, g);
      RegularAfter(g, g, g, 2 * g, tail);
      ProbedAtSecond(ftMs, g, last, idle, tail);
    }
  }

  /** The scan at `g` finds the answer, the one at `2 * g` sends the next heartbeat: too late for the shorter bound. */
  lemma SlowScansMiss(ftMs: nat, g: int) returns (scans: seq<ScanInput>)
    requires g > ftMs * MS && Representable(ftMs * MS + Patience(ftMs) * MS + g + MS)
    ensures Missed(Answered(), ftMs, 0, g, scans)
  {
    var last := ftMs * MS + Patience(ftMs) * MS + g + MS;
    var rest := ProbedLate(ftMs, g, last);
    scans := [At(g)] + rest;
    RegularAfter(0, 0, g, g, rest);
    ScanFirst(Answered(), ftMs, g, rest);
  }

  /**
   * The shorter bound T + ft_ms + max(ft_ms, 1000) + 2g + 1 ms holds for all communicators and all scans at most `g`
   * apart if and only if `g` is at most the configured silence, or no scan so late can be measured in 32 bits at all.
   */
  lemma ShorterBoundIff(ftMs: nat, g: int)
    requires g >= 0
    ensures ShorterBoundHolds(ftMs, g)
      <==> g <= ftMs * MS || !Representable(ftMs * MS + Patience(ftMs) * MS + g + MS)
  {
    if g <= ftMs * MS || !Representable(ftMs * MS + Patience(ftMs) * MS + g + MS) {
      forall c, silent, scans ensures !Missed(c, ftMs, silent, g, scans) {
        if Watched(c, silent, g, scans, ShorterBound(ftMs, g)) && g <= ftMs * MS {
          DetectedInTime(c, ftMs, silent, g, 0, scans);
        }
      }
    } else {
      var scans := SlowScansMiss(ftMs, g);
      assert Missed(Answered(), ftMs, 0, g, scans);
    }
  }
}
