/**
 * How messages find their receives. Every process numbers its communicators on its own; when a connection is made the
 * two ends tell each other their numbers, and a message carries the receiver's number and the tag in one 64-bit word.
 */
module TagRouting {
  import opened Bits
  import opened Common

  type uint32 = x: int | 0 <= x < 0x1_0000_0000

  const ANY_COMM_SHM: uint32 := 0xFFFF_FFFE
  const ANY_COMM_PEER: uint32 := 0xFFFF_FFFD

  const MASK_RANK := 0xFFFF_FFFF_0000_0000
  const MASK_TAG := 0x0000_0000_FFFF_FFFF
  const ALL_BITS := 0xFFFF_FFFF_FFFF_FFFF

  // ----- the 64-bit word -----

  /** The word of a message or of a receive: the rank shifted into the upper half, or-ed with the tag. */
  function Pack(rank: nat, tag: nat): nat {
    Or(ShiftLeft(rank, 32), tag)
  }

  function TagOf(word: nat): nat {
    And(word, MASK_TAG)
  }

  function RankOf(word: nat): nat {
    ShiftRight(And(word, MASK_RANK), 32)
  }

  /** The bits that a receive ignores: those of the rank for a receive from any source. */
  function IgnoreOf(commId: nat): (mask: nat)
    ensures mask == MASK_RANK || mask == 0
  {
    if commId == ANY_COMM_SHM || commId == ANY_COMM_PEER then MASK_RANK else 0
  }

  /** The fabric's rule: the words agree in all bits that the receive does not ignore. */
  predicate Matches(message: nat, receive: nat, ignore: nat)
    requires ignore <= ALL_BITS
  {
    And(message, ALL_BITS - ignore) == And(receive, ALL_BITS - ignore)
  }

  lemma PackIsSum(rank: uint32, tag: uint32)
    ensures Pack(rank, tag) == rank * 0x1_0000_0000 + tag
  {
    PowersOfTwo();
    OrOfHalves(rank, tag, 32);
  }

  /** A message word is rank * 2^32 + tag, and the masks take both out of it again. */
  lemma PackRoundTrip(rank: uint32, tag: uint32)
    ensures Pack(rank, tag) == rank * 0x1_0000_0000 + tag <= ALL_BITS
    ensures TagOf(Pack(rank, tag)) == tag && RankOf(Pack(rank, tag)) == rank
  {
    PackIsSum(rank, tag);
    LowerHalf(rank, tag);
    UpperHalf(rank, tag);
  }

  /** A receive without ignored bits compares the whole words, and one from any source the tags. */
  lemma MatchesMeans(r: uint32, t: uint32, rank: uint32, tag: uint32)
    ensures Matches(Pack(r, t), Pack(rank, tag), 0) <==> r == rank && t == tag
    ensures Matches(Pack(r, t), Pack(rank, tag), MASK_RANK) <==> t == tag
  {
    PackRoundTrip(r, t);
    PackRoundTrip(rank, tag);
    AllBits(Pack(r, t));
    AllBits(Pack(rank, tag));
    assert ALL_BITS - MASK_RANK == MASK_TAG;
  }

  // ----- the communicators of a process -----

  datatype Kind = Shm | Peer

  /** `rankSelfInPeer` is this communicator's number at the other end, once it is known. */
  datatype Comm = Comm(kind: Kind, rankSelfInPeer: Option<nat>)

  /** A reserved number has no communicator yet. */
  datatype Table = Table(counter: nat, comms: map<nat, Option<Comm>>)

  /** The table as the source keeps it, changed in place. */
  class CommTable {
    /** The setting LFI_use_shm of the process. */
    const useShm: bool
    var counter: nat
    var comms: map<nat, Option<Comm>>

    ghost function View(): Table
      reads this
    {
      Table(counter, comms)
    }

    constructor (useShm: bool)
      ensures View() == Table(0, map[]) && this.useShm == useShm
    {
      this.useShm, counter, comms := useShm, 0, map[];
    }

    method ReserveComm() returns (id: nat)
      modifies this
      ensures id == old(counter) && View() == Reserve(old(View()))
      ensures id in comms && (id !in old(comms) ==> comms[id] == None)
      ensures forall k :: k in old(comms) ==> k in comms && comms[k] == old(comms)[k]
      ensures forall k :: k in comms && k != id ==> k in old(comms)
    {
      id := counter;
      counter := counter + 1;
      if id !in comms {
        comms := comms[id := None];
      }
    }

    /** The source terminates the process when the number is not reserved or already in use. */
    method InitComm(id: nat, isShm: bool)
      requires Free(View(), id)
      modifies this
      ensures View() == Init(old(View()), id, KindOf(isShm, useShm))
      ensures id in comms && comms[id].Some? && comms[id].value.rankSelfInPeer == None
      ensures comms[id].value.kind == Shm <==> isShm && useShm
    {
      if isShm && useShm {
        comms := comms[id := Some(Comm(Shm, None))];
      } else {
        comms := comms[id := Some(Comm(Peer, None))];
      }
    }

    method LearnRank(id: nat, rank: nat)
      requires InUse(View(), id)
      modifies this
      ensures View() == Learn(old(View()), id, rank)
    {
      comms := comms[id := Some(comms[id].value.(rankSelfInPeer := Some(rank)))];
    }

    /** The result, or nothing while the source waits for the connection to be made. */
    method CloseComm(id: nat) returns (code: Option<int>)
      modifies this
      ensures code == Some(-LFI_COMM_NOT_FOUND) <==> id !in old(comms)
      ensures code == None <==> id in old(comms) && !Ready(old(View()), id)
      ensures code == Some(LFI_SUCCESS) <==> Ready(old(View()), id)
      ensures View() == if Ready(old(View()), id) then Close(old(View()), id) else old(View())
    {
      if id !in comms {
        return Some(-LFI_COMM_NOT_FOUND);
      }
      if comms[id] == None || comms[id].value.rankSelfInPeer == None {
        return None;
      }
      comms := comms - {id};
      code := Some(LFI_SUCCESS);
    }
  }

  function Reserve(t: Table): Table {
    Table(t.counter + 1, if t.counter in t.comms then t.comms else t.comms[t.counter := None])
  }

  predicate Free(t: Table, id: nat) {
    id in t.comms && t.comms[id] == None
  }

  predicate InUse(t: Table, id: nat) {
    id in t.comms && t.comms[id].Some?
  }

  /** The communicator knows its number at the other end, so that messages can be sent. */
  predicate Ready(t: Table, id: nat) {
    InUse(t, id) && t.comms[id].value.rankSelfInPeer.Some?
  }

  /** A process uses shared memory with a process of the same host, unless its settings forbid it. */
  function KindOf(isShm: bool, useShm: bool): Kind {
    if isShm && useShm then Shm else Peer
  }

  function Init(t: Table, id: nat, kind: Kind): Table {
    t.(comms := t.comms[id := Some(Comm(kind, None))])
  }

  function Learn(t: Table, id: nat, rank: nat): Table
    requires InUse(t, id)
  {
    t.(comms := t.comms[id := Some(t.comms[id].value.(rankSelfInPeer := Some(rank)))])
  }

  function Close(t: Table, id: nat): Table {
    t.(comms := t.comms - {id})
  }

  // ----- all processes -----

  /** One end of a connection: a communicator of a process. */
  datatype End = End(proc: nat, id: nat)

  /** A connection, how far its exchange of numbers has come, and what is on its way. */
  datatype Link = Link(client: End, server: End, stage: nat, word: nat)

  /** `hosts` are the host identifiers of the processes, and `useShm` their settings. */
  datatype World = World(hosts: seq<string>, useShm: seq<bool>, tables: seq<Table>, links: seq<Link>)

  datatype Event =
    | ReserveId(p: nat)
    | Open(client: End, server: End)
    | ClientSends(l: nat)
    | ServerReceives(l: nat)
    | ServerSends(l: nat)
    | ClientReceives(l: nat)
    | CloseId(p: nat, id: nat)

  ghost function Initial(hosts: seq<string>, useShm: seq<bool>): World {
    World(hosts, useShm, seq(|hosts|, _ => Table(0, map[])), [])
  }

  ghost predicate Shaped(w: World) {
    |w.hosts| == |w.useShm| == |w.tables|
  }

  /** What process `p` uses for a communicator with process `q`, whose host identifier it has been told. */
  ghost function KindFor(w: World, p: nat, q: nat): Kind
    requires Shaped(w) && p < |w.tables| && q < |w.tables|
  {
    KindOf(w.hosts[p] == w.hosts[q], w.useShm[p])
  }

  ghost predicate IsEnd(w: World, e: End) {
    e.proc < |w.tables| && InUse(w.tables[e.proc], e.id)
  }

  /** Numbers are reserved only below those that stand for any source. */
  ghost predicate Enabled(w: World, e: Event) {
    match e
    case ReserveId(p) => p < |w.tables| && w.tables[p].counter < ANY_COMM_PEER
    case Open(c, s) =>
      && Shaped(w) && c.proc < |w.tables| && s.proc < |w.tables| && c != s
      && Free(w.tables[c.proc], c.id) && Free(w.tables[s.proc], s.id)
    case ClientSends(l) => l < |w.links| && w.links[l].stage == 0
    case ServerReceives(l) => l < |w.links| && w.links[l].stage == 1 && IsEnd(w, w.links[l].server)
    case ServerSends(l) => l < |w.links| && w.links[l].stage == 2
    case ClientReceives(l) => l < |w.links| && w.links[l].stage == 3 && IsEnd(w, w.links[l].client)
    case CloseId(p, id) => p < |w.tables| && Ready(w.tables[p], id)
  }

  ghost function At(w: World, p: nat, t: Table): World
    requires p < |w.tables|
  {
    w.(tables := w.tables[p := t])
  }

  ghost function Step(w: World, e: Event): World
    requires Enabled(w, e)
  {
    match e
    case ReserveId(p) => At(w, p, Reserve(w.tables[p]))
    case Open(c, s) =>
      var v := At(w, c.proc, Init(w.tables[c.proc], c.id, KindFor(w, c.proc, s.proc)));
      At(v, s.proc, Init(v.tables[s.proc], s.id, KindFor(w, s.proc, c.proc))).(links := w.links + [Link(c, s, 0, 0)])
    case ClientSends(l) => w.(links := w.links[l := w.links[l].(stage := 1, word := w.links[l].client.id)])
    case ServerReceives(l) =>
      var s := w.links[l].server;
      At(w, s.proc, Learn(w.tables[s.proc], s.id, w.links[l].word)).(links := w.links[l := w.links[l].(stage := 2)])
    case ServerSends(l) => w.(links := w.links[l := w.links[l].(stage := 3, word := w.links[l].server.id)])
    case ClientReceives(l) =>
      var c := w.links[l].client;
      At(w, c.proc, Learn(w.tables[c.proc], c.id, w.links[l].word)).(links := w.links[l := w.links[l].(stage := 4)])
    case CloseId(p, id) => At(w, p, Close(w.tables[p], id))
  }

  ghost predicate CanRun(w: World, run: seq<Event>)
    decreases |run|
  {
    run == [] || (Enabled(w, run[0]) && CanRun(Step(w, run[0]), run[1..]))
  }

  ghost function Run(w: World, run: seq<Event>): World
    requires CanRun(w, run)
    decreases |run|
  {
    if run == [] then w else Run(Step(w, run[0]), run[1..])
  }

  // ----- the invariant -----

  ghost predicate TableInv(t: Table) {
    && t.counter <= ANY_COMM_PEER
    && forall id :: id in t.comms ==> id < t.counter
  }

  /** What is known of one end: its number was given out and is not free, and it names the other end correctly. */
  ghost predicate EndInv(w: World, e: End, other: End, learnt: bool) {
    && Shaped(w) && e.proc < |w.tables| && other.proc < |w.tables|
    && e.id < w.tables[e.proc].counter && !Free(w.tables[e.proc], e.id)
    && (InUse(w.tables[e.proc], e.id) ==>
          w.tables[e.proc].comms[e.id].value
            == Comm(KindFor(w, e.proc, other.proc), if learnt then Some(other.id) else None))
  }

  ghost predicate LinkInv(w: World, k: Link) {
    && k.client != k.server && k.stage <= 4
    && EndInv(w, k.client, k.server, k.stage == 4) && EndInv(w, k.server, k.client, k.stage >= 2)
    && (k.stage == 1 ==> k.word == k.client.id) && (k.stage == 3 ==> k.word == k.server.id)
  }

  ghost predicate Apart(a: Link, b: Link) {
    a.client != b.client && a.client != b.server && a.server != b.client && a.server != b.server
  }

  ghost predicate Inv(w: World) {
    && Shaped(w)
    && (forall p :: 0 <= p < |w.tables| ==> TableInv(w.tables[p]))
    && (forall i :: 0 <= i < |w.links| ==> LinkInv(w, w.links[i]))
    && (forall i, j :: 0 <= i < j < |w.links| ==> Apart(w.links[i], w.links[j]))
  }

  lemma InitialInvariant(hosts: seq<string>, useShm: seq<bool>)
    requires |hosts| == |useShm|
    ensures Inv(Initial(hosts, useShm))
  {
  }

  // ----- every step keeps the invariant -----

  lemma ReserveKeeps(w: World, p: nat)
    requires Inv(w) && Enabled(w, ReserveId(p))
    ensures Inv(Step(w, ReserveId(p)))
  {
    var t := Step(w, ReserveId(p));
    assert TableInv(w.tables[p]);
    forall i | 0 <= i < |t.links| ensures LinkInv(t, t.links[i]) {
      assert LinkInv(w, w.links[i]);
    }
  }

  lemma CloseKeeps(w: World, p: nat, id: nat)
    requires Inv(w) && Enabled(w, CloseId(p, id))
    ensures Inv(Step(w, CloseId(p, id)))
  {
    var t := Step(w, CloseId(p, id));
    assert TableInv(w.tables[p]);
    forall i | 0 <= i < |t.links| ensures LinkInv(t, t.links[i]) {
      assert LinkInv(w, w.links[i]);
    }
  }

  lemma SendKeeps(w: World, l: nat, e: Event)
    requires Inv(w) && Enabled(w, e) && (e == ClientSends(l) || e == ServerSends(l))
    ensures Inv(Step(w, e))
  {
    var t := Step(w, e);
    forall i | 0 <= i < |t.links| ensures LinkInv(t, t.links[i]) {
      assert LinkInv(w, w.links[i]);
    }
    forall i, j | 0 <= i < j < |t.links| ensures Apart(t.links[i], t.links[j]) {
      assert Apart(w.links[i], w.links[j]);
    }
  }

  lemma ReceiveKeeps(w: World, l: nat, e: Event)
    requires Inv(w) && Enabled(w, e) && (e == ServerReceives(l) || e == ClientReceives(l))
    ensures Inv(Step(w, e))
  {
    var t := Step(w, e);
    assert LinkInv(w, w.links[l]);
    assert forall p :: 0 <= p < |w.tables| ==> TableInv(w.tables[p]);
    forall i | 0 <= i < |t.links| ensures LinkInv(t, t.links[i]) {
      assert LinkInv(w, w.links[i]);
      assert i < l ==> Apart(w.links[i], w.links[l]);
      assert l < i ==> Apart(w.links[l], w.links[i]);
    }
    forall i, j | 0 <= i < j < |t.links| ensures Apart(t.links[i], t.links[j]) {
      assert Apart(w.links[i], w.links[j]);
    }
  }

  lemma OpenKeeps(w: World, c: End, s: End)
    requires Inv(w) && Enabled(w, Open(c, s))
    ensures Inv(Step(w, Open(c, s)))
  {
    var t := Step(w, Open(c, s));
    assert TableInv(w.tables[c.proc]) && TableInv(w.tables[s.proc]);
    forall p | 0 <= p < |t.tables| ensures TableInv(t.tables[p]) {
      assert TableInv(w.tables[p]);
    }
    forall i | 0 <= i < |w.links|
      ensures LinkInv(t, w.links[i]) && Apart(w.links[i], Link(c, s, 0, 0))
    {
      assert LinkInv(w, w.links[i]);
    }
    assert LinkInv(t, Link(c, s, 0, 0));
  }

  lemma StepKeepsInvariant(w: World, e: Event)
    requires Inv(w) && Enabled(w, e)
    ensures Inv(Step(w, e))
  {
    match e
    case ReserveId(p) => ReserveKeeps(w, p);
    case Open(c, s) => OpenKeeps(w, c, s);
    case ClientSends(l) => SendKeeps(w, l, e);
    case ServerReceives(l) => ReceiveKeeps(w, l, e);
    case ServerSends(l) => SendKeeps(w, l, e);
    case ClientReceives(l) => ReceiveKeeps(w, l, e);
    case CloseId(p, id) => CloseKeeps(w, p, id);
  }

  lemma {:induction false} RunKeepsInvariant(w: World, run: seq<Event>)
    requires Inv(w) && CanRun(w, run)
    ensures Inv(Run(w, run))
    decreases |run|
  {
    if run != [] {
      StepKeepsInvariant(w, run[0]);
      RunKeepsInvariant(Step(w, run[0]), run[1..]);
    }
  }

  // ----- connections are made -----

  ghost function NextOf(l: nat, stage: nat): Event {
    if stage == 0 then ClientSends(l) else if stage == 1 then ServerReceives(l)
    else if stage == 2 then ServerSends(l) else ClientReceives(l)
  }

  /** An open connection, however far it has come, can be finished: both ends are then able to send. */
  lemma {:induction false} ConnectionIsMade(w: World, l: nat) returns (run: seq<Event>)
    requires Inv(w) && l < |w.links| && IsEnd(w, w.links[l].client) && IsEnd(w, w.links[l].server)
    ensures CanRun(w, run) && |Run(w, run).links| == |w.links|
    ensures CanSend(Run(w, run), w.links[l].client) && CanSend(Run(w, run), w.links[l].server)
    decreases 4 - w.links[l].stage
  {
    assert LinkInv(w, w.links[l]);
    if w.links[l].stage == 4 {
      run := [];
    } else {
      var e := NextOf(l, w.links[l].stage);
      StepKeepsInvariant(w, e);
      var rest := ConnectionIsMade(Step(w, e), l);
      run := [e] + rest;
      assert run[1..] == rest;
    }
  }

  /** Any two processes with numbers left can connect, whatever has happened before. */
  lemma AnyTwoConnect(w: World, p: nat, q: nat) returns (run: seq<Event>, c: End, s: End)
    requires Inv(w) && p < |w.tables| && q < |w.tables|
    requires w.tables[p].counter < ANY_COMM_PEER - 1 && w.tables[q].counter < ANY_COMM_PEER - 1
    ensures CanRun(w, run) && CanSend(Run(w, run), c) && CanSend(Run(w, run), s)
    ensures c != s && c.proc == p && s.proc == q
    ensures c.id >= w.tables[p].counter && s.id >= w.tables[q].counter
  {
    c := End(p, w.tables[p].counter);
    var w1 := Step(w, ReserveId(p));
    StepKeepsInvariant(w, ReserveId(p));
    s := End(q, w1.tables[q].counter);
    var w2 := Step(w1, ReserveId(q));
    StepKeepsInvariant(w1, ReserveId(q));
    var w3 := Step(w2, Open(c, s));
    StepKeepsInvariant(w2, Open(c, s));
    var rest := ConnectionIsMade(w3, |w.links|);
    var tail1 := [Open(c, s)] + rest;
    assert tail1[1..] == rest;
    var tail2 := [ReserveId(q)] + tail1;
    assert tail2[1..] == tail1;
    run := [ReserveId(p)] + tail2;
    assert run[1..] == tail2;
    assert w3.links[|w.links|].client == c && w3.links[|w.links|].server == s;
    assert Run(w, run) == Run(w1, tail2) == Run(w2, tail1) == Run(w3, rest);
  }

  // ----- routing -----

  ghost predicate Joins(k: Link, a: End, b: End) {
    (a == k.client && b == k.server) || (a == k.server && b == k.client)
  }

  /** A message can be sent from `a` once it has learnt its number at the other end. */
  ghost predicate CanSend(w: World, a: End) {
    a.proc < |w.tables| && Ready(w.tables[a.proc], a.id)
  }

  /** The word of a message sent from `a` with a tag. */
  ghost function MessageWord(w: World, a: End, tag: uint32): nat
    requires CanSend(w, a)
  {
    Pack(w.tables[a.proc].comms[a.id].value.rankSelfInPeer.value, tag)
  }

  /** A receive on a communicator, or on one of the numbers that stand for any source, takes the message. */
  predicate Receives(commId: nat, receiveTag: uint32, word: nat) {
    Matches(word, Pack(commId, receiveTag), IgnoreOf(commId))
  }

  /** Every sending end belongs to one connection, and its messages carry the number of the other end. */
  lemma MessageNamesOtherEnd(w: World, i: nat, a: End, b: End, tag: uint32)
    requires Inv(w) && i < |w.links| && Joins(w.links[i], a, b) && CanSend(w, a)
    ensures MessageWord(w, a, tag) == Pack(b.id, tag) && b.id < ANY_COMM_PEER
  {
    assert LinkInv(w, w.links[i]);
    assert TableInv(w.tables[b.proc]);
  }

  /**
   * A directed receive on the communicator `d` of the process that the message reaches matches if and only if the
   * message was sent over the other end of that communicator with the same tag.
   */
  lemma DirectedReceive(hosts: seq<string>, useShm: seq<bool>, run: seq<Event>, i: nat, a: End, b: End, tag: uint32,
                        d: End, receiveTag: uint32)
    requires |hosts| == |useShm| && CanRun(Initial(hosts, useShm), run)
    requires
      var w := Run(Initial(hosts, useShm), run);
      && i < |w.links| && Joins(w.links[i], a, b) && CanSend(w, a)
      && d.proc == b.proc && IsEnd(w, d)
    ensures Receives(d.id, receiveTag, MessageWord(Run(Initial(hosts, useShm), run), a, tag))
      <==> d == b && receiveTag == tag
  {
    var w := Run(Initial(hosts, useShm), run);
    InitialInvariant(hosts, useShm);
    RunKeepsInvariant(Initial(hosts, useShm), run);
    MessageNamesOtherEnd(w, i, a, b, tag);
    assert TableInv(w.tables[d.proc]);
    assert d.id < ANY_COMM_PEER;
    MatchesMeans(b.id, tag, d.id, receiveTag);
  }

  /**
   * An any-source receive matches on the tag alone, and what it reports as source is the receiver's own number for the
   * communicator that carried the message.
   */
  lemma AnySourceReceive(hosts: seq<string>, useShm: seq<bool>, run: seq<Event>, i: nat, a: End, b: End, tag: uint32,
                         any: uint32, receiveTag: uint32)
    requires |hosts| == |useShm| && CanRun(Initial(hosts, useShm), run) && (any == ANY_COMM_SHM || any == ANY_COMM_PEER)
    requires
      var w := Run(Initial(hosts, useShm), run);
      i < |w.links| && Joins(w.links[i], a, b) && CanSend(w, a)
    ensures
      var word := MessageWord(Run(Initial(hosts, useShm), run), a, tag);
      && (Receives(any, receiveTag, word) <==> receiveTag == tag)
      && RankOf(word) == b.id && TagOf(word) == tag
  {
    var w := Run(Initial(hosts, useShm), run);
    InitialInvariant(hosts, useShm);
    RunKeepsInvariant(Initial(hosts, useShm), run);
    MessageNamesOtherEnd(w, i, a, b, tag);
    PackRoundTrip(b.id, tag);
    MatchesMeans(b.id, tag, any, receiveTag);
  }

  /**
   * The two ends of a connection use the same kind of endpoint if and only if they are on different hosts or both
   * processes have the same setting for shared memory.
   */
  lemma EndsShareTheEndpointIff(hosts: seq<string>, useShm: seq<bool>, run: seq<Event>, i: nat)
    requires |hosts| == |useShm| && CanRun(Initial(hosts, useShm), run)
    requires
      var w := Run(Initial(hosts, useShm), run);
      i < |w.links| && IsEnd(w, w.links[i].client) && IsEnd(w, w.links[i].server)
    ensures
      var w := Run(Initial(hosts, useShm), run);
      var c, s := w.links[i].client, w.links[i].server;
      && c.proc < |hosts| && s.proc < |hosts|
      && (w.tables[c.proc].comms[c.id].value.kind == w.tables[s.proc].comms[s.id].value.kind
        <==> hosts[c.proc] != hosts[s.proc] || useShm[c.proc] == useShm[s.proc])
  {
    InitialInvariant(hosts, useShm);
    RunKeepsInvariant(Initial(hosts, useShm), run);
    SettingsStay(Initial(hosts, useShm), run);
    assert LinkInv(Run(Initial(hosts, useShm), run), Run(Initial(hosts, useShm), run).links[i]);
  }

  /** An end uses shared memory if and only if both processes are on one host and its own setting allows it. */
  lemma EndUsesShmIff(hosts: seq<string>, useShm: seq<bool>, run: seq<Event>, i: nat, a: End, b: End)
    requires |hosts| == |useShm| && CanRun(Initial(hosts, useShm), run)
    requires
      var w := Run(Initial(hosts, useShm), run);
      i < |w.links| && Joins(w.links[i], a, b) && IsEnd(w, a)
    ensures
      var w := Run(Initial(hosts, useShm), run);
      && a.proc < |hosts| && b.proc < |hosts|
      && (w.tables[a.proc].comms[a.id].value.kind == Shm <==> hosts[a.proc] == hosts[b.proc] && useShm[a.proc])
  {
    InitialInvariant(hosts, useShm);
    RunKeepsInvariant(Initial(hosts, useShm), run);
    SettingsStay(Initial(hosts, useShm), run);
    assert LinkInv(Run(Initial(hosts, useShm), run), Run(Initial(hosts, useShm), run).links[i]);
  }

  lemma {:induction false} SettingsStay(w: World, run: seq<Event>)
    requires CanRun(w, run)
    ensures Run(w, run).hosts == w.hosts && Run(w, run).useShm == w.useShm
    decreases |run|
  {
    if run != [] {
      SettingsStay(Step(w, run[0]), run[1..]);
    }
  }
}
