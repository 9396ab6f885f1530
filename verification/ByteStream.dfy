/**
 * One direction of an emulated stream socket: the sender announces the sizes and tags of its messages and then sends
 * each under its tag; the receiving thread gathers the messages of one announcement, in whatever order they complete,
 * into one buffer; the reader consumes the buffers. All of it together is a plain byte stream.
 */
module ByteStream {
  import opened Common
  import opened Coalescing

  const SIZE_MODULUS := 0x1_0000_0000
  const MAX_GROUPS := 1024

  /** The tag on which announcements are received, from any source. */
  const ANNOUNCE_TAG := 0xFFFF_FFFC

  /** What the announcement says of one message: the size is a 32-bit field. */
  datatype Note = Note(size: nat, tag: nat)

  /** A message that is announced and not yet received: `index` in the announcement number `msg`. */
  datatype Packet = Packet(content: seq<byte>, posted: bool, msg: nat, index: nat)

  /** The announcement that the receiving thread is working on, its buffer, and the receives that completed. */
  datatype Gather = Gather(notes: seq<Note>, buffer: seq<byte>, got: seq<bool>)

  datatype Buffer = Buffer(content: seq<byte>, consumed: nat)

  datatype State = State(
    limit: nat,                // up to which pieces are coalesced
    announced: seq<seq<Note>>, // announcements in flight, oldest first
    taken: nat,                // announcements that the receiving thread has taken
    packets: map<nat, Packet>, // by tag
    current: Option<Gather>,
    buffers: seq<Buffer>,
    eventfd: nat,
    sent: seq<byte>,           // all bytes ever handed to a send
    delivered: seq<byte>)      // all bytes ever copied to a reader

  datatype Event =
    | Send(iov: seq<seq<byte>>, tags: seq<nat>)
    | Transmit(tag: nat)
    | Take
    | Complete(i: nat)
    | Push
    | Receive(lens: seq<nat>)

  ghost function Initial(limit: nat): State {
    State(limit, [], 0, map[], None, [], 0, [], [])
  }

  function GroupsOf(limit: nat, iov: seq<seq<byte>>): seq<Group> {
    Groups(Lengths(iov), limit)
  }

  function PayloadsOf(limit: nat, iov: seq<seq<byte>>): (r: seq<seq<byte>>)
    ensures |r| == |GroupsOf(limit, iov)| && Concat(r) == Concat(iov)
  {
    CoalescingKeepsBytes(iov, limit);
    Payloads(iov, GroupsOf(limit, iov))
  }

  /** What the 32-bit size field keeps of a length. */
  function Narrow(length: nat): (size: nat)
    ensures length < SIZE_MODULUS ==> size == length
  {
    length % 0x1_0000_0000
  }

  function NotesOf(payloads: seq<seq<byte>>, tags: seq<nat>): (r: seq<Note>)
    requires |tags| == |payloads|
    ensures |r| == |tags|
    ensures forall i :: 0 <= i < |r| ==> r[i] == Note(Narrow(|payloads[i]|), tags[i])
  {
    seq(|tags|, i requires 0 <= i < |tags| => Note(Narrow(|payloads[i]|), tags[i]))
  }

  function Total(notes: seq<Note>): nat {
    if notes == [] then 0 else Total(notes[..|notes| - 1]) + notes[|notes| - 1].size
  }

  /** Where the message `i` goes in the buffer. */
  function Offset(notes: seq<Note>, i: nat): nat
    requires i <= |notes|
  {
    Total(notes[..i])
  }

  lemma {:induction false} OffsetsGrow(notes: seq<Note>, i: nat, j: nat)
    requires i < j <= |notes|
    ensures Offset(notes, i) + notes[i].size <= Offset(notes, j) <= Total(notes)
    ensures i + 1 == j ==> Offset(notes, j) == Offset(notes, i) + notes[i].size
    decreases |notes| - i
  {
    assert notes[..i + 1][..i] == notes[..i];
    if i + 1 < j {
      OffsetsGrow(notes, i + 1, j);
    } else if j < |notes| {
      OffsetsGrow(notes, j, |notes|);
    } else {
      assert notes[..j] == notes;
    }
  }

  /** The new packets of a send. */
  function PacketsOf(payloads: seq<seq<byte>>, tags: seq<nat>, msg: nat): (m: map<nat, Packet>)
    requires |tags| == |payloads| && Distinct(tags)
    ensures forall t :: t in m <==> t in tags
    ensures forall i :: 0 <= i < |tags| ==> tags[i] in m && m[tags[i]] == Packet(payloads[i], false, msg, i)
  {
    if tags == [] then map[]
    else
      var k := |tags| - 1;
      assert tags == tags[..k] + [tags[k]];
      PacketsOf(payloads[..k], tags[..k], msg)[tags[k] := Packet(payloads[k], false, msg, k)]
  }

  /**
   * Tags are unused and not that of announcements, sizes fit their field, and the announcement fits the receiver's
   * array.
   */
  ghost predicate Announceable(s: State, payloads: seq<seq<byte>>, tags: seq<nat>) {
    && |tags| == |payloads| <= MAX_GROUPS && Distinct(tags)
    && (forall i :: 0 <= i < |tags| ==> tags[i] !in s.packets && tags[i] != ANNOUNCE_TAG)
    && (forall i :: 0 <= i < |payloads| ==> |payloads[i]| < SIZE_MODULUS)
  }

  ghost predicate Enabled(s: State, e: Event) {
    match e
    case Send(iov, tags) => iov != [] ==> Announceable(s, PayloadsOf(s.limit, iov), tags)
    case Transmit(tag) => tag in s.packets && !s.packets[tag].posted
    case Take => s.current == None && s.announced != []
    case Complete(i) =>
      && s.current.Some? && i < |s.current.value.notes| == |s.current.value.got| && !s.current.value.got[i]
      && s.current.value.notes[i].tag in s.packets && s.packets[s.current.value.notes[i].tag].posted
    case Push => s.current.Some? && forall i :: 0 <= i < |s.current.value.got| ==> s.current.value.got[i]
    case Receive(_) => true
  }

  /** `buffer` with `content` written at `at`. */
  function Write(buffer: seq<byte>, at: nat, content: seq<byte>): seq<byte> {
    if at + |content| <= |buffer| then buffer[..at] + content + buffer[at + |content|..] else buffer
  }

  /** What one receive takes from the front buffer. */
  function Served(buffers: seq<Buffer>, lens: seq<nat>): (n: nat)
    ensures buffers == [] ==> n == 0
  {
    if buffers == [] || |buffers[0].content| < buffers[0].consumed then 0
    else Min(Sum(lens), |buffers[0].content| - buffers[0].consumed)
  }

  /** The buffers after `n` bytes are consumed from the front one, which goes when it is used up. */
  function Consume(buffers: seq<Buffer>, n: nat): seq<Buffer> {
    if buffers == [] then []
    else if |buffers[0].content| == buffers[0].consumed + n then buffers[1..]
    else buffers[0 := Buffer(buffers[0].content, buffers[0].consumed + n)]
  }

  /** The announcement is on its way, and its messages are ready to be handed to the fabric. */
  ghost function Announce(s: State, payloads: seq<seq<byte>>, tags: seq<nat>): State
    requires Announceable(s, payloads, tags)
  {
    s.(announced := s.announced + [NotesOf(payloads, tags)],
       packets := s.packets + PacketsOf(payloads, tags, s.taken + |s.announced|))
  }

  ghost function Step(s: State, e: Event): State
    requires Enabled(s, e)
  {
    match e
    case Send(iov, tags) =>
      if iov == [] then s else Announce(s, PayloadsOf(s.limit, iov), tags).(sent := s.sent + Concat(iov))
    case Transmit(tag) => s.(packets := s.packets[tag := s.packets[tag].(posted := true)])
    case Take =>
      var notes := s.announced[0];
      s.(announced := s.announced[1..], taken := s.taken + 1,
         current := Some(Gather(notes, seq(Total(notes), _ => 0), seq(|notes|, _ => false))))
    case Complete(i) =>
      var g := s.current.value;
      var written := Write(g.buffer, Offset(g.notes, i), s.packets[g.notes[i].tag].content);
      s.(current := Some(Gather(g.notes, written, g.got[i := true])), packets := s.packets - {g.notes[i].tag})
    case Push =>
      s.(current := None, buffers := s.buffers + [Buffer(s.current.value.buffer, 0)], eventfd := s.eventfd + 1)
    case Receive(lens) =>
      if s.buffers == [] then s
      else
        var n, front := Served(s.buffers, lens), s.buffers[0];
        var bytes := if front.consumed + n <= |front.content| then front.content[front.consumed..][..n] else [];
        s.(buffers := Consume(s.buffers, n),
           eventfd := if |Consume(s.buffers, n)| < |s.buffers| && s.eventfd > 0 then s.eventfd - 1 else s.eventfd,
           delivered := s.delivered + bytes)
  }

  ghost predicate CanRun(s: State, run: seq<Event>)
    decreases |run|
  {
    run == [] || (Enabled(s, run[0]) && CanRun(Step(s, run[0]), run[1..]))
  }

  ghost function Run(s: State, run: seq<Event>): State
    requires CanRun(s, run)
    decreases |run|
  {
    if run == [] then s else Run(Step(s, run[0]), run[1..])
  }

  // ----- what is still to be read -----

  ghost function Content(packets: map<nat, Packet>, tag: nat): seq<byte> {
    if tag in packets then packets[tag].content else []
  }

  ghost function Contents(packets: map<nat, Packet>, notes: seq<Note>): (r: seq<seq<byte>>)
    ensures |r| == |notes| && forall i :: 0 <= i < |r| ==> r[i] == Content(packets, notes[i].tag)
  {
    seq(|notes|, i requires 0 <= i < |notes| => Content(packets, notes[i].tag))
  }

  ghost function Announced(packets: map<nat, Packet>, announced: seq<seq<Note>>): seq<byte> {
    if announced == [] then []
    else Concat(Contents(packets, announced[0])) + Announced(packets, announced[1..])
  }

  ghost predicate GoodGather(g: Gather) {
    |g.got| == |g.notes| && |g.buffer| == Total(g.notes)
  }

  /** What the buffer under work will hold at position `i`: it is there already, or still in its packet. */
  ghost function Piece(packets: map<nat, Packet>, g: Gather, i: nat): seq<byte>
    requires GoodGather(g) && i < |g.notes|
  {
    OffsetsGrow(g.notes, i, i + 1);
    if g.got[i] then g.buffer[Offset(g.notes, i)..Offset(g.notes, i) + g.notes[i].size]
    else Content(packets, g.notes[i].tag)
  }

  ghost function Pieces(packets: map<nat, Packet>, g: Gather): (r: seq<seq<byte>>)
    requires GoodGather(g)
    ensures |r| == |g.notes| && forall i :: 0 <= i < |r| ==> r[i] == Piece(packets, g, i)
  {
    seq(|g.notes|, i requires 0 <= i < |g.notes| => Piece(packets, g, i))
  }

  ghost function Unread(buffers: seq<Buffer>): seq<byte> {
    if buffers == [] then []
    else
      var b := buffers[0];
      (if b.consumed <= |b.content| then b.content[b.consumed..] else []) + Unread(buffers[1..])
  }

  ghost function InFlight(s: State): seq<byte>
    requires s.current.Some? ==> GoodGather(s.current.value)
  {
    (if s.current.Some? then Concat(Pieces(s.packets, s.current.value)) else [])
    + Announced(s.packets, s.announced)
  }

  /** The plain byte stream that the state stands for. */
  ghost function Stream(s: State): seq<byte>
    requires s.current.Some? ==> GoodGather(s.current.value)
  {
    Unread(s.buffers) + InFlight(s)
  }

  // ----- the invariant -----

  /** The note's message is in its packet, and the packet belongs to this note and to no other. */
  ghost predicate Matches(packets: map<nat, Packet>, note: Note, msg: int, index: nat) {
    && note.tag in packets && |packets[note.tag].content| == note.size
    && packets[note.tag].msg == msg && packets[note.tag].index == index
  }

  ghost predicate AnnouncedInv(s: State) {
    forall k, i :: 0 <= k < |s.announced| && 0 <= i < |s.announced[k]| ==>
      Matches(s.packets, s.announced[k][i], s.taken + k, i)
  }

  ghost predicate CurrentInv(s: State) {
    s.current.Some? ==>
      var g := s.current.value;
      && GoodGather(g) && s.taken > 0
      && forall i :: 0 <= i < |g.notes| && !g.got[i] ==> Matches(s.packets, g.notes[i], s.taken - 1, i)
  }

  ghost predicate BufferInv(s: State) {
    s.eventfd == |s.buffers| && forall k :: 0 <= k < |s.buffers| ==> s.buffers[k].consumed <= |s.buffers[k].content|
  }

  ghost predicate Inv(s: State) {
    AnnouncedInv(s) && CurrentInv(s) && BufferInv(s)
  }

  // ----- Send -----

  lemma {:induction false} AnnouncedAppend(packets: map<nat, Packet>, a: seq<seq<Note>>, notes: seq<Note>)
    ensures Announced(packets, a + [notes]) == Announced(packets, a) + Concat(Contents(packets, notes))
    decreases |a|
  {
    if a == [] {
      assert a + [notes] == [notes] && [notes][1..] == [];
    } else {
      AnnouncedAppend(packets, a[1..], notes);
      assert (a + [notes])[1..] == a[1..] + [notes];
    }
  }

  /** Two packet tables that agree on the announced tags give the same bytes. */
  lemma {:induction false} AnnouncedFrame(p: map<nat, Packet>, q: map<nat, Packet>, a: seq<seq<Note>>)
    requires forall k, i :: 0 <= k < |a| && 0 <= i < |a[k]| ==> Content(p, a[k][i].tag) == Content(q, a[k][i].tag)
    ensures Announced(p, a) == Announced(q, a)
    decreases |a|
  {
    if a != [] {
      assert Contents(p, a[0]) == Contents(q, a[0]);
      forall k, i | 0 <= k < |a[1..]| && 0 <= i < |a[1..][k]|
        ensures Content(p, a[1..][k][i].tag) == Content(q, a[1..][k][i].tag)
      {
        assert a[1..][k] == a[k + 1];
      }
      AnnouncedFrame(p, q, a[1..]);
    }
  }

  /** The packets of `p` are still in `q`, up to having been handed to the fabric. */
  ghost predicate Extends(p: map<nat, Packet>, q: map<nat, Packet>) {
    forall x :: x in p ==> x in q && q[x].(posted := p[x].posted) == p[x]
  }

  lemma ExtendedMatches(s: State, q: map<nat, Packet>)
    requires Inv(s) && Extends(s.packets, q)
    ensures AnnouncedInv(s.(packets := q)) && CurrentInv(s.(packets := q))
  {
    forall k, i | 0 <= k < |s.announced| && 0 <= i < |s.announced[k]|
      ensures Matches(q, s.announced[k][i], s.taken + k, i)
    {
      assert Matches(s.packets, s.announced[k][i], s.taken + k, i);
    }
    if s.current.Some? {
      var g := s.current.value;
      forall i | 0 <= i < |g.notes| && !g.got[i] ensures Matches(q, g.notes[i], s.taken - 1, i) {
        assert Matches(s.packets, g.notes[i], s.taken - 1, i);
      }
    }
  }

  lemma ExtendedStream(s: State, q: map<nat, Packet>)
    requires Inv(s) && Extends(s.packets, q)
    ensures Announced(q, s.announced) == Announced(s.packets, s.announced)
    ensures s.current.Some? ==> Pieces(q, s.current.value) == Pieces(s.packets, s.current.value)
  {
    forall k, i | 0 <= k < |s.announced| && 0 <= i < |s.announced[k]|
      ensures Content(s.packets, s.announced[k][i].tag) == Content(q, s.announced[k][i].tag)
    {
      assert Matches(s.packets, s.announced[k][i], s.taken + k, i);
    }
    AnnouncedFrame(s.packets, q, s.announced);
    if s.current.Some? {
      var g := s.current.value;
      forall i | 0 <= i < |g.notes| ensures Piece(s.packets, g, i) == Piece(q, g, i) {
        assert !g.got[i] ==> Matches(s.packets, g.notes[i], s.taken - 1, i);
      }
      assert Pieces(s.packets, g) == Pieces(q, g);
    }
  }

  /** The packets after a send: the old ones, and the ones that the new announcement names. */
  lemma NewPackets(s: State, payloads: seq<seq<byte>>, tags: seq<nat>)
    requires Announceable(s, payloads, tags)
    ensures Extends(s.packets, Announce(s, payloads, tags).packets)
    ensures Contents(Announce(s, payloads, tags).packets, NotesOf(payloads, tags)) == payloads
    ensures forall i :: 0 <= i < |tags| ==>
      Matches(Announce(s, payloads, tags).packets, NotesOf(payloads, tags)[i], s.taken + |s.announced|, i)
  {
    var q, notes := Announce(s, payloads, tags).packets, NotesOf(payloads, tags);
    forall i | 0 <= i < |notes|
      ensures Matches(q, notes[i], s.taken + |s.announced|, i) && Contents(q, notes)[i] == payloads[i]
    {
      assert notes[i] == Note(|payloads[i]|, tags[i]);
    }
    assert forall x :: x in s.packets ==> x !in tags;
  }

  /** New bytes at the far end of the stream. */
  lemma StreamGrows(s: State, t: State, notes: seq<Note>, bytes: seq<byte>)
    requires CurrentInv(s) && t.buffers == s.buffers && t.current == s.current && t.announced == s.announced + [notes]
    requires s.current.Some? ==> Pieces(t.packets, s.current.value) == Pieces(s.packets, s.current.value)
    requires Announced(t.packets, s.announced) == Announced(s.packets, s.announced)
    requires Announced(t.packets, s.announced + [notes]) == Announced(t.packets, s.announced) + bytes
    ensures Stream(t) == Stream(s) + bytes
  {
    var current := if s.current.Some? then Concat(Pieces(s.packets, s.current.value)) else [];
    Regroup(Unread(s.buffers), current, Announced(s.packets, s.announced), bytes);
  }

  lemma Regroup(a: seq<byte>, b: seq<byte>, c: seq<byte>, d: seq<byte>)
    ensures a + (b + (c + d)) == (a + (b + c)) + d
  {
  }

  lemma AnnounceKeepsInvariant(s: State, payloads: seq<seq<byte>>, tags: seq<nat>)
    requires Inv(s) && Announceable(s, payloads, tags)
    ensures Inv(Announce(s, payloads, tags))
  {
    var t := Announce(s, payloads, tags);
    NewPackets(s, payloads, tags);
    ExtendedMatches(s, t.packets);
    AnnouncedInvGrows(s.(packets := t.packets), NotesOf(payloads, tags));
    assert AnnouncedInv(t) && CurrentInv(t) && BufferInv(t);
  }

  lemma AnnouncedInvGrows(s: State, notes: seq<Note>)
    requires AnnouncedInv(s)
    requires forall i :: 0 <= i < |notes| ==> Matches(s.packets, notes[i], s.taken + |s.announced|, i)
    ensures AnnouncedInv(s.(announced := s.announced + [notes]))
  {
  }

  lemma AnnounceAppends(s: State, payloads: seq<seq<byte>>, tags: seq<nat>)
    requires Inv(s) && Announceable(s, payloads, tags)
    ensures Stream(Announce(s, payloads, tags)) == Stream(s) + Concat(payloads)
  {
    var t, notes := Announce(s, payloads, tags), NotesOf(payloads, tags);
    NewPackets(s, payloads, tags);
    ExtendedStream(s, t.packets);
    AnnouncedAppend(t.packets, s.announced, notes);
    StreamGrows(s, t, notes, Concat(payloads));
  }

  lemma RecordKeeps(s: State, sent: seq<byte>)
    requires Inv(s)
    ensures Inv(s.(sent := sent)) && Stream(s.(sent := sent)) == Stream(s)
  {
  }

  lemma SendRefines(s: State, iov: seq<seq<byte>>, tags: seq<nat>)
    requires Inv(s) && Enabled(s, Send(iov, tags))
    ensures Inv(Step(s, Send(iov, tags)))
    ensures Stream(Step(s, Send(iov, tags))) == Stream(s) + Concat(iov)
  {
    if iov != [] {
      var payloads := PayloadsOf(s.limit, iov);
      var t := Announce(s, payloads, tags);
      AnnounceKeepsInvariant(s, payloads, tags);
      AnnounceAppends(s, payloads, tags);
      RecordKeeps(t, s.sent + Concat(iov));
    }
  }

  // ----- Transmit -----

  lemma TransmitKeeps(s: State, tag: nat)
    requires Inv(s) && Enabled(s, Transmit(tag))
    ensures Inv(Step(s, Transmit(tag))) && Stream(Step(s, Transmit(tag))) == Stream(s)
  {
    ExtendedMatches(s, Step(s, Transmit(tag)).packets);
    ExtendedStream(s, Step(s, Transmit(tag)).packets);
  }

  // ----- Take -----

  lemma TakeKeeps(s: State)
    requires Inv(s) && Enabled(s, Take)
    ensures Inv(Step(s, Take)) && Stream(Step(s, Take)) == Stream(s)
  {
    var t := Step(s, Take);
    var g := t.current.value;
    forall k, i | 0 <= k < |t.announced| && 0 <= i < |t.announced[k]|
      ensures Matches(t.packets, t.announced[k][i], t.taken + k, i)
    {
      assert Matches(s.packets, s.announced[k + 1][i], s.taken + (k + 1), i);
    }
    forall i | 0 <= i < |g.notes| ensures Matches(t.packets, g.notes[i], t.taken - 1, i) {
      assert Matches(s.packets, s.announced[0][i], s.taken + 0, i);
    }
    assert Pieces(t.packets, g) == Contents(s.packets, s.announced[0]);
  }

  // ----- Complete -----

  lemma WriteKeepsSpan(buffer: seq<byte>, at: nat, content: seq<byte>, a: nat, b: nat)
    requires at + |content| <= |buffer| && a <= b <= |buffer| && (b <= at || at + |content| <= a)
    ensures Write(buffer, at, content)[a..b] == buffer[a..b]
  {
    assert forall k :: a <= k < b ==> Write(buffer, at, content)[k] == buffer[k];
  }

  /** Writing one message leaves the spans of the others as they are. */
  lemma WriteSpans(notes: seq<Note>, buffer: seq<byte>, i: nat, content: seq<byte>, j: nat)
    requires |buffer| == Total(notes) && i < |notes| && j < |notes| && |content| == notes[i].size
    ensures Offset(notes, i) + notes[i].size <= |buffer| && Offset(notes, j) + notes[j].size <= |buffer|
    ensures |Write(buffer, Offset(notes, i), content)| == |buffer|
    ensures
      var a, b := Offset(notes, j), Offset(notes, j) + notes[j].size;
      Write(buffer, Offset(notes, i), content)[a..b] == if i == j then content else buffer[a..b]
  {
    OffsetsGrow(notes, i, |notes|);
    OffsetsGrow(notes, j, |notes|);
    if i < j {
      OffsetsGrow(notes, i, j);
    } else if j < i {
      OffsetsGrow(notes, j, i);
    }
    assert notes[..|notes|] == notes;
    if i != j {
      WriteKeepsSpan(buffer, Offset(notes, i), content, Offset(notes, j), Offset(notes, j) + notes[j].size);
    }
  }

  lemma CompleteKeepsInvariant(s: State, i: nat)
    requires Inv(s) && Enabled(s, Complete(i))
    ensures Inv(Step(s, Complete(i)))
  {
    var t := Step(s, Complete(i));
    var g, h := s.current.value, t.current.value;
    assert Matches(s.packets, g.notes[i], s.taken - 1, i);
    WriteSpans(g.notes, g.buffer, i, s.packets[g.notes[i].tag].content, i);
    forall k, j | 0 <= k < |s.announced| && 0 <= j < |s.announced[k]|
      ensures Matches(t.packets, s.announced[k][j], s.taken + k, j)
    {
      assert Matches(s.packets, s.announced[k][j], s.taken + k, j);
    }
    forall j | 0 <= j < |h.notes| && !h.got[j] ensures Matches(t.packets, h.notes[j], t.taken - 1, j) {
      assert Matches(s.packets, g.notes[j], s.taken - 1, j);
    }
  }

  lemma CompleteKeepsStream(s: State, i: nat)
    requires Inv(s) && Enabled(s, Complete(i))
    ensures CurrentInv(Step(s, Complete(i))) && Stream(Step(s, Complete(i))) == Stream(s)
  {
    CompleteKeepsInvariant(s, i);
    var t := Step(s, Complete(i));
    var g, h := s.current.value, t.current.value;
    assert Matches(s.packets, g.notes[i], s.taken - 1, i);
    forall j | 0 <= j < |g.notes| ensures Piece(s.packets, g, j) == Piece(t.packets, h, j) {
      WriteSpans(g.notes, g.buffer, i, s.packets[g.notes[i].tag].content, j);
      assert j != i && !g.got[j] ==> Matches(s.packets, g.notes[j], s.taken - 1, j);
    }
    assert Pieces(s.packets, g) == Pieces(t.packets, h);
    forall k, j | 0 <= k < |s.announced| && 0 <= j < |s.announced[k]|
      ensures Content(s.packets, s.announced[k][j].tag) == Content(t.packets, s.announced[k][j].tag)
    {
      assert Matches(s.packets, s.announced[k][j], s.taken + k, j);
    }
    AnnouncedFrame(s.packets, t.packets, s.announced);
  }

  // ----- Push -----

  lemma Adjoin(buffer: seq<byte>, a: nat, b: nat)
    requires a <= b <= |buffer|
    ensures buffer[..a] + buffer[a..b] == buffer[..b]
  {
  }

  /** A buffer is the concatenation of its spans. */
  lemma {:induction false} SpansAreBuffer(pieces: seq<seq<byte>>, notes: seq<Note>, buffer: seq<byte>, k: nat)
    requires |buffer| == Total(notes) && k <= |notes| == |pieces|
    requires forall i :: 0 <= i < |notes| ==>
      Offset(notes, i) + notes[i].size <= |buffer|
      && pieces[i] == buffer[Offset(notes, i)..Offset(notes, i) + notes[i].size]
    ensures Offset(notes, k) <= |buffer| && Concat(pieces[..k]) == buffer[..Offset(notes, k)]
    decreases k
  {
    if k > 0 {
      SpansAreBuffer(pieces, notes, buffer, k - 1);
      OffsetsGrow(notes, k - 1, k);
      assert pieces[..k][..k - 1] == pieces[..k - 1];
      assert pieces[k - 1] == buffer[Offset(notes, k - 1)..Offset(notes, k)];
      Adjoin(buffer, Offset(notes, k - 1), Offset(notes, k));
    }
  }

  lemma {:induction false} UnreadAppend(buffers: seq<Buffer>, b: Buffer)
    requires b.consumed == 0
    ensures Unread(buffers + [b]) == Unread(buffers) + b.content
    decreases |buffers|
  {
    if buffers == [] {
      assert [b][1..] == [] && buffers + [b] == [b];
    } else {
      UnreadAppend(buffers[1..], b);
      assert (buffers + [b])[1..] == buffers[1..] + [b];
    }
  }

  lemma ReceivedPiece(packets: map<nat, Packet>, g: Gather, i: nat)
    requires GoodGather(g) && i < |g.notes| && g.got[i]
    ensures Offset(g.notes, i) + g.notes[i].size <= |g.buffer|
    ensures Pieces(packets, g)[i] == g.buffer[Offset(g.notes, i)..Offset(g.notes, i) + g.notes[i].size]
  {
    OffsetsGrow(g.notes, i, i + 1);
    assert Pieces(packets, g)[i] == Piece(packets, g, i);
  }

  lemma FullGatherIsBuffer(packets: map<nat, Packet>, g: Gather)
    requires GoodGather(g) && forall i :: 0 <= i < |g.got| ==> g.got[i]
    ensures Concat(Pieces(packets, g)) == g.buffer
  {
    forall i | 0 <= i < |g.notes|
      ensures Offset(g.notes, i) + g.notes[i].size <= |g.buffer|
      ensures Pieces(packets, g)[i] == g.buffer[Offset(g.notes, i)..Offset(g.notes, i) + g.notes[i].size]
    {
      ReceivedPiece(packets, g, i);
    }
    SpansAreBuffer(Pieces(packets, g), g.notes, g.buffer, |g.notes|);
    assert Pieces(packets, g)[..|g.notes|] == Pieces(packets, g) && g.notes[..|g.notes|] == g.notes;
  }

  lemma MoveToUnread(unread: seq<byte>, bytes: seq<byte>, rest: seq<byte>)
    ensures (unread + bytes) + ([] + rest) == unread + (bytes + rest)
  {
  }

  lemma PushKeeps(s: State)
    requires Inv(s) && Enabled(s, Push)
    ensures Inv(Step(s, Push)) && Stream(Step(s, Push)) == Stream(s)
  {
    var bytes := s.current.value.buffer;
    FullGatherIsBuffer(s.packets, s.current.value);
    UnreadAppend(s.buffers, Buffer(bytes, 0));
    MoveToUnread(Unread(s.buffers), bytes, Announced(s.packets, s.announced));
  }

  // ----- Receive -----

  lemma DropTwice(content: seq<byte>, at: nat, n: nat)
    requires at + n <= |content|
    ensures content[at..][n..] == content[at + n..]
  {
  }

  lemma UnreadFront(b: Buffer, rest: seq<Buffer>)
    requires b.consumed <= |b.content|
    ensures Unread([b] + rest) == b.content[b.consumed..] + Unread(rest)
  {
    assert ([b] + rest)[1..] == rest;
  }

  lemma ConsumeDropsPrefix(buffers: seq<Buffer>, n: nat)
    requires buffers != [] && buffers[0].consumed + n <= |buffers[0].content|
    ensures n <= |Unread(buffers)| && Unread(Consume(buffers, n)) == Unread(buffers)[n..]
    ensures buffers[0].content[buffers[0].consumed..][..n] == Unread(buffers)[..n]
  {
    var b, rest := buffers[0], buffers[1..];
    assert buffers == [b] + rest;
    UnreadFront(b, rest);
    DropTwice(b.content, b.consumed, n);
    TakeFromFront(b.content[b.consumed..], Unread(rest), n);
    if |b.content| != b.consumed + n {
      assert Consume(buffers, n) == [Buffer(b.content, b.consumed + n)] + rest;
      UnreadFront(Buffer(b.content, b.consumed + n), rest);
    }
  }

  /** A read without a buffer delivers nothing; otherwise it delivers what is asked for or all that the buffer has. */
  lemma ReceiveLength(s: State, lens: seq<nat>)
    requires Inv(s)
    ensures s.buffers == [] ==> Step(s, Receive(lens)).delivered == s.delivered
    ensures s.buffers != [] ==>
      var unread, t := |s.buffers[0].content| - s.buffers[0].consumed, Step(s, Receive(lens));
      var n := |t.delivered| - |s.delivered|;
      && n == (if Sum(lens) <= unread then Sum(lens) else unread)
      && t.delivered == s.delivered + s.buffers[0].content[s.buffers[0].consumed..s.buffers[0].consumed + n]
      && (n == unread ==> t.buffers == s.buffers[1..])
      && (n < unread ==> t.buffers == [Buffer(s.buffers[0].content, s.buffers[0].consumed + n)] + s.buffers[1..])
  {
    if s.buffers != [] {
      var front, n := s.buffers[0], Served(s.buffers, lens);
      assert front.content[front.consumed..][..n] == front.content[front.consumed..front.consumed + n];
    }
  }

  lemma ReceiveTakesPrefix(s: State, lens: seq<nat>)
    requires Inv(s)
    ensures Inv(Step(s, Receive(lens)))
    ensures
      var t, n := Step(s, Receive(lens)), Served(s.buffers, lens);
      n <= |Stream(s)| && Stream(t) == Stream(s)[n..] && t.delivered == s.delivered + Stream(s)[..n]
  {
    if s.buffers != [] {
      var n := Served(s.buffers, lens);
      ConsumeDropsPrefix(s.buffers, n);
      TakeFromFront(Unread(s.buffers), InFlight(s), n);
    }
  }

  lemma TakeFromFront(a: seq<byte>, b: seq<byte>, n: nat)
    requires n <= |a|
    ensures (a + b)[..n] == a[..n] && (a + b)[n..] == a[n..] + b
  {
  }

  // ----- the refinement -----

  /**
   * Every step is a step of a plain byte stream: a send appends the bytes of its pieces, a receive removes a prefix and
   * delivers it, and nothing else is visible.
   */
  lemma StepRefinesStream(s: State, e: Event)
    requires Inv(s) && Enabled(s, e)
    ensures Inv(Step(s, e))
    ensures e.Send? ==> Stream(Step(s, e)) == Stream(s) + Concat(e.iov) && Step(s, e).delivered == s.delivered
    ensures e.Receive? ==>
      var n := Served(s.buffers, e.lens);
      && n <= |Stream(s)| && Stream(Step(s, e)) == Stream(s)[n..]
      && Step(s, e).delivered == s.delivered + Stream(s)[..n]
    ensures !e.Send? && !e.Receive? ==> Stream(Step(s, e)) == Stream(s) && Step(s, e).delivered == s.delivered
    ensures Step(s, e).sent == s.sent + if e.Send? then Concat(e.iov) else []
  {
    match e
    case Send(iov, tags) => SendRefines(s, iov, tags);
    case Transmit(tag) => TransmitKeeps(s, tag);
    case Take => TakeKeeps(s);
    case Complete(i) =>
      CompleteKeepsInvariant(s, i);
      CompleteKeepsStream(s, i);
    case Push => PushKeeps(s);
    case Receive(lens) => ReceiveTakesPrefix(s, lens);
  }

  /** The bytes delivered, then those still in the stream, are the bytes sent. */
  ghost predicate Conserves(s: State) {
    Inv(s) && s.delivered + Stream(s) == s.sent
  }

  /** Appending to the stream and taking a prefix of it conserve the bytes. */
  lemma Conserved(delivered: seq<byte>, stream: seq<byte>, bytes: seq<byte>, n: nat)
    requires n <= |stream|
    ensures delivered + (stream + bytes) == (delivered + stream) + bytes
    ensures (delivered + stream[..n]) + stream[n..] == delivered + stream
  {
  }

  lemma StepConserves(s: State, e: Event)
    requires Conserves(s) && Enabled(s, e)
    ensures Conserves(Step(s, e))
  {
    StepRefinesStream(s, e);
    if e.Send? {
      Conserved(s.delivered, Stream(s), Concat(e.iov), 0);
    } else if e.Receive? {
      Conserved(s.delivered, Stream(s), [], Served(s.buffers, e.lens));
    }
  }

  lemma {:induction false} RunConserves(s: State, run: seq<Event>)
    requires Conserves(s) && CanRun(s, run)
    ensures Conserves(Run(s, run))
    decreases |run|
  {
    if run != [] {
      StepConserves(s, run[0]);
      RunConserves(Step(s, run[0]), run[1..]);
    }
  }

  /**
   * For any sends, any order of completions and any reads: the bytes delivered, the bytes in unread buffers and the
   * bytes in flight are the bytes sent, in order, and the event counter counts the buffers.
   */
  lemma BytesAreConserved(limit: nat, run: seq<Event>)
    requires CanRun(Initial(limit), run)
    ensures
      var s := Run(Initial(limit), run);
      && Inv(s) && s.delivered + (Unread(s.buffers) + InFlight(s)) == s.sent
      && s.eventfd == |s.buffers|
  {
    RunConserves(Initial(limit), run);
  }

  // ----- everything sent can be delivered -----

  /** How many receives of a gather have not completed. */
  ghost function Missing(got: seq<bool>): nat {
    if got == [] then 0 else (if got[0] then 0 else 1) + Missing(got[1..])
  }

  lemma {:induction false} MissingDrops(got: seq<bool>, i: nat)
    requires i < |got| && !got[i]
    ensures Missing(got[i := true]) == Missing(got) - 1
    decreases i
  {
    if i == 0 {
      assert got[0 := true][1..] == got[1..];
    } else {
      MissingDrops(got[1..], i - 1);
      assert got[i := true][1..] == got[1..][i - 1 := true];
    }
  }

  ghost function GatherWork(s: State): nat {
    if s.current.Some? then 1 + Missing(s.current.value.got) else 0
  }

  lemma {:induction false} RunAppend(s: State, a: seq<Event>, b: seq<Event>)
    requires CanRun(s, a) && CanRun(Run(s, a), b)
    ensures CanRun(s, a + b) && Run(s, a + b) == Run(Run(s, a), b)
    decreases |a|
  {
    if a == [] {
      assert a + b == b;
    } else {
      var t, ab := Step(s, a[0]), a + b;
      assert ab[0] == a[0] && ab[1..] == a[1..] + b && Run(s, a) == Run(t, a[1..]);
      RunAppend(t, a[1..], b);
      assert CanRun(s, ab) && Run(s, ab) == Run(t, ab[1..]);
    }
  }

  ghost predicate NoSends(run: seq<Event>) {
    forall k :: 0 <= k < |run| ==> !run[k].Send?
  }

  lemma OneStep(s: State, e: Event)
    requires Conserves(s) && Enabled(s, e) && !e.Send?
    ensures CanRun(s, [e]) && Run(s, [e]) == Step(s, e) && Conserves(Step(s, e)) && Step(s, e).sent == s.sent
  {
    assert [e][1..] == [];
    StepConserves(s, e);
  }

  /** A message that the gather misses can be handed to the fabric, if it was not, and then be received. */
  lemma ReceiveMissing(s: State, i: nat) returns (run: seq<Event>)
    requires Conserves(s) && s.current.Some? && i < |s.current.value.got| && !s.current.value.got[i]
    ensures CanRun(s, run) && NoSends(run) && Conserves(Run(s, run)) && Run(s, run).sent == s.sent
    ensures Run(s, run).announced == s.announced && GatherWork(Run(s, run)) < GatherWork(s)
  {
    var tag := s.current.value.notes[i].tag;
    assert Matches(s.packets, s.current.value.notes[i], s.taken - 1, i);
    MissingDrops(s.current.value.got, i);
    if s.packets[tag].posted {
      OneStep(s, Complete(i));
      run := [Complete(i)];
    } else {
      OneStep(s, Transmit(tag));
      OneStep(Step(s, Transmit(tag)), Complete(i));
      RunAppend(s, [Transmit(tag)], [Complete(i)]);
      run := [Transmit(tag)] + [Complete(i)];
    }
  }

  /** While anything is under way or unread, a step is possible that brings it nearer to the reader. */
  lemma Advance(s: State) returns (run: seq<Event>)
    requires Conserves(s) && (s.current.Some? || s.announced != [] || s.buffers != [])
    ensures CanRun(s, run) && NoSends(run) && Conserves(Run(s, run)) && Run(s, run).sent == s.sent
    ensures
      var t := Run(s, run);
      || |t.announced| < |s.announced|
      || (t.announced == s.announced && GatherWork(t) < GatherWork(s))
      || (t.announced == s.announced && t.current == s.current && |t.buffers| < |s.buffers|)
  {
    if s.current.Some? {
      if i: nat :| i < |s.current.value.got| && !s.current.value.got[i] {
        run := ReceiveMissing(s, i);
      } else {
        OneStep(s, Push);
        run := [Push];
      }
    } else if s.announced != [] {
      OneStep(s, Take);
      run := [Take];
    } else {
      var lens := [|s.buffers[0].content| - s.buffers[0].consumed];
      assert lens[1..] == [] && Sum(lens) == lens[0];
      OneStep(s, Receive(lens));
      run := [Receive(lens)];
    }
  }

  /** Whatever is under way, all the bytes sent can reach the reader without a further send. */
  lemma {:induction false} EverythingArrives(s: State) returns (run: seq<Event>)
    requires Conserves(s)
    ensures CanRun(s, run) && NoSends(run) && Run(s, run).delivered == s.sent
    ensures Run(s, run).buffers == [] && Run(s, run).current == None && Run(s, run).announced == []
    decreases |s.announced|, GatherWork(s), |s.buffers|
  {
    if s.current == None && s.announced == [] && s.buffers == [] {
      run := [];
    } else {
      var first := Advance(s);
      var rest := EverythingArrives(Run(s, first));
      RunAppend(s, first, rest);
      run := first + rest;
    }
  }

  /** In every reachable state the bytes sent so far can still be delivered, all of them and in order. */
  lemma AllBytesCanArrive(limit: nat, run: seq<Event>) returns (more: seq<Event>)
    requires CanRun(Initial(limit), run)
    ensures CanRun(Initial(limit), run + more) && NoSends(more)
    ensures Run(Initial(limit), run + more).delivered == Run(Initial(limit), run).sent
  {
    RunConserves(Initial(limit), run);
    more := EverythingArrives(Run(Initial(limit), run));
    RunAppend(Initial(limit), run, more);
  }
}
