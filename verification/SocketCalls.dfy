/** The calls of the emulated socket: sending pieces, gathering one announcement, and serving scattered reads. */
module SocketCalls {
  import opened Common
  import opened Coalescing
  import opened ByteStream

  // ----- tags -----

  const FIRST_TAG := 100000
  const TAG_CYCLE := 1000001

  /** The process-wide counter is a 32-bit signed integer that wraps around. */
  predicate IsCount(c: int) {
    -0x8000_0000 <= c < 0x8000_0000
  }

  function CountAfter(c: int, d: nat): (r: int)
    requires IsCount(c) && d < 0x8000_0000
    ensures IsCount(r)
  {
    if c + d < 0x8000_0000 then c + d else c + d - 0x1_0000_0000
  }

  /** The remainder of the code has the sign of the counter. */
  function CycleOf(c: int): int {
    if c >= 0 then c % TAG_CYCLE else -((-c) % TAG_CYCLE)
  }

  /** The tag of the message that was given the count `c`, as an unsigned 32-bit number. */
  function TagOf(c: int): nat
    requires IsCount(c)
  {
    if FIRST_TAG + CycleOf(c) >= 0 then FIRST_TAG + CycleOf(c) else FIRST_TAG + CycleOf(c) + 0x1_0000_0000
  }

  lemma DifferentCycles(c: int, d: int)
    requires c < d < c + TAG_CYCLE && (c >= 0 || d < 0)
    ensures CycleOf(c) != CycleOf(d)
  {
  }

  lemma OppositeCycles(c: int, d: int)
    requires c < 0 <= d && CycleOf(c) == CycleOf(d)
    ensures c % TAG_CYCLE == 0 && d % TAG_CYCLE == 0
  {
  }

  /** Fewer than 963002 messages apart, no two messages have the same tag, even where the counter wraps around. */
  lemma TagsAreDistinct(c: int, d: nat)
    requires IsCount(c) && 0 < d < 963002
    ensures TagOf(c) != TagOf(CountAfter(c, d))
  {
    var e := CountAfter(c, d);
    if c < e && (c >= 0 || e < 0) {
      DifferentCycles(c, e);
    } else if c < e && CycleOf(c) == CycleOf(e) {
      OppositeCycles(c, e);
    } else if e < c && CycleOf(c) == CycleOf(e) {
      OppositeCycles(e, c);
      WrapDistance(c / TAG_CYCLE, e / TAG_CYCLE, d);
    }
  }

  lemma WrapDistance(p: int, q: int, d: int)
    requires TAG_CYCLE * p < 0x8000_0000 && TAG_CYCLE * q >= -0x8000_0000
    ensures TAG_CYCLE * p + 963002 <= TAG_CYCLE * q + 0x1_0000_0000
  {
  }

  /** 963002 messages apart, two messages can have the same tag. */
  lemma TagsMeet()
    ensures TagOf(2147002147) == TagOf(CountAfter(2147002147, 963002))
  {
  }

  /** A message tag is the announcement tag exactly for the counts -100004, -1100005, -2100006, and so on. */
  lemma TagIsAnnounceTagIff(c: int)
    requires IsCount(c)
    ensures TagOf(c) == ANNOUNCE_TAG <==> c < 0 && (-c) % TAG_CYCLE == 100004
  {
  }

  // ----- sending -----

  /** The tags of `n` messages; `counts(i)` is what the shared counter gives for message `i`. */
  function TagsFrom(counts: nat -> int, n: nat): (tags: seq<nat>)
    requires forall i :: IsCount(counts(i))
    ensures |tags| == n && forall i :: 0 <= i < n ==> tags[i] == TagOf(counts(i))
  {
    if n == 0 then [] else TagsFrom(counts, n - 1) + [TagOf(counts(n - 1))]
  }

  lemma CountsAdd(c: int, d: nat, e: nat)
    requires IsCount(c) && d + e < 0x8000_0000
    ensures CountAfter(CountAfter(c, d), e) == CountAfter(c, d + e)
  {
  }

  /** Any two counts of a window of 963002 give different tags. */
  lemma TagsOfWindow(c: int, d: nat, e: nat)
    requires IsCount(c) && d < 963002 && e < 963002 && d != e
    ensures TagOf(CountAfter(c, d)) != TagOf(CountAfter(c, e))
  {
    if d < e {
      CountsAdd(c, d, e - d);
      TagsAreDistinct(CountAfter(c, d), e - d);
    } else {
      CountsAdd(c, e, d - e);
      TagsAreDistinct(CountAfter(c, e), d - e);
    }
  }

  /** The counts at the given distances after `c` are taken by message 0, message 1, and so on. */
  ghost predicate CountsAt(counts: nat -> int, c: int, at: seq<nat>) {
    && IsCount(c) && Distinct(at)
    && forall i :: 0 <= i < |at| ==> at[i] < 963002 && counts(i) == CountAfter(c, at[i])
  }

  /** Every outstanding message has the tag of one of the counts at the distances `used` after `c`. */
  ghost predicate UsesWindow(s: State, c: int, used: set<nat>)
    requires IsCount(c)
  {
    && (forall d :: d in used ==> d < 963002)
    && forall t :: t in s.packets ==> exists d :: d in used && t == TagOf(CountAfter(c, d))
  }

  /** Tags of counts from one window are distinct and not in use. */
  lemma WindowTagsAreNew(s: State, c: int, used: set<nat>, counts: nat -> int, at: seq<nat>)
    requires (forall i :: IsCount(counts(i))) && CountsAt(counts, c, at) && UsesWindow(s, c, used)
    requires forall i :: 0 <= i < |at| ==> at[i] !in used
    ensures Distinct(TagsFrom(counts, |at|))
    ensures forall i :: 0 <= i < |at| ==> TagsFrom(counts, |at|)[i] !in s.packets
  {
    var tags := TagsFrom(counts, |at|);
    forall i, j | 0 <= i < j < |at| ensures tags[i] != tags[j] {
      TagsOfWindow(c, at[i], at[j]);
    }
    forall i | 0 <= i < |at| ensures tags[i] !in s.packets {
      if tags[i] in s.packets {
        var d :| d in used && tags[i] == TagOf(CountAfter(c, d));
        TagsOfWindow(c, at[i], d);
      }
    }
  }

  /**
   * While all outstanding messages and those of a send took their counts from a window of 963002, the send can be
   * announced if and only if it has at most 1024 messages, every size fits its 32-bit field, and no count is one of
   * those that give the tag of the announcements.
   */
  lemma AnnounceableIff(s: State, payloads: seq<seq<byte>>, c: int, used: set<nat>, counts: nat -> int, at: seq<nat>)
    requires (forall i :: IsCount(counts(i))) && CountsAt(counts, c, at) && UsesWindow(s, c, used)
    requires |at| == |payloads| && forall i :: 0 <= i < |at| ==> at[i] !in used
    ensures Announceable(s, payloads, TagsFrom(counts, |payloads|)) <==>
      && |payloads| <= MAX_GROUPS
      && (forall i :: 0 <= i < |payloads| ==> |payloads[i]| < SIZE_MODULUS)
      && (forall i :: 0 <= i < |payloads| ==> !(counts(i) < 0 && (-counts(i)) % TAG_CYCLE == 100004))
  {
    WindowTagsAreNew(s, c, used, counts, at);
    var tags := TagsFrom(counts, |payloads|);
    forall i | 0 <= i < |tags|
      ensures tags[i] != ANNOUNCE_TAG <==> !(counts(i) < 0 && (-counts(i)) % TAG_CYCLE == 100004)
    {
      TagIsAnnounceTagIff(counts(i));
    }
    if Announceable(s, payloads, tags) {
      forall i | 0 <= i < |payloads| ensures !(counts(i) < 0 && (-counts(i)) % TAG_CYCLE == 100004) {
        assert tags[i] != ANNOUNCE_TAG;
      }
    }
  }

  /** The announcement of messages of the given sizes, and the total size. */
  method Announcement(groups: seq<Group>, payloads: seq<seq<byte>>, counts: nat -> int)
      returns (total: nat, notes: seq<Note>)
    requires forall i :: IsCount(counts(i))
    requires |payloads| == |groups| && forall k :: 0 <= k < |groups| ==> |payloads[k]| == groups[k].size
    ensures total == |Concat(payloads)| && notes == NotesOf(payloads, TagsFrom(counts, |payloads|))
  {
    ghost var lens := Lengths(payloads);
    total, notes := 0, [];
    var i := 0;
    while i < |groups|
      invariant i <= |groups| && |notes| == i && total == Sum(lens[..i])
      invariant forall k :: 0 <= k < i ==> notes[k] == Note(Narrow(|payloads[k]|), TagOf(counts(k)))
    {
      assert lens[..i + 1][..i] == lens[..i];
      notes := notes + [Note(Narrow(groups[i].size), TagOf(counts(i)))];
      total := total + groups[i].size;
      i := i + 1;
    }
    assert lens[..|groups|] == lens;
    ConcatLength(payloads);
  }

  /** The messages of one send and their announcement; other threads may take counts in between. */
  method SendMsg(iov: seq<seq<byte>>, limit: nat, counts: nat -> int)
      returns (ret: nat, notes: seq<Note>, buffered: array<byte>, messages: seq<Message>)
    requires forall i :: IsCount(counts(i))
    ensures ret == |Concat(iov)|
    ensures iov == [] ==> notes == [] && messages == []
    ensures iov != [] ==>
      var payloads := PayloadsOf(limit, iov);
      && |messages| == |payloads| && AllCarry(messages, iov, buffered[..], payloads)
      && notes == NotesOf(payloads, TagsFrom(counts, |payloads|))
  {
    if iov == [] {
      buffered := new byte[0];
      return 0, [], buffered, [];
    }
    var groups := Coalesce(Lengths(iov), limit);
    CoalescingKeepsBytes(iov, limit);
    buffered, messages := Assemble(iov, groups);
    ret, notes := Announcement(groups, PayloadsOf(limit, iov), counts);
  }

  // ----- gathering -----

  /** The offsets at which the receives of one announcement are posted. */
  method PostReceives(notes: seq<Note>) returns (starts: seq<nat>, size: nat)
    ensures |starts| == |notes| && size == Total(notes)
    ensures forall i :: 0 <= i < |notes| ==> starts[i] == Offset(notes, i)
  {
    starts, size := [], 0;
    var i := 0;
    while i < |notes|
      invariant i <= |notes| && |starts| == i && size == Offset(notes, i)
      invariant forall k :: 0 <= k < i ==> starts[k] == Offset(notes, k)
    {
      assert notes[..i + 1][..i] == notes[..i];
      starts := starts + [size];
      size := size + notes[i].size;
      i := i + 1;
    }
    assert notes[..|notes|] == notes;
  }

  ghost predicate Received(notes: seq<Note>, payloads: seq<seq<byte>>, buffer: seq<byte>, i: nat)
    requires i < |notes| == |payloads|
  {
    && Offset(notes, i) + notes[i].size <= |buffer|
    && payloads[i] == buffer[Offset(notes, i)..Offset(notes, i) + notes[i].size]
  }

  /** The messages of one announcement end up in order in the buffer, whatever the order in which they complete. */
  method GatherMessages(notes: seq<Note>, payloads: seq<seq<byte>>, order: seq<nat>) returns (buffer: array<byte>)
    requires |payloads| == |notes| && forall i :: 0 <= i < |notes| ==> |payloads[i]| == notes[i].size
    requires forall k :: 0 <= k < |order| ==> order[k] < |notes|
    requires forall i :: 0 <= i < |notes| ==> i in order
    ensures buffer[..] == Concat(payloads)
  {
    var starts, size := PostReceives(notes);
    buffer := new byte[size](_ => 0);
    var k := 0;
    while k < |order|
      invariant k <= |order|
      invariant forall j :: 0 <= j < k ==> Received(notes, payloads, buffer[..], order[j])
    {
      var i := order[k];
      CompleteReceive(notes, payloads, buffer, starts[i], i);
      k := k + 1;
    }
    forall i | 0 <= i < |notes|
      ensures Offset(notes, i) + notes[i].size <= |buffer[..]|
      ensures payloads[i] == buffer[..][Offset(notes, i)..Offset(notes, i) + notes[i].size]
    {
      assert i in order && Received(notes, payloads, buffer[..], i);
    }
    SpansAreBuffer(payloads, notes, buffer[..], |notes|);
    assert payloads[..|notes|] == payloads && notes[..|notes|] == notes;
  }

  /** One message arrives at its offset; what has arrived before stays. */
  method CompleteReceive(notes: seq<Note>, payloads: seq<seq<byte>>, buffer: array<byte>, start: nat, i: nat)
    requires |payloads| == |notes| && i < |notes| && |payloads[i]| == notes[i].size
    requires start == Offset(notes, i) && buffer.Length == Total(notes)
    modifies buffer
    ensures Received(notes, payloads, buffer[..], i)
    ensures forall j :: 0 <= j < |notes| && old(Received(notes, payloads, buffer[..], j)) ==>
      Received(notes, payloads, buffer[..], j)
  {
    ghost var before := buffer[..];
    WriteReceives(notes, payloads, before, i);
    CopyInto(buffer, start, payloads[i]);
    assert buffer[..] == Write(before, start, payloads[i]);
  }

  lemma WriteReceives(notes: seq<Note>, payloads: seq<seq<byte>>, before: seq<byte>, i: nat)
    requires i < |notes| == |payloads| && |payloads[i]| == notes[i].size && |before| == Total(notes)
    ensures Offset(notes, i) + notes[i].size <= |before|
    ensures
      var after := Write(before, Offset(notes, i), payloads[i]);
      && Received(notes, payloads, after, i)
      && forall j :: 0 <= j < |notes| && Received(notes, payloads, before, j) ==> Received(notes, payloads, after, j)
  {
    WriteSpans(notes, before, i, payloads[i], i);
    var after := Write(before, Offset(notes, i), payloads[i]);
    forall j | 0 <= j < |notes| && Received(notes, payloads, before, j) ensures Received(notes, payloads, after, j) {
      WriteSpans(notes, before, i, payloads[i], j);
    }
  }

  // ----- reading -----

  function SizesOf(iov: seq<array<byte>>): (lens: seq<nat>)
    ensures |lens| == |iov| && forall i :: 0 <= i < |lens| ==> lens[i] == iov[i].Length
  {
    seq(|iov|, i requires 0 <= i < |iov| => iov[i].Length)
  }

  /** What piece `i` holds after `data` is spread over pieces of the given sizes, when it held `was` before. */
  ghost function Filled(lens: seq<nat>, data: seq<byte>, was: seq<byte>, i: nat): seq<byte>
    requires i < |lens| && |was| == lens[i]
  {
    var start := Min(|data|, Sum(lens[..i]));
    var k := Min(lens[i], |data| - start);
    data[start..start + k] + was[k..]
  }

  lemma NextPiece(lens: seq<nat>, i: nat)
    requires i < |lens|
    ensures Sum(lens[..i + 1]) == Sum(lens[..i]) + lens[i]
  {
    assert lens[..i + 1][..i] == lens[..i];
  }

  lemma {:induction false} SumsGrow(lens: seq<nat>, i: nat)
    requires i <= |lens|
    ensures Sum(lens[..i]) <= Sum(lens)
    decreases |lens| - i
  {
    if i == |lens| {
      assert lens[..i] == lens;
    } else {
      NextPiece(lens, i);
      SumsGrow(lens, i + 1);
    }
  }

  lemma {:induction false} SumsAreMonotone(lens: seq<nat>, i: nat, j: nat)
    requires i <= j <= |lens|
    ensures Sum(lens[..i]) <= Sum(lens[..j])
  {
    SumsGrow(lens[..j], i);
    assert lens[..j][..i] == lens[..i];
  }

  /** Byte by byte: a piece gets the data of its own place as far as there is any, and keeps the rest. */
  lemma FilledBytes(lens: seq<nat>, data: seq<byte>, was: seq<byte>, i: nat, j: nat)
    requires i < |lens| && |was| == lens[i] && j < lens[i]
    ensures |Filled(lens, data, was, i)| == lens[i]
    ensures
      var place := Sum(lens[..i]) + j;
      Filled(lens, data, was, i)[j] == if place < |data| then data[place] else was[j]
  {
  }

  /** One piece is filled with what comes next. */
  method FillPiece(piece: array<byte>, content: seq<byte>, from: nat) returns (toCopy: nat)
    requires from <= |content|
    modifies piece
    ensures toCopy == Min(piece.Length, |content| - from)
    ensures piece[..] == content[from..from + toCopy] + old(piece[..])[toCopy..]
  {
    toCopy := Min(piece.Length, |content| - from);
    ghost var was := piece[..];
    CopyInto(piece, 0, content[from..from + toCopy]);
    assert piece[..] == piece[..toCopy] + piece[toCopy..] && was[toCopy..] == old(piece[toCopy..]);
  }

  /** Filling the next piece from where the earlier ones left off is what the whole read gives it. */
  method FillNext(piece: array<byte>, content: seq<byte>, consumed: nat, ret: nat, ghost lens: seq<nat>, ghost i: nat)
      returns (more: nat)
    requires consumed <= |content| && i < |lens| && piece.Length == lens[i]
    requires ret == Min(Sum(lens[..i]), |content| - consumed)
    modifies piece
    ensures piece[..] == Filled(lens, content[consumed..], old(piece[..]), i)
    ensures more == Min(Sum(lens[..i + 1]), |content| - consumed)
  {
    NextPiece(lens, i);
    var toCopy := FillPiece(piece, content, consumed + ret);
    assert content[consumed + ret..consumed + ret + toCopy] == content[consumed..][ret..ret + toCopy];
    more := ret + toCopy;
  }

  /** Once the data is used up, the remaining pieces keep what they hold. */
  lemma NothingLeft(lens: seq<nat>, data: seq<byte>, was: seq<byte>, i: nat, j: nat)
    requires i <= j < |lens| && |was| == lens[j] && |data| <= Sum(lens[..i])
    ensures Filled(lens, data, was, j) == was && |data| <= Sum(lens)
  {
    SumsAreMonotone(lens, i, j);
    SumsGrow(lens, i);
    assert was[0..] == was;
  }

  /** The copying loop of a scattered read; it stops when the data is used up. */
  method Scatter(iov: seq<array<byte>>, content: seq<byte>, consumed: nat) returns (ret: nat)
    requires consumed <= |content| && Distinct(iov)
    modifies iov
    ensures ret == Min(Sum(SizesOf(iov)), |content| - consumed)
    ensures forall i :: 0 <= i < |iov| ==>
      iov[i][..] == Filled(SizesOf(iov), content[consumed..], old(iov[i][..]), i)
  {
    ghost var lens := SizesOf(iov);
    ret := 0;
    var i := 0;
    while i < |iov|
      invariant i <= |iov| && ret == Min(Sum(lens[..i]), |content| - consumed)
      invariant forall j :: 0 <= j < i ==> iov[j][..] == Filled(lens, content[consumed..], old(iov[j][..]), j)
      invariant forall j :: i <= j < |iov| ==> iov[j][..] == old(iov[j][..])
    {
      if |content| == consumed + ret {
        break;
      }
      ret := FillNext(iov[i], content, consumed, ret, lens, i);
      i := i + 1;
    }
    SumsGrow(lens, i);
    assert lens[..|iov|] == lens;
    forall j | i <= j < |iov| ensures iov[j][..] == Filled(lens, content[consumed..], old(iov[j][..]), j) {
      NothingLeft(lens, content[consumed..], old(iov[j][..]), i, j);
    }
  }

  class LfiSocket {
    var buffers: seq<Buffer>
    var eventfd: nat

    ghost predicate Valid()
      reads this
    {
      eventfd == |buffers| && forall k :: 0 <= k < |buffers| ==> buffers[k].consumed <= |buffers[k].content|
    }

    constructor ()
      ensures Valid() && buffers == []
    {
      buffers, eventfd := [], 0;
    }

    /** The receiving thread hands over a gathered buffer. */
    method Deliver(buffer: array<byte>)
      requires Valid()
      modifies this
      ensures Valid() && buffers == old(buffers) + [Buffer(buffer[..], 0)]
    {
      buffers := buffers + [Buffer(buffer[..], 0)];
      eventfd := eventfd + 1;
    }

    /** `n` bytes of the front buffer are consumed; a buffer that is used up goes, and is no longer counted. */
    method TakeFront(n: nat)
      requires Valid() && buffers != [] && buffers[0].consumed + n <= |buffers[0].content|
      modifies this
      ensures Valid() && buffers == Consume(old(buffers), n)
    {
      var front := buffers[0];
      if |front.content| == front.consumed + n {
        buffers := buffers[1..];
        if eventfd > 0 {
          eventfd := eventfd - 1;
        }
      } else {
        buffers := buffers[0 := Buffer(front.content, front.consumed + n)];
      }
    }

    /** What consuming `n` bytes of the front buffer leaves to be read. */
    lemma ConsumedFront(was: seq<Buffer>, n: nat)
      requires was != [] && was[0].consumed + n <= |was[0].content|
      ensures n <= |Unread(was)| && Unread(Consume(was, n)) == Unread(was)[n..]
      ensures n == |was[0].content| - was[0].consumed ==> Consume(was, n) == was[1..]
      ensures n < |was[0].content| - was[0].consumed ==>
        Consume(was, n) == [Buffer(was[0].content, was[0].consumed + n)] + was[1..]
    {
      ConsumeDropsPrefix(was, n);
    }

    /**
     * A scattered read: -1 when no buffer is there, and otherwise what is asked for or all that the front buffer still
     * has, whichever is less; the front buffer goes exactly when it is used up.
     */
    method RecvMsg(iov: seq<array<byte>>) returns (ret: int)
      requires Valid() && Distinct(iov)
      modifies this, iov
      ensures Valid()
      ensures old(buffers) == [] ==> ret == -1 && buffers == []
      ensures old(buffers) == [] ==> forall i :: 0 <= i < |iov| ==> iov[i][..] == old(iov[i][..])
      ensures old(buffers) != [] ==>
        var front := old(buffers[0]);
        var unread, room := |front.content| - front.consumed, Sum(SizesOf(iov));
        && ret == (if room <= unread then room else unread) && (room > 0 && unread > 0 ==> ret > 0)
        && ret <= |old(Unread(buffers))| && Unread(buffers) == old(Unread(buffers))[ret..]
        && (ret == unread ==> buffers == old(buffers[1..]))
        && (ret < unread ==> buffers == [Buffer(front.content, front.consumed + ret)] + old(buffers[1..]))
      ensures old(buffers) != [] ==>
        forall i :: 0 <= i < |iov| ==>
          iov[i][..] == Filled(SizesOf(iov), old(buffers[0].content[buffers[0].consumed..]), old(iov[i][..]), i)
    {
      if |buffers| == 0 {
        return -1;
      }
      ret := Scatter(iov, buffers[0].content, buffers[0].consumed);
      ConsumedFront(buffers, ret);
      TakeFront(ret);
    }
  }
}
